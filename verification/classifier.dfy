/**
  The relationship classifier: turns one kinship metric (KING or PI_HAT) and the
  probability of sharing zero alleles (Z0) into one of the labels MZ, PO, FS, 2nd, UN.

  Metric values are reals. A missing or NaN cell is `None`: in duckPI every
  comparison with NaN is false, so each guard below is false on `None`.
*/
module Classifier {
  import opened Results

  /** The five relationship categories. */
  datatype Label = MZ | PO | FS | Second | UN

  /** The spelling the label gets in the relationship table. */
  function LabelName(l: Label): (s: string)
    ensures s == "PO" <==> l == PO
  {
    match l
    case MZ => "MZ"
    case PO => "PO"
    case FS => "FS"
    case Second => "2nd"
    case UN => "UN"
  }

  /** Distinct labels are written as distinct strings. */
  lemma LabelNameInjective(a: Label, b: Label)
    ensures LabelName(a) == LabelName(b) <==> a == b
  {
  }

  /** A range of values with a lower and an upper end. */
  datatype Band = Band(lo: real, hi: real)

  /**
    The threshold table: the metric threshold for MZ, the Z0 threshold shared by MZ
    and PO, the metric bands of PO, FS and 2nd, and the Z0 bands of FS and 2nd.
  */
  datatype Thresholds = Thresholds(
    mz: real,
    mzZ0: real,
    po: Band,
    fs: Band,
    second: Band,
    fsZ0: Band,
    secondZ0: Band)

  /** `s` is 1/√2, pinned down as the positive root of s * s == 1/2. */
  predicate IsInvSqrt2(s: real)
  {
    0.0 < s && s * s == 0.5
  }

  /**
    The ordering the cascade relies on: the 2nd band sits just below the PO band,
    whose upper end is the MZ threshold; FS shares the PO band; the Z0 bands of MZ/PO,
    FS and 2nd follow one another.
  */
  predicate WellOrdered(t: Thresholds)
  {
    && 0.0 < t.second.lo < t.second.hi
    && t.second.hi == t.po.lo
    && t.po.lo < t.po.hi
    && t.po.hi == t.mz
    && t.fs == t.po
    && t.mzZ0 == t.fsZ0.lo < t.fsZ0.hi
    && t.fsZ0.hi == t.secondZ0.lo < t.secondZ0.hi
  }

  /**
    The positive square root of one half lies strictly between 0.7 and 0.71: a check that
    `IsInvSqrt2` picks out 0.7071..., the value duckPI computes. No proof here relies on it.
  */
  lemma InvSqrt2Bounds(s: real)
    requires IsInvSqrt2(s)
    ensures 0.7 < s < 0.71
  {
  }

  /**
    The source's constants, with s = 1/√2: 1/2^1.5 = s/2 and 1/2^2.5 = s/4.
    MZ at metric ≥ s with Z0 < 0.1; PO and FS on (s/2, s]; 2nd on (s/4, s/2];
    FS needs Z0 in [0.1, 0.365] and 2nd needs Z0 in [0.365, 1 - s/2].
  */
  function SourceThresholds(s: real): (t: Thresholds)
    requires IsInvSqrt2(s)
    ensures WellOrdered(t)
    ensures t.mz == s && t.po == Band(s / 2.0, s) && t.second == Band(s / 4.0, s / 2.0)
    ensures t.mzZ0 == 0.1 && t.fsZ0 == Band(0.1, 0.365) && t.secondZ0 == Band(0.365, 1.0 - s / 2.0)
  {
    Thresholds(
      s,
      0.1,
      Band(s / 2.0, s),
      Band(s / 2.0, s),
      Band(s / 4.0, s / 2.0),
      Band(0.1, 0.365),
      Band(0.365, 1.0 - s / 2.0))
  }

  /** `x >= c`, false for a missing value. */
  predicate AtLeast(x: Option<real>, c: real)
  {
    x.Some? && x.value >= c
  }

  /** `x < c`, false for a missing value. */
  predicate Below(x: Option<real>, c: real)
  {
    x.Some? && x.value < c
  }

  /** `b.lo < x <= b.hi`, false for a missing value. */
  predicate InHalfOpen(x: Option<real>, b: Band)
  {
    x.Some? && b.lo < x.value <= b.hi
  }

  /** `b.lo <= x <= b.hi`, false for a missing value. */
  predicate InClosed(x: Option<real>, b: Band)
  {
    x.Some? && b.lo <= x.value <= b.hi
  }

  /** The ordered cascade of interval tests; the first test that holds decides the label. */
  function Classify(t: Thresholds, metric: Option<real>, z0: Option<real>): (l: Label)
    ensures metric.None? || z0.None? ==> l == UN
    ensures l == MZ || l == PO ==> Below(z0, t.mzZ0)
  {
    if AtLeast(metric, t.mz) && Below(z0, t.mzZ0) then MZ
    else if InHalfOpen(metric, t.po) && Below(z0, t.mzZ0) then PO
    else if InHalfOpen(metric, t.fs) && InClosed(z0, t.fsZ0) then FS
    else if InHalfOpen(metric, t.second) && InClosed(z0, t.secondZ0) then Second
    else UN
  }

  /**
    An order-free description of the label each (metric, Z0) point receives. PO's
    band is open at its upper end because that end belongs to MZ; UN is everything
    outside the other four regions.
  */
  predicate InRegion(t: Thresholds, l: Label, m: real, z: real)
  {
    match l
    case MZ => m >= t.mz && z < t.mzZ0
    case PO => t.po.lo < m < t.po.hi && z < t.mzZ0
    case FS => t.fs.lo < m <= t.fs.hi && t.fsZ0.lo <= z <= t.fsZ0.hi
    case Second => t.second.lo < m <= t.second.hi && t.secondZ0.lo <= z <= t.secondZ0.hi
    case UN =>
      && !(m >= t.mz && z < t.mzZ0)
      && !(t.po.lo < m < t.po.hi && z < t.mzZ0)
      && !(t.fs.lo < m <= t.fs.hi && t.fsZ0.lo <= z <= t.fsZ0.hi)
      && !(t.second.lo < m <= t.second.hi && t.secondZ0.lo <= z <= t.secondZ0.hi)
  }

  /** Under well-ordered thresholds no point lies in two regions. */
  lemma RegionsDisjoint(t: Thresholds, m: real, z: real, a: Label, b: Label)
    requires WellOrdered(t)
    requires InRegion(t, a, m, z) && InRegion(t, b, m, z)
    ensures a == b
  {
  }

  /** The cascade agrees with the region description, in both directions. */
  lemma ClassifyMatchesRegion(t: Thresholds, m: real, z: real, l: Label)
    requires WellOrdered(t)
    ensures Classify(t, Some(m), Some(z)) == l <==> InRegion(t, l, m, z)
  {
  }

  /** A metric of at least 1/√2 with Z0 below 0.1 is MZ. */
  lemma MzRule(s: real, m: real, z: real)
    requires IsInvSqrt2(s)
    requires m >= s && z < 0.1
    ensures Classify(SourceThresholds(s), Some(m), Some(z)) == MZ
  {
  }

  /**
    Inside the PO/FS band (1/2^1.5, 1/√2]: Z0 below 0.1 gives PO, except at the band's
    upper end 1/√2 which MZ claims first; Z0 in [0.1, 0.365] gives FS; any other Z0 gives UN.
  */
  lemma PoFsBand(s: real, m: real, z: real)
    requires IsInvSqrt2(s)
    requires s / 2.0 < m <= s
    ensures z < 0.1 && m < s ==> Classify(SourceThresholds(s), Some(m), Some(z)) == PO
    ensures z < 0.1 && m == s ==> Classify(SourceThresholds(s), Some(m), Some(z)) == MZ
    ensures 0.1 <= z <= 0.365 ==> Classify(SourceThresholds(s), Some(m), Some(z)) == FS
    ensures z > 0.365 ==> Classify(SourceThresholds(s), Some(m), Some(z)) == UN
  {
    var t := SourceThresholds(s);
    ClassifyMatchesRegion(t, m, z, Classify(t, Some(m), Some(z)));
  }

  /** The PO and FS Z0 conditions exclude each other, so no point satisfies both. */
  lemma PoFsExclusive(s: real, m: real, z: real)
    requires IsInvSqrt2(s)
    ensures !(InRegion(SourceThresholds(s), PO, m, z) && InRegion(SourceThresholds(s), FS, m, z))
  {
  }

  /** In the band (1/2^2.5, 1/2^1.5], Z0 in [0.365, 1 - 1/2^1.5] gives 2nd and any other Z0 gives UN. */
  lemma SecondDegreeBand(s: real, m: real, z: real)
    requires IsInvSqrt2(s)
    requires s / 4.0 < m <= s / 2.0
    ensures 0.365 <= z <= 1.0 - s / 2.0 ==> Classify(SourceThresholds(s), Some(m), Some(z)) == Second
    ensures !(0.365 <= z <= 1.0 - s / 2.0) ==> Classify(SourceThresholds(s), Some(m), Some(z)) == UN
  {
    var t := SourceThresholds(s);
    ClassifyMatchesRegion(t, m, z, Classify(t, Some(m), Some(z)));
  }

  /** A metric of at most 1/2^2.5 is unrelated whatever Z0 is. */
  lemma BelowSecondBandUnrelated(s: real, m: real, z: Option<real>)
    requires IsInvSqrt2(s)
    requires m <= s / 4.0
    ensures Classify(SourceThresholds(s), Some(m), z) == UN
  {
  }
}
