/**
  What the pedigree resolver guarantees: which children get an entry, the sex,
  generation and evidence behind every assigned parent, both-or-neither, first match
  wins, the irrelevance of non-PO rows, and exactly when a run raises.
*/
module PedigreeProperties {
  import opened Results
  import opened Pedigree

  /** The partner in `row` is in the reference table, older than the child, and of sex `sex`. */
  predicate Qualifies(ref: seq<Individual>, child: Id, childGen: int, row: RelationRow, sex: int)
  {
    var x := Lookup(ref, Partner(row, child));
    x.Some? && x.value.generation < childGen && x.value.sex == sex
  }

  /** Index of the first row satisfying `q`, if there is one. */
  function FirstSatisfying(rows: seq<RelationRow>, q: RelationRow -> bool): (r: Option<nat>)
    ensures r.Some? ==> r.value < |rows| && q(rows[r.value])
    ensures r.Some? ==> forall j :: 0 <= j < r.value ==> !q(rows[j])
    ensures r.None? ==> forall i :: 0 <= i < |rows| ==> !q(rows[i])
  {
    if |rows| == 0 then None
    else if q(rows[0]) then Some(0)
    else
      match FirstSatisfying(rows[1..], q)
      case None => None
      case Some(k) => Some(k + 1)
  }

  /**
    Reference definition of "first match wins": the partner in the first candidate row
    that qualifies for `sex`, if there is one.
  */
  function FirstCandidate(ref: seq<Individual>, child: Id, childGen: int, cands: seq<RelationRow>, sex: int)
    : (r: Option<Id>)
    ensures r.None? <==> forall i :: 0 <= i < |cands| ==> !Qualifies(ref, child, childGen, cands[i], sex)
    ensures r.Some? ==>
      exists i :: 0 <= i < |cands| && Qualifies(ref, child, childGen, cands[i], sex)
        && Partner(cands[i], child) == r.value
        && forall j :: 0 <= j < i ==> !Qualifies(ref, child, childGen, cands[j], sex)
  {
    match FirstSatisfying(cands, row => Qualifies(ref, child, childGen, row, sex))
    case None => None
    case Some(i) => Some(Partner(cands[i], child))
  }

  /** One step of `FirstCandidate`: the head row if it qualifies, otherwise the answer for the rest. */
  lemma FirstCandidateStep(ref: seq<Individual>, child: Id, childGen: int, cands: seq<RelationRow>, sex: int)
    requires |cands| > 0
    ensures FirstCandidate(ref, child, childGen, cands, sex)
         == if Qualifies(ref, child, childGen, cands[0], sex) then Some(Partner(cands[0], child))
            else FirstCandidate(ref, child, childGen, cands[1..], sex)
  {
    var q := row => Qualifies(ref, child, childGen, row, sex);
    if !q(cands[0]) {
      match FirstSatisfying(cands[1..], q)
      case None =>
      case Some(k) => assert cands[k + 1] == cands[1..][k];
    }
  }

  /** The assignment the resolver should make for a child with candidate rows `cands`. */
  function Expected(ref: seq<Individual>, child: Id, childGen: int, cands: seq<RelationRow>): Parents
  {
    var father := FirstCandidate(ref, child, childGen, cands, Male);
    var mother := FirstCandidate(ref, child, childGen, cands, Female);
    if father.Some? && mother.Some? then Parents(father, mother) else Parents(None, None)
  }

  /** Some candidate row names a partner the reference table does not list. */
  predicate HasUnknownPartner(ref: seq<Individual>, child: Id, cands: seq<RelationRow>)
  {
    exists i :: 0 <= i < |cands| && !Listed(ref, Partner(cands[i], child))
  }

  /** The generation of the first reference row carrying `id`: the one the resolver compares against. */
  function GenerationOf(ref: seq<Individual>, id: Id): int
    requires Listed(ref, id)
  {
    Lookup(ref, id).value.generation
  }

  /** Scanning keeps a filled slot and fills an empty one with the first qualifying partner. */
  lemma {:induction false} ScanPicksFirst(ref: seq<Individual>, child: Id, childGen: int,
                                          cands: seq<RelationRow>, acc: Parents, r: Parents)
    requires Scan(ref, child, childGen, cands, acc) == Ok(r)
    ensures r.father == if acc.father.Some? then acc.father else FirstCandidate(ref, child, childGen, cands, Male)
    ensures r.mother == if acc.mother.Some? then acc.mother else FirstCandidate(ref, child, childGen, cands, Female)
    decreases |cands|
  {
    if |cands| > 0 {
      var p := Partner(cands[0], child);
      var ind := Lookup(ref, p).value;
      FirstCandidateStep(ref, child, childGen, cands, Male);
      FirstCandidateStep(ref, child, childGen, cands, Female);
      ScanPicksFirst(ref, child, childGen, cands[1..], Offer(acc, p, ind, childGen), r);
    }
  }

  /** Scanning raises exactly when some candidate's partner is unlisted, and names the first such partner. */
  lemma {:induction false} ScanFails(ref: seq<Individual>, child: Id, childGen: int,
                                     cands: seq<RelationRow>, acc: Parents)
    ensures Scan(ref, child, childGen, cands, acc).Err? <==> HasUnknownPartner(ref, child, cands)
    ensures Scan(ref, child, childGen, cands, acc).Err? ==>
      exists i :: 0 <= i < |cands| && !Listed(ref, Partner(cands[i], child))
        && Scan(ref, child, childGen, cands, acc).error == UnknownPartner(child, Partner(cands[i], child))
        && forall j :: 0 <= j < i ==> Listed(ref, Partner(cands[j], child))
    decreases |cands|
  {
    if |cands| > 0 {
      var p := Partner(cands[0], child);
      assert forall j :: 1 <= j < |cands| ==> cands[j] == cands[1..][j - 1];
      if Lookup(ref, p).Some? {
        ScanFails(ref, child, childGen, cands[1..], Offer(acc, p, Lookup(ref, p).value, childGen));
        if HasUnknownPartner(ref, child, cands) {
          var i :| 0 <= i < |cands| && !Listed(ref, Partner(cands[i], child));
          assert i > 0;
          assert HasUnknownPartner(ref, child, cands[1..]) by {
            assert !Listed(ref, Partner(cands[1..][i - 1], child));
          }
        }
      } else {
        assert !Listed(ref, Partner(cands[0], child));
      }
    }
  }

  /** One listed child's outcome: raises on an unlisted partner, and otherwise matches `Expected`. */
  lemma ChildOutcome(po: seq<RelationRow>, ref: seq<Individual>, child: Id)
    requires Listed(ref, child)
    ensures ResolveChild(po, ref, child).Err? <==> HasUnknownPartner(ref, child, CandidateRows(po, child))
    ensures ResolveChild(po, ref, child).Err? ==>
      var e := ResolveChild(po, ref, child).error;
      e.UnknownPartner? && e.child == child && !Listed(ref, e.partner)
        && exists r :: r in CandidateRows(po, child) && Partner(r, child) == e.partner
    ensures ResolveChild(po, ref, child).Ok? && CandidateRows(po, child) != [] ==>
      ResolveChild(po, ref, child) == Ok(Some(Expected(ref, child, GenerationOf(ref, child), CandidateRows(po, child))))
  {
    var cands := CandidateRows(po, child);
    var g := GenerationOf(ref, child);
    if |cands| > 0 {
      var start := Parents(None, None);
      ScanFails(ref, child, g, cands, start);
      if Scan(ref, child, g, cands, start).Ok? {
        ScanPicksFirst(ref, child, g, cands, start, Scan(ref, child, g, cands, start).value);
      } else {
        var i :| 0 <= i < |cands| && !Listed(ref, Partner(cands[i], child))
          && Scan(ref, child, g, cands, start).error == UnknownPartner(child, Partner(cands[i], child));
        assert cands[i] in cands;
      }
    }
  }

  /** Some row before index `i` carries `c` and is not at the minimum generation. */
  predicate VisitedChild(ref: seq<Individual>, minGen: int, i: nat, c: Id)
    requires i <= |ref|
  {
    exists j :: 0 <= j < i && ref[j].id == c && ref[j].generation != minGen
  }

  /** The map built after visiting the first `i` reference rows with `step`. */
  ghost predicate Processed(step: Step, ref: seq<Individual>, minGen: int, i: nat, acc: map<Id, Parents>)
    requires i <= |ref|
  {
    && (forall c :: c in acc ==> VisitedChild(ref, minGen, i, c) && step(c) == Ok(Some(acc[c])))
    && (forall c :: VisitedChild(ref, minGen, i, c) && step(c) != Ok(None) ==> c in acc)
  }

  /** Visiting row `i` adds its ID to the visited children unless it is a founder. */
  lemma VisitedStep(ref: seq<Individual>, minGen: int, i: nat, c: Id)
    requires i < |ref|
    ensures VisitedChild(ref, minGen, i + 1, c) <==>
      VisitedChild(ref, minGen, i, c) || (c == ref[i].id && ref[i].generation != minGen)
  {
    if VisitedChild(ref, minGen, i + 1, c) && !VisitedChild(ref, minGen, i, c) {
      var j :| 0 <= j < i + 1 && ref[j].id == c && ref[j].generation != minGen;
      assert j == i;
    }
  }

  /** Passing a founder, or a child for which `step` yields no entry, keeps the map as it is. */
  lemma ProcessedSkip(step: Step, ref: seq<Individual>, minGen: int, i: nat, acc: map<Id, Parents>)
    requires i < |ref|
    requires Processed(step, ref, minGen, i, acc)
    requires ref[i].generation == minGen || step(ref[i].id) == Ok(None)
    ensures Processed(step, ref, minGen, i + 1, acc)
  {
    forall c | c in acc
      ensures VisitedChild(ref, minGen, i + 1, c)
    {
      VisitedStep(ref, minGen, i, c);
    }
    forall c | VisitedChild(ref, minGen, i + 1, c) && step(c) != Ok(None)
      ensures c in acc
    {
      VisitedStep(ref, minGen, i, c);
    }
  }

  /** Passing a child for which `step` yields `p` records `p` for it. */
  lemma ProcessedAdd(step: Step, ref: seq<Individual>, minGen: int, i: nat, acc: map<Id, Parents>, p: Parents)
    requires i < |ref|
    requires Processed(step, ref, minGen, i, acc)
    requires ref[i].generation != minGen
    requires step(ref[i].id) == Ok(Some(p))
    ensures Processed(step, ref, minGen, i + 1, acc[ref[i].id := p])
  {
    var next := acc[ref[i].id := p];
    forall c | c in next
      ensures VisitedChild(ref, minGen, i + 1, c)
    {
      VisitedStep(ref, minGen, i, c);
    }
    forall c | VisitedChild(ref, minGen, i + 1, c) && step(c) != Ok(None)
      ensures c in next
    {
      VisitedStep(ref, minGen, i, c);
    }
  }

  /** A successful run records exactly the visited children `step` gives an entry, with that entry. */
  lemma {:induction false} ResolveFromOk(step: Step, ref: seq<Individual>, minGen: int, i: nat,
                                         acc: map<Id, Parents>, m: map<Id, Parents>)
    requires i <= |ref|
    requires Processed(step, ref, minGen, i, acc)
    requires ResolveFrom(step, ref, minGen, i, acc) == Ok(m)
    ensures Processed(step, ref, minGen, |ref|, m)
    decreases |ref| - i
  {
    if i < |ref| {
      var res := step(ref[i].id);
      if ref[i].generation == minGen || res == Ok(None) {
        ProcessedSkip(step, ref, minGen, i, acc);
        ResolveFromOk(step, ref, minGen, i + 1, acc, m);
      } else {
        var p := res.value.value;
        ProcessedAdd(step, ref, minGen, i, acc, p);
        ResolveFromOk(step, ref, minGen, i + 1, acc[ref[i].id := p], m);
      }
    }
  }

  /** A failed run carries the error of a later non-founder's step. */
  lemma {:induction false} ResolveFromErrSource(step: Step, ref: seq<Individual>, minGen: int, i: nat,
                                                acc: map<Id, Parents>)
    requires i <= |ref|
    requires ResolveFrom(step, ref, minGen, i, acc).Err?
    ensures exists j :: (i <= j < |ref| && ref[j].generation != minGen
                         && step(ref[j].id) == Err(ResolveFrom(step, ref, minGen, i, acc).error))
    decreases |ref| - i
  {
    var res := step(ref[i].id);
    if ref[i].generation == minGen || res == Ok(None) {
      ResolveFromErrSource(step, ref, minGen, i + 1, acc);
    } else if res.Ok? {
      ResolveFromErrSource(step, ref, minGen, i + 1, acc[ref[i].id := res.value.value]);
    }
  }

  /** A run fails if any later non-founder's step fails. */
  lemma {:induction false} ResolveFromErr(step: Step, ref: seq<Individual>, minGen: int, i: nat,
                                          acc: map<Id, Parents>, j: nat)
    requires i <= j < |ref| && ref[j].generation != minGen
    requires step(ref[j].id).Err?
    ensures ResolveFrom(step, ref, minGen, i, acc).Err?
    decreases |ref| - i
  {
    if i < j {
      var res := step(ref[i].id);
      if ref[i].generation == minGen || res == Ok(None) {
        ResolveFromErr(step, ref, minGen, i + 1, acc, j);
      } else if res.Ok? {
        ResolveFromErr(step, ref, minGen, i + 1, acc[ref[i].id := res.value.value], j);
      }
    }
  }

  /** `c` is listed in the reference table at least once away from the minimum generation. */
  predicate IsChild(ref: seq<Individual>, c: Id)
  {
    |ref| > 0 && exists i :: 0 <= i < |ref| && ref[i].id == c && ref[i].generation != MinGeneration(ref)
  }

  /** Some row of the table is labelled PO in the chosen column and mentions `c`. */
  predicate HasPoRow(table: RelationTable, useKing: bool, c: Id)
  {
    exists r :: r in table.rows && IsPO(r, useKing) && Mentions(r, c)
  }

  /** A child has candidate rows exactly when some PO row of the table mentions it. */
  lemma CandidatesNonEmpty(table: RelationTable, useKing: bool, c: Id)
    ensures CandidateRows(PoRows(table.rows, useKing), c) != [] <==> HasPoRow(table, useKing, c)
  {
    var cands := CandidateRows(PoRows(table.rows, useKing), c);
    if cands != [] {
      assert cands[0] in cands;
    }
  }

  /** A fold from the empty map that succeeds has processed every reference row. */
  lemma FoldOk(step: Step, ref: seq<Individual>, minGen: int, m: map<Id, Parents>)
    requires ResolveFrom(step, ref, minGen, 0, map[]) == Ok(m)
    ensures Processed(step, ref, minGen, |ref|, m)
  {
    assert Processed(step, ref, minGen, 0, map[]);
    ResolveFromOk(step, ref, minGen, 0, map[], m);
  }

  /** A successful run has processed every reference row with each child's own outcome. */
  lemma ResolveOk(table: RelationTable, ref: seq<Individual>, useKing: bool)
    requires Resolve(table, ref, useKing).Ok? && |ref| > 0
    ensures Processed(ChildStep(PoRows(table.rows, useKing), ref), ref, MinGeneration(ref), |ref|,
                      Resolve(table, ref, useKing).value)
  {
    var step := ChildStep(PoRows(table.rows, useKing), ref);
    assert Resolve(table, ref, useKing) == ResolveFrom(step, ref, MinGeneration(ref), 0, map[]);
    FoldOk(step, ref, MinGeneration(ref), Resolve(table, ref, useKing).value);
  }

  /** A run that fails with the chosen column present carries some non-founder's own error. */
  lemma ResolveErrSource(table: RelationTable, ref: seq<Individual>, useKing: bool)
    requires RelationColumn(useKing) in table.columns
    requires Resolve(table, ref, useKing).Err?
    ensures exists j :: (0 <= j < |ref| && ref[j].generation != MinGeneration(ref)
                         && ResolveChild(PoRows(table.rows, useKing), ref, ref[j].id) == Err(Resolve(table, ref, useKing).error))
  {
    var step := ChildStep(PoRows(table.rows, useKing), ref);
    ResolveFromErrSource(step, ref, MinGeneration(ref), 0, map[]);
  }

  /** A run fails whenever some non-founder's own resolution fails. */
  lemma ResolveErrIfChildErr(table: RelationTable, ref: seq<Individual>, useKing: bool, j: nat)
    requires j < |ref| && ref[j].generation != MinGeneration(ref)
    requires ResolveChild(PoRows(table.rows, useKing), ref, ref[j].id).Err?
    ensures Resolve(table, ref, useKing).Err?
  {
    if RelationColumn(useKing) in table.columns {
      var step := ChildStep(PoRows(table.rows, useKing), ref);
      ResolveFromErr(step, ref, MinGeneration(ref), 0, map[], j);
    }
  }

  /** A run raises the missing-column error exactly when the chosen column is absent, and never the unknown-child error. */
  lemma ResolveErrorKinds(table: RelationTable, ref: seq<Individual>, useKing: bool)
    ensures Resolve(table, ref, useKing).Err? && Resolve(table, ref, useKing).error.MissingColumn?
      <==> RelationColumn(useKing) !in table.columns
    ensures Resolve(table, ref, useKing).Err? ==> !Resolve(table, ref, useKing).error.UnknownChild?
  {
    if RelationColumn(useKing) in table.columns && Resolve(table, ref, useKing).Err? {
      ResolveErrSource(table, ref, useKing);
      var po := PoRows(table.rows, useKing);
      var j :| 0 <= j < |ref| && ref[j].generation != MinGeneration(ref)
        && ResolveChild(po, ref, ref[j].id) == Err(Resolve(table, ref, useKing).error);
      assert Listed(ref, ref[j].id);
      ChildOutcome(po, ref, ref[j].id);
    }
  }

  /** A run yields an entry exactly for the non-founders that some PO row mentions. */
  lemma ResolvedChildren(table: RelationTable, ref: seq<Individual>, useKing: bool, c: Id)
    requires Resolve(table, ref, useKing).Ok?
    ensures c in Resolve(table, ref, useKing).value <==> IsChild(ref, c) && HasPoRow(table, useKing, c)
  {
    if |ref| > 0 {
      ResolveOk(table, ref, useKing);
      CandidatesNonEmpty(table, useKing, c);
      var m := Resolve(table, ref, useKing).value;
      if c in m {
        assert VisitedChild(ref, MinGeneration(ref), |ref|, c);
      }
      if IsChild(ref, c) {
        assert VisitedChild(ref, MinGeneration(ref), |ref|, c);
      }
    }
  }

  /**
    Naming the output columns fails after a successful resolution exactly when no
    non-founder is mentioned by any PO row.
  */
  lemma ConstructEmptyIff(table: RelationTable, ref: seq<Individual>, useKing: bool)
    requires Resolve(table, ref, useKing).Ok?
    ensures ConstructPedigree(table, ref, useKing) == Err(EmptyPedigree)
        <==> forall c :: IsChild(ref, c) ==> !HasPoRow(table, useKing, c)
  {
    var m := Resolve(table, ref, useKing).value;
    if m == map[] {
      forall c | IsChild(ref, c)
        ensures !HasPoRow(table, useKing, c)
      {
        ResolvedChildren(table, ref, useKing, c);
      }
    } else {
      var c :| c in m;
      ResolvedChildren(table, ref, useKing, c);
    }
  }

  /** An individual listed only at the minimum generation never gets an entry. */
  lemma FoundersGetNoEntry(table: RelationTable, ref: seq<Individual>, useKing: bool, c: Id)
    requires Resolve(table, ref, useKing).Ok?
    requires |ref| > 0
    requires forall i :: 0 <= i < |ref| && ref[i].id == c ==> ref[i].generation == MinGeneration(ref)
    ensures c !in Resolve(table, ref, useKing).value
  {
    ResolvedChildren(table, ref, useKing, c);
  }

  /** Every entry is the first-match assignment over the child's PO rows, in table order. */
  lemma ResolvedFirstMatch(table: RelationTable, ref: seq<Individual>, useKing: bool, c: Id)
    requires Resolve(table, ref, useKing).Ok?
    requires c in Resolve(table, ref, useKing).value
    ensures Listed(ref, c)
    ensures Resolve(table, ref, useKing).value[c]
      == Expected(ref, c, GenerationOf(ref, c), CandidateRows(PoRows(table.rows, useKing), c))
  {
    ResolveOk(table, ref, useKing);
    assert VisitedChild(ref, MinGeneration(ref), |ref|, c);
    ChildOutcome(PoRows(table.rows, useKing), ref, c);
  }

  /**
    Every entry has both parents or neither; an assigned father is a listed male, an
    assigned mother a listed female, each older than the child and each the partner
    of the child in some PO row.
  */
  lemma ResolvedParentsValid(table: RelationTable, ref: seq<Individual>, useKing: bool, c: Id)
    requires Resolve(table, ref, useKing).Ok?
    requires c in Resolve(table, ref, useKing).value
    ensures Listed(ref, c)
    ensures var a := Resolve(table, ref, useKing).value[c];
      a.father.Some? <==> a.mother.Some?
    ensures var a := Resolve(table, ref, useKing).value[c];
      a.father.Some? ==>
        && Lookup(ref, a.father.value).Some?
        && Lookup(ref, a.father.value).value.sex == Male
        && Lookup(ref, a.father.value).value.generation < GenerationOf(ref, c)
        && exists r :: r in table.rows && IsPO(r, useKing) && Mentions(r, c) && Partner(r, c) == a.father.value
    ensures var a := Resolve(table, ref, useKing).value[c];
      a.mother.Some? ==>
        && Lookup(ref, a.mother.value).Some?
        && Lookup(ref, a.mother.value).value.sex == Female
        && Lookup(ref, a.mother.value).value.generation < GenerationOf(ref, c)
        && exists r :: r in table.rows && IsPO(r, useKing) && Mentions(r, c) && Partner(r, c) == a.mother.value
  {
    ResolvedFirstMatch(table, ref, useKing, c);
    var cands := CandidateRows(PoRows(table.rows, useKing), c);
    var g := GenerationOf(ref, c);
    var a := Resolve(table, ref, useKing).value[c];
    if a.father.Some? {
      var i :| 0 <= i < |cands| && Qualifies(ref, c, g, cands[i], Male) && Partner(cands[i], c) == a.father.value;
      assert cands[i] in cands;
      var k :| 0 <= k < |cands| && Qualifies(ref, c, g, cands[k], Female) && Partner(cands[k], c) == a.mother.value;
      assert cands[k] in cands;
    }
  }

  /** Every PO row that mentions a non-founder names a partner the reference table lists. */
  ghost predicate PartnersListed(table: RelationTable, ref: seq<Individual>, useKing: bool)
  {
    forall c, r :: IsChild(ref, c) && r in table.rows && IsPO(r, useKing) && Mentions(r, c)
      ==> Listed(ref, Partner(r, c))
  }

  /** A failed run with the chosen column present has a non-founder with an unlisted PO partner. */
  lemma FailureHasUnlistedPartner(table: RelationTable, ref: seq<Individual>, useKing: bool)
    requires Resolve(table, ref, useKing).Err?
    requires RelationColumn(useKing) in table.columns
    ensures !PartnersListed(table, ref, useKing)
  {
    var po := PoRows(table.rows, useKing);
    ResolveErrSource(table, ref, useKing);
    var j :| 0 <= j < |ref| && ref[j].generation != MinGeneration(ref)
      && ResolveChild(po, ref, ref[j].id) == Err(Resolve(table, ref, useKing).error);
    var c := ref[j].id;
    assert Listed(ref, c);
    ChildOutcome(po, ref, c);
    var cands := CandidateRows(po, c);
    var i :| 0 <= i < |cands| && !Listed(ref, Partner(cands[i], c));
    assert cands[i] in cands;
    assert IsChild(ref, c);
  }

  /** In a successful run, the partner in a PO row that mentions a non-founder is listed. */
  lemma SuccessListsPartner(table: RelationTable, ref: seq<Individual>, useKing: bool, c: Id, r: RelationRow)
    requires Resolve(table, ref, useKing).Ok?
    requires IsChild(ref, c) && r in table.rows && IsPO(r, useKing) && Mentions(r, c)
    ensures Listed(ref, Partner(r, c))
  {
    var po := PoRows(table.rows, useKing);
    var cands := CandidateRows(po, c);
    var j :| 0 <= j < |ref| && ref[j].id == c && ref[j].generation != MinGeneration(ref);
    assert ResolveChild(po, ref, c).Ok? by {
      if ResolveChild(po, ref, c).Err? {
        ResolveErrIfChildErr(table, ref, useKing, j);
      }
    }
    assert !HasUnknownPartner(ref, c, cands) by {
      assert Listed(ref, c);
      ChildOutcome(po, ref, c);
    }
    assert r in cands;
    var i :| 0 <= i < |cands| && cands[i] == r;
  }

  /** A successful run has every PO partner of every non-founder listed. */
  lemma SuccessListsEveryPartner(table: RelationTable, ref: seq<Individual>, useKing: bool)
    requires Resolve(table, ref, useKing).Ok?
    ensures PartnersListed(table, ref, useKing)
  {
    forall c, r | IsChild(ref, c) && r in table.rows && IsPO(r, useKing) && Mentions(r, c)
      ensures Listed(ref, Partner(r, c))
    {
      SuccessListsPartner(table, ref, useKing, c, r);
    }
  }

  /**
    With the chosen column present, a run succeeds exactly when every PO row that
    mentions a non-founder names a partner the reference table lists.
  */
  lemma ResolveSucceedsIff(table: RelationTable, ref: seq<Individual>, useKing: bool)
    requires RelationColumn(useKing) in table.columns
    ensures Resolve(table, ref, useKing).Ok? <==> PartnersListed(table, ref, useKing)
  {
    if Resolve(table, ref, useKing).Ok? {
      SuccessListsEveryPartner(table, ref, useKing);
    } else {
      FailureHasUnlistedPartner(table, ref, useKing);
    }
  }

  /** The partner an unknown-partner error names is unlisted and PO-paired with a non-founder. */
  lemma UnknownPartnerEvidence(table: RelationTable, ref: seq<Individual>, useKing: bool, child: Id, partner: Id)
    requires Resolve(table, ref, useKing) == Err(UnknownPartner(child, partner))
    ensures IsChild(ref, child)
    ensures !Listed(ref, partner)
    ensures exists r :: r in table.rows && IsPO(r, useKing) && Mentions(r, child) && Partner(r, child) == partner
  {
    var po := PoRows(table.rows, useKing);
    ResolveErrSource(table, ref, useKing);
    var j :| 0 <= j < |ref| && ref[j].generation != MinGeneration(ref)
      && ResolveChild(po, ref, ref[j].id) == Err(UnknownPartner(child, partner));
    assert Listed(ref, ref[j].id);
    ChildOutcome(po, ref, ref[j].id);
  }

  /** The PO filter distributes over concatenation. */
  lemma {:induction false} PoRowsConcat(a: seq<RelationRow>, b: seq<RelationRow>, useKing: bool)
    ensures PoRows(a + b, useKing) == PoRows(a, useKing) + PoRows(b, useKing)
    decreases |a|
  {
    if |a| == 0 {
      assert a + b == b;
    } else {
      assert (a + b)[0] == a[0];
      assert (a + b)[1..] == a[1..] + b;
      PoRowsConcat(a[1..], b, useKing);
      if IsPO(a[0], useKing) {
        assert [a[0]] + (PoRows(a[1..], useKing) + PoRows(b, useKing))
            == [a[0]] + PoRows(a[1..], useKing) + PoRows(b, useKing);
      }
    }
  }

  /** Filtering rows that are all PO keeps them all, in order. */
  lemma {:induction false} PoRowsAllPo(rows: seq<RelationRow>, useKing: bool)
    requires forall i :: 0 <= i < |rows| ==> IsPO(rows[i], useKing)
    ensures PoRows(rows, useKing) == rows
    decreases |rows|
  {
    if |rows| > 0 {
      PoRowsAllPo(rows[1..], useKing);
      assert [rows[0]] + rows[1..] == rows;
    }
  }

  /** The candidate filter distributes over concatenation, so it keeps the PO rows' order. */
  lemma {:induction false} CandidateRowsConcat(a: seq<RelationRow>, b: seq<RelationRow>, child: Id)
    ensures CandidateRows(a + b, child) == CandidateRows(a, child) + CandidateRows(b, child)
    decreases |a|
  {
    if |a| == 0 {
      assert a + b == b;
    } else {
      assert (a + b)[0] == a[0];
      assert (a + b)[1..] == a[1..] + b;
      CandidateRowsConcat(a[1..], b, child);
      if Mentions(a[0], child) {
        assert [a[0]] + (CandidateRows(a[1..], child) + CandidateRows(b, child))
            == [a[0]] + CandidateRows(a[1..], child) + CandidateRows(b, child);
      }
    }
  }

  /** A single row is a candidate exactly when it mentions the child. */
  lemma CandidateRowsSingle(x: RelationRow, child: Id)
    ensures CandidateRows([x], child) == if Mentions(x, child) then [x] else []
  {
    assert [x][1..] == [];
  }

  /** Filtering rows that all mention `child` keeps them all, in order. */
  lemma {:induction false} CandidateRowsAllMention(po: seq<RelationRow>, child: Id)
    requires forall i :: 0 <= i < |po| ==> Mentions(po[i], child)
    ensures CandidateRows(po, child) == po
    decreases |po|
  {
    if |po| > 0 {
      CandidateRowsAllMention(po[1..], child);
      assert [po[0]] + po[1..] == po;
    }
  }

  /** Inserting a non-PO row anywhere leaves the PO rows as they were. */
  lemma {:induction false} PoRowsInsert(rows: seq<RelationRow>, useKing: bool, i: nat, x: RelationRow)
    requires i <= |rows|
    requires !IsPO(x, useKing)
    ensures PoRows(rows[..i] + [x] + rows[i..], useKing) == PoRows(rows, useKing)
    decreases i
  {
    var t := rows[..i] + [x] + rows[i..];
    if i == 0 {
      assert t[0] == x && t[1..] == rows;
    } else {
      assert t[0] == rows[0];
      assert t[1..] == rows[1..][..i - 1] + [x] + rows[1..][i - 1..];
      PoRowsInsert(rows[1..], useKing, i - 1, x);
    }
  }

  /** Inserting a row whose chosen label is not PO, anywhere in the table, changes nothing. */
  lemma NonPoRowIgnored(table: RelationTable, ref: seq<Individual>, useKing: bool, i: nat, x: RelationRow)
    requires i <= |table.rows|
    requires !IsPO(x, useKing)
    ensures Resolve(table.(rows := table.rows[..i] + [x] + table.rows[i..]), ref, useKing)
         == Resolve(table, ref, useKing)
  {
    PoRowsInsert(table.rows, useKing, i, x);
  }
}
