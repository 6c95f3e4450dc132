/**
  Applying the classifier to every row of the merged metric table, once with the KING
  value and once with PI_HAT, to produce the two label columns the resolver chooses from.
  The left join that builds the merged table is not modelled; a pair without IBD data
  arrives here with a missing Z0 and PI_HAT.
*/
module Annotation {
  import opened Results
  import Classifier
  import opened Pedigree
  import PedigreeProperties

  /** A merged-table row: the pair, KING (twice the kinship coefficient), Z0 and PI_HAT. */
  datatype MergedRow = MergedRow(id1: Id, id2: Id, king: Option<real>, z0: Option<real>, piHat: Option<real>)

  /** The columns of the annotated table. */
  const AnnotatedColumns: set<string> := {"ID1", "ID2", "Kinship", "KING", "Z0", "PI_HAT", PiHatColumn, KingColumn}

  /** The metric the chosen label column was computed from. */
  function ChosenMetric(row: MergedRow, useKing: bool): Option<real>
  {
    if useKing then row.king else row.piHat
  }

  /** One row with both label columns filled in. */
  function AnnotateRow(t: Classifier.Thresholds, row: MergedRow): (r: RelationRow)
    ensures r.id1 == row.id1 && r.id2 == row.id2
    ensures forall useKing: bool :: IsPO(r, useKing) <==> Classifier.Classify(t, ChosenMetric(row, useKing), row.z0) == Classifier.PO
  {
    RelationRow(
      row.id1,
      row.id2,
      Classifier.LabelName(Classifier.Classify(t, row.king, row.z0)),
      Classifier.LabelName(Classifier.Classify(t, row.piHat, row.z0)))
  }

  /** The annotated table, row for row, with both label columns present. */
  function Annotate(t: Classifier.Thresholds, rows: seq<MergedRow>): (table: RelationTable)
    ensures KingColumn in table.columns && PiHatColumn in table.columns
    ensures |table.rows| == |rows|
    ensures forall i :: 0 <= i < |rows| ==> table.rows[i].id1 == rows[i].id1 && table.rows[i].id2 == rows[i].id2
    ensures forall i, useKing: bool :: 0 <= i < |rows| ==>
      (IsPO(table.rows[i], useKing) <==> Classifier.Classify(t, ChosenMetric(rows[i], useKing), rows[i].z0) == Classifier.PO)
  {
    RelationTable(AnnotatedColumns, seq(|rows|, i requires 0 <= i < |rows| => AnnotateRow(t, rows[i])))
  }

  /** A table the classifier produced always carries the chosen column, so that error cannot occur. */
  lemma AnnotatedHasColumn(t: Classifier.Thresholds, rows: seq<MergedRow>, ref: seq<Individual>, useKing: bool)
    ensures !(Resolve(Annotate(t, rows), ref, useKing).Err? && Resolve(Annotate(t, rows), ref, useKing).error.MissingColumn?)
  {
    PedigreeProperties.ResolveErrorKinds(Annotate(t, rows), ref, useKing);
  }

  /**
    A pair with no IBD data (missing Z0) is labelled UN in both columns, so adding it
    anywhere to the merged table leaves the pedigree unchanged.
  */
  lemma MissingZ0Ignored(t: Classifier.Thresholds, rows: seq<MergedRow>, ref: seq<Individual>, useKing: bool,
                         i: nat, x: MergedRow)
    requires i <= |rows|
    requires x.z0.None?
    ensures Resolve(Annotate(t, rows[..i] + [x] + rows[i..]), ref, useKing) == Resolve(Annotate(t, rows), ref, useKing)
  {
    var table := Annotate(t, rows);
    var bigger := Annotate(t, rows[..i] + [x] + rows[i..]);
    assert bigger.rows == table.rows[..i] + [AnnotateRow(t, x)] + table.rows[i..];
    assert bigger == table.(rows := table.rows[..i] + [AnnotateRow(t, x)] + table.rows[i..]);
    PedigreeProperties.NonPoRowIgnored(table, ref, useKing, i, AnnotateRow(t, x));
  }
}
