/**
  The pedigree resolver: from the parent-offspring (PO) calls of one label column and
  a reference table of sex and generation, assign each non-founder a father and a
  mother, or neither.

  Reading and writing the tables is not modelled: both arrive as sequences of rows in
  file order, and the result is a map from child ID to its parents.
*/
module Pedigree {
  import opened Results

  /** Individual identifiers are opaque strings. */
  type Id = string

  /** A reference-table row: sex code (1 male, 2 female, anything else unknown) and generation (smaller is older). */
  datatype Individual = Individual(id: Id, sex: int, generation: int)

  /** A relationship-table row: the pair and the label each metric gave it, as read from the file. */
  datatype RelationRow = RelationRow(id1: Id, id2: Id, kingRelation: string, piHatRelation: string)

  /** The relationship table: the names of the columns the file has, and its rows. */
  datatype RelationTable = RelationTable(columns: set<string>, rows: seq<RelationRow>)

  /** The parents assigned to one child. */
  datatype Parents = Parents(father: Option<Id>, mother: Option<Id>)

  /** What makes a run raise. */
  datatype ResolveError =
    | MissingColumn(column: string)           // the chosen label column is not in the table
    | UnknownPartner(child: Id, partner: Id)  // a PO partner of a non-founder is not in the reference table
    | UnknownChild(child: Id)                 // the child itself is not in the reference table

  const KingColumn: string := "KING_Relation"
  const PiHatColumn: string := "PI_HAT_Relation"
  const PoLabel: string := "PO"
  const Male: int := 1
  const Female: int := 2

  /** The label column the run trusts: KING's when `useKing`, PI_HAT's otherwise. */
  function RelationColumn(useKing: bool): (c: string)
    ensures c == KingColumn || c == PiHatColumn
    ensures c == KingColumn <==> useKing
  {
    if useKing then KingColumn else PiHatColumn
  }

  /** The row's cell in the chosen label column. */
  function LabelIn(row: RelationRow, useKing: bool): string
  {
    if useKing then row.kingRelation else row.piHatRelation
  }

  /** The row is labelled PO in the chosen column. */
  predicate IsPO(row: RelationRow, useKing: bool)
  {
    LabelIn(row, useKing) == PoLabel
  }

  /** The row pairs `id` with someone, on either side. */
  predicate Mentions(row: RelationRow, id: Id)
  {
    row.id1 == id || row.id2 == id
  }

  /** The other member of a pair that mentions `child`: the candidate parent. */
  function Partner(row: RelationRow, child: Id): (p: Id)
    ensures Mentions(row, child) ==> Mentions(row, p)
    ensures Mentions(row, child) && p == child ==> row.id1 == row.id2
  {
    if row.id2 == child then row.id1 else row.id2
  }

  /** Some row of the reference table carries `id`. */
  predicate Listed(ref: seq<Individual>, id: Id)
  {
    exists i :: 0 <= i < |ref| && ref[i].id == id
  }

  /** The position of the first reference row carrying `id`, if any. */
  function FirstIndex(ref: seq<Individual>, id: Id): (r: Option<nat>)
    ensures r.Some? ==> r.value < |ref| && ref[r.value].id == id
    ensures r.Some? ==> forall j :: 0 <= j < r.value ==> ref[j].id != id
    ensures r.None? ==> !Listed(ref, id)
  {
    if |ref| == 0 then None
    else if ref[0].id == id then Some(0)
    else
      match FirstIndex(ref[1..], id)
      case None => None
      case Some(k) => Some(k + 1)
  }

  /** The first reference row carrying `id`, if any; duplicates after it are never seen. */
  function Lookup(ref: seq<Individual>, id: Id): (r: Option<Individual>)
    ensures r.Some? <==> Listed(ref, id)
    ensures r.Some? ==> r.value.id == id && r.value in ref
    ensures r.Some? ==> exists k :: 0 <= k < |ref| && r.value == ref[k] && forall j :: 0 <= j < k ==> ref[j].id != id
  {
    match FirstIndex(ref, id)
    case None => None
    case Some(k) => Some(ref[k])
  }

  /** The smallest generation in a non-empty reference table: the founders' generation. */
  function MinGeneration(ref: seq<Individual>): (g: int)
    requires |ref| > 0
    ensures forall i :: 0 <= i < |ref| ==> g <= ref[i].generation
    ensures exists i :: 0 <= i < |ref| && ref[i].generation == g
  {
    if |ref| == 1 then ref[0].generation
    else
      var rest := MinGeneration(ref[1..]);
      assert forall i :: 1 <= i < |ref| ==> ref[i] == ref[1..][i - 1];
      if ref[0].generation <= rest then ref[0].generation else rest
  }

  /** The rows whose chosen label is PO, in table order. */
  function PoRows(rows: seq<RelationRow>, useKing: bool): (po: seq<RelationRow>)
    ensures forall i :: 0 <= i < |po| ==> IsPO(po[i], useKing)
    ensures forall r :: r in po <==> r in rows && IsPO(r, useKing)
    ensures |po| <= |rows|
  {
    if |rows| == 0 then []
    else
      var rest := PoRows(rows[1..], useKing);
      assert forall r :: r in rows <==> r == rows[0] || r in rows[1..];
      if IsPO(rows[0], useKing) then [rows[0]] + rest else rest
  }

  /** The PO rows that mention `child`, in table order. */
  function CandidateRows(po: seq<RelationRow>, child: Id): (c: seq<RelationRow>)
    ensures forall i :: 0 <= i < |c| ==> Mentions(c[i], child)
    ensures forall r :: r in c <==> r in po && Mentions(r, child)
    ensures |c| <= |po|
  {
    if |po| == 0 then []
    else
      var rest := CandidateRows(po[1..], child);
      assert forall r :: r in po <==> r == po[0] || r in po[1..];
      if Mentions(po[0], child) then [po[0]] + rest else rest
  }

  /**
    One candidate `p`, whose reference row is `ind`: an older male fills an empty
    father slot, an older female an empty mother slot; anything else changes nothing.
  */
  function Offer(acc: Parents, p: Id, ind: Individual, childGen: int): (r: Parents)
    ensures acc.father.Some? ==> r.father == acc.father
    ensures acc.mother.Some? ==> r.mother == acc.mother
    ensures r.father != acc.father ==> r.father == Some(p) && ind.sex == Male && ind.generation < childGen
    ensures r.mother != acc.mother ==> r.mother == Some(p) && ind.sex == Female && ind.generation < childGen
  {
    if ind.generation < childGen then
      if ind.sex == Male && acc.father.None? then acc.(father := Some(p))
      else if ind.sex == Female && acc.mother.None? then acc.(mother := Some(p))
      else acc
    else acc
  }

  /**
    Walks the candidate rows in order, offering each partner. A partner missing from
    the reference table raises, as the program's first-row lookup does on an empty match.
  */
  function Scan(ref: seq<Individual>, child: Id, childGen: int, cands: seq<RelationRow>, acc: Parents)
    : (r: Result<Parents, ResolveError>)
    ensures r.Err? ==> r.error.UnknownPartner? && r.error.child == child && !Listed(ref, r.error.partner)
    decreases |cands|
  {
    if |cands| == 0 then Ok(acc)
    else
      var p := Partner(cands[0], child);
      match Lookup(ref, p)
      case None => Err(UnknownPartner(child, p))
      case Some(ind) => Scan(ref, child, childGen, cands[1..], Offer(acc, p, ind, childGen))
  }

  /** A half-filled assignment is discarded: both slots or neither. */
  function Complete(acc: Parents): (r: Parents)
    ensures r.father.Some? <==> r.mother.Some?
    ensures acc.father.Some? && acc.mother.Some? ==> r == acc
    ensures !(acc.father.Some? && acc.mother.Some?) ==> r == Parents(None, None)
  {
    if acc.father.None? || acc.mother.None? then Parents(None, None) else acc
  }

  /**
    One child: no entry when no PO row mentions it; otherwise its generation is that of
    its first reference row, and the entry is the completed result of scanning its PO
    rows from two empty slots.
  */
  function ResolveChild(po: seq<RelationRow>, ref: seq<Individual>, child: Id)
    : (r: Result<Option<Parents>, ResolveError>)
    ensures r == Ok(None) <==> CandidateRows(po, child) == []
    ensures r.Ok? && r.value.Some? ==> (r.value.value.father.Some? <==> r.value.value.mother.Some?)
    ensures r.Err? ==> !r.error.MissingColumn? && r.error.child == child
    ensures r.Err? && r.error.UnknownChild? ==> !Listed(ref, child)
  {
    var cands := CandidateRows(po, child);
    if |cands| == 0 then Ok(None)
    else
      match Lookup(ref, child)
      case None => Err(UnknownChild(child))
      case Some(me) =>
        match Scan(ref, child, me.generation, cands, Parents(None, None))
        case Err(e) => Err(e)
        case Ok(acc) => Ok(Some(Complete(acc)))
  }

  /** A way of resolving one child from its ID. */
  type Step = Id -> Result<Option<Parents>, ResolveError>

  /** Resolving one child against fixed PO rows and reference table. */
  function ChildStep(po: seq<RelationRow>, ref: seq<Individual>): Step
  {
    child => ResolveChild(po, ref, child)
  }

  /**
    Visits the reference rows from index `i` on, in table order, skipping founders,
    applies `step` to each other row's ID, and records every entry it yields in `acc`;
    the first error ends the run.
  */
  function ResolveFrom(step: Step, ref: seq<Individual>, minGen: int, i: nat, acc: map<Id, Parents>)
    : (r: Result<map<Id, Parents>, ResolveError>)
    requires i <= |ref|
    ensures r.Ok? ==> acc.Keys <= r.value.Keys
    decreases |ref| - i
  {
    if i == |ref| then Ok(acc)
    else if ref[i].generation == minGen then ResolveFrom(step, ref, minGen, i + 1, acc)
    else
      match step(ref[i].id)
      case Err(e) => Err(e)
      case Ok(None) => ResolveFrom(step, ref, minGen, i + 1, acc)
      case Ok(Some(p)) => ResolveFrom(step, ref, minGen, i + 1, acc[ref[i].id := p])
  }

  /**
    The resolver: check the chosen label column exists, then resolve every reference
    row whose generation is not the minimum. An empty reference table has no children.
  */
  function Resolve(table: RelationTable, ref: seq<Individual>, useKing: bool)
    : (r: Result<map<Id, Parents>, ResolveError>)
    ensures RelationColumn(useKing) !in table.columns ==> r == Err(MissingColumn(RelationColumn(useKing)))
    ensures |ref| == 0 && RelationColumn(useKing) in table.columns ==> r == Ok(map[])
  {
    if RelationColumn(useKing) !in table.columns then Err(MissingColumn(RelationColumn(useKing)))
    else if |ref| == 0 then Ok(map[])
    else ResolveFrom(ChildStep(PoRows(table.rows, useKing), ref), ref, MinGeneration(ref), 0, map[])
  }

  /** Why a whole pedigree construction stops. */
  datatype ConstructError =
    | ResolveFailed(cause: ResolveError)  // the resolver raised
    | EmptyPedigree                       // no child got an entry, so the three output columns cannot be named

  /**
    The whole construction: resolve, then turn the entries into the three-column output
    table. Naming the columns of an empty table fails, because the table built from no
    entries has a single column.
  */
  function ConstructPedigree(table: RelationTable, ref: seq<Individual>, useKing: bool)
    : (r: Result<map<Id, Parents>, ConstructError>)
    ensures r.Ok? ==> r.value != map[] && Resolve(table, ref, useKing) == Ok(r.value)
    ensures r == Err(EmptyPedigree) <==> Resolve(table, ref, useKing) == Ok(map[])
    ensures r.Err? && r.error.ResolveFailed? <==> Resolve(table, ref, useKing).Err?
  {
    match Resolve(table, ref, useKing)
    case Err(e) => Err(ResolveFailed(e))
    case Ok(m) => if m == map[] then Err(EmptyPedigree) else Ok(m)
  }
}
