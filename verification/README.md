# duckPI relationship classifier and pedigree resolver, in Dafny

duckPI turns pairwise relatedness estimates into relationship labels and then
reconstructs parent assignments. Its inputs are KING kinship coefficients and
PLINK IBD sharing (Z0, PI_HAT). This project models the two pure computations at
its core and proves properties of them.

- **Relationship classifier** (`classifier.dfy`, module `Classifier`). `infer_relationship` is an
  ordered cascade of interval tests. It maps a metric value (KING or PI_HAT) and Z0 to
  `MZ`, `PO`, `FS`, `2nd` or `UN`. Values are `real`, and a missing or NaN cell is `None`.
  Every comparison with NaN is false, so each guard is false on `None`.
  - Three thresholds are irrational: 1/√2, 1/2^1.5 and 1/2^2.5. They are not computed.
    `SourceThresholds(s)` takes `s` with `s > 0 && s * s == 1/2`, which pins down `s = 1/√2`.
    It then builds the source's table: 1/2^1.5 = s/2 and 1/2^2.5 = s/4.
  - `InRegion` is an order-free description of each label's region, proved equal to the cascade.
- **Per-row annotation** (`annotation.dfy`, module `Annotation`). The classifier runs once with
  KING and once with PI_HAT to fill the two label columns, `KING_Relation` and `PI_HAT_Relation`.
- **Pedigree resolver** (`pedigree.dfy`, module `Pedigree`; properties in
  `pedigree_properties.dfy`, module `PedigreeProperties`). This is the body of
  `run_pedigree_construction` without the file reads and writes.
  - It works through the reference rows in order and skips founders, the rows at the minimum
    generation.
  - For each remaining child it scans the PO rows that mention the child, in table order. The
    first older male partner becomes the father and the first older female partner the mother.
  - If either slot is still empty, both are cleared.
  - A child with no PO row gets no entry.
  - The result is `Result<map<Id, Parents>, ResolveError>`. There are two errors the model
    raises for a run: the chosen label column is missing (`MissingColumn`), or a PO partner of
    a non-founder is absent from the reference table (`UnknownPartner`). The second is the
    program's `.iloc[0]` failing on an empty match (duckPI.py:129).
  - The child's own generation is read with the same `.iloc[0]` (duckPI.py:134). One child's
    resolution, `ResolveChild`, returns `UnknownChild` when the child is not listed. A run
    never raises it, because every child it visits comes from the reference table
    (`ResolveErrorKinds`).
  - The fold over reference rows, `ResolveFrom`, takes the per-child resolution as a
    function parameter. Its lemmas hold for any such function.
  - Duplicate reference IDs resolve to their first row, for partners and for the child's own
    generation.
- **Scenarios** (`scenarios.dfy`): small concrete runs with three individuals A, B and C.

Three behaviours of the code worth stating plainly:

- A PO partner missing from the reference table ends the run with an error, because the
  `.iloc[0]` lookup at duckPI.py:129 finds no row. The partner is not skipped.
- A non-founder with no PO row gets no entry (duckPI.py:119).
- When no child gets an entry, naming the three output columns (duckPI.py:149-150) fails: the
  table built from an empty dictionary has one column. `ConstructPedigree` models this as the
  `EmptyPedigree` error.

`Resolve` takes the column choice (`--make-king` versus the PI_HAT default) as a boolean
`useKing`.

## Model

| member | source | states |
|---|---|---|
| Classifier.LabelName | duckPI.py:80-89 | the label spelled "PO" is the PO label and no other |
| Classifier.LabelNameInjective | duckPI.py:80-89 | distinct labels are written as distinct strings |
| Classifier.InvSqrt2Bounds | duckPI.py:27 | the positive root of one half lies strictly between 0.7 and 0.71 |
| Classifier.SourceThresholds | duckPI.py:23-30 | the source's constants: MZ at 1/√2, PO and FS on (1/2^1.5, 1/√2], 2nd on (1/2^2.5, 1/2^1.5], Z0 limits 0.1, [0.1, 0.365] and [0.365, 1 - 1/2^1.5]; the table is well ordered (2nd below PO/FS, MZ at the top of PO, Z0 bands consecutive) |
| Classifier.Classify | duckPI.py:77-89 | a missing or NaN metric or Z0 yields UN; MZ and PO are only given when Z0 is below the MZ limit |
| Classifier.ClassifyMatchesRegion | duckPI.py:80-89 | for well-ordered thresholds the cascade returns a label exactly when the point lies in that label's order-free region |
| Classifier.RegionsDisjoint | duckPI.py:80-89 | for well-ordered thresholds no (metric, Z0) point lies in two label regions |
| Classifier.MzRule | duckPI.py:80-81 | metric ≥ 1/√2 with Z0 < 0.1 is MZ |
| Classifier.PoFsBand | duckPI.py:80-85 | in (1/2^1.5, 1/√2]: Z0 < 0.1 gives PO below 1/√2 and MZ at exactly 1/√2, Z0 in [0.1, 0.365] gives FS, Z0 above 0.365 gives UN |
| Classifier.PoFsExclusive | duckPI.py:82-85 | no point meets both the PO and the FS condition |
| Classifier.SecondDegreeBand | duckPI.py:86-89 | in (1/2^2.5, 1/2^1.5]: Z0 in [0.365, 1 - 1/2^1.5] gives 2nd and every other Z0 gives UN |
| Classifier.BelowSecondBandUnrelated | duckPI.py:86-89 | a metric at or below 1/2^2.5 is UN whatever Z0 is, missing included |
| Annotation.AnnotateRow | duckPI.py:72-74 | the row keeps its pair, and its label in either column is PO exactly when the classifier gives PO for that column's metric |
| Annotation.Annotate | duckPI.py:72-75 | every merged row gets both label columns, row for row, and each is PO exactly when the classifier says so |
| Annotation.AnnotatedHasColumn | duckPI.py:98-101 | a table the classifier produced never triggers the missing-column error |
| Annotation.MissingZ0Ignored | duckPI.py:77-89 | a pair whose Z0 is missing, added anywhere to the merged table, leaves the pedigree result unchanged |
| Pedigree.RelationColumn | duckPI.py:98 | KING_Relation is chosen exactly when KING is requested, PI_HAT_Relation otherwise |
| Pedigree.Partner | duckPI.py:126 | the candidate parent is a member of the pair, and equals the child only when the row pairs the child with itself |
| Pedigree.FirstIndex | duckPI.py:129 | finds the first reference row with the ID; none means no row carries it |
| Pedigree.Lookup | duckPI.py:129-134 | finds a reference row with the ID exactly when one exists, and it is the first row carrying that ID |
| Pedigree.MinGeneration | duckPI.py:104 | the minimum generation is attained by some row and bounds every row from below |
| Pedigree.PoRows | duckPI.py:111 | keeps exactly the rows labelled PO in the chosen column |
| Pedigree.CandidateRows | duckPI.py:116 | keeps exactly the PO rows that mention the child |
| Pedigree.Offer | duckPI.py:133-139 | a filled slot is never overwritten; a slot only changes to the offered partner, and only when that partner is older and of the slot's sex |
| Pedigree.Scan | duckPI.py:124-139 | the only failure is an unknown partner of this child, and that partner is absent from the reference table |
| Pedigree.Complete | duckPI.py:141-143 | both parents or neither; a full assignment is kept, a partial one is cleared |
| Pedigree.ResolveChild | duckPI.py:116-146 | no entry exactly when no PO row mentions the child; an entry has both parents or neither; a failure names this child and is never the missing-column error; the unknown-child error means the child is unlisted |
| Pedigree.ResolveFrom | duckPI.py:114-146 | IDs already recorded keep an entry |
| Pedigree.Resolve | duckPI.py:98-104 | an absent chosen column fails with the missing-column error naming it; with the column present, an empty reference table gives no entries |
| Pedigree.ConstructPedigree | duckPI.py:98-150 | a resolver error is passed on; a successful resolution with no entries fails when the output columns are named; otherwise the entries are the resolver's |
| PedigreeProperties.FirstSatisfying | duckPI.py:124-139 | the index of a row meeting the test, with no earlier row meeting it; none means no row meets it |
| PedigreeProperties.FirstCandidate | duckPI.py:136-139 | reference definition of first match: no result means no row qualifies, otherwise the partner of a qualifying row before which none qualifies |
| PedigreeProperties.ScanPicksFirst | duckPI.py:124-139 | scanning keeps filled slots and fills each empty one with the first qualifying partner of its sex, later ones being ignored |
| PedigreeProperties.ScanFails | duckPI.py:124-129 | scanning fails exactly when some candidate's partner is unlisted, naming the first such partner |
| PedigreeProperties.ChildOutcome | duckPI.py:116-143 | one child fails exactly on an unlisted partner, and otherwise gets the first-match assignment made both-or-neither |
| PedigreeProperties.ResolveFromOk | duckPI.py:114-146 | after all reference rows, every entry is its visited non-founder's own outcome, and every visited non-founder whose outcome is an entry has one |
| PedigreeProperties.FoldOk | duckPI.py:107-146 | a fold that starts from the empty map and succeeds has processed every reference row in that sense |
| PedigreeProperties.ResolveFromErrSource | duckPI.py:114-146 | a failed fold carries the error of some later non-founder |
| PedigreeProperties.ResolveFromErr | duckPI.py:114-146 | the fold fails whenever some later non-founder fails |
| PedigreeProperties.CandidatesNonEmpty | duckPI.py:116-119 | a child has candidate rows exactly when some PO row in the table mentions it |
| PedigreeProperties.ResolveOk | duckPI.py:98-146 | a successful run holds exactly the entries of the non-founders whose own resolution gives one, each equal to that resolution |
| PedigreeProperties.ResolveErrSource | duckPI.py:98-146 | with the column present, a failed run carries the error of some non-founder's own resolution |
| PedigreeProperties.ResolveErrIfChildErr | duckPI.py:114-146 | a run fails whenever some non-founder's own resolution fails |
| PedigreeProperties.ResolveErrorKinds | duckPI.py:99-134 | a run fails with the missing-column error exactly when the chosen column is absent, and never with the unknown-child error |
| PedigreeProperties.ResolvedChildren | duckPI.py:104-119 | an entry exists exactly for IDs listed away from the minimum generation and mentioned by some PO row |
| PedigreeProperties.ConstructEmptyIff | duckPI.py:104-150 | after a successful resolution, the construction fails on the empty output exactly when no non-founder is mentioned by a PO row |
| PedigreeProperties.FoundersGetNoEntry | duckPI.py:104-105 | an individual listed only at the minimum generation never gets an entry |
| PedigreeProperties.ResolvedFirstMatch | duckPI.py:124-146 | each entry is the first qualifying male and first qualifying female in PO-row order, or neither if one is missing |
| PedigreeProperties.ResolvedParentsValid | duckPI.py:124-143 | both or neither; an assigned father is a listed male and an assigned mother a listed female, each of an earlier generation than the child and each the child's partner in some PO row |
| PedigreeProperties.FailureHasUnlistedPartner | duckPI.py:124-129 | a failing run with the column present has a PO row pairing a non-founder with an unlisted partner |
| PedigreeProperties.SuccessListsPartner | duckPI.py:124-129 | in a successful run, the partner in a PO row that mentions a non-founder is listed |
| PedigreeProperties.SuccessListsEveryPartner | duckPI.py:124-129 | in a successful run every PO partner of every non-founder is listed |
| PedigreeProperties.ResolveSucceedsIff | duckPI.py:124-134 | with the column present, the run succeeds exactly when every PO partner of a non-founder is listed |
| PedigreeProperties.UnknownPartnerEvidence | duckPI.py:124-129 | an unknown-partner error names a non-founder, an unlisted partner, and a PO row pairing them |
| PedigreeProperties.PoRowsConcat | duckPI.py:111 | the PO filter distributes over concatenation of tables |
| PedigreeProperties.PoRowsAllPo | duckPI.py:111 | a table whose rows are all labelled PO is its own PO filter |
| PedigreeProperties.CandidateRowsAllMention | duckPI.py:116 | PO rows that all mention the child are all candidates, in order |
| PedigreeProperties.CandidateRowsConcat | duckPI.py:116 | the candidate filter distributes over concatenation, so candidates keep the PO rows' order |
| PedigreeProperties.CandidateRowsSingle | duckPI.py:116 | a single row is kept exactly when it mentions the child |
| PedigreeProperties.PoRowsInsert | duckPI.py:111 | inserting a non-PO row anywhere leaves the PO rows unchanged |
| PedigreeProperties.NonPoRowIgnored | duckPI.py:111 | inserting a row not labelled PO anywhere leaves the whole result unchanged |
| Scenarios.BothParentsFound | duckPI.py:114-146 | with PO(A,C) and PO(B,C), where A is an older male and B an older female, C gets father A and mother B |
| Scenarios.ChildWithBothParents | duckPI.py:116-146 | C's own resolution from PO(A,C) and PO(B,C) is father A and mother B |
| Scenarios.ScanBothParents | duckPI.py:124-139 | scanning PO(A,C) then PO(B,C) fills the father slot with A and then the mother slot with B |
| Scenarios.LoneParentDiscarded | duckPI.py:141-146 | with only PO(A,C), C gets an entry with neither parent |
| Scenarios.ChildWithFatherOnly | duckPI.py:124-143 | C's own resolution from PO(A,C) alone finds father A, then clears it: neither parent |
| Scenarios.OtherColumnIgnored | duckPI.py:98 | PO calls in the PI_HAT column are invisible when the KING column is chosen |
| Scenarios.OtherColumnFails | duckPI.py:148-150 | that same run, with no entry to write, fails when the output columns are named |

## Left out

- `run_king_and_plink` (duckPI.py:51-57): it runs external binaries through the shell.
- `merge_columns` and `merge_results` (duckPI.py:59-75): the pandas left join, the conversion `KING = Kinship * 2` and the CSV I/O are not modelled. The merged table arrives as a sequence of `MergedRow`, with `None` where the join left NaN. Only the per-row classification (lines 72-74) is modelled.
- The CSV reads, the CSV write and the completion message in `run_pedigree_construction` (duckPI.py:94-95, 152-154): these are I/O. The DataFrame conversion before them (lines 149-150) is modelled only as far as its failure on an empty result, in `ConstructPedigree`.
- `build_and_draw_pedigree_graph` (duckPI.py:157-214): this is graph rendering.
- `parse_args` and the `__main__` dispatch (duckPI.py:33-47, 216-252): CLI plumbing. Only the column choice is kept, as the boolean `useKing`.
- `src/duckPI.py`: a stale copy. Its `infer_relationship` uses threshold names it never defines, and the rest is CLI and subprocess plumbing.
- IEEE floating point: metrics and thresholds are exact reals. The thresholds equal the source's only up to float rounding, and the irrational ones are characterised instead of computed.
- Pedigree.Resolve: its result is a map, so it does not state the order of rows in the output file. That order is the order in which children are first visited.
- Pedigree.Resolve: IDs, sex codes and generations are typed as string, int and int. Pandas type mismatches between the two tables, and NaN in the Sex or Generation column, are not modelled.
- Pedigree.Resolve: an empty reference table yields no entries. In duckPI, the minimum generation of an empty column is NaN, so no child is visited.
- Pedigree.Resolve: only the chosen label column's presence is checked. A relationship table without `ID1` or `ID2` (a KeyError at duckPI.py:116 once a non-founder is visited) and a reference table without `ID`, `Sex` or `Generation` (duckPI.py:104-105, 131) are assumed not to occur: the model's tables have those fields by construction.
- Pedigree.Resolve: an `Ok(map[])` result is not a successful program run. The program then fails at duckPI.py:150, where three column names are assigned to a one-column table; `ConstructPedigree` returns `EmptyPedigree` for it. This includes the empty reference table.
