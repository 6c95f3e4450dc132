/**
  Two small end-to-end runs of the resolver: a child with PO evidence for both an
  older male and an older female, and the same child with only the father's evidence.
*/
module Scenarios {
  import opened Results
  import opened Pedigree
  import PedigreeProperties

  /** A (male, generation 0), B (female, generation 0), C (male, generation 1). */
  function Family(): seq<Individual>
  {
    [Individual("A", Male, 0), Individual("B", Female, 0), Individual("C", Male, 1)]
  }

  /** A PO call in the PI_HAT column between two individuals. */
  function PoCall(a: Id, b: Id): RelationRow
  {
    RelationRow(a, b, "UN", PoLabel)
  }

  /** PO(A, C) and PO(B, C): C gets father A and mother B. */
  lemma BothParentsFound()
    ensures Resolve(RelationTable({PiHatColumn}, [PoCall("A", "C"), PoCall("B", "C")]), Family(), false)
         == Ok(map["C" := Parents(Some("A"), Some("B"))])
  {
    var ref, po := Family(), [PoCall("A", "C"), PoCall("B", "C")];
    var both := Parents(Some("A"), Some("B"));
    var step := ChildStep(po, ref);
    assert PoRows(po, false) == po by {
      PedigreeProperties.PoRowsAllPo(po, false);
    }
    assert MinGeneration(ref) == 0 by {
      FamilyFacts();
    }
    assert step(ref[2].id) == Ok(Some(both)) by {
      ChildWithBothParents();
    }
    assert ResolveFrom(step, ref, 0, 2, map[]) == Ok(map["C" := both]);
  }

  /** C's own resolution from PO(A, C) and PO(B, C). */
  lemma ChildWithBothParents()
    ensures ResolveChild([PoCall("A", "C"), PoCall("B", "C")], Family(), "C")
         == Ok(Some(Parents(Some("A"), Some("B"))))
  {
    var ref, po := Family(), [PoCall("A", "C"), PoCall("B", "C")];
    var both := Parents(Some("A"), Some("B"));
    assert CandidateRows(po, "C") == po by {
      PedigreeProperties.CandidateRowsAllMention(po, "C");
    }
    assert Lookup(ref, "C") == Some(Individual("C", Male, 1)) by {
      FamilyFacts();
    }
    assert Scan(ref, "C", 1, po, Parents(None, None)) == Ok(both) by {
      ScanBothParents();
    }
  }

  /** Scanning PO(A, C) then PO(B, C) fills the father slot, then the mother slot. */
  lemma ScanBothParents()
    ensures Scan(Family(), "C", 1, [PoCall("A", "C"), PoCall("B", "C")], Parents(None, None))
         == Ok(Parents(Some("A"), Some("B")))
  {
    var ref, po := Family(), [PoCall("A", "C"), PoCall("B", "C")];
    var both := Parents(Some("A"), Some("B"));
    FamilyFacts();
    assert Partner(po[0], "C") == "A" && Partner(po[1], "C") == "B";
    assert Offer(Parents(None, None), "A", ref[0], 1) == Parents(Some("A"), None);
    assert Offer(Parents(Some("A"), None), "B", ref[1], 1) == both;
    assert Scan(ref, "C", 1, po[1..][1..], both) == Ok(both);
  }

  /** Only PO(A, C): C still gets an entry, with neither parent assigned. */
  lemma LoneParentDiscarded()
    ensures Resolve(RelationTable({PiHatColumn}, [PoCall("A", "C")]), Family(), false)
         == Ok(map["C" := Parents(None, None)])
  {
    var ref, po := Family(), [PoCall("A", "C")];
    var neither := Parents(None, None);
    var step := ChildStep(po, ref);
    assert PoRows(po, false) == po by {
      PedigreeProperties.PoRowsAllPo(po, false);
    }
    assert MinGeneration(ref) == 0 by {
      FamilyFacts();
    }
    assert step(ref[2].id) == Ok(Some(neither)) by {
      ChildWithFatherOnly();
    }
    assert ResolveFrom(step, ref, 0, 2, map[]) == Ok(map["C" := neither]);
  }

  /** C's own resolution from PO(A, C) alone. */
  lemma ChildWithFatherOnly()
    ensures ResolveChild([PoCall("A", "C")], Family(), "C") == Ok(Some(Parents(None, None)))
  {
    var ref, po := Family(), [PoCall("A", "C")];
    var father := Parents(Some("A"), None);
    assert CandidateRows(po, "C") == po by {
      PedigreeProperties.CandidateRowsAllMention(po, "C");
    }
    assert Lookup(ref, "C") == Some(Individual("C", Male, 1)) && Lookup(ref, "A") == Some(ref[0]) by {
      FamilyFacts();
    }
    assert Offer(Parents(None, None), "A", ref[0], 1) == father;
    assert Scan(ref, "C", 1, po, Parents(None, None)) == Ok(father) by {
      assert Scan(ref, "C", 1, po[1..], father) == Ok(father);
    }
  }

  /** The minimum generation and the lookups the scenarios rely on. */
  lemma FamilyFacts()
    ensures MinGeneration(Family()) == 0
    ensures Lookup(Family(), "A") == Some(Individual("A", Male, 0))
    ensures Lookup(Family(), "B") == Some(Individual("B", Female, 0))
    ensures Lookup(Family(), "C") == Some(Individual("C", Male, 1))
  {
    var ref := Family();
    assert ref[1..][1..] == [ref[2]];
    assert FirstIndex(ref, "C") == Some(2);
  }

  /** The same calls read through the KING column, which labels them UN: no entry at all. */
  lemma OtherColumnIgnored()
    ensures Resolve(RelationTable({PiHatColumn, KingColumn}, [PoCall("A", "C"), PoCall("B", "C")]), Family(), true)
         == Ok(map[])
  {
  }

  /** With no entry to write, the whole construction fails when it names the output columns. */
  lemma OtherColumnFails()
    ensures ConstructPedigree(RelationTable({PiHatColumn, KingColumn}, [PoCall("A", "C"), PoCall("B", "C")]), Family(), true)
         == Err(EmptyPedigree)
  {
    OtherColumnIgnored();
  }
}
