/** A coherent chain above whose tip the height index still holds a header that was reorganised away. */
module StaleIndex {
  import opened Prelude
  import opened ChainTypes
  import opened BlockTree
  import opened ChainInvariants
  import opened ChainWalks
  import opened ForkChoice

  const G := Header(1, 0, 7, 0, 0)
  const A1 := Header(2, 1, 7, 0, 0)
  const A2 := Header(3, 2, 7, 0, 0)
  const A3 := Header(4, 3, 7, 0, 0)
  const B2 := Header(5, 2, 7, 0, 0)

  ghost function Forked(): Tree {
    map[1 := Node(G, 0), 2 := Node(A1, 1), 3 := Node(A2, 2), 4 := Node(A3, 3), 5 := Node(B2, 2)]
  }

  /** After a reorganisation from A3 to the shorter branch of B2, slot 3 is stale. */
  ghost function AfterReorg(): Store {
    Store(map[1 := FullyValid(G, 0), 2 := HeadersOnly(A1, 1), 3 := InFork(A2, 2), 4 := InFork(A3, 3),
              5 := HeadersOnly(B2, 2)],
          map[0 := Slot(FullyValid(G, 0), 1, None), 1 := Slot(HeadersOnly(A1, 1), 2, None),
              2 := Slot(HeadersOnly(B2, 2), 5, None), 3 := Slot(HeadersOnly(A3, 3), 4, None)])
  }

  lemma ForkedTree()
    ensures TreeOk(G, Forked())
  {
  }

  lemma Ancestors()
    requires TreeOk(G, Forked())
    ensures var t := Forked();
            && Anc(G, t, 5, 2) == 5 && Anc(G, t, 5, 1) == 2 && Anc(G, t, 5, 0) == 1
            && Anc(G, t, 4, 3) == 4 && Anc(G, t, 4, 2) == 3
  {
    var t := Forked();
    assert Parent(t, 5) == 2 && Parent(t, 2) == 1 && Parent(t, 4) == 3;
    assert Anc(G, t, 2, 1) == 2 && Anc(G, t, 2, 0) == 1 && Anc(G, t, 3, 2) == 3;
  }

  /** Everything the chain promises holds, and yet the index leads from A3 to B2 instead of A2. */
  lemma StaleSlotMisleads()
    ensures var b := BestChain(5, 2, 1, [4]);
            Coherent(G, Forked(), AfterReorg(), b)
    ensures TreeOk(G, Forked()) && Anc(G, Forked(), 4, 2) == 3
    ensures AfterReorg().GetBlockHash(2) == Some(5) && !Served(G, Forked(), AfterReorg(), 5, 4, 2)
  {
    var t, s := Forked(), AfterReorg();
    ForkedTree();
    Ancestors();
    forall x | x in s.headers
      ensures StateAt(G, t, 5, 0, x, s.headers[x])
    {
    }
    forall n: nat
      ensures SlotSound(t, s, n) && SlotAt(G, t, s, 5, n)
    {
    }
    assert OnChain(G, t, 5, 1);
  }
}
