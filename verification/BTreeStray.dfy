/** A tree that insertions come to and in which a delete over packed nodes loses a leaf. */
module BTreeStray {
  import opened RowIDs
  import opened BTreeNodes
  import opened BTreeModel
  import opened BTreeInvariant
  import opened BTreeSearch
  import opened BTreeMoves
  import opened BTreeStuck

  // Capacities 510 and 680; keys 1 to 1276 inserted in this order. The root is node 3.

  function StrayKids(): seq<Tree> {
    [Run(1, 1, 255), Run(2, 256, 255), Run(4, 511, 255), Run(5, 766, 255), Run(6, 1021, 256)]
  }

  function StrayTree(): Tree {
    Branch(3, [256, 511, 766, 1021], StrayKids())
  }

  function StrayNodes(): Nodes {
    map[1 := LeafNode(3, 0, 2, Entries(1, 255)), 2 := LeafNode(3, 1, 4, Entries(256, 255)), 4 := LeafNode(3, 2, 5, Entries(511, 255)),
        5 := LeafNode(3, 4, 6, Entries(766, 255)), 6 := LeafNode(3, 5, 0, Entries(1021, 256)),
        3 := BranchNode(0, 0, 0, [BranchEntry(256, 1, 2), BranchEntry(511, 2, 4), BranchEntry(766, 4, 5), BranchEntry(1021, 5, 6)])]
  }

  lemma {:induction false} StraySorted()
    ensures Sorted(Flat(StrayTree()))
  {
    hide Spans, Flat, Run, Sorted;
    RunSpans(1, 1, 255);
    RunSpans(2, 256, 255);
    RunSpans(4, 511, 255);
    RunSpans(5, 766, 255);
    RunSpans(6, 1021, 256);
    BranchSpans(StrayTree(), [1, 256, 511, 766, 1021], [255, 510, 765, 1020, 1276]);
    SpansSorted(Flat(StrayTree()), 1, 1276);
  }

  lemma {:induction false} RunIn(n: Nodes, id: Id, k: Key, count: nat, p: Id)
    requires id in n && n[id].LeafNode? && n[id].parent == p && n[id].entries == Entries(k, count)
    ensures Rep(n, Run(id, k, count), p)
  {
  }

  lemma {:induction false} BranchIn(n: Nodes, t: Tree, p: Id)
    requires t.Branch? && |t.kids| == |t.keys| + 1 && t.id in n && n[t.id].BranchNode? && n[t.id].parent == p
    requires n[t.id].slots == Slots(t.keys, IdsOf(t.kids)) && forall i :: 0 <= i < |t.kids| ==> Rep(n, t.kids[i], t.id)
    ensures Rep(n, t, p)
  {
  }

  lemma {:induction false} StrayRep()
    ensures Rep(StrayNodes(), StrayTree(), 0)
  {
    hide Entries, Rep, Run;
    RunIn(StrayNodes(), 1, 1, 255, 3);
    RunIn(StrayNodes(), 2, 256, 255, 3);
    RunIn(StrayNodes(), 4, 511, 255, 3);
    RunIn(StrayNodes(), 5, 766, 255, 3);
    RunIn(StrayNodes(), 6, 1021, 256, 3);
    RunIds(1, 1, 255);
    RunIds(2, 256, 255);
    RunIds(4, 511, 255);
    RunIds(5, 766, 255);
    RunIds(6, 1021, 256);
    assert IdsOf(StrayKids()) == [1, 2, 4, 5, 6];
    assert Slots([256, 511, 766, 1021], [1, 2, 4, 5, 6]) == StrayNodes()[3].slots;
    BranchIn(StrayNodes(), StrayTree(), 0);
  }

  lemma {:induction false} StrayIds()
    ensures Bag(StrayTree()) == multiset{1, 2, 3, 4, 5, 6} && Level(1, StrayTree(), 0) == [1, 2, 4, 5, 6] && Level(1, StrayTree(), 1) == [3]
  {
    hide Bag, BagF, Level, LevelF, Run;
    var a, b, c, d, e := Run(1, 1, 255), Run(2, 256, 255), Run(4, 511, 255), Run(5, 766, 255), Run(6, 1021, 256);
    RunIds(1, 1, 255);
    RunIds(2, 256, 255);
    RunIds(4, 511, 255);
    RunIds(5, 766, 255);
    RunIds(6, 1021, 256);
    ThreeKids(0, a, b, c);
    TwoKids(d, 0, e);
    assert StrayKids() == [a, b, c] + [d, e];
    BagFConcat([a, b, c], [d, e]);
    LevelFConcat(0, [a, b, c], [d, e], 0);
    BranchIds(0, StrayTree());
  }

  /** Which nodes there are, and their links. */
  lemma {:induction false} StrayAt(x: Id)
    ensures x in StrayNodes() <==> 0 < x < 7
    ensures 0 < x < 7 ==>
              && StrayNodes()[x].left == (if x == 1 || x == 3 then 0 else if x == 4 then 2 else x - 1)
              && StrayNodes()[x].right == (if x == 3 || x == 6 then 0 else if x == 2 then 4 else x + 1)
  {
    hide Entries;
  }

  lemma {:induction false} StrayLeaves()
    ensures Linked(StrayNodes(), true, [1, 2, 4, 5, 6]) && Linked(StrayNodes(), true, [3])
  {
    hide StrayNodes;
    forall x ensures x in StrayNodes() <==> 0 < x < 7 { StrayAt(x); }
    StrayAt(1);
    StrayAt(2);
    StrayAt(3);
    StrayAt(4);
    StrayAt(5);
    StrayAt(6);
  }

  lemma {:induction false} StrayLinks()
    ensures LinksAll(StrayNodes(), 1, true, 1, StrayTree())
  {
    hide Linked, Level, StrayTree, StrayNodes;
    StrayIds();
    StrayLeaves();
    var n, t, h := StrayNodes(), StrayTree(), 1;
    forall l: nat | l <= h ensures LevelLinked(n, true, h, t, l) { assert l == 0 || l == 1; }
  }

  lemma {:induction false} StrayProper()
    ensures Proper(StrayNodes(), 7, Bag(StrayTree()))
  {
    hide Bag, StrayTree, StrayNodes;
    StrayIds();
    forall x ensures (x in StrayNodes() <==> 0 < x < 7) && (0 < x < 7 ==> StrayNodes()[x].left < 7) { StrayAt(x); }
    var b := multiset{1, 2, 3, 4, 5, 6};
    assert forall x :: x in b <==> 0 < x < 7;
  }

  lemma {:induction false} StraySound()
    ensures Sound(StrayNodes(), 7, 1, true, 1, StrayTree())
  {
    hide Rep, Sorted, Flat, Bag, LinksAll, Proper, StrayTree, StrayNodes;
    StraySorted();
    StrayRep();
    StrayLinks();
    StrayProper();
  }

  lemma {:induction false} StrayGood()
    ensures RootGood(Caps(510, 680), 1, StrayTree())
  {
    hide Run;
    RunSize(1, 1, 255);
    RunSize(2, 256, 255);
    RunSize(4, 511, 255);
    RunSize(5, 766, 255);
    RunSize(6, 1021, 256);
  }

  /** Leaf 2 falls below half and is merged with leaf 4; neither neighbour has an entry to spare. */
  lemma {:induction false} StrayEnd()
    ensures EndIn(StrayNodes(), Caps(510, 680), false, StrayTree(), 300) == Astray
    ensures EndIn(StrayNodes(), Caps(510, 680), true, StrayTree(), 300) == Through
  {
    hide Run;
    RunSize(1, 1, 255);
    RunSize(2, 256, 255);
    RunSize(4, 511, 255);
    RunIds(1, 1, 255);
    RunIds(2, 256, 255);
    RunIds(4, 511, 255);
    var t := StrayTree();
    ChildSlotIs([256, 511, 766, 1021], 300, 1);
    var a := Below(Top, t, 1);
    assert PathTo(Top, t, 300) == PathTo(a, t.kids[1], 300) == a;
    assert LeafOf(t, 300) == LeafOf(t.kids[1], 300) == t.kids[1];
  }

  lemma {:induction false} StrayHolds(key: Key)
    requires 256 <= key <= 510
    ensures key in MapOf(Ents(Flat(StrayTree())))
  {
    hide Flat, Ents, MapOf, Run;
    var e := LeafEntry(key, RowID(0, 0));
    RunHolds(2, 256, 255, key - 256);
    BranchHolds(StrayTree(), 1, e);
    HoldsKey(Ents(Flat(StrayTree())), e);
  }

  lemma {:induction false} StrayDrop()
    ensures PackedDelete([256, 511, 766, 1021], [1, 2, 4, 5, 6], 1) == Slots([256, 766, 1021], [1, 4, 5, 6])
    ensures ListDelete([256, 511, 766, 1021], [1, 2, 4, 5, 6], 1) == Slots([256, 766, 1021], [1, 2, 5, 6])
  {
  }

  /** The tree is sound and well filled, holds keys 256 to 510 in leaf 2, and deleting 300 takes that leaf from the root where
      the freed leaf 4 should go. */
  lemma {:induction false} StrayDelete()
    ensures Sound(StrayNodes(), 7, 1, true, 1, StrayTree()) && RootGood(Caps(510, 680), 1, StrayTree())
    ensures forall key :: 256 <= key <= 510 ==> key in MapOf(Ents(Flat(StrayTree())))
    ensures EndIn(StrayNodes(), Caps(510, 680), false, StrayTree(), 300) == Astray && EndIn(StrayNodes(), Caps(510, 680), true, StrayTree(), 300) == Through
    ensures PackedDelete([256, 511, 766, 1021], [1, 2, 4, 5, 6], 1) == Slots([256, 766, 1021], [1, 4, 5, 6])
  {
    hide Sound, RootGood, StrayTree, StrayNodes, EndIn, MapOf, Ents, Flat;
    StraySound();
    StrayGood();
    StrayEnd();
    StrayDrop();
    forall key | 256 <= key <= 510 ensures key in MapOf(Ents(Flat(StrayTree()))) { StrayHolds(key); }
  }
}
