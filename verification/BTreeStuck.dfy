/** A store that insertions and deletions come to and in which a delete gets stuck. */
module BTreeStuck {
  import opened RowIDs
  import opened BTreeNodes
  import opened BTreeModel
  import opened BTreeInvariant
  import opened BTreeSearch
  import opened BTreeMoves
  import opened BTreeFacts

  // ---------- Branches put together from their children ----------

  ghost predicate Chained(s: seq<Tok>) {
    forall i :: 0 < i < |s| ==> Before(s[i - 1], s[i])
  }

  /** Order on neighbours is order everywhere. */
  lemma {:induction false} ChainSorted(s: seq<Tok>)
    requires Chained(s)
    ensures Sorted(s)
  {
    forall i, j | 0 <= i < j < |s| ensures Before(s[i], s[j]) { ChainBefore(s, i, j); }
  }

  lemma {:induction false} ChainBefore(s: seq<Tok>, i: nat, j: nat)
    requires Chained(s) && i < j < |s|
    ensures Before(s[i], s[j])
    decreases j
  {
    if i + 1 < j {
      ChainBefore(s, i, j - 1);
      assert Before(s[j - 1], s[j]);
    }
  }

  /** A walk in order, from the entry of key `lo` to that of key `hi`. */
  ghost predicate Spans(s: seq<Tok>, lo: Key, hi: Key) {
    s != [] && Chained(s) && s[0].Ent? && s[0].e.key == lo && s[|s| - 1].Ent? && s[|s| - 1].e.key == hi
  }

  lemma {:induction false} GlueSpans(x: seq<Tok>, k: Key, y: seq<Tok>, a: Key, b: Key, c: Key, d: Key)
    requires Spans(x, a, b) && Spans(y, c, d) && b < k <= c
    ensures Spans(x + [Sep(k)] + y, a, d)
  {
    var s, p := x + [Sep(k)] + y, |x|;
    forall i | 0 < i < |s| ensures Before(s[i - 1], s[i]) {
      if i < p { assert s[i - 1] == x[i - 1] && s[i] == x[i]; }
      if i > p + 1 { assert s[i - 1] == y[i - p - 2] && s[i] == y[i - p - 1]; }
    }
  }

  /** Children in order, with separators between them, spell out a walk in order. */
  lemma {:induction false} SegSpans(keys: seq<Key>, kids: seq<Tree>, los: seq<Key>, his: seq<Key>)
    requires |kids| == |keys| + 1 == |los| == |his|
    requires forall i :: 0 <= i < |kids| ==> Spans(Flat(kids[i]), los[i], his[i])
    requires forall i :: 0 <= i < |keys| ==> his[i] < keys[i] <= los[i + 1]
    ensures Spans(SegFlat(keys, kids), los[0], his[|keys|])
  {
    hide Spans, Flat, FlatR;
    if keys == [] {
      assert kids == [kids[0]];
      OneKid(kids[0]);
    } else {
      var ks, ts := keys[1..], kids[1..];
      assert forall i :: 0 <= i < |ts| ==> ts[i] == kids[i + 1] && los[1..][i] == los[i + 1] && his[1..][i] == his[i + 1];
      SegSpans(ks, ts, los[1..], his[1..]);
      SegPeel(keys[0], kids[0], ks, ts);
      assert keys == [keys[0]] + ks && kids == [kids[0]] + ts;
      GlueSpans(Flat(kids[0]), keys[0], SegFlat(ks, ts), los[0], his[0], los[1], his[|keys|]);
    }
  }

  lemma {:induction false} BranchSpans(t: Tree, los: seq<Key>, his: seq<Key>)
    requires t.Branch? && |t.kids| == |t.keys| + 1 == |los| == |his|
    requires forall i :: 0 <= i < |t.kids| ==> Spans(Flat(t.kids[i]), los[i], his[i])
    requires forall i :: 0 <= i < |t.keys| ==> his[i] < t.keys[i] <= los[i + 1]
    ensures Spans(Flat(t), los[0], his[|t.keys|])
  {
    hide Spans, Flat, FlatR;
    BranchFlat(t);
    SegSpans(t.keys, t.kids, los, his);
  }

  /** The entries of the children are entries of the branch. */
  lemma {:induction false} SegHolds(keys: seq<Key>, kids: seq<Tree>, i: nat, e: LeafEntry)
    requires |kids| == |keys| + 1 && i < |kids| && e in Ents(Flat(kids[i]))
    ensures e in Ents(SegFlat(keys, kids))
  {
    hide Flat, FlatR, Ents;
    if keys == [] {
      assert kids == [kids[0]];
      OneKid(kids[0]);
    } else {
      SegPeel(keys[0], kids[0], keys[1..], kids[1..]);
      assert keys == [keys[0]] + keys[1..] && kids == [kids[0]] + kids[1..];
      EntsSep(Flat(kids[0]), keys[0], SegFlat(keys[1..], kids[1..]));
      if i > 0 {
        SegHolds(keys[1..], kids[1..], i - 1, e);
      }
    }
  }

  lemma {:induction false} BranchHolds(t: Tree, i: nat, e: LeafEntry)
    requires t.Branch? && |t.kids| == |t.keys| + 1 && i < |t.kids| && e in Ents(Flat(t.kids[i]))
    ensures e in Ents(Flat(t))
  {
    hide Flat, FlatR, Ents;
    BranchFlat(t);
    SegHolds(t.keys, t.kids, i, e);
  }

  lemma {:induction false} RunHolds(id: Id, k: Key, count: nat, i: nat)
    requires i < count
    ensures LeafEntry(k + i, RowID(0, 0)) in Ents(Flat(Run(id, k, count)))
  {
    EntsLeaf(id, Entries(k, count));
    assert Entries(k, count)[i] == LeafEntry(k + i, RowID(0, 0));
  }

  lemma {:induction false} HoldsKey(es: seq<LeafEntry>, e: LeafEntry)
    requires e in es
    ensures e.key in MapOf(es)
  {
    MapKeys(es);
  }

  // ---------- The store ----------
  // Capacities 4 and 4; keys 1 to 43 inserted in this order, then key 7 deleted. That deletion merged
  // leaf 6 into leaf 5 and branch 13 into branch 8; the branch after it, 17, was below another parent then
  // and kept its left link to 13. After that branch 9 borrowed 17 from branch 26.

  /** A leaf of `count` entries with keys from `k` on. */
  function Run(id: Id, k: Key, count: nat): Tree {
    Leaf(id, Entries(k, count))
  }

  function Entries(k: Key, count: nat): seq<LeafEntry> {
    seq(count, i requires 0 <= i < count => LeafEntry(k + i, RowID(0, 0)))
  }

  function T3(): Tree { Branch(3, [3, 5], [Run(1, 1, 2), Run(2, 3, 2), Run(4, 5, 2)]) }
  function T8(): Tree { Branch(8, [11, 13, 15, 17], [Run(5, 8, 3), Run(7, 11, 2), Run(10, 13, 2), Run(11, 15, 2), Run(12, 17, 2)]) }
  function T17(): Tree { Branch(17, [21, 23], [Run(14, 19, 2), Run(15, 21, 2), Run(16, 23, 2)]) }
  function T21(): Tree { Branch(21, [27, 29], [Run(18, 25, 2), Run(19, 27, 2), Run(20, 29, 2)]) }
  function T25(): Tree { Branch(25, [33, 35], [Run(22, 31, 2), Run(23, 33, 2), Run(24, 35, 2)]) }
  function T31(): Tree { Branch(31, [39, 41], [Run(28, 37, 2), Run(29, 39, 2), Run(30, 41, 3)]) }
  function T9(): Tree { Branch(9, [7, 19], [T3(), T8(), T17()]) }
  function T26(): Tree { Branch(26, [31, 37], [T21(), T25(), T31()]) }
  function StuckTree(): Tree { Branch(27, [25], [T9(), T26()]) }

  /** Nodes 6 and 13 have been freed; the next id is 32. */
  predicate IsLive(x: Id) {
    0 < x < 32 && x != 6 && x != 13
  }

  function Live(): set<Id> {
    set x: nat | x < 32 && IsLive(x)
  }

  function NodeOf(id: Id): Node {
    match id
    case 1 => LeafNode(3, 0, 2, Entries(1, 2))
    case 2 => LeafNode(3, 1, 4, Entries(3, 2))
    case 3 => BranchNode(9, 0, 8, [BranchEntry(3, 1, 2), BranchEntry(5, 2, 4)])
    case 4 => LeafNode(3, 2, 5, Entries(5, 2))
    case 5 => LeafNode(8, 4, 7, Entries(8, 3))
    case 7 => LeafNode(8, 5, 10, Entries(11, 2))
    case 8 => BranchNode(9, 3, 17, [BranchEntry(11, 5, 7), BranchEntry(13, 7, 10), BranchEntry(15, 10, 11), BranchEntry(17, 11, 12)])
    case 9 => BranchNode(27, 0, 26, [BranchEntry(7, 3, 8), BranchEntry(19, 8, 17)])
    case 10 => LeafNode(8, 7, 11, Entries(13, 2))
    case 11 => LeafNode(8, 10, 12, Entries(15, 2))
    case 12 => LeafNode(8, 11, 14, Entries(17, 2))
    case 14 => LeafNode(17, 12, 15, Entries(19, 2))
    case 15 => LeafNode(17, 14, 16, Entries(21, 2))
    case 16 => LeafNode(17, 15, 18, Entries(23, 2))
    case 17 => BranchNode(9, 13, 21, [BranchEntry(21, 14, 15), BranchEntry(23, 15, 16)])
    case 18 => LeafNode(21, 16, 19, Entries(25, 2))
    case 19 => LeafNode(21, 18, 20, Entries(27, 2))
    case 20 => LeafNode(21, 19, 22, Entries(29, 2))
    case 21 => BranchNode(26, 17, 25, [BranchEntry(27, 18, 19), BranchEntry(29, 19, 20)])
    case 22 => LeafNode(25, 20, 23, Entries(31, 2))
    case 23 => LeafNode(25, 22, 24, Entries(33, 2))
    case 24 => LeafNode(25, 23, 28, Entries(35, 2))
    case 25 => BranchNode(26, 21, 31, [BranchEntry(33, 22, 23), BranchEntry(35, 23, 24)])
    case 26 => BranchNode(27, 9, 0, [BranchEntry(31, 21, 25), BranchEntry(37, 25, 31)])
    case 27 => BranchNode(0, 0, 0, [BranchEntry(25, 9, 26)])
    case 28 => LeafNode(31, 24, 29, Entries(37, 2))
    case 29 => LeafNode(31, 28, 30, Entries(39, 2))
    case 30 => LeafNode(31, 29, 0, Entries(41, 3))
    case _ => BranchNode(26, 25, 0, [BranchEntry(39, 28, 29), BranchEntry(41, 29, 30)])
  }

  function StuckNodes(): Nodes {
    map x | x in Live() :: NodeOf(x)
  }

  lemma {:induction false} RunSpans(id: Id, k: Key, count: nat)
    requires count > 0
    ensures Spans(Flat(Run(id, k, count)), k, k + count - 1)
  {
  }

  lemma {:induction false} Spans3(t: Tree, a: Id, b: Id, c: Id, k: Key, last: nat)
    requires t.Branch? && last > 0 && t.keys == [k + 2, k + 4] && t.kids == [Run(a, k, 2), Run(b, k + 2, 2), Run(c, k + 4, last)]
    ensures Spans(Flat(t), k, k + 3 + last)
  {
    hide Spans, Flat, Run;
    RunSpans(a, k, 2);
    RunSpans(b, k + 2, 2);
    RunSpans(c, k + 4, last);
    BranchSpans(t, [k, k + 2, k + 4], [k + 1, k + 3, k + 3 + last]);
  }

  lemma {:induction false} Spans8()
    ensures Spans(Flat(T8()), 8, 18)
  {
    hide Spans, Flat, Run;
    RunSpans(5, 8, 3);
    RunSpans(7, 11, 2);
    RunSpans(10, 13, 2);
    RunSpans(11, 15, 2);
    RunSpans(12, 17, 2);
    BranchSpans(T8(), [8, 11, 13, 15, 17], [10, 12, 14, 16, 18]);
  }

  lemma {:induction false} StuckSorted()
    ensures Sorted(Flat(StuckTree()))
  {
    hide Spans, Flat, Run, Sorted;
    Spans3(T3(), 1, 2, 4, 1, 2);
    Spans8();
    Spans3(T17(), 14, 15, 16, 19, 2);
    BranchSpans(T9(), [1, 8, 19], [6, 18, 24]);
    Spans3(T21(), 18, 19, 20, 25, 2);
    Spans3(T25(), 22, 23, 24, 31, 2);
    Spans3(T31(), 28, 29, 30, 37, 3);
    BranchSpans(T26(), [25, 31, 37], [30, 36, 43]);
    BranchSpans(StuckTree(), [1, 25], [24, 43]);
    SpansSorted(Flat(StuckTree()), 1, 43);
  }

  lemma {:induction false} SpansSorted(s: seq<Tok>, lo: Key, hi: Key)
    requires Spans(s, lo, hi)
    ensures Sorted(s)
  {
    ChainSorted(s);
  }

  // ---------- Ids ----------

  lemma {:induction false} ThreeKids(h: nat, x: Tree, y: Tree, z: Tree)
    ensures BagF([x, y, z]) == Bag(x) + Bag(y) + Bag(z) && IdsOf([x, y, z]) == [x.id, y.id, z.id]
    ensures forall l :: LevelF(h, [x, y, z], l) == Level(h, x, l) + Level(h, y, l) + Level(h, z, l)
  {
    hide Bag, BagF, Level, LevelF;
    assert [x, y, z] == [x, y] + [z];
    TwoKids(x, 0, y);
    OneKid(z);
    BagFConcat([x, y], [z]);
    forall l ensures LevelF(h, [x, y, z], l) == Level(h, x, l) + Level(h, y, l) + Level(h, z, l) { LevelFConcat(h, [x, y], [z], l); }
  }

  lemma {:induction false} RunIds(id: Id, k: Key, count: nat)
    ensures Bag(Run(id, k, count)) == multiset{id} && Level(0, Run(id, k, count), 0) == [id] && Run(id, k, count).id == id
  {
  }

  lemma {:induction false} RunSize(id: Id, k: Key, count: nat)
    ensures Size(Run(id, k, count)) == count && Run(id, k, count).Leaf?
  {
  }

  lemma {:induction false} BranchIds(h: nat, t: Tree)
    requires t.Branch?
    ensures Bag(t) == multiset{t.id} + BagF(t.kids) && Level(h + 1, t, h + 1) == [t.id]
    ensures forall l: nat :: l <= h ==> Level(h + 1, t, l) == LevelF(h, t.kids, l)
  {
  }

  lemma {:induction false} OneId(x: Id)
    ensures multiset{x} == multiset({x})
  {
  }

  /** Ids that occur once on both sides and on no two sides occur once altogether. */
  lemma {:induction false} SumOnce(a: multiset<Id>, b: multiset<Id>, x: set<Id>, y: set<Id>)
    requires a == multiset(x) && b == multiset(y) && x !! y
    ensures a + b == multiset(x + y)
  {
  }

  lemma {:induction false} Ids3(t: Tree, a: Id, b: Id, c: Id, k: Key, last: nat)
    requires t.Branch? && t.kids == [Run(a, k, 2), Run(b, k + 2, 2), Run(c, k + 4, last)] && a < b < c && t.id != a && t.id != b && t.id != c
    ensures Bag(t) == multiset({t.id} + ({a} + {b} + {c})) && Level(1, t, 0) == [a] + [b] + [c] && Level(1, t, 1) == [t.id]
  {
    hide Bag, BagF, Level, LevelF, Run;
    RunIds(a, k, 2);
    RunIds(b, k + 2, 2);
    RunIds(c, k + 4, last);
    ThreeKids(0, Run(a, k, 2), Run(b, k + 2, 2), Run(c, k + 4, last));
    BranchIds(0, t);
    OneId(t.id);
    OneId(a);
    OneId(b);
    OneId(c);
    SumOnce(multiset{a}, multiset{b}, {a}, {b});
    SumOnce(multiset{a} + multiset{b}, multiset{c}, {a} + {b}, {c});
    SumOnce(multiset{t.id}, multiset{a} + multiset{b} + multiset{c}, {t.id}, {a} + {b} + {c});
  }

  lemma {:induction false} Ids8()
    ensures Bag(T8()) == multiset({8} + (({5} + {7} + {10}) + ({11} + {12})))
    ensures Level(1, T8(), 0) == ([5] + [7] + [10]) + ([11] + [12]) && Level(1, T8(), 1) == [8]
  {
    hide Bag, BagF, Level, LevelF, Run;
    var a, b, c, d, e := Run(5, 8, 3), Run(7, 11, 2), Run(10, 13, 2), Run(11, 15, 2), Run(12, 17, 2);
    RunIds(5, 8, 3);
    RunIds(7, 11, 2);
    RunIds(10, 13, 2);
    RunIds(11, 15, 2);
    RunIds(12, 17, 2);
    ThreeKids(0, a, b, c);
    TwoKids(d, 0, e);
    assert T8().kids == [a, b, c] + [d, e];
    BagFConcat([a, b, c], [d, e]);
    LevelFConcat(0, [a, b, c], [d, e], 0);
    BranchIds(0, T8());
    Once8();
  }

  lemma {:induction false} Once8()
    ensures multiset{8} + ((multiset{5} + multiset{7} + multiset{10}) + (multiset{11} + multiset{12})) == multiset({8} + (({5} + {7} + {10}) + ({11} + {12})))
  {
    OneId(8);
    OneId(5);
    OneId(7);
    OneId(10);
    OneId(11);
    OneId(12);
    SumOnce(multiset{5}, multiset{7}, {5}, {7});
    SumOnce(multiset{5} + multiset{7}, multiset{10}, {5} + {7}, {10});
    SumOnce(multiset{11}, multiset{12}, {11}, {12});
    SumOnce(multiset{5} + multiset{7} + multiset{10}, multiset{11} + multiset{12}, {5} + {7} + {10}, {11} + {12});
    SumOnce(multiset{8}, (multiset{5} + multiset{7} + multiset{10}) + (multiset{11} + multiset{12}), {8}, ({5} + {7} + {10}) + ({11} + {12}));
  }

  /** Three branches over leaves below one more. */
  lemma {:induction false} IdsOver(t: Tree, x: Tree, y: Tree, z: Tree, a: set<Id>, b: set<Id>, c: set<Id>)
    requires t.Branch? && t.kids == [x, y, z] && x.Branch? && y.Branch? && z.Branch?
    requires Bag(x) == multiset(a) && Bag(y) == multiset(b) && Bag(z) == multiset(c) && a !! b !! c && t.id !in a + b + c
    ensures Bag(t) == multiset({t.id} + (a + b + c)) && Level(2, t, 2) == [t.id]
    ensures Level(2, t, 0) == Level(1, x, 0) + Level(1, y, 0) + Level(1, z, 0) && Level(2, t, 1) == [x.id] + [y.id] + [z.id]
  {
    hide Bag, BagF, Level, LevelF;
    ThreeKids(1, x, y, z);
    BranchIds(1, t);
    BranchIds(0, x);
    BranchIds(0, y);
    BranchIds(0, z);
    OneId(t.id);
    SumOnce(Bag(x), Bag(y), a, b);
    SumOnce(Bag(x) + Bag(y), Bag(z), a + b, c);
    SumOnce(multiset{t.id}, Bag(x) + Bag(y) + Bag(z), {t.id}, a + b + c);
  }

  function Small(id: Id, a: Id, b: Id, c: Id): set<Id> {
    {id} + ({a} + {b} + {c})
  }

  function LeftIds(): set<Id> {
    {9} + (Small(3, 1, 2, 4) + ({8} + (({5} + {7} + {10}) + ({11} + {12}))) + Small(17, 14, 15, 16))
  }

  function RightIds(): set<Id> {
    {26} + (Small(21, 18, 19, 20) + Small(25, 22, 23, 24) + Small(31, 28, 29, 30))
  }

  function FrontLeaves(): seq<Id> {
    ([1] + [2] + [4]) + (([5] + [7] + [10]) + ([11] + [12])) + ([14] + [15] + [16])
  }

  function BackLeaves(): seq<Id> {
    ([18] + [19] + [20]) + ([22] + [23] + [24]) + ([28] + [29] + [30])
  }

  function LeafIds(): seq<Id> {
    FrontLeaves() + BackLeaves()
  }

  lemma {:induction false} LeftHalf()
    ensures Bag(T9()) == multiset(LeftIds()) && Level(2, T9(), 1) == [3] + [8] + [17] && Level(2, T9(), 2) == [9]
    ensures Level(2, T9(), 0) == FrontLeaves()
  {
    hide Bag, Level, Run;
    Ids3(T3(), 1, 2, 4, 1, 2);
    Ids8();
    Ids3(T17(), 14, 15, 16, 19, 2);
    IdsOver(T9(), T3(), T8(), T17(), Small(3, 1, 2, 4), {8} + (({5} + {7} + {10}) + ({11} + {12})), Small(17, 14, 15, 16));
  }

  lemma {:induction false} RightHalf()
    ensures Bag(T26()) == multiset(RightIds()) && Level(2, T26(), 1) == [21] + [25] + [31] && Level(2, T26(), 2) == [26]
    ensures Level(2, T26(), 0) == BackLeaves()
  {
    hide Bag, Level, Run;
    Ids3(T21(), 18, 19, 20, 25, 2);
    Ids3(T25(), 22, 23, 24, 31, 2);
    Ids3(T31(), 28, 29, 30, 37, 3);
    IdsOver(T26(), T21(), T25(), T31(), Small(21, 18, 19, 20), Small(25, 22, 23, 24), Small(31, 28, 29, 30));
  }

  lemma {:induction false} StuckIds()
    ensures Bag(StuckTree()) == multiset(Live())
    ensures Level(3, StuckTree(), 0) == LeafIds() && Level(3, StuckTree(), 1) == ([3] + [8] + [17]) + ([21] + [25] + [31])
    ensures Level(3, StuckTree(), 2) == [9] + [26] && Level(3, StuckTree(), 3) == [27]
  {
    hide Bag, BagF, Level, LevelF, T9, T26, LeftIds, RightIds, Live, FrontLeaves, BackLeaves;
    LeftHalf();
    RightHalf();
    TwoKids(T9(), 25, T26());
    BranchIds(2, StuckTree());
    AllIds();
    OneId(27);
    SumOnce(Bag(T9()), Bag(T26()), LeftIds(), RightIds());
    SumOnce(multiset{27}, Bag(T9()) + Bag(T26()), {27}, LeftIds() + RightIds());
  }

  lemma {:induction false} LeftOnes(x: Id)
    ensures x in LeftIds() <==> 0 < x < 18 && x != 6 && x != 13
  {
  }

  lemma {:induction false} RightOnes(x: Id)
    ensures x in RightIds() <==> 18 <= x < 32 && x != 27
  {
  }

  lemma {:induction false} AllIds()
    ensures LeftIds() !! RightIds() && 27 !in LeftIds() + RightIds() && {27} + (LeftIds() + RightIds()) == Live()
  {
    hide LeftIds, RightIds;
    forall x: Id ensures x in LeftIds() <==> 0 < x < 18 && x != 6 && x != 13 { LeftOnes(x); }
    forall x: Id ensures x in RightIds() <==> 18 <= x < 32 && x != 27 { RightOnes(x); }
  }

  lemma {:induction false} StuckProper()
    ensures Proper(StuckNodes(), 32, Bag(StuckTree()))
  {
    hide Bag, StuckTree, NodeOf;
    StuckIds();
    forall x | x in StuckNodes() ensures StuckNodes()[x].left < 32 { LeftBelow(x); }
  }

  lemma {:induction false} LeftBelow(x: Id)
    requires x in Live()
    ensures NodeOf(x).left < 32
  {
    hide Entries;
  }

  // ---------- Contents, parents and links ----------

  lemma {:induction false} RunRep(id: Id, k: Key, count: nat, p: Id)
    requires id in Live() && NodeOf(id).LeafNode? && NodeOf(id).parent == p && NodeOf(id).entries == Entries(k, count)
    ensures Rep(StuckNodes(), Run(id, k, count), p)
  {
    hide NodeOf, Live;
  }

  lemma {:induction false} BranchRep(t: Tree, p: Id)
    requires t.Branch? && |t.kids| == |t.keys| + 1 && t.id in Live() && NodeOf(t.id).BranchNode? && NodeOf(t.id).parent == p
    requires NodeOf(t.id).slots == Slots(t.keys, IdsOf(t.kids)) && forall i :: 0 <= i < |t.kids| ==> Rep(StuckNodes(), t.kids[i], t.id)
    ensures Rep(StuckNodes(), t, p)
  {
    hide NodeOf, Live;
  }

  lemma {:induction false} Rep3(t: Tree, p: Id, a: Id, b: Id, c: Id, k: Key, last: nat)
    requires t.Branch? && t.keys == [k + 2, k + 4] && t.kids == [Run(a, k, 2), Run(b, k + 2, 2), Run(c, k + 4, last)] && last > 0
    requires t.id in Live() && NodeOf(t.id) == BranchNode(p, NodeOf(t.id).left, NodeOf(t.id).right, [BranchEntry(k + 2, a, b), BranchEntry(k + 4, b, c)])
    requires a in Live() && b in Live() && c in Live() && NodeOf(a).LeafNode? && NodeOf(b).LeafNode? && NodeOf(c).LeafNode?
    requires NodeOf(a).parent == NodeOf(b).parent == NodeOf(c).parent == t.id
    requires NodeOf(a).entries == Entries(k, 2) && NodeOf(b).entries == Entries(k + 2, 2) && NodeOf(c).entries == Entries(k + 4, last)
    ensures Rep(StuckNodes(), t, p)
  {
    hide NodeOf, Live, Rep, Run, Entries;
    RunIds(a, k, 2);
    RunIds(b, k + 2, 2);
    RunIds(c, k + 4, last);
    RunRep(a, k, 2, t.id);
    RunRep(b, k + 2, 2, t.id);
    RunRep(c, k + 4, last, t.id);
    assert IdsOf(t.kids) == [a, b, c];
    assert Slots(t.keys, [a, b, c]) == [BranchEntry(k + 2, a, b), BranchEntry(k + 4, b, c)];
    BranchRep(t, p);
  }

  lemma {:induction false} Rep8()
    ensures Rep(StuckNodes(), T8(), 9)
  {
    hide Rep, Run, Entries;
    RunIds(5, 8, 3);
    RunIds(7, 11, 2);
    RunIds(10, 13, 2);
    RunIds(11, 15, 2);
    RunIds(12, 17, 2);
    RunRep(5, 8, 3, 8);
    RunRep(7, 11, 2, 8);
    RunRep(10, 13, 2, 8);
    RunRep(11, 15, 2, 8);
    RunRep(12, 17, 2, 8);
    assert IdsOf(T8().kids) == [5, 7, 10, 11, 12];
    assert Slots(T8().keys, [5, 7, 10, 11, 12]) == NodeOf(8).slots;
    BranchRep(T8(), 9);
  }

  lemma {:induction false} StuckRep()
    ensures Rep(StuckNodes(), StuckTree(), 0)
  {
    hide Rep, Run, Entries;
    Rep3(T3(), 9, 1, 2, 4, 1, 2);
    Rep8();
    Rep3(T17(), 9, 14, 15, 16, 19, 2);
    RepOver(T9(), 27, T3(), T8(), T17());
    Rep3(T21(), 26, 18, 19, 20, 25, 2);
    Rep3(T25(), 26, 22, 23, 24, 31, 2);
    Rep3(T31(), 26, 28, 29, 30, 37, 3);
    RepOver(T26(), 27, T21(), T25(), T31());
    assert IdsOf(StuckTree().kids) == [9, 26] && Slots([25], [9, 26]) == [BranchEntry(25, 9, 26)];
    BranchRep(StuckTree(), 0);
  }

  lemma {:induction false} RepOver(t: Tree, p: Id, x: Tree, y: Tree, z: Tree)
    requires t.Branch? && |t.keys| == 2 && t.kids == [x, y, z] && t.id in Live()
    requires Rep(StuckNodes(), x, t.id) && Rep(StuckNodes(), y, t.id) && Rep(StuckNodes(), z, t.id)
    requires NodeOf(t.id) == BranchNode(p, NodeOf(t.id).left, NodeOf(t.id).right, [BranchEntry(t.keys[0], x.id, y.id), BranchEntry(t.keys[1], y.id, z.id)])
    ensures Rep(StuckNodes(), t, p)
  {
    hide Rep, NodeOf, Live;
    assert IdsOf(t.kids) == [x.id, y.id, z.id];
    assert Slots(t.keys, [x.id, y.id, z.id]) == [BranchEntry(t.keys[0], x.id, y.id), BranchEntry(t.keys[1], y.id, z.id)];
    BranchRep(t, p);
  }

  /** Part of a level, between `p` and `q`. */
  ghost predicate Part(exact: bool, s: seq<Id>, p: Id, q: Id) {
    && s != [] && (forall i :: 0 <= i < |s| ==> s[i] in Live())
    && (forall i :: 0 < i < |s| ==> s[i - 1] < s[i])
    && (forall i :: 0 <= i < |s| ==> PlacedAt(exact, s, i, p, q))
  }

  predicate PlacedAt(exact: bool, s: seq<Id>, i: nat, p: Id, q: Id)
    requires i < |s|
  {
    Between(exact, s[i], if i == 0 then p else s[i - 1], if i + 1 < |s| then s[i + 1] else q)
  }

  predicate Between(exact: bool, x: Id, left: Id, right: Id) {
    NodeOf(x).right == right && (NodeOf(x).left == left || (!exact && left != 0 && NodeOf(x).left !in Live() && NodeOf(x).left != 0))
  }

  lemma {:induction false} PartOne(exact: bool, x: Id, p: Id, q: Id)
    requires x in Live() && Between(exact, x, p, q)
    ensures Part(exact, [x], p, q)
  {
  }

  lemma {:induction false} PartConcat(exact: bool, s: seq<Id>, t: seq<Id>, p: Id, q: Id)
    requires t != [] && s != [] && Part(exact, s, p, t[0]) && Part(exact, t, s[|s| - 1], q) && s[|s| - 1] < t[0]
    ensures Part(exact, s + t, p, q)
  {
    hide Between, Live;
    var u := s + t;
    forall i | 0 <= i < |u| ensures PlacedAt(exact, u, i, p, q) && u[i] in Live() && (i > 0 ==> u[i - 1] < u[i]) {
      if i < |s| { assert PlacedAt(exact, s, i, p, t[0]) && u[i] == s[i]; } else { assert PlacedAt(exact, t, i - |s|, s[|s| - 1], q) && u[i] == t[i - |s|]; }
    }
  }

  lemma {:induction false} Part3(exact: bool, a: Id, b: Id, c: Id, p: Id, q: Id)
    requires a in Live() && b in Live() && c in Live() && a < b < c
    requires Between(exact, a, p, b) && Between(exact, b, a, c) && Between(exact, c, b, q)
    ensures Part(exact, [a] + [b] + [c], p, q)
  {
    hide Live, Between;
    assert [a] + [b] + [c] == [a, b, c];
  }

  lemma {:induction false} PartLinked(exact: bool, s: seq<Id>)
    requires Part(exact, s, 0, 0)
    ensures Linked(StuckNodes(), exact, s)
  {
    hide NodeOf;
    forall i, j | 0 <= i < j < |s| ensures s[i] != s[j] { Rising(s, i, j); }
    forall i | 0 <= i < |s| ensures RightLinked(StuckNodes(), s, i) && LeftLinked(StuckNodes(), exact, s, i) {
      assert PlacedAt(exact, s, i, 0, 0);
    }
  }

  lemma {:induction false} Rising(s: seq<Id>, i: nat, j: nat)
    requires (forall i :: 0 < i < |s| ==> s[i - 1] < s[i]) && i < j < |s|
    ensures s[i] < s[j]
    decreases j
  {
    if i + 1 < j { Rising(s, i, j - 1); }
  }

  lemma {:induction false} FrontLinked()
    ensures Part(true, FrontLeaves(), 0, 18) && FrontLeaves()[|FrontLeaves()| - 1] == 16
  {
    hide Entries, Part;
    Part3(true, 1, 2, 4, 0, 5);
    Part3(true, 5, 7, 10, 4, 11);
    PartOne(true, 11, 10, 12);
    PartOne(true, 12, 11, 14);
    PartConcat(true, [11], [12], 10, 14);
    PartConcat(true, [5] + [7] + [10], [11] + [12], 4, 14);
    Part3(true, 14, 15, 16, 12, 18);
    PartConcat(true, [1] + [2] + [4], ([5] + [7] + [10]) + ([11] + [12]), 0, 14);
    PartConcat(true, ([1] + [2] + [4]) + (([5] + [7] + [10]) + ([11] + [12])), [14] + [15] + [16], 0, 18);
  }

  lemma {:induction false} BackLinked()
    ensures Part(true, BackLeaves(), 16, 0) && BackLeaves()[0] == 18
  {
    hide Entries, Part;
    Part3(true, 18, 19, 20, 16, 22);
    Part3(true, 22, 23, 24, 20, 28);
    Part3(true, 28, 29, 30, 24, 0);
    PartConcat(true, [18] + [19] + [20], [22] + [23] + [24], 16, 28);
    PartConcat(true, ([18] + [19] + [20]) + ([22] + [23] + [24]), [28] + [29] + [30], 16, 0);
  }

  lemma {:induction false} StuckLeaves()
    ensures Linked(StuckNodes(), true, LeafIds())
  {
    hide Part, Linked;
    FrontLinked();
    BackLinked();
    PartConcat(true, FrontLeaves(), BackLeaves(), 0, 0);
    PartLinked(true, LeafIds());
  }

  lemma {:induction false} StuckBranches()
    ensures Linked(StuckNodes(), false, ([3] + [8] + [17]) + ([21] + [25] + [31])) && Linked(StuckNodes(), false, [9] + [26])
    ensures Linked(StuckNodes(), false, [27])
  {
    hide Entries, Part, Linked;
    Part3(false, 3, 8, 17, 0, 21);
    Part3(false, 21, 25, 31, 17, 0);
    PartConcat(false, [3] + [8] + [17], [21] + [25] + [31], 0, 0);
    PartLinked(false, ([3] + [8] + [17]) + ([21] + [25] + [31]));
    PartOne(false, 9, 0, 26);
    PartOne(false, 26, 9, 0);
    PartConcat(false, [9], [26], 0, 0);
    PartLinked(false, [9] + [26]);
    PartOne(false, 27, 0, 0);
    PartLinked(false, [27]);
  }

  lemma {:induction false} StuckLinks()
    ensures LinksAll(StuckNodes(), 1, false, 3, StuckTree())
  {
    hide Level, Linked, StuckTree, StuckNodes;
    StuckIds();
    StuckLeaves();
    StuckBranches();
    var n, t, h := StuckNodes(), StuckTree(), 3;
    forall l: nat | l <= h ensures LevelLinked(n, false, h, t, l) {
      assert l == 0 || l == 1 || l == 2 || l == 3;
    }
  }

  lemma {:induction false} GoodOver(c: Caps, h: nat, t: Tree)
    requires t.Branch? && h > 0 && |t.kids| == |t.keys| + 1 && Cap(c, h) / 2 <= |t.keys| <= Cap(c, h) && GoodF(c, h - 1, t.kids)
    ensures Good(c, h, t)
  {
  }

  lemma {:induction false} GoodLow(t: Tree)
    requires t.Branch? && |t.kids| == |t.keys| + 1 && 2 <= |t.keys| <= 4
    requires forall i :: 0 <= i < |t.kids| ==> t.kids[i].Leaf? && 2 <= |t.kids[i].entries| <= 4
    ensures Good(Caps(4, 4), 1, t)
  {
  }

  lemma {:induction false} StuckGood()
    ensures RootGood(Caps(4, 4), 3, StuckTree())
  {
    hide Good;
    GoodLow(T3());
    GoodLow(T8());
    GoodLow(T17());
    GoodLow(T21());
    GoodLow(T25());
    GoodLow(T31());
    GoodOver(Caps(4, 4), 2, T9());
    GoodOver(Caps(4, 4), 2, T26());
  }

  /** Deleting key 19 merges leaf 15 into leaf 14 and leaves branch 17 with one key, the last child of its
      parent, with a left link to branch 13, which is gone. */
  lemma {:induction false} StuckPath()
    ensures LeafOf(StuckTree(), 19) == Run(14, 19, 2)
    ensures Ends(StuckNodes(), Caps(4, 4), true, 0, PathTo(Top, StuckTree(), 19), 14, 1) == Stuck
  {
    hide Run, Entries;
    RunSize(14, 19, 2);
    RunSize(15, 21, 2);
    var t, u, v := StuckTree(), T9(), T17();
    ChildSlotIs([25], 19, 0);
    ChildSlotIs([7, 19], 19, 2);
    ChildSlotIs([21, 23], 19, 0);
    var a := Below(Top, t, 0);
    var b := Below(a, u, 2);
    var c := Below(b, v, 0);
    RunIds(14, 19, 2);
    assert PathTo(Top, t, 19) == PathTo(a, u, 19) == PathTo(b, v, 19) == PathTo(c, v.kids[0], 19);
    assert LeafOf(t, 19) == LeafOf(u, 19) == LeafOf(v, 19) == LeafOf(v.kids[0], 19);
    assert Ends(StuckNodes(), Caps(4, 4), true, 1, b, 17, 1) == Stuck;
  }

  lemma {:induction false} HasKey()
    ensures 19 in MapOf(Ents(Flat(StuckTree())))
  {
    hide Flat, Ents, MapOf, Run;
    var e := LeafEntry(19, RowID(0, 0));
    RunHolds(14, 19, 2, 0);
    BranchHolds(T17(), 0, e);
    BranchHolds(T9(), 2, e);
    BranchHolds(StuckTree(), 0, e);
    HoldsKey(Ents(Flat(StuckTree())), e);
  }

  lemma {:induction false} LostLink()
    ensures 13 !in StuckNodes() && 17 in StuckNodes() && StuckNodes()[17].left == 13
  {
    hide Entries;
  }

  /** The store is sound and well filled for a tree of capacities 4, branch 17 has its left link at the freed branch 13,
      and a delete of key 19, which is there, gets stuck. */
  lemma {:induction false} StuckDelete()
    ensures 13 !in StuckNodes() && 17 in StuckNodes() && StuckNodes()[17].left == 13 && 19 in MapOf(Ents(Flat(StuckTree())))
    ensures Sound(StuckNodes(), 32, 1, false, 3, StuckTree()) && RootGood(Caps(4, 4), 3, StuckTree())
    ensures EndIn(StuckNodes(), Caps(4, 4), true, StuckTree(), 19) == Stuck
  {
    hide LinksAll, Sorted, Flat, Rep, RootGood, Bag, Level, Ends, PathTo, LeafOf, StuckTree, StuckNodes, Proper, Run, MapOf, Ents;
    HasKey();
    LostLink();
    StuckSorted();
    StuckRep();
    StuckLinks();
    StuckGood();
    StuckProper();
    StuckPath();
    RunSize(14, 19, 2);
    RunIds(14, 19, 2);
  }
}
