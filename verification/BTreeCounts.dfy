/** How many nodes a tree takes for the entries it holds. */
module BTreeCounts {
  import opened RowIDs
  import opened BTreeNodes
  import opened BTreeModel
  import opened BTreeInvariant
  import opened BTreeSearch
  import opened BTreeFacts

  /** Leaves are half full and there are more leaves than branches. */
  function MaxNodes(c: Caps, entries: nat): nat
    requires CapsOk(c)
  {
    1 + 2 * (entries / (c.leaf / 2))
  }

  /** Below the root every node stands for half a leaf of entries, with one to spare. */
  lemma {:induction false} TreeCount(c: Caps, h: nat, t: Tree)
    requires CapsOk(c) && Good(c, h, t)
    ensures (|Bag(t)| + 1) * (c.leaf / 2) <= 2 * |Ents(Flat(t))|
    decreases t, 1
  {
    hide Flat, Bag, BagF, Ents;
    TreeShape(c, h, t);
    if t.Leaf? {
      EntsLeaf(t.id, t.entries);
      LeafBag(t);
    } else {
      BranchCount(c, h, t);
    }
  }

  lemma {:induction false} TreeShape(c: Caps, h: nat, t: Tree)
    requires CapsOk(c) && Good(c, h, t)
    ensures t.Leaf? ==> c.leaf / 2 <= |t.entries|
    ensures t.Branch? ==> h > 0 && |t.kids| == |t.keys| + 1 && t.keys != [] && GoodF(c, h - 1, t.kids)
  {
  }

  lemma {:induction false} LeafBag(t: Tree)
    requires t.Leaf?
    ensures |Bag(t)| == 1
  {
  }

  lemma {:induction false} BranchBag(t: Tree)
    requires t.Branch?
    ensures |Bag(t)| == 1 + |BagF(t.kids)|
  {
  }

  lemma {:induction false} BranchCount(c: Caps, h: nat, t: Tree)
    requires CapsOk(c) && t.Branch? && h > 0 && |t.kids| == |t.keys| + 1 && t.keys != [] && GoodF(c, h - 1, t.kids)
    ensures (|Bag(t)| + 1) * (c.leaf / 2) <= 2 * |Ents(Flat(t))|
    decreases t, 0
  {
    hide Flat, Bag, BagF, Ents, GoodF;
    BranchFlat(t);
    BranchBag(t);
    ForestCount(c, h - 1, t.keys, t.kids);
    Grown(c.leaf / 2, |Bag(t)| + 1, |BagF(t.kids)| + |t.kids|);
  }

  lemma {:induction false} Grown(k: nat, a: nat, b: nat)
    requires a <= b
    ensures a * k <= b * k
  {
  }

  lemma {:induction false} Shared(k: nat, a: nat, b: nat)
    ensures (a + b) * k == a * k + b * k
  {
  }

  lemma {:induction false} ForestCount(c: Caps, h: nat, keys: seq<Key>, kids: seq<Tree>)
    requires CapsOk(c) && |kids| == |keys| + 1 && GoodF(c, h, kids)
    ensures (|BagF(kids)| + |kids|) * (c.leaf / 2) <= 2 * |Ents(SegFlat(keys, kids))|
    decreases kids
  {
    hide Flat, FlatR, Bag, Ents, Good;
    var rest := kids[1..];
    TreeCount(c, h, kids[0]);
    if keys == [] {
      assert kids == [kids[0]];
      OneKid(kids[0]);
    } else {
      assert forall i :: 0 <= i < |rest| ==> rest[i] == kids[i + 1];
      ForestCount(c, h, keys[1..], rest);
      SegPeel(keys[0], kids[0], keys[1..], rest);
      assert keys == [keys[0]] + keys[1..] && kids == [kids[0]] + rest;
      EntsSep(Flat(kids[0]), keys[0], SegFlat(keys[1..], rest));
      Shared(c.leaf / 2, |Bag(kids[0])| + 1, |BagF(rest)| + |rest|);
    }
  }

  /** A tree of capacity `c.leaf` has at most one node and two for every half leaf of entries. */
  lemma {:induction false} NodeCount(n: Nodes, next: Id, first: Id, exact: bool, c: Caps, h: nat, t: Tree)
    requires CapsOk(c) && Sound(n, next, first, exact, h, t) && RootGood(c, h, t)
    ensures |n| <= MaxNodes(c, |Ents(Flat(t))|)
  {
    hide Flat, Bag, Ents, LinksAll, Sorted, Rep;
    BagSize(n, next, Bag(t));
    if t.Leaf? {
      LeafBag(t);
    } else {
      BranchCount(c, h, t);
      Quotient(|Bag(t)|, c.leaf / 2, |Ents(Flat(t))|);
    }
  }

  lemma {:induction false} Quotient(a: nat, k: nat, e: nat)
    requires k > 0 && (a + 1) * k <= 2 * e
    ensures a <= 1 + 2 * (e / k)
  {
    var q := e / k;
    assert e < (q + 1) * k;
    assert 2 * ((q + 1) * k) == (2 * q + 2) * k;
    Cancel(k, a + 1, 2 * q + 2);
  }

  lemma {:induction false} Cancel(k: nat, a: nat, b: nat)
    requires a * k < b * k
    ensures a < b
  {
    if b <= a { Grown(k, b, a); }
  }

  lemma {:induction false} BagSize(n: Nodes, next: Id, b: multiset<Id>)
    requires Proper(n, next, b)
    ensures |n| == |b|
  {
    assert b == multiset(n.Keys);
  }

  lemma {:induction false} MapSize(es: seq<LeafEntry>)
    requires KeysIncreasing(es)
    ensures |MapOf(es)| == |es|
  {
    if es != [] {
      var rest := es[1..];
      assert forall i :: 0 <= i < |rest| ==> rest[i] == es[i + 1];
      MapSize(rest);
      NotInMap(rest, es[0].key);
      assert MapOf(es).Keys == MapOf(rest).Keys + {es[0].key};
    }
  }
}
