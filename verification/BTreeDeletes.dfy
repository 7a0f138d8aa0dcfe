/** Facts about deletion: neighbours of an underfull node, what a merge or a loan leaves behind,
    and the left links on the path to the root, which decide whether a delete can go on. */
module BTreeDeletes {
  import opened BTreeNodes
  import opened BTreeModel
  import opened BTreeInvariant
  import opened BTreeMoves
  import opened BTreeSearch
  import opened BTreeFacts

  // ---------- Left links on the path ----------

  /** Both stores have the same left links on the path from the hole to the root. */
  ghost predicate SamePath(n: Nodes, n': Nodes, ctx: Ctx) {
    forall z :: OnPath(ctx, z) ==> LeftOf(n, z) == LeftOf(n', z)
  }

  lemma {:induction false} SamePathTrans(n: Nodes, m: Nodes, n': Nodes, ctx: Ctx)
    requires SamePath(n, m, ctx) && SamePath(m, n', ctx)
    ensures SamePath(n, n', ctx)
  {
  }

  /** The branch around the hole may get new slots. */
  lemma {:induction false} SamePathUp(n: Nodes, m: Nodes, n': Nodes, ctx: Ctx)
    requires ctx.Frame? && SamePath(n, m, ctx) && ctx.id in m && m[ctx.id].BranchNode?
    requires exists slots :: n' == Reslot(m, ctx.id, slots)
    ensures SamePath(n, n', ctx.up) && LeftOf(n, ctx.id) == LeftOf(n', ctx.id)
  {
    assert OnPath(ctx, ctx.id);
    assert forall z :: OnPath(ctx.up, z) ==> OnPath(ctx, z);
    assert forall z :: LeftOf(m, z) == LeftOf(n', z);
  }

  lemma {:induction false} PairPath(n: Nodes, n': Nodes, ctx: Ctx, pair: Ctx)
    requires ctx.Frame? && pair.Frame? && pair.up == ctx.up && pair.id == ctx.id && SamePath(n, n', ctx)
    ensures SamePath(n, n', pair)
  {
    assert forall z :: OnPath(pair, z) ==> OnPath(ctx, z);
  }

  lemma {:induction false} EditPath(n: Nodes, n': Nodes, id: Id, ctx: Ctx)
    requires id in n && n[id].LeafNode? && exists es :: n' == n[id := n[id].(entries := es)]
    ensures SamePath(n, n', ctx) && LeftOf(n, id) == LeftOf(n', id)
  {
  }

  // ---------- Neighbours ----------

  /** What the sibling searches find: the right neighbour whenever there is one, the left one
      whenever the left link shows it. */
  lemma {:induction false} Neighbours(n: Nodes, next: Id, first: Id, exact: bool, c: Caps, h: nat, ctx: Ctx, t: Tree)
    requires CapsOk(c) && ctx.Frame? && GoodCtx(c, h, ctx) && Sound(n, next, first, exact, h + Depth(ctx), Plug(ctx, t))
    ensures t.id in n && 0 !in n && (ctx.rt != [] || ctx.lt != [])
    ensures |ctx.lk| == |ctx.lt| && |ctx.rk| == |ctx.rt|
    ensures ctx.rt != [] <==> n[t.id].right in n && n[n[t.id].right].parent == n[t.id].parent
    ensures ctx.rt != [] ==> n[t.id].right == ctx.rt[0].id && |NodeKeys(n[ctx.rt[0].id])| == Size(ctx.rt[0]) && Good(c, h, ctx.rt[0])
    ensures LeftVisible(n, ctx, t.id) <==> n[t.id].left in n && n[n[t.id].left].parent == n[t.id].parent
    ensures ctx.lt != [] ==> var z := ctx.lt[|ctx.lt| - 1]; z.id in n && |NodeKeys(n[z.id])| == Size(z) && Good(c, h, z)
    ensures h == 0 || exact ==> (LeftVisible(n, ctx, t.id) <==> ctx.lt != [])
  {
    hide Sound, Flat, Sorted, Plug, Depth, Rep, GoodCtx;
    GoodSidesOf(c, h, ctx);
    RightNeighbour(n, next, first, exact, h, ctx, t);
    LeftNeighbour(n, next, first, exact, h, ctx, t);
    OpenedOne(n, next, first, exact, h, ctx, t);
    HoleOutside(n, next, ctx, t, h);
    if ctx.rt != [] { KidSize(n, ctx.rt[0], ctx.id); }
    if ctx.lt != [] { KidSize(n, ctx.lt[|ctx.lt| - 1], ctx.id); }
  }

  lemma {:induction false} GoodSidesOf(c: Caps, h: nat, ctx: Ctx)
    requires CapsOk(c) && ctx.Frame? && GoodCtx(c, h, ctx)
    ensures Aligned(ctx) && |ctx.lk| + |ctx.rk| > 0 && GoodF(c, h, ctx.lt) && GoodF(c, h, ctx.rt)
  {
    GoodAligned(c, h, ctx);
  }

  lemma {:induction false} KidSize(n: Nodes, t: Tree, p: Id)
    requires Rep(n, t, p)
    ensures t.id in n && |NodeKeys(n[t.id])| == Size(t)
  {
  }

  /** Where all left links are exact, a node that underflows always finds a partner. */
  lemma {:induction false} NeverStalls(n: Nodes, next: Id, first: Id, c: Caps, right: bool, h: nat, ctx: Ctx, t: Tree, size: nat)
    requires CapsOk(c) && GoodCtx(c, h, ctx) && Sound(n, next, first, true, h + Depth(ctx), Plug(ctx, t))
    ensures Ends(n, c, right, h, ctx, t.id, size) != Stuck
    decreases ctx
  {
    hide Sound, Flat, Sorted;
    if ctx.Frame? {
      Neighbours(n, next, first, true, c, h, ctx, t);
      var keys := |ctx.lk| + |ctx.rk|;
      if keys > 0 {
        NeverStalls(n, next, first, c, right, h + 1, ctx.up, Branch(ctx.id, ctx.lk + ctx.rk, ctx.lt + [t] + ctx.rt), keys - 1);
      }
    }
  }

  /** The right link of the right one of two neighbours. */
  lemma {:induction false} PairRight(n: Nodes, next: Id, first: Id, exact: bool, h: nat, ctx: Ctx, x: Tree, k: Key, y: Tree)
    requires ctx.Frame? && Aligned(ctx) && Sound(n, next, first, exact, h + Depth(ctx), SegPlug(ctx, [k], [x, y]))
    ensures x.id in n && y.id in n && 0 !in n && n[y.id].right != x.id && n[y.id].right != y.id
  {
    hide Sound, Sorted, Flat, SegPlug, Rep, RepCtx;
    OpenTwo(n, next, first, exact, h, ctx, x, k, y);
    assert 0 !in n by { assert Proper(n, next, CBag(ctx) + (Bag(x) + Bag(y))); }
    NextKnown(n, h == 0 || exact, h, ctx, x.id, y.id);
  }

  /** Neither of two neighbours nor the node after them is on the path to the root. */
  lemma {:induction false} PathApart(n: Nodes, next: Id, first: Id, exact: bool, h: nat, ctx: Ctx, x: Tree, k: Key, y: Tree, z: Id)
    requires ctx.Frame? && Aligned(ctx) && Sound(n, next, first, exact, h + Depth(ctx), SegPlug(ctx, [k], [x, y]))
    requires OnPath(ctx, z) && x.id in n && y.id in n
    ensures z != x.id && z != y.id && (z != n[y.id].right || z !in n)
  {
    hide Sound, Flat, Bag, Rep, Sorted, SegPlug, PreLev, PostLev;
    OpenTwo(n, next, first, exact, h, ctx, x, k, y);
    TwoKids(x, k, y);
    var s, p := HoleLevel(h, ctx, [x.id, y.id]), |PreLev(h, ctx, h)|;
    assert s[p] == x.id && s[p + 1] == y.id && RightLinked(n, s, p + 1);
    if z in s {
      LevelNotPath(n, next, first, exact, h, ctx, [k], [x, y], z);
    }
    assert 0 !in n by { assert Proper(n, next, CBag(ctx) + (Bag(x) + Bag(y))); }
  }

  lemma {:induction false} PairAligned(c: Caps, h: nat, ctx: Ctx)
    requires GoodPair(c, h, ctx)
    ensures ctx.Frame? && Aligned(ctx) && |ctx.lk| == |ctx.lt| && |ctx.rk| == |ctx.rt|
  {
    GoodAligned(c, h, ctx);
  }

  /** A node and its right neighbour as a run of two children. */
  lemma {:induction false} RightReady(c: Caps, h: nat, ctx: Ctx, t: Tree, n: Nodes, n': Nodes)
    requires CapsOk(c) && ctx.Frame? && Aligned(ctx) && GoodCtx(c, h, ctx) && ctx.rt != [] && SamePath(n, n', ctx)
    ensures ctx.rk != [] && SegPlug(RightPair(ctx), [ctx.rk[0]], [t, ctx.rt[0]]) == Plug(ctx, t)
    ensures GoodPair(c, h, RightPair(ctx)) && Depth(RightPair(ctx)) == Depth(ctx) && SamePath(n, n', RightPair(ctx))
    ensures RightPair(ctx).up == ctx.up && RightPair(ctx).id == ctx.id
    ensures |RightPair(ctx).lk| + |RightPair(ctx).rk| + 1 == |ctx.lk| + |ctx.rk| && |RightPair(ctx).lk| == |ctx.lk|
    ensures Good(c, h, ctx.rt[0]) && (if h == 0 then ctx.rt[0].Leaf? && c.leaf / 2 <= |ctx.rt[0].entries| <= c.leaf else ctx.rt[0].Branch? && Sized(c, h, ctx.rt[0], 1, c.branch))
  {
    hide Plug, SegPlug, Depth, SamePath;
    RightPairPlug(ctx, t);
    RightPairGood(c, h, ctx);
    PairPath(n, n', ctx, RightPair(ctx));
  }

  /** A node and its left neighbour as a run of two children. */
  lemma {:induction false} LeftReady(c: Caps, h: nat, ctx: Ctx, t: Tree, n: Nodes, n': Nodes)
    requires CapsOk(c) && ctx.Frame? && Aligned(ctx) && GoodCtx(c, h, ctx) && ctx.lt != [] && SamePath(n, n', ctx)
    ensures ctx.lk != [] && SegPlug(LeftPair(ctx), [ctx.lk[|ctx.lk| - 1]], [ctx.lt[|ctx.lt| - 1], t]) == Plug(ctx, t)
    ensures GoodPair(c, h, LeftPair(ctx)) && Depth(LeftPair(ctx)) == Depth(ctx) && SamePath(n, n', LeftPair(ctx))
    ensures LeftPair(ctx).up == ctx.up && LeftPair(ctx).id == ctx.id
    ensures |LeftPair(ctx).lk| + |LeftPair(ctx).rk| + 1 == |ctx.lk| + |ctx.rk| && |LeftPair(ctx).lk| == |ctx.lk| - 1
    ensures var z := ctx.lt[|ctx.lt| - 1];
            Good(c, h, z) && (if h == 0 then z.Leaf? && c.leaf / 2 <= |z.entries| <= c.leaf else z.Branch? && Sized(c, h, z, 1, c.branch))
  {
    hide Plug, SegPlug, Depth, SamePath;
    LeftPairPlug(ctx, t);
    LeftPairGood(c, h, ctx);
    PairPath(n, n', ctx, LeftPair(ctx));
  }

  // ---------- Leaves ----------

  lemma {:induction false} MergeKeepsParent(n: Nodes, n': Nodes, p: Id, x: Id, y: Id)
    requires LeafMergeEffect(n, n', x, y) && p in n && n[p].BranchNode? && p != x && p != y
    ensures x in n' && n'[x].parent == n[x].parent && p in n' && n'[p].BranchNode? && n'[p].slots == n[p].slots
  {
  }

  lemma {:induction false} MergedEnts(ctx: Ctx, x: Tree, k: Key, y: Tree, t: Tree)
    requires ctx.Frame? && Aligned(ctx) && Ents(Flat(t)) == Ents(Flat(x)) + Ents(Flat(y))
    ensures Ents(Flat(Plug(ctx, t))) == Ents(Flat(SegPlug(ctx, [k], [x, y])))
    ensures Plug(ctx, t).id == SegPlug(ctx, [k], [x, y]).id
  {
    hide Ents, Flat, Plug, SegPlug;
    SameEntsSplit(ctx, t, x, k, y);
    SegPlugOne(ctx, t);
    SameSegRoot(ctx, [k], [x, y], [], [t]);
  }

  lemma {:induction false} MergedLeafEnts(ctx: Ctx, x: Tree, k: Key, y: Tree, t: Tree)
    requires ctx.Frame? && Aligned(ctx) && x.Leaf? && y.Leaf? && t == Leaf(x.id, x.entries + y.entries)
    ensures Ents(Flat(Plug(ctx, t))) == Ents(Flat(SegPlug(ctx, [k], [x, y])))
    ensures Plug(ctx, t).id == SegPlug(ctx, [k], [x, y]).id
  {
    hide Ents, Flat, Plug, SegPlug;
    EntsLeaf(x.id, x.entries);
    EntsLeaf(y.id, y.entries);
    EntsLeaf(t.id, t.entries);
    MergedEnts(ctx, x, k, y, t);
  }

  /** Left links on the path to the root are not touched by a merge of leaves. */
  lemma {:induction false} MergePathLeaf(n: Nodes, n': Nodes, next: Id, first: Id, exact: bool, ctx: Ctx, x: Tree, k: Key, y: Tree)
    requires ctx.Frame? && Aligned(ctx) && Sound(n, next, first, exact, Depth(ctx), SegPlug(ctx, [k], [x, y]))
    requires LeafMergeEffect(n, n', x.id, y.id)
    ensures SamePath(n, n', ctx)
  {
    hide Sound, Flat, SegPlug, LeafMergeEffect, Aligned, Depth;
    assert x.id in n && y.id in n by { MergeLeft(n, n', x.id, y.id, x.id); }
    forall z | OnPath(ctx, z) ensures LeftOf(n, z) == LeftOf(n', z) {
      PathApart(n, next, first, exact, 0, ctx, x, k, y, z);
      MergeLeft(n, n', x.id, y.id, z);
    }
  }

  lemma {:induction false} MergeLeft(n: Nodes, n': Nodes, x: Id, y: Id, z: Id)
    requires LeafMergeEffect(n, n', x, y)
    ensures x in n && y in n
    ensures z != y && (z != n[y].right || z !in n) ==> LeftOf(n, z) == LeftOf(n', z)
  {
  }

  lemma {:induction false} LeafGood(c: Caps, ctx: Ctx, id: Id, es: seq<LeafEntry>)
    requires |es| <= c.leaf && (ctx.Frame? ==> c.leaf / 2 <= |es|)
    ensures NodeGood(c, 0, ctx, Leaf(id, es))
  {
  }

  // ---------- The parent of merged nodes ----------

  lemma {:induction false} SlotCount(ctx: Ctx, keys: seq<Key>, ids: seq<Id>)
    requires ctx.Frame? && |ctx.lk| == |ctx.lt| && |ctx.rk| == |ctx.rt| && |ids| == |keys| + 1
    ensures |HoleSlots(ctx, keys, ids)| == |ctx.lk| + |keys| + |ctx.rk|
    ensures HoleSlots(ctx, keys, ids) == Slots(ctx.lk + keys + ctx.rk, IdsOf(ctx.lt) + ids + IdsOf(ctx.rt))
  {
  }

  /** The branch around the hole is the root exactly when nothing is above it. */
  lemma {:induction false} FrameRoot(ctx: Ctx, t: Tree)
    requires ctx.Frame?
    ensures ctx.up.Top? ==> Plug(ctx, t).id == ctx.id
  {
  }

  lemma {:induction false} LoneChild(ctx: Ctx, t: Tree)
    requires ctx.Frame? && ctx.up.Top? && ctx.lk == ctx.rk == [] && ctx.lt == ctx.rt == []
    ensures Plug(ctx, t) == Branch(ctx.id, [], [t]) && Depth(ctx) == 1
  {
  }

  function LoneRoot(n: Nodes, r: Id, x: Id): Nodes
    requires x in n
  {
    (n - {r})[x := n[x].(parent := 0)]
  }

  lemma {:induction false} LoneEnts(p: Id, t: Tree)
    ensures Flat(Branch(p, [], [t])) == Flat(t)
  {
    OneKid(t);
    BranchFlat(Branch(p, [], [t]));
  }

  /** Taking out one slot, at the front or further back. */
  lemma {:induction false} DropSlot(ctx: Ctx, k: Key, x: Id, dead: Id)
    requires ctx.Frame? && |ctx.lk| == |ctx.lt| && |ctx.rk| == |ctx.rt|
    ensures var keys, ids, p := ctx.lk + [k] + ctx.rk, IdsOf(ctx.lt) + [x, dead] + IdsOf(ctx.rt), |ctx.lk|;
            && HoleSlots(ctx, [k], [x, dead]) == Slots(keys, ids)
            && DropAt(keys, p) == ctx.lk + [] + ctx.rk && DropAt(ids, p + 1) == IdsOf(ctx.lt) + [x] + IdsOf(ctx.rt)
            && (p == 0 ==> Slots(keys[1..], DropAt(ids, 1)) == HoleSlots(ctx, [], [x]))
            && |keys| == |ctx.lk| + 1 + |ctx.rk| && |ids| == |keys| + 1
            && Slots(DropAt(keys, p), DropAt(ids, p + 1)) == HoleSlots(ctx, [], [x])
  {
    hide Slots, IdsOf, DropAt;
    assert [] + [k] == [k] && [x] + [dead] == [x, dead];
    DropMid(ctx.lk, [], k, ctx.rk);
    DropMid(IdsOf(ctx.lt), [x], dead, IdsOf(ctx.rt));
    DropFront(ctx.lk + [k] + ctx.rk);
  }

  lemma {:induction false} DropMid<T>(a: seq<T>, b: seq<T>, x: T, c: seq<T>)
    ensures DropAt(a + (b + [x]) + c, |a| + |b|) == a + b + c
  {
  }

  lemma {:induction false} DropFront<T>(s: seq<T>)
    requires s != []
    ensures DropAt(s, 0) == s[1..]
  {
  }

  /** The parent without one of its children, before it is looked after. */
  lemma {:induction false} ShrunkGood(c: Caps, h: nat, ctx: Ctx, t: Tree)
    requires CapsOk(c) && GoodPair(c, h, ctx) && Good(c, h, t) && |ctx.lk| + |ctx.rk| > 0
    ensures var b := Branch(ctx.id, ctx.lk + ctx.rk, ctx.lt + [t] + ctx.rt);
            && Sized(c, h + 1, b, 1, c.branch) && GoodCtx(c, h + 1, ctx.up)
            && (ctx.up.Frame? ==> c.branch / 2 <= |b.keys| + 1)
            && Plug(ctx, t) == Plug(ctx.up, b) && Depth(ctx) == 1 + Depth(ctx.up)
            && |ctx.lk| == |ctx.lt| && |ctx.rk| == |ctx.rt|
  {
  }

  lemma {:induction false} SizedGood(c: Caps, h: nat, ctx: Ctx, t: Tree)
    requires h > 0 && Sized(c, h, t, 1, c.branch) && (ctx.Frame? ==> c.branch / 2 <= |t.keys|)
    ensures NodeGood(c, h, ctx, t)
  {
  }

  // ---------- Branches ----------

  lemma {:induction false} BranchPair(n: Nodes, next: Id, first: Id, exact: bool, h: nat, ctx: Ctx, x: Tree, k: Key, y: Tree)
    requires ctx.Frame? && Aligned(ctx) && x.Branch? && y.Branch?
    requires Sound(n, next, first, exact, h + Depth(ctx), SegPlug(ctx, [k], [x, y]))
    ensures x.id in n && y.id in n && ctx.id in n && x.id != y.id && x.id != ctx.id && y.id != ctx.id && 0 !in n
    ensures n[ctx.id].BranchNode? && |ctx.lk| == |ctx.lt| && |ctx.rk| == |ctx.rt|
    ensures n[ctx.id].slots == HoleSlots(ctx, [k], [x.id, y.id]) && NodeKeys(n[ctx.id]) == ctx.lk + [k] + ctx.rk
    ensures Rep(n, x, ctx.id) && Rep(n, y, ctx.id) && Increasing(ctx.lk + [k] + ctx.rk)
    ensures n[x.id].BranchNode? && n[x.id].parent == ctx.id && |x.kids| == |x.keys| + 1 && n[x.id].slots == Slots(x.keys, IdsOf(x.kids))
    ensures n[y.id].BranchNode? && n[y.id].parent == ctx.id && |y.kids| == |y.keys| + 1 && n[y.id].slots == Slots(y.keys, IdsOf(y.kids))
    ensures NodeKeys(n[y.id]) == y.keys
    ensures forall z :: z in IdsOf(x.kids) || z in IdsOf(y.kids) ==> z in n && z != x.id && z != y.id && z != ctx.id
    ensures Sorted(Pre(ctx) + (Flat(x) + [Sep(k)] + Flat(y)) + Post(ctx)) && Proper(n, next, CBag(ctx) + (Bag(x) + Bag(y)))
  {
    hide Sound, Sorted, Flat, Plug, SegPlug, Pre, Post, CBag, BagF, Linked, RepCtx, HoleSlots, Depth, Aligned, Bag, Rep, Proper;
    PairFacts(n, next, first, exact, h, ctx, x, k, y);
    OpenTwo(n, next, first, exact, h, ctx, x, k, y);
    RepParts(n, x, ctx.id);
    RepParts(n, y, ctx.id);
    PairApart(n, next, ctx, x, y);
    IdsInBag(x.kids);
    IdsInBag(y.kids);
    SlotKeys(n[y.id], y.keys, IdsOf(y.kids));
  }

  /** The branch after `y` is none of its children. */
  lemma {:induction false} SuccessorNotChild(n: Nodes, next: Id, first: Id, exact: bool, h: nat, ctx: Ctx, x: Tree, k: Key, y: Tree)
    requires ctx.Frame? && Aligned(ctx) && h > 0 && y.Branch? && Sound(n, next, first, exact, h + Depth(ctx), SegPlug(ctx, [k], [x, y]))
    ensures y.id in n && n[y.id].right !in IdsOf(y.kids) && (n[y.id].right == 0 || n[y.id].right in n)
  {
    hide Rep, RepCtx, Flat, Sorted, SegPlug, Bag, PreLev, PostLev, Level, LevelF;
    var t, g := SegPlug(ctx, [k], [x, y]), h + Depth(ctx);
    OpenTwo(n, next, first, exact, h, ctx, x, k, y);
    PairRight(n, next, first, exact, h, ctx, x, k, y);
    NextKnown(n, h == 0 || exact, h, ctx, x.id, y.id);
    var s, p := HoleLevel(h, ctx, [x.id, y.id]), |PreLev(h, ctx, h)|;
    LevelSegPlug(h, ctx, [k], [x, y], h);
    LevelFTop(h, [x, y]);
    TwoKids(x, k, y);
    assert s[p + 1] == y.id && RightLinked(n, s, p + 1);
    if n[y.id].right != 0 {
      assert s[p + 2] == n[y.id].right;
      LevelsDisjoint(g, t, h, h - 1, n[y.id].right);
      LevelSegPlug(h, ctx, [k], [x, y], h - 1);
      KidsLevel(h, y);
    } else {
      KidsKnown(n, y, ctx.id);
    }
  }

  lemma {:induction false} KidsLevel(h: nat, t: Tree)
    requires t.Branch? && h > 0
    ensures Level(h, t, h - 1) == IdsOf(t.kids)
  {
    LevelFTop(h - 1, t.kids);
  }

  lemma {:induction false} KidsKnown(n: Nodes, t: Tree, p: Id)
    requires t.Branch? && Rep(n, t, p)
    ensures forall z :: z in IdsOf(t.kids) ==> z in n
  {
    forall z | z in IdsOf(t.kids) ensures z in n {
      var i :| 0 <= i < |t.kids| && t.kids[i].id == z;
      assert Rep(n, t.kids[i], t.id);
    }
  }

  lemma {:induction false} FirstSep(t: Tree)
    requires t.Branch? && |t.kids| == |t.keys| + 1 && t.keys != []
    ensures |Flat(t.kids[0])| < |Flat(t)| && Flat(t)[|Flat(t.kids[0])|] == Sep(t.keys[0])
  {
    StartsWithSep(t.keys, t.kids[1..]);
  }

  lemma {:induction false} MinIs(t: Tree)
    requires Solid(t)
    ensures Flat(t) != [] && Flat(t)[0] == Ent(MinEnt(t))
  {
    FlatEnds(t);
  }

  lemma {:induction false} AppendSlot(keys: seq<Key>, ids: seq<Id>, key: Key, id: Id)
    requires |ids| == |keys| + 1
    ensures PutAt(keys, |keys|, key) == keys + [key] && PutAt(ids, |keys| + 1, id) == ids + [id]
  {
  }

  lemma {:induction false} DropLast(keys: seq<Key>, ids: seq<Id>)
    requires |ids| == |keys| + 1 && keys != []
    ensures var l := |keys| - 1; DropAt(keys, l) == keys[..l] && DropAt(ids, l + 1) == ids[..l + 1]
  {
  }

  lemma {:induction false} BorrowRightGood(c: Caps, h: nat, x: Tree, k: Key, y: Tree)
    requires CapsOk(c) && h > 0 && x.Branch? && y.Branch?
    requires Sized(c, h, x, 1, c.branch) && |x.keys| + 1 == c.branch / 2 && Good(c, h, y) && |y.keys| > c.branch / 2
    ensures |x.kids| == |x.keys| + 1 && |y.kids| == |y.keys| + 1 && |y.keys| > 1
    ensures var x', y' := Branch(x.id, x.keys + [k], x.kids + [y.kids[0]]), Branch(y.id, y.keys[1..], y.kids[1..]);
            Good(c, h, x') && Good(c, h, y') && Sized(c, h, y', 1, c.branch) && Solid(y')
  {
    var y' := Branch(y.id, y.keys[1..], y.kids[1..]);
    assert forall i :: 0 <= i < |y'.kids| ==> y'.kids[i] == y.kids[i + 1];
    SizedSolid(c, h, y', 1, c.branch);
  }

  lemma {:induction false} LentLast(n: Nodes, n': Nodes, ctx: Ctx, x: Tree, k: Key, y: Tree, child: Id)
    requires ctx.Frame? && |ctx.lk| == |ctx.lt| && |ctx.rk| == |ctx.rt| && x.Branch? && y.Branch?
    requires |x.kids| == |x.keys| + 1 && |y.kids| == |y.keys| + 1 && x.keys != [] && child == x.kids[|x.keys|].id
    requires x.id in n && n[x.id].BranchNode? && y.id in n && n[y.id].BranchNode? && ctx.id in n && n[ctx.id].BranchNode? && child in n
    requires x.id != y.id && x.id != ctx.id && y.id != ctx.id && child != x.id && child != y.id && child != ctx.id
    requires var l := |x.keys| - 1;
             var v := n[x.id := n[x.id].(slots := Slots(x.keys[..l], IdsOf(x.kids)[..l + 1]))]
                       [y.id := n[y.id].(slots := Slots([k] + y.keys, [child] + IdsOf(y.kids)))][child := n[child].(parent := y.id)];
             n' == v[ctx.id := n[ctx.id].(slots := HoleSlots(ctx, [x.keys[l]], [x.id, y.id]))]
    ensures var l := |x.keys| - 1;
            BranchBorrowEffect(n, n', ctx.id, x.id, y.id, x.kids[l + 1].id, y.id,
                               Slots(x.keys[..l], IdsOf(x.kids)[..l + 1]), Slots([k] + y.keys, [x.kids[l + 1].id] + IdsOf(y.kids)),
                               HoleSlots(ctx, [x.keys[l]], [x.id, y.id]))
  {
    hide HoleSlots, Slots;
  }

  lemma {:induction false} BorrowLeftGood(c: Caps, h: nat, x: Tree, k: Key, y: Tree)
    requires CapsOk(c) && h > 0 && x.Branch? && y.Branch?
    requires Sized(c, h, y, 1, c.branch) && |y.keys| + 1 == c.branch / 2 && Good(c, h, x) && |x.keys| > c.branch / 2
    ensures |x.kids| == |x.keys| + 1 && |y.kids| == |y.keys| + 1 && |x.keys| > 1
    ensures var l := |x.keys| - 1;
            var x', y' := Branch(x.id, x.keys[..l], x.kids[..l + 1]), Branch(y.id, [k] + y.keys, [x.kids[l + 1]] + y.kids);
            Good(c, h, x') && Good(c, h, y')
  {
    var l := |x.keys| - 1;
    var y' := Branch(y.id, [k] + y.keys, [x.kids[l + 1]] + y.kids);
    assert forall i :: 0 < i < |y'.kids| ==> y'.kids[i] == y.kids[i - 1];
  }

  lemma {:induction false} JoinedGood(c: Caps, h: nat, x: Tree, k: Key, y: Tree)
    requires h > 0 && x.Branch? && y.Branch? && Sized(c, h, x, 1, c.branch) && Sized(c, h, y, 1, c.branch)
    requires c.branch / 2 <= |x.keys| + |y.keys| + 1 <= c.branch
    ensures Good(c, h, Joined(x, k, y))
  {
    var t := Joined(x, k, y);
    forall i | 0 <= i < |t.kids| ensures Good(c, h - 1, t.kids[i]) {
      if i < |x.kids| { assert t.kids[i] == x.kids[i]; } else { assert t.kids[i] == y.kids[i - |x.kids|]; }
    }
  }

  lemma {:induction false} JoinedEnts(x: Tree, k: Key, y: Tree)
    requires x.Branch? && y.Branch? && |x.kids| == |x.keys| + 1 && |y.kids| == |y.keys| + 1
    ensures Ents(Flat(Joined(x, k, y))) == Ents(Flat(x)) + Ents(Flat(y))
  {
    hide Ents, Flat;
    JoinedFlat(x, k, y);
    EntsSep(Flat(x), k, Flat(y));
  }

  lemma {:induction false} MergedBranchEnts(ctx: Ctx, x: Tree, k: Key, y: Tree, q: Key)
    requires ctx.Frame? && Aligned(ctx) && x.Branch? && y.Branch? && |x.kids| == |x.keys| + 1 && |y.kids| == |y.keys| + 1
    ensures Ents(Flat(Plug(ctx, Joined(x, q, y)))) == Ents(Flat(SegPlug(ctx, [k], [x, y])))
    ensures Plug(ctx, Joined(x, q, y)).id == SegPlug(ctx, [k], [x, y]).id
  {
    hide Ents, Flat, Plug, SegPlug;
    JoinedEnts(x, q, y);
    MergedEnts(ctx, x, k, y, Joined(x, q, y));
  }

  lemma {:induction false} BorrowRightEnts(ctx: Ctx, x: Tree, k: Key, y: Tree, k': Key)
    requires ctx.Frame? && Aligned(ctx) && x.Branch? && y.Branch? && |x.kids| == |x.keys| + 1 && |y.kids| == |y.keys| + 1 && y.keys != []
    ensures var x', y' := Branch(x.id, x.keys + [k], x.kids + [y.kids[0]]), Branch(y.id, y.keys[1..], y.kids[1..]);
            && Ents(Flat(SegPlug(ctx, [k'], [x', y']))) == Ents(Flat(SegPlug(ctx, [k], [x, y])))
            && SegPlug(ctx, [k'], [x', y']).id == SegPlug(ctx, [k], [x, y]).id
  {
    hide Ents, Flat, Plug, SegPlug;
    var x', y' := Branch(x.id, x.keys + [k], x.kids + [y.kids[0]]), Branch(y.id, y.keys[1..], y.kids[1..]);
    JoinedEnts(x, k, y);
    JoinedEnts(x', y.keys[0], y');
    ShiftOne(x.kids, y.kids);
    ShiftOne(x.keys + [k], y.keys);
    SameEntsPair(ctx, x, k, y, x', k', y');
    SameSegRoot(ctx, [k], [x, y], [k'], [x', y']);
  }

  lemma {:induction false} BorrowLeftEnts(ctx: Ctx, x: Tree, k: Key, y: Tree)
    requires ctx.Frame? && Aligned(ctx) && x.Branch? && y.Branch? && |x.kids| == |x.keys| + 1 && |y.kids| == |y.keys| + 1 && x.keys != []
    ensures var l := |x.keys| - 1;
            var x', y' := Branch(x.id, x.keys[..l], x.kids[..l + 1]), Branch(y.id, [k] + y.keys, [x.kids[l + 1]] + y.kids);
            && Ents(Flat(SegPlug(ctx, [x.keys[l]], [x', y']))) == Ents(Flat(SegPlug(ctx, [k], [x, y])))
            && SegPlug(ctx, [x.keys[l]], [x', y']).id == SegPlug(ctx, [k], [x, y]).id
  {
    hide Ents, Flat, Plug, SegPlug;
    var l := |x.keys| - 1;
    var x', y', k' := Branch(x.id, x.keys[..l], x.kids[..l + 1]), Branch(y.id, [k] + y.keys, [x.kids[l + 1]] + y.kids), x.keys[l];
    JoinedFlat(x, k, y);
    JoinedFlat(x', k', y');
    BorrowLeftOrder(x, k, y);
    EntsSep(Flat(x), k, Flat(y));
    EntsSep(Flat(x'), k', Flat(y'));
    SameEntsPair(ctx, x, k, y, x', k', y');
    SameSegRoot(ctx, [k], [x, y], [k'], [x', y']);
  }

  lemma {:induction false} KidInBag(t: Tree)
    ensures t.id in Bag(t)
  {
  }

  /** What is left of `y` after its first child has been lent out. */
  lemma {:induction false} RestRep(n: Nodes, n': Nodes, next: Id, ctx: Ctx, x: Tree, y: Tree)
    requires ctx.Frame? && x.Branch? && y.Branch? && Rep(n, y, ctx.id) && Proper(n, next, CBag(ctx) + (Bag(x) + Bag(y))) && y.keys != []
    requires y.id in n' && n'[y.id] == n[y.id].(slots := Slots(y.keys[1..], IdsOf(y.kids)[1..]))
    requires forall z :: z in n && z != x.id && z != y.id && z != y.kids[0].id ==> z in n' && n'[z] == n[z]
    ensures Rep(n', Branch(y.id, y.keys[1..], y.kids[1..]), ctx.id)
  {
    hide Rep, Bag, BagF, Proper, CBag;
    RepParts(n, y, ctx.id);
    PairApart(n, next, ctx, x, y);
    FirstKid(y.kids);
    var c, rest := y.kids[0], y.kids[1..];
    RepRuns(n, y.id, y.kids, [c], rest);
    BagFConcat([c], rest);
    OneKid(c);
    assert c.id in Bag(c) by { KidInBag(c); }
    assert forall z :: BagF(y.kids)[z] == Bag(c)[z] + BagF(rest)[z];
    StayRun(n, n', rest, y.id);
    RepBranch(n', Branch(y.id, y.keys[1..], rest), ctx.id);
  }

  lemma {:induction false} BranchMergeKeepsParent(n: Nodes, n': Nodes, p: Id, x: Id, y: Id, keys: seq<Key>, ids: seq<Id>, moved: seq<Id>, relinked: bool)
    requires |ids| == |keys| + 1 && BranchMergeEffect(n, n', x, y, keys, ids, moved, relinked)
    requires p in n && n[p].BranchNode? && p != x && p != y && n[x].parent == p && x != y
    ensures x in n' && n'[x].parent == p && p in n' && n'[p].BranchNode? && n'[p].slots == n[p].slots
  {
  }

  lemma {:induction false} MergePathBranch(n: Nodes, n': Nodes, next: Id, first: Id, exact: bool, h: nat, ctx: Ctx, x: Tree, k: Key, y: Tree,
                                           keys: seq<Key>, ids: seq<Id>, moved: seq<Id>, relinked: bool)
    requires ctx.Frame? && Aligned(ctx) && Sound(n, next, first, exact, h + Depth(ctx), SegPlug(ctx, [k], [x, y]))
    requires |ids| == |keys| + 1 && BranchMergeEffect(n, n', x.id, y.id, keys, ids, moved, relinked)
    ensures SamePath(n, n', ctx)
  {
    hide Sound, Flat, SegPlug, BranchMergeEffect, Aligned, Depth;
    assert x.id in n && y.id in n by { BranchMergeLeft(n, n', x.id, y.id, keys, ids, moved, relinked, x.id); }
    forall z | OnPath(ctx, z) ensures LeftOf(n, z) == LeftOf(n', z) {
      PathApart(n, next, first, exact, h, ctx, x, k, y, z);
      BranchMergeLeft(n, n', x.id, y.id, keys, ids, moved, relinked, z);
    }
  }

  lemma {:induction false} BranchMergeLeft(n: Nodes, n': Nodes, x: Id, y: Id, keys: seq<Key>, ids: seq<Id>, moved: seq<Id>, relinked: bool, z: Id)
    requires |ids| == |keys| + 1 && BranchMergeEffect(n, n', x, y, keys, ids, moved, relinked)
    ensures x in n && y in n
    ensures z != y && (z != n[y].right || z !in n) ==> LeftOf(n, z) == LeftOf(n', z)
  {
  }

  /** All that the parent of two merged branches has to know. */
  lemma {:induction false} MergedBranchReady(n: Nodes, n': Nodes, next: Id, first: Id, exact: bool, c: Caps, h: nat, ctx: Ctx, x: Tree, k: Key, y: Tree,
                                             q: Key, relinked: bool)
    requires CapsOk(c) && h > 0 && GoodPair(c, h, ctx) && x.Branch? && y.Branch? && Sized(c, h, x, 1, c.branch) && Sized(c, h, y, 1, c.branch)
    requires c.branch / 2 <= |x.keys| + |y.keys| + 1 <= c.branch && (exact ==> relinked)
    requires Sound(n, next, first, exact, h + Depth(ctx), SegPlug(ctx, [k], [x, y]))
    requires Solid(y) && q == MinEnt(y).key
    requires BranchMergeEffect(n, n', x.id, y.id, x.keys + [q] + y.keys, IdsOf(x.kids) + IdsOf(y.kids), IdsOf(y.kids), relinked)
    ensures var t := Joined(x, q, y);
            && Good(c, h, t) && |ctx.lk| == |ctx.lt| && |ctx.rk| == |ctx.rt|
            && x.id in n' && n'[x.id].parent == ctx.id && x.id != ctx.id
            && ctx.id in n' && n'[ctx.id].BranchNode? && n'[ctx.id].slots == HoleSlots(ctx, [k], [x.id, y.id])
            && Sound(Reslot(n', ctx.id, HoleSlots(ctx, [], [x.id])), next, first, exact, h + Depth(ctx), Plug(ctx, t))
            && Plug(ctx, t).id == SegPlug(ctx, [k], [x, y]).id
            && Ents(Flat(Plug(ctx, t))) == Ents(Flat(SegPlug(ctx, [k], [x, y]))) && SamePath(n, n', ctx)
  {
    hide Sound, Sorted, Flat, Ents, SegPlug, Pre, Post, HoleSlots, Depth, Aligned, Good, GoodF, Rep, MinEnt, Solid, BagF, Bag, CBag, Proper, BranchMergeEffect, Plug, SamePath, GoodSides;
    var keys, ids, moved := x.keys + [q] + y.keys, IdsOf(x.kids) + IdsOf(y.kids), IdsOf(y.kids);
    PairAligned(c, h, ctx);
    BranchPair(n, next, first, exact, h, ctx, x, k, y);
    BranchMergeKeepsParent(n, n', ctx.id, x.id, y.id, keys, ids, moved, relinked);
    MergeBranchSound(n, n', next, first, exact, h, ctx, x, k, y, relinked);
    JoinedGood(c, h, x, q, y);
    MergedBranchEnts(ctx, x, k, y, q);
    MergePathBranch(n, n', next, first, exact, h, ctx, x, k, y, keys, ids, moved, relinked);
  }

  // ---------- The loop of a branch merge ----------

  lemma {:induction false} MoveStart(ks: seq<Key>, xi: seq<Id>, yk: seq<Key>, yi: seq<Id>)
    requires |yi| == |yk| + 1
    ensures ks + yk[..0] == ks && yi[..1] == [yi[0]] && yk[0..] == yk && yi[0..] == yi
  {
  }

  lemma {:induction false} MoveStep(ks: seq<Key>, xi: seq<Id>, yk: seq<Key>, yi: seq<Id>, i: nat)
    requires |yi| == |yk| + 1 && i < |yk|
    ensures ks + yk[..i] + [yk[i..][0]] == ks + yk[..i + 1] && xi + yi[..i + 1] + [yi[i..][1]] == xi + yi[..i + 2]
    ensures yk[i..][1..] == yk[i + 1..] && yi[i..][1..] == yi[i + 1..]
    ensures forall z :: z in yi[..i + 2] <==> z in yi[..i + 1] || z in [yi[i..][1]]
  {
    assert yi[..i + 2] == yi[..i + 1] + [yi[i + 1]];
  }

  lemma {:induction false} PourEffect(n: Nodes, v: Nodes, n': Nodes, x: Id, y: Id, keys: seq<Key>, ids: seq<Id>, moved: seq<Id>, next: Id, relinked: bool)
    requires |ids| == |keys| + 1 && x in n && y in n && x != y && n[x].BranchNode? && n[y].BranchNode? && 0 !in n
    requires v.Keys == n.Keys && v[x] == n[x].(slots := Slots(keys, ids)) && v[y] == n[y].(slots := [])
    requires forall z :: z in n && z != x && z != y ==> v[z] == SplitBody(n[z], z, x, moved)
    requires n[y].right != x && n[y].right != y && x !in moved && y !in moved
    requires relinked <==> next == n[y].right
    requires next != n[y].right ==> next == 0
    requires var u := v[x := WithLinks(v[x], v[x].left, n[y].right)];
             n' == (if next in u then u[next := WithLinks(u[next], x, u[next].right)] else u) - {y}
    ensures BranchMergeEffect(n, n', x, y, keys, ids, moved, relinked)
  {
  }

  // ---------- How a left link gets lost ----------

  /** When branch `y` is merged into the branch in front of it, left links that were exact stay so if and only
      if the branch after `y` has been relinked or there is none. */
  lemma {:induction false} LeftLinksAfterMerge(n: Nodes, n': Nodes, s: seq<Id>, i: nat, keys: seq<Key>, ids: seq<Id>, moved: seq<Id>, relinked: bool)
    requires Linked(n, true, s) && i + 1 < |s| && |ids| == |keys| + 1 && 0 !in n
    requires BranchMergeEffect(n, n', s[i], s[i + 1], keys, ids, moved, relinked)
    ensures Linked(n', true, s[..i + 1] + s[i + 2..]) <==> relinked || i + 2 == |s|
  {
    var s', x, y := s[..i + 1] + s[i + 2..], s[i], s[i + 1];
    assert forall j :: 0 <= j < |s'| ==> s'[j] == s[if j <= i then j else j + 1];
    forall j | 0 <= j < |s'| ensures s'[j] in n' && RightLinked(n', s', j) && (LeftLinked(n', true, s', j) <==> relinked || j != i + 1) {
      MergedLink(n, n', s, i, j, keys, ids, moved, relinked);
    }
    if i + 2 < |s| { assert LeftLinked(n', true, s', i + 1) <==> relinked; }
  }

  lemma {:induction false} MergedLink(n: Nodes, n': Nodes, s: seq<Id>, i: nat, j: nat, keys: seq<Key>, ids: seq<Id>, moved: seq<Id>, relinked: bool)
    requires Linked(n, true, s) && i + 1 < |s| && j + 1 < |s| && |ids| == |keys| + 1 && 0 !in n
    requires BranchMergeEffect(n, n', s[i], s[i + 1], keys, ids, moved, relinked)
    ensures var s' := s[..i + 1] + s[i + 2..];
            s'[j] in n' && RightLinked(n', s', j) && (LeftLinked(n', true, s', j) <==> relinked || j != i + 1)
  {
    hide Slots;
    var s', m := s[..i + 1] + s[i + 2..], if j <= i then j else j + 1;
    assert s'[j] == s[m] && s[m] != s[i + 1];
    assert RightLinked(n, s, m) && LeftLinked(n, true, s, m) && RightLinked(n, s, i) && RightLinked(n, s, i + 1);
    if j + 1 < |s'| { assert s'[j + 1] == s[if j + 1 <= i then j + 1 else j + 2]; }
    if j > 0 { assert s'[j - 1] == s[if j - 1 <= i then j - 1 else j]; }
    if m != i + 2 && i + 2 < |s| { assert s[m] != s[i + 2]; }
  }

  /** In a store with exact left links the merge of a branch into the one in front of it keeps them exact if and
      only if there is no branch after it, or that branch is below the same parent, or it is relinked in any case. */
  lemma {:induction false} MergeLosesLink(n: Nodes, n': Nodes, next: Id, first: Id, h: nat, ctx: Ctx, x: Tree, k: Key, y: Tree,
                                          keys: seq<Key>, ids: seq<Id>, moved: seq<Id>, always: bool, relinked: bool)
    requires ctx.Frame? && Aligned(ctx) && Sound(n, next, first, true, h + Depth(ctx), SegPlug(ctx, [k], [x, y])) && |ids| == |keys| + 1
    requires BranchMergeEffect(n, n', x.id, y.id, keys, ids, moved, relinked)
    requires var z := n[y.id].right; relinked <==> always || z == 0 || (z in n && n[z].parent == n[y.id].parent)
    ensures y.id in n && (n[y.id].right == 0 || n[y.id].right in n)
    ensures Linked(n', true, HoleLevel(h, ctx, [x.id])) <==> always || n[y.id].right == 0 || n[n[y.id].right].parent == ctx.id
  {
    hide Rep, RepCtx, Flat, Sorted, SegPlug, Bag, PreLev, PostLev, Linked, BranchMergeEffect, RightLinked;
    OpenTwo(n, next, first, true, h, ctx, x, k, y);
    PairRight(n, next, first, true, h, ctx, x, k, y);
    NextKnown(n, true, h, ctx, x.id, y.id);
    ParentIs(n, y, ctx.id);
    var s, p := HoleLevel(h, ctx, [x.id, y.id]), |PreLev(h, ctx, h)|;
    assert s[p] == x.id && s[p + 1] == y.id;
    LeftLinksAfterMerge(n, n', s, p, keys, ids, moved, relinked);
    assert s[..p + 1] + s[p + 2..] == HoleLevel(h, ctx, [x.id]);
    LastHasNone(n, s, p + 1);
  }

  lemma {:induction false} ParentIs(n: Nodes, t: Tree, p: Id)
    requires Rep(n, t, p)
    ensures t.id in n && n[t.id].parent == p
  {
  }

  lemma {:induction false} LastHasNone(n: Nodes, s: seq<Id>, i: nat)
    requires Linked(n, true, s) && i < |s| && 0 !in n
    ensures s[i] in n && (n[s[i]].right == 0 <==> i + 1 == |s|)
  {
    assert RightLinked(n, s, i);
  }
}
