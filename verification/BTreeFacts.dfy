/** Facts the methods of the B+ tree rely on: what they find when they open a node and what
    is well filled after a step. */
module BTreeFacts {
  import opened BTreeNodes
  import opened BTreeModel
  import opened BTreeInvariant
  import opened BTreeMoves
  import opened BTreeSearch

  // ---------- Sequence facts about splitting a full branch ----------

  /** Where the keys and children of an overfull branch end up when it is cut after `m` keys. */
  lemma {:induction false} CutCases(keys: seq<Key>, ids: seq<Id>, p: nat, k: Key, g: Id, m: nat)
    requires |ids| == |keys| + 1 && p <= |keys| && 0 < m < |keys|
    ensures var ks, xs := PutAt(keys, p, k), PutAt(ids, p + 1, g);
            && (p < m ==> ks[..m] == PutAt(keys[..m - 1], p, k) && xs[..m + 1] == PutAt(ids[..m], p + 1, g)
                          && ks[m + 1..] == keys[m..] && xs[m + 1..] == ids[m..])
            && (p == m ==> ks[..m] == keys[..m] && xs[..m + 1] == ids[..m + 1]
                           && ks[m + 1..] == keys[m..] && xs[m + 1..] == [g] + ids[m + 1..])
            && (p > m ==> ks[..m] == keys[..m] && xs[..m + 1] == ids[..m + 1]
                          && ks[m + 1..] == PutAt(keys[m + 1..], p - m - 1, k) && xs[m + 1..] == PutAt(ids[m + 1..], p - m, g))
  {
  }

  lemma {:induction false} SlotTail(keys: seq<Key>, ids: seq<Id>, g: Id)
    requires |ids| == |keys| + 1 && |keys| > 0
    ensures Slots(keys, ids)[1..] == Slots(keys[1..], ids[1..])
    ensures Slots(keys, ids)[0 := Slots(keys, ids)[0].(lt := g)] == Slots(keys, [g] + ids[1..])
  {
  }

  lemma {:induction false} SlotKeys(node: Node, keys: seq<Key>, ids: seq<Id>)
    requires node.BranchNode? && |ids| == |keys| + 1 && node.slots == Slots(keys, ids)
    ensures NodeKeys(node) == keys
  {
  }

  predicate Smaller(keys: seq<Key>, i: int, k: Key) {
    0 <= i < |keys| && keys[i] < k
  }

  /** The place of a new key among increasing keys. */
  lemma {:induction false} NewSlot(a: seq<Key>, k: Key, b: seq<Key>, p: nat)
    requires Increasing(a + [k] + b) && p <= |a + b|
    requires forall i :: 0 <= i < p ==> (a + b)[i] < k
    requires forall i :: p <= i < |a + b| ==> k <= (a + b)[i]
    ensures p == |a| && (p < |a + b| ==> (a + b)[p] != k)
  {
    var s, r := a + [k] + b, a + b;
    assert s[|a|] == k;
    forall i | 0 <= i < |r| ensures if i < |a| then r[i] < k else k < r[i] {
      assert r[i] == s[if i < |a| then i else i + 1];
    }
    assert forall i :: Smaller(r, i, k) <==> 0 <= i < |a|;
    assert forall i :: Smaller(r, i, k) <==> 0 <= i < p;
    assert Smaller(r, p, k) <==> p < |a|;
    assert Smaller(r, |a|, k) <==> |a| < p;
  }

  /** The place of the separator in front of a key that lies between it and the next one. */
  lemma {:induction false} OldSlot(a: seq<Key>, k: Key, b: seq<Key>, q: Key, p: nat)
    requires Increasing(a + [k] + b) && k <= q && (b != [] ==> q < b[0]) && p <= |a + [k] + b|
    requires forall i :: 0 <= i < p ==> (a + [k] + b)[i] < q
    requires forall i :: p <= i < |a + [k] + b| ==> q <= (a + [k] + b)[i]
    ensures if p < |a + [k] + b| && (a + [k] + b)[p] == q then p == |a| else p == |a| + 1
  {
    var s := a + [k] + b;
    assert s[|a|] == k;
    if b != [] { assert s[|a| + 1] == b[0]; }
  }

  lemma {:induction false} RepKid(n: Nodes, t: Tree, p: Id)
    requires Rep(n, t, p)
    ensures t.id in n && n[t.id].LeafNode? == t.Leaf?
  {
  }

  lemma {:induction false} NodeSize(c: Caps, h: nat, ctx: Ctx, t: Tree)
    requires CapsOk(c) && t.Branch? && NodeGood(c, h, ctx, t)
    ensures |t.keys| > 0 && h > 0
  {
  }

  lemma {:induction false} ChildStep(c: Caps, h: nat, ctx: Ctx, t: Tree, i: nat, key: Key)
    requires Aligned(ctx) && t.Branch? && |t.kids| == |t.keys| + 1 && i < |t.kids|
    requires GoodCtx(c, h, ctx) && NodeGood(c, h, ctx, t) && Sorted(Pre(ctx) + Flat(t) + Post(ctx)) && Brackets(ctx, key)
    requires i > 0 ==> t.keys[i - 1] <= key
    requires i < |t.keys| ==> key < t.keys[i]
    ensures h > 0 && Brackets(Below(ctx, t, i), key) && Plug(Below(ctx, t, i), t.kids[i]) == Plug(ctx, t)
    ensures GoodCtx(c, h - 1, Below(ctx, t, i)) && Good(c, h - 1, t.kids[i])
    ensures Below(ctx, t, i).Frame? && Depth(Below(ctx, t, i)) == 1 + Depth(ctx)
  {
    hide Brackets, Flat, Sorted, Pre, Post, Plug;
    BelowPlug(ctx, t, i);
    Descend(ctx, t, i, key);
    BelowGood(c, h, ctx, t, i);
  }

  /** The child a search moves on to. */
  lemma {:induction false} ChildReached(n: Nodes, c: Caps, h: nat, ctx: Ctx, t: Tree, i: nat, key: Key)
    requires Aligned(ctx) && t.Branch? && |t.kids| == |t.keys| + 1 && i < |t.kids| && RepF(n, t.kids, t.id) && Increasing(t.keys)
    requires GoodCtx(c, h, ctx) && NodeGood(c, h, ctx, t) && Sorted(Pre(ctx) + Flat(t) + Post(ctx)) && Brackets(ctx, key)
    requires i > 0 ==> t.keys[i - 1] <= key
    requires i < |t.keys| ==> key < t.keys[i]
    ensures var ctx', t' := Below(ctx, t, i), t.kids[i];
            && h > 0 && Brackets(ctx', key) && Plug(ctx', t') == Plug(ctx, t) && GoodCtx(c, h - 1, ctx') && Good(c, h - 1, t')
            && ctx'.Frame? && Depth(ctx') == 1 + Depth(ctx)
            && t'.id in n && n[t'.id].LeafNode? == t'.Leaf?
            && PathTo(ctx, t, key) == PathTo(ctx', t', key) && LeafOf(t, key) == LeafOf(t', key)
  {
    hide Brackets, Flat, Sorted, Pre, Post, Plug, GoodCtx, Good, RootGood;
    ChildSlotIs(t.keys, key, i);
    ChildStep(c, h, ctx, t, i, key);
    RepKid(n, t.kids[i], t.id);
  }

  lemma {:induction false} ChildOpen(n: Nodes, next: Id, first: Id, exact: bool, c: Caps, h: nat, ctx: Ctx, t: Tree)
    requires t.Branch? && GoodCtx(c, h, ctx) && Sound(n, next, first, exact, h + Depth(ctx), Plug(ctx, t))
    ensures Aligned(ctx) && t.id in n && n[t.id].BranchNode? && |t.kids| == |t.keys| + 1
    ensures n[t.id].slots == Slots(t.keys, IdsOf(t.kids)) && NodeKeys(n[t.id]) == t.keys && Increasing(t.keys)
    ensures RepF(n, t.kids, t.id) && Sorted(Pre(ctx) + Flat(t) + Post(ctx))
  {
    hide Sound, Pre, Post, Linked, CBag, Bag, Sorted, Plug, Depth, Flat;
    GoodAligned(c, h, ctx);
    OpenedOne(n, next, first, exact, h, ctx, t);
    BranchIncreasing(ctx, t);
    SlotKeys(n[t.id], t.keys, IdsOf(t.kids));
  }

  lemma {:induction false} BelowGood(c: Caps, h: nat, ctx: Ctx, t: Tree, i: nat)
    requires t.Branch? && GoodCtx(c, h, ctx) && NodeGood(c, h, ctx, t) && |t.kids| == |t.keys| + 1 && i < |t.kids|
    ensures h > 0 && GoodCtx(c, h - 1, Below(ctx, t, i)) && Good(c, h - 1, t.kids[i])
    ensures Depth(Below(ctx, t, i)) == 1 + Depth(ctx)
  {
  }

  lemma {:induction false} BranchIncreasing(ctx: Ctx, t: Tree)
    requires t.Branch? && |t.kids| == |t.keys| + 1 && Sorted(Pre(ctx) + Flat(t) + Post(ctx))
    ensures Increasing(t.keys)
  {
    hide Sorted, Flat;
    SortedMiddle(Pre(ctx), Flat(t), Post(ctx));
    BranchFlat(t);
    KeysIncrease(t.keys, t.kids);
  }

  lemma {:induction false} EntryOpen(n: Nodes, next: Id, first: Id, exact: bool, c: Caps, ctx: Ctx, leaf: Id, es: seq<LeafEntry>)
    requires GoodCtx(c, 0, ctx) && Sound(n, next, first, exact, Depth(ctx), Plug(ctx, Leaf(leaf, es)))
    ensures Aligned(ctx) && leaf in n && n[leaf].LeafNode? && n[leaf].entries == es
    ensures Sorted(Pre(ctx) + Toks(es) + Post(ctx))
    ensures forall i :: 0 <= i < |es| ==> NodeKeys(n[leaf])[i] == es[i].key
    ensures forall i, j :: 0 <= i < j < |es| ==> es[i].key < es[j].key
    ensures Increasing(NodeKeys(n[leaf]))
  {
    hide Sound, Pre, Post, Linked, CBag, Sorted, Plug, Depth, Flat;
    GoodAligned(c, 0, ctx);
    OpenedOne(n, next, first, exact, 0, ctx, Leaf(leaf, es));
    LeafFlat(leaf, es);
    LeafIncreasing(Pre(ctx), es, Post(ctx));
  }

  lemma {:induction false} EntryAround(ctx: Ctx, leaf: Id, es: seq<LeafEntry>, p: nat, found: bool, key: Key)
    requires Aligned(ctx) && Brackets(ctx, key) && p <= |es|
    requires forall i :: 0 <= i < p ==> es[i].key < key
    requires if found then p < |es| && es[p].key == key && (forall i :: p < i < |es| ==> key < es[i].key)
             else forall i :: p <= i < |es| ==> key < es[i].key
    ensures var low, m, high := Lower(ctx, es[..p]), if found then [es[p]] else [], Upper(ctx, if found then es[p + 1..] else es[p..]);
            Ents(Flat(Plug(ctx, Leaf(leaf, es)))) == low + m + high && AllBelow(low, key) && AllAbove(key, high)
  {
    hide Brackets, Lower, Upper, Ents, Flat, Plug, Aligned;
    var m, y := if found then [es[p]] else [], if found then es[p + 1..] else es[p..];
    ContentsAround(ctx, leaf, es[..p], m, y, key);
    assert es[..p] + m + y == es;
  }

  lemma {:induction false} LeafFlat(id: Id, es: seq<LeafEntry>)
    ensures Flat(Leaf(id, es)) == Toks(es)
  {
  }

  lemma {:induction false} LeafCutCases(es: seq<LeafEntry>, p: nat, e: LeafEntry, m: nat)
    requires p <= |es| && 0 < m < |es|
    ensures p < m ==> PutAt(es, p, e)[..m] == PutAt(es[..m - 1], p, e) && PutAt(es, p, e)[m..] == es[m - 1..]
    ensures p >= m ==> PutAt(es, p, e)[..m] == es[..m] && PutAt(es, p, e)[m..] == PutAt(es[m..], p - m, e)
  {
  }

  lemma {:induction false} LeafReady(n: Nodes, next: Id, first: Id, exact: bool, ctx: Ctx, id: Id, es: seq<LeafEntry>)
    requires Aligned(ctx) && Sound(n, next, first, exact, Depth(ctx), Plug(ctx, Leaf(id, es)))
    ensures id in n && n[id].LeafNode? && n[id].entries == es && n[id].parent == Pid(ctx) && NewId(n, next) && 0 !in n && next > 0
    ensures n[id].right != id && (n[id].right == 0 || n[id].right in n)
    ensures Plug(ctx, Leaf(id, es)).id == id <==> ctx.Top?
  {
    NodeReady(n, next, first, exact, 0, ctx, Leaf(id, es));
  }

  lemma {:induction false} NodeReady(n: Nodes, next: Id, first: Id, exact: bool, h: nat, ctx: Ctx, t: Tree)
    requires Aligned(ctx) && Sound(n, next, first, exact, h + Depth(ctx), Plug(ctx, t))
    ensures t.id in n && Rep(n, t, Pid(ctx)) && RepCtx(n, ctx, [], [t.id]) && NewId(n, next) && 0 !in n && next > 0
    ensures n[t.id].right != t.id && (n[t.id].right == 0 || n[t.id].right in n)
    ensures Plug(ctx, t).id == t.id <==> ctx.Top?
    ensures ctx.Frame? ==> ctx.id != t.id
  {
    hide Flat, Sorted, CBag, Linked;
    if ctx.Frame? { assert ctx.id in CBag(ctx) by { CtxInBag(ctx); } }
    OpenedOne(n, next, first, exact, h, ctx, t);
    RightKnown(n, next, first, exact, h, ctx, t);
    RootOf(ctx, t);
    assert t.id in Bag(t);
    assert t.id !in CBag(ctx) by { assert (CBag(ctx) + Bag(t))[t.id] <= 1; }
  }

  lemma {:induction false} CtxInBag(ctx: Ctx)
    requires ctx.Frame?
    ensures ctx.id in CBag(ctx)
  {
  }

  /** Nothing is said about contents: the root's id only depends on what is around the hole. */
  lemma {:induction false} SameRoot(ctx: Ctx, t: Tree, u: Tree)
    requires t.id == u.id
    ensures Plug(ctx, t).id == Plug(ctx, u).id
    decreases ctx
  {
    if ctx.Frame? {
      SameRoot(ctx.up, Branch(ctx.id, ctx.lk + ctx.rk, ctx.lt + [t] + ctx.rt), Branch(ctx.id, ctx.lk + ctx.rk, ctx.lt + [u] + ctx.rt));
    }
  }

  lemma {:induction false} SameSegRoot(ctx: Ctx, keys: seq<Key>, kids: seq<Tree>, keys': seq<Key>, kids': seq<Tree>)
    requires ctx.Frame? && |kids| == |keys| + 1 && |kids'| == |keys'| + 1
    ensures SegPlug(ctx, keys, kids).id == SegPlug(ctx, keys', kids').id
  {
    SameRoot(ctx.up, Branch(ctx.id, ctx.lk + keys + ctx.rk, ctx.lt + kids + ctx.rt), Branch(ctx.id, ctx.lk + keys' + ctx.rk, ctx.lt + kids' + ctx.rt));
  }

  /** What the parent of a split node looks like before it gets the new slot. */
  lemma {:induction false} ParentReady(n: Nodes, next: Id, first: Id, exact: bool, h: nat, ctx: Ctx, x: Tree, k: Key, y: Tree)
    requires ctx.Frame? && Aligned(ctx)
    requires y.id in n && ctx.id in n && n[ctx.id].BranchNode? && n[ctx.id].slots == HoleSlots(ctx, [], [x.id])
    requires Sound(Reslot(Adopt(n, y.id, ctx.id), ctx.id, HoleSlots(ctx, [k], [x.id, y.id])), next, first, exact,
                   h + Depth(ctx), SegPlug(ctx, [k], [x, y]))
    ensures NodeKeys(n[ctx.id]) == ctx.lk + ctx.rk
    ensures Increasing(ctx.lk + [k] + ctx.rk) && Increasing(ctx.lk + ctx.rk)
  {
    hide Sound, Sorted, Flat, Plug, SegPlug, Pre, Post, CBag, BagF;
    OpenTwo(Reslot(Adopt(n, y.id, ctx.id), ctx.id, HoleSlots(ctx, [k], [x.id, y.id])), next, first, exact, h, ctx, x, k, y);
    ParentSorted(ctx, x, k, y);
    assert ctx.lk + [] + ctx.rk == ctx.lk + ctx.rk;
    SlotKeys(n[ctx.id], ctx.lk + ctx.rk, IdsOf(ctx.lt) + [x.id] + IdsOf(ctx.rt));
    DropKey(ctx.lk, k, ctx.rk);
  }

  lemma {:induction false} DropKey(a: seq<Key>, k: Key, b: seq<Key>)
    requires Increasing(a + [k] + b)
    ensures Increasing(a + b)
  {
    var s, r := a + [k] + b, a + b;
    forall i, j | 0 <= i < j < |r| ensures r[i] < r[j] {
      assert r[i] == s[if i < |a| then i else i + 1] && r[j] == s[if j < |a| then j else j + 1];
    }
  }

  lemma {:induction false} TopSorted(ctx: Ctx, m: seq<Tok>)
    requires ctx.Top? && Sorted(Pre(ctx) + m + Post(ctx))
    ensures Sorted(m)
  {
    assert [] + m + [] == m;
  }

  lemma {:induction false} RootEnts(p: Id, x: Tree, k: Key, y: Tree)
    ensures Ents(Flat(Branch(p, [k], [x, y]))) == Ents(Flat(x)) + Ents(Flat(y))
  {
    hide Ents, SegFlat;
    TwoKids(x, k, y);
    BranchFlat(Branch(p, [k], [x, y]));
    EntsSep(Flat(x), k, Flat(y));
  }

  lemma {:induction false} LeafSplitKeys(n: Nodes, n': Nodes, id: Id, r: Id, es: seq<LeafEntry>, rest: seq<LeafEntry>)
    requires LeafSplitEffect(n, n', id, r, es, rest) && rest != []
    ensures id in n' && r in n' && id != r && NodeKeys(n'[r]) != [] && NodeKeys(n'[r])[0] == rest[0].key && n'[id].parent == n[id].parent
    ensures n'.Keys == n.Keys + {r}
    ensures forall z :: z in n && n[z].BranchNode? ==> z in n' && n'[z].BranchNode? && n'[z].slots == n[z].slots
  {
  }

  lemma {:induction false} LeafSplitReady(n: Nodes, n': Nodes, next: Id, first: Id, exact: bool, ctx: Ctx,
                                                 leaf: Id, es: seq<LeafEntry>, es': seq<LeafEntry>, m: nat)
    requires ctx.Frame? && Aligned(ctx) && Sound(n, next, first, exact, Depth(ctx), Plug(ctx, Leaf(leaf, es)))
    requires Sorted(Pre(ctx) + Toks(es') + Post(ctx)) && 0 < m < |es'|
    requires LeafSplitEffect(n, n', leaf, next, es'[..m], es'[m..])
    ensures next in n' && ctx.id in n' && n'[ctx.id].BranchNode? && n'[ctx.id].slots == HoleSlots(ctx, [], [leaf])
    ensures Sound(Reslot(Adopt(n', next, ctx.id), ctx.id, HoleSlots(ctx, [es'[m].key], [leaf, next])), next + 1, first, exact,
                  Depth(ctx), SegPlug(ctx, [es'[m].key], [Leaf(leaf, es'[..m]), Leaf(next, es'[m..])]))
    ensures Plug(ctx, Leaf(leaf, es)).id == SegPlug(ctx, [es'[m].key], [Leaf(leaf, es'[..m]), Leaf(next, es'[m..])]).id
  {
    hide Sound, Sorted, Plug, SegPlug, Pre, Post, HoleSlots;
    NodeReady(n, next, first, exact, 0, ctx, Leaf(leaf, es));
    CtxSlots(n, ctx, leaf);
    SplitLeafSound(n, n', next, next + 1, first, exact, ctx, leaf, es, es', m, next);
    SegPlugOne(ctx, Leaf(leaf, es));
    SameSegRoot(ctx, [], [Leaf(leaf, es)], [es'[m].key], [Leaf(leaf, es'[..m]), Leaf(next, es'[m..])]);
  }

  lemma {:induction false} CtxSlots(n: Nodes, ctx: Ctx, id: Id)
    requires ctx.Frame? && RepCtx(n, ctx, [], [id])
    ensures |ctx.lk| == |ctx.lt| && |ctx.rk| == |ctx.rt|
    ensures ctx.id in n && n[ctx.id].BranchNode? && n[ctx.id].slots == HoleSlots(ctx, [], [id])
  {
  }

  lemma {:induction false} InsertMiddle<T>(a: seq<T>, b: seq<T>, x: T)
    ensures PutAt(a + b, |a|, x) == a + [x] + b
  {
  }

  lemma {:induction false} InsertArgs(ctx: Ctx, key: Key, x: Tree, y: Tree)
    requires ctx.Frame? && |ctx.lk| == |ctx.lt| && |ctx.rk| == |ctx.rt|
    ensures PutAt(ctx.lk + ctx.rk, |ctx.lk|, key) == ctx.lk + [key] + ctx.rk
    ensures PutAt(IdsOf(ctx.lt) + [x.id] + IdsOf(ctx.rt), |ctx.lk| + 1, y.id) == IdsOf(ctx.lt) + [x.id, y.id] + IdsOf(ctx.rt)
    ensures IdsOf(ctx.lt + [x, y] + ctx.rt) == IdsOf(ctx.lt) + [x.id, y.id] + IdsOf(ctx.rt)
  {
    InsertMiddle(ctx.lk, ctx.rk, key);
    InsertMiddle(IdsOf(ctx.lt) + [x.id], IdsOf(ctx.rt), y.id);
    Snoc(IdsOf(ctx.lt), x.id, y.id);
    IdsAround(ctx.lt, [x, y], ctx.rt);
    assert IdsOf([x, y]) == [x.id, y.id];
  }

  lemma {:induction false} Snoc<T>(a: seq<T>, x: T, y: T)
    ensures a + [x] + [y] == a + [x, y]
  {
  }

  lemma {:induction false} IdsAround(a: seq<Tree>, b: seq<Tree>, c: seq<Tree>)
    ensures IdsOf(a + b + c) == IdsOf(a) + IdsOf(b) + IdsOf(c)
  {
  }

  lemma {:induction false} FullBranchGood(c: Caps, h: nat, ctx: Ctx, key: Key, x: Tree, y: Tree)
    requires CapsOk(c) && ctx.Frame? && GoodCtx(c, h, ctx) && Good(c, h, x) && Good(c, h, y)
    ensures var t := Branch(ctx.id, ctx.lk + [key] + ctx.rk, ctx.lt + [x, y] + ctx.rt);
            GoodF(c, h, t.kids) && |t.kids| == |t.keys| + 1 && |t.keys| == |ctx.lk| + |ctx.rk| + 1 &&
            (|t.keys| <= c.branch ==> NodeGood(c, h + 1, ctx.up, t)) && GoodCtx(c, h + 1, ctx.up)
  {
  }

  lemma {:induction false} CutGood(c: Caps, h: nat, t: Tree, m: nat, r: Id)
    requires CapsOk(c) && h > 0 && t.Branch? && |t.kids| == |t.keys| + 1 && |t.keys| == c.branch + 1 && m == c.branch / 2
    requires GoodF(c, h - 1, t.kids)
    ensures var x, y := Branch(t.id, t.keys[..m], t.kids[..m + 1]), Branch(r, t.keys[m + 1..], t.kids[m + 1..]);
            Good(c, h, x) && Good(c, h, y) && Solid(y) && Sized(c, h, y, 1, c.branch)
  {
    var x, y := Branch(t.id, t.keys[..m], t.kids[..m + 1]), Branch(r, t.keys[m + 1..], t.kids[m + 1..]);
    forall i | 0 <= i < |y.kids| ensures Good(c, h - 1, y.kids[i]) { assert y.kids[i] == t.kids[m + 1 + i]; }
    SizedSolid(c, h, y, 1, c.branch);
  }

  lemma {:induction false} CutContents(t: Tree, x: Tree, y: Tree, m: nat)
    requires t.Branch? && |t.kids| == |t.keys| + 1 && m < |t.keys| && x.Branch? && y.Branch?
    requires x.keys == t.keys[..m] && x.kids == t.kids[..m + 1] && y.keys == t.keys[m + 1..] && y.kids == t.kids[m + 1..]
    ensures Ents(Flat(x)) + Ents(Flat(y)) == Ents(Flat(t))
  {
    hide Ents, Flat;
    assert t.keys == x.keys + [t.keys[m]] + y.keys && t.kids == x.kids + y.kids;
    EntsBranchCut(t, x, t.keys[m], y);
  }

  /** The facts about an overfull branch that a split relies on. */
  lemma {:induction false} FullReady(n: Nodes, v: Nodes, next: Id, first: Id, exact: bool, h: nat, ctx: Ctx, t: Tree)
    requires t.Branch? && |t.kids| == |t.keys| + 1 && t.id in n && n[t.id].BranchNode?
    requires v == Reslot(n, t.id, Slots(t.keys, IdsOf(t.kids)))
    requires Aligned(ctx) && Sound(v, next, first, exact, h + Depth(ctx), Plug(ctx, t))
    ensures RepF(n, t.kids, t.id) && n[t.id].parent == Pid(ctx)
    ensures forall z :: BagF(t.kids)[z] <= 1
    ensures forall z :: z in BagF(t.kids) ==> z in n && z != t.id
    ensures NewId(n, next) && 0 !in n && next > 0
    ensures n[t.id].right != t.id && (n[t.id].right == 0 || n[t.id].right in n)
    ensures Plug(ctx, t).id == t.id <==> ctx.Top?
  {
    hide Flat, Sorted, CBag, BagF, Linked, Sound, Rep, Plug, Proper;
    NodeReady(v, next, first, exact, h, ctx, t);
    OpenedOne(v, next, first, exact, h, ctx, t);
    BelowApart(v, next, CBag(ctx), t);
    RepParts(v, t, Pid(ctx));
    assert forall z :: z in BagF(t.kids) ==> v[z] == n[z];
    assert forall z :: z in n ==> n[z].left == v[z].left;
    StayRun(v, n, t.kids, t.id);
  }

  lemma {:induction false} BelowApart(n: Nodes, next: Id, c: multiset<Id>, t: Tree)
    requires t.Branch? && Proper(n, next, c + Bag(t))
    ensures forall z :: BagF(t.kids)[z] <= 1
    ensures forall z :: z in BagF(t.kids) ==> z in n && z != t.id
  {
    hide BagF;
    assert Bag(t) == multiset{t.id} + BagF(t.kids);
    assert forall z :: (c + Bag(t))[z] == c[z] + multiset{t.id}[z] + BagF(t.kids)[z];
  }

  /** The effect of a split does not depend on the slots the branch had before. */
  lemma {:induction false} EffectSlots(n: Nodes, v: Nodes, n': Nodes, id: Id, r: Id, keys: seq<Key>, ids: seq<Id>, m: nat)
    requires m < |keys| && |ids| == |keys| + 1 && BranchSplitEffect(n, n', id, r, keys, ids, m)
    requires v == Reslot(n, id, Slots(keys, ids))
    ensures BranchSplitEffect(v, n', id, r, keys, ids, m) && r in n' && id in n' && id != r
  {
  }

  lemma {:induction false} BranchSplitReady(n: Nodes, n': Nodes, next: Id, first: Id, exact: bool, h: nat, ctx: Ctx, t: Tree, m: nat)
    requires ctx.Frame? && Aligned(ctx) && h > 0 && t.Branch? && |t.kids| == |t.keys| + 1 && m < |t.keys|
    requires Sound(n, next, first, exact, h + Depth(ctx), Plug(ctx, t))
    requires Solid(Branch(next, t.keys[m + 1..], t.kids[m + 1..]))
    requires BranchSplitEffect(n, n', t.id, next, t.keys, IdsOf(t.kids), m)
    ensures next in n' && t.id in n' && n'[t.id].parent == ctx.id
    ensures ctx.id in n' && n'[ctx.id].BranchNode? && |ctx.lk| == |ctx.lt| && |ctx.rk| == |ctx.rt|
    ensures n'[ctx.id].slots == HoleSlots(ctx, [], [t.id])
    ensures var x, y := Branch(t.id, t.keys[..m], t.kids[..m + 1]), Branch(next, t.keys[m + 1..], t.kids[m + 1..]);
            var k := MinEnt(y).key;
            Sound(Reslot(Adopt(n', next, ctx.id), ctx.id, HoleSlots(ctx, [k], [t.id, next])), next + 1, first, exact,
                  h + Depth(ctx), SegPlug(ctx, [k], [x, y])) && Plug(ctx, t).id == SegPlug(ctx, [k], [x, y]).id
  {
    hide Sound, Sorted, Plug, SegPlug, Pre, Post, HoleSlots, Solid, MinEnt, BranchSplitEffect, Flat;
    var x, y := Branch(t.id, t.keys[..m], t.kids[..m + 1]), Branch(next, t.keys[m + 1..], t.kids[m + 1..]);
    NodeReady(n, next, first, exact, h, ctx, t);
    CtxSlots(n, ctx, t.id);
    SplitKeepsParent(n, n', t.id, next, t.keys, IdsOf(t.kids), m, ctx.id);
    SplitBranchSound(n, n', next, next + 1, first, exact, h, ctx, t.id, t.keys, t.kids, m, next);
    SegPlugOne(ctx, t);
    SameSegRoot(ctx, [], [t], [MinEnt(y).key], [x, y]);
  }

  lemma {:induction false} SplitKeepsParent(n: Nodes, n': Nodes, id: Id, r: Id, keys: seq<Key>, ids: seq<Id>, m: nat, p: Id)
    requires m < |keys| && |ids| == |keys| + 1 && BranchSplitEffect(n, n', id, r, keys, ids, m)
    requires p in n && n[p].BranchNode? && n[id].parent == p && p != id
    ensures id in n' && r in n' && n'[id].parent == p && p in n' && n'[p].BranchNode? && n'[p].slots == n[p].slots
  {
  }

  lemma {:induction false} LeafMin(t: Tree)
    requires t.Leaf? && Solid(t)
    ensures t.entries != [] && MinEnt(t) == t.entries[0]
  {
  }

  function WithLinks(node: Node, left: Id, right: Id): Node {
    node.(left := left, right := right)
  }

  lemma {:induction false} ShareEffect(n: Nodes, n1: Nodes, n2: Nodes, n3: Nodes, id: Id, r: Id, ks: seq<Key>, xs: seq<Id>, m: nat)
    requires m < |ks| && |xs| == |ks| + 1 && id in n && n[id].BranchNode? && r !in n && r != id && r != 0 && 0 !in n
    requires n1 == n[id := n[id].(slots := Slots(ks[..m], xs[..m + 1]))][r := BranchNode(0, 0, 0, Slots(ks[m + 1..], xs[m + 1..]))]
    requires id !in xs && r !in xs && n[id].right != id && (n[id].right == 0 || n[id].right in n)
    requires n2.Keys == n1.Keys && n2[id] == WithLinks(n1[id], n1[id].left, r)
    requires n2[r] == WithLinks(n1[r], id, if n1[id].right in n1 then n1[id].right else n1[r].right)
    requires forall x :: x in n1 && x != id && x != r ==> n2[x] == if x == n1[id].right then WithLinks(n1[x], r, n1[x].right) else n1[x]
    requires n3.Keys == n2.Keys && forall z :: z in n3 ==> n3[z] == SplitBody(n2[z], z, r, xs[m + 1..])
    ensures BranchSplitEffect(n, n3, id, r, ks, xs, m)
  {
    var moved := xs[m + 1..];
    assert id !in moved && r !in moved;
    assert n3[id] == n2[id] && n3[r] == n2[r];
    forall z | z in n && z != id ensures n3[z] == SplitOther(n[z], z, n[id].right, r, moved) {
      assert n1[z] == n[z];
      assert n2[z] == if z == n[id].right then n[z].(left := r) else n[z];
    }
  }

  lemma {:induction false} ShareRep(n: Nodes, n': Nodes, branch: Id, right: Id, t: Tree, m: nat)
    requires t.Branch? && |t.kids| == |t.keys| + 1 && m < |t.keys| && RepF(n, t.kids, branch)
    requires BranchSplitEffect(n, n', branch, right, t.keys, IdsOf(t.kids), m)
    requires forall z :: BagF(t.kids)[z] <= 1
    requires forall z :: z in BagF(t.kids) ==> z in n && z != branch
    ensures Rep(n', Branch(right, t.keys[m + 1..], t.kids[m + 1..]), 0)
  {
    hide BagF, Rep;
    var kept, moved := t.kids[..m + 1], t.kids[m + 1..];
    IdsCut(t.kids, m + 1);
    BagCut(t.kids, kept, moved);
    RepRuns(n, branch, t.kids, kept, moved);
    SplitBranchKids(n, n', {branch}, kept, moved, branch, right);
    RepBranch(n', Branch(right, t.keys[m + 1..], moved), 0);
  }

  lemma {:induction false} BagCut(kids: seq<Tree>, a: seq<Tree>, b: seq<Tree>)
    requires |a| <= |kids| && a == kids[..|a|] && b == kids[|a|..]
    ensures kids == a + b && forall z :: BagF(kids)[z] == BagF(a)[z] + BagF(b)[z]
  {
    hide BagF;
    assert kids == a + b;
    BagFConcat(a, b);
  }

  lemma {:induction false} PairGood(c: Caps, h: nat, ctx: Ctx, k: Key, x: Tree, y: Tree)
    requires CapsOk(c) && GoodPair(c, h, ctx) && Good(c, h, x) && Good(c, h, y)
    ensures NodeGood(c, h + 1, ctx.up, Branch(ctx.id, ctx.lk + [k] + ctx.rk, ctx.lt + [x, y] + ctx.rt))
    ensures GoodCtx(c, h + 1, ctx.up)
  {
  }

  lemma {:induction false} PairFacts(n: Nodes, next: Id, first: Id, exact: bool, h: nat, ctx: Ctx, x: Tree, k: Key, y: Tree)
    requires ctx.Frame? && Aligned(ctx) && Sound(n, next, first, exact, h + Depth(ctx), SegPlug(ctx, [k], [x, y]))
    ensures x.id in n && y.id in n && ctx.id in n && x.id != y.id && x.id != ctx.id && y.id != ctx.id && 0 !in n
    ensures n[ctx.id].BranchNode? && |ctx.lk| == |ctx.lt| && |ctx.rk| == |ctx.rt|
    ensures n[ctx.id].slots == HoleSlots(ctx, [k], [x.id, y.id]) && NodeKeys(n[ctx.id]) == ctx.lk + [k] + ctx.rk
    ensures Rep(n, x, ctx.id) && Rep(n, y, ctx.id) && Increasing(ctx.lk + [k] + ctx.rk)
    ensures Sorted(Pre(ctx) + (Flat(x) + [Sep(k)] + Flat(y)) + Post(ctx))
  {
    hide Sound, Sorted, Flat, Plug, SegPlug, Pre, Post, CBag, BagF, Linked, RepCtx;
    OpenTwo(n, next, first, exact, h, ctx, x, k, y);
    assert multiset{x.id, y.id} <= Bag(x) + Bag(y);
    TwoApart(n, next, ctx, x.id, y.id, Bag(x) + Bag(y));
    ParentSorted(ctx, x, k, y);
    SlotKeys(n[ctx.id], ctx.lk + [k] + ctx.rk, IdsOf(ctx.lt) + [x.id, y.id] + IdsOf(ctx.rt));
  }

  lemma {:induction false} ReplaceMiddle<T>(a: seq<T>, k: T, b: seq<T>, k': T)
    ensures (a + [k] + b)[|a| := k'] == a + [k'] + b
  {
  }

  lemma {:induction false} ShiftEntry(a: seq<LeafEntry>, b: seq<LeafEntry>)
    requires b != []
    ensures PutAt(a, |a|, b[0]) == a + [b[0]] && DropAt(b, 0) == b[1..] && a + b == (a + [b[0]]) + b[1..]
  {
  }

  lemma {:induction false} ReplaceSlots(ctx: Ctx, k: Key, k': Key, x: Id, y: Id)
    requires ctx.Frame? && |ctx.lk| == |ctx.lt| && |ctx.rk| == |ctx.rt|
    ensures HoleSlots(ctx, [k], [x, y]) == Slots(ctx.lk + [k] + ctx.rk, IdsOf(ctx.lt) + [x, y] + IdsOf(ctx.rt))
    ensures Slots((ctx.lk + [k] + ctx.rk)[|ctx.lk| := k'], IdsOf(ctx.lt) + [x, y] + IdsOf(ctx.rt)) == HoleSlots(ctx, [k'], [x, y])
  {
    ReplaceMiddle(ctx.lk, k, ctx.rk, k');
  }

  lemma {:induction false} EntsLeaf(id: Id, es: seq<LeafEntry>)
    ensures Ents(Flat(Leaf(id, es))) == es
  {
    EntsToks(es);
  }

  lemma {:induction false} UnshiftEntry(a: seq<LeafEntry>, b: seq<LeafEntry>)
    requires a != []
    ensures var l := |a| - 1;
            DropAt(a, l) == a[..l] && PutAt(b, 0, a[l]) == [a[l]] + b && a + b == a[..l] + ([a[l]] + b)
  {
  }

  lemma {:induction false} PutReady(ctx: Ctx, leaf: Id, es: seq<LeafEntry>, p: nat, e: LeafEntry)
    requires Aligned(ctx) && Brackets(ctx, e.key) && p <= |es| && Sorted(Pre(ctx) + Toks(es) + Post(ctx))
    requires forall i :: 0 <= i < p ==> es[i].key < e.key
    requires forall i :: p <= i < |es| ==> e.key < es[i].key
    ensures Sorted(Pre(ctx) + Toks(PutAt(es, p, e)) + Post(ctx))
    ensures Ents(Flat(Plug(ctx, Leaf(leaf, PutAt(es, p, e))))) == Lower(ctx, es[..p]) + [e] + Upper(ctx, es[p..])
  {
    hide Sorted, Ents, Flat, Plug, Pre, Post;
    PutEntry(Pre(ctx), es, p, e, Post(ctx));
    ContentsAround(ctx, leaf, es[..p], [e], es[p..], e.key);
  }

  lemma {:induction false} FirstLeaf(n: Nodes, next: Id, id: Id, exact: bool, c: Caps)
    requires n == map[id := LeafNode(0, 0, 0, [])] && 0 < id < next
    ensures Sound(n, next, id, exact, 0, Leaf(id, [])) && RootGood(c, 0, Leaf(id, [])) && Ents(Flat(Leaf(id, []))) == []
  {
    var t := Leaf(id, []);
    forall l: nat | l <= 0 ensures LevelLinked(n, exact, 0, t, l) { LinkedSingle(n, id, true); }
  }

  lemma {:induction false} CollectNone(n: Nodes)
    ensures Collect(n, []) == []
  {
  }

  lemma {:induction false} CollectOne(n: Nodes, s: seq<Id>, i: nat)
    requires AllLeaves(n, s) && i < |s|
    ensures Collect(n, s[..i + 1]) == Collect(n, s[..i]) + n[s[i]].entries
  {
    assert s[..i + 1] == s[..i] + [s[i]];
    CollectConcat(n, s[..i], [s[i]]);
    assert [s[i]][1..] == [];
    assert Collect(n, [s[i]]) == n[s[i]].entries + [];
  }

  lemma {:induction false} MapItems(es: seq<LeafEntry>)
    requires KeysIncreasing(es)
    ensures forall i :: 0 <= i < |es| ==> es[i].key in MapOf(es) && MapOf(es)[es[i].key] == es[i].item
  {
    if es != [] {
      MapItems(es[1..]);
      MapOfOne([es[0]]);
      assert [es[0]] + es[1..] == es;
      MapConcat([es[0]], es[1..]);
      forall i | 0 <= i < |es| ensures es[i].key in MapOf(es) && MapOf(es)[es[i].key] == es[i].item {
        if i > 0 {
          assert es[1..][i - 1] == es[i];
        } else {
          NotInMap(es[1..], es[0].key);
        }
      }
    }
  }

  lemma {:induction false} MapKeys(es: seq<LeafEntry>)
    ensures forall k :: k in MapOf(es) <==> exists i :: 0 <= i < |es| && es[i].key == k
  {
    if es != [] {
      MapKeys(es[1..]);
      forall k | k in MapOf(es) ensures exists i :: 0 <= i < |es| && es[i].key == k {
        if k == es[0].key {
        } else {
          assert k in MapOf(es[1..]);
          var i :| 0 <= i < |es[1..]| && es[1..][i].key == k;
          assert es[i + 1].key == k;
        }
      }
      forall i | 0 <= i < |es| ensures es[i].key in MapOf(es) {
        if i > 0 { assert es[1..][i - 1].key == es[i].key; }
      }
    }
  }

  lemma {:induction false} TakeReady(ctx: Ctx, leaf: Id, es: seq<LeafEntry>, p: nat, key: Key)
    requires Aligned(ctx) && Brackets(ctx, key) && p < |es| && Sorted(Pre(ctx) + Toks(es) + Post(ctx))
    requires forall i :: 0 <= i < p ==> es[i].key < key
    requires es[p].key == key
    ensures Sorted(Pre(ctx) + Toks(DropAt(es, p)) + Post(ctx))
    ensures Ents(Flat(Plug(ctx, Leaf(leaf, DropAt(es, p))))) == Lower(ctx, es[..p]) + Upper(ctx, es[p + 1..])
  {
    hide Sorted, Ents, Flat, Plug, Pre, Post, Brackets, Lower, Upper;
    TakeEntry(Pre(ctx), es, p, Post(ctx));
    LeafEnts(ctx, leaf, es[..p], [], es[p + 1..]);
    assert es[..p] + [] + es[p + 1..] == DropAt(es, p);
    assert Lower(ctx, es[..p]) + [] == Lower(ctx, es[..p]);
  }
}
