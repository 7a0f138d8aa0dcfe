/** The structural operations of the B+ tree - split, merge, borrowing, growth and collapse of
    the root: their exact effect on the node store, and why a sound store stays sound. */
module BTreeMoves {
  import opened BTreeNodes
  import opened BTreeModel
  import opened BTreeInvariant

  lemma {:induction false} HoleApart(n: Nodes, next: Id, ctx: Ctx, b: multiset<Id>)
    requires ctx.Frame? && Proper(n, next, CBag(ctx) + b)
    ensures ctx.id !in FrameBag(ctx) && ctx.id !in b && ctx.id in n && 0 !in n
    ensures forall z :: z in b ==> z !in FrameBag(ctx) && z in n && b[z] == 1
    ensures forall z :: z in FrameBag(ctx) ==> z in n
  {
    hide BagF;
    var w := CBag(ctx) + b;
    assert CBag(ctx) == multiset{ctx.id} + FrameBag(ctx);
    assert forall z :: w[z] == multiset{ctx.id}[z] + FrameBag(ctx)[z] + b[z];
  }

  /** The right link of a node is 0 or leads to a node of the same level. */
  lemma {:induction false} RightKnown(n: Nodes, next: Id, first: Id, exact: bool, h: nat, ctx: Ctx, t: Tree)
    requires Aligned(ctx) && Sound(n, next, first, exact, h + Depth(ctx), Plug(ctx, t))
    ensures t.id in n && (n[t.id].right == 0 || n[t.id].right in n) && n[t.id].right != t.id
  {
    hide Rep, Flat, PreLev, PostLev;
    OpenedOne(n, next, first, exact, h, ctx, t);
    var s, p := HoleLevel(h, ctx, [t.id]), |PreLev(h, ctx, h)|;
    assert s[p] == t.id && RightLinked(n, s, p);
  }

  lemma {:induction false} FrameNode(n: Nodes, ctx: Ctx, id: Id)
    requires ctx.Frame? && RepCtx(n, ctx, [], [id])
    ensures ctx.id in n && n[ctx.id].BranchNode? && |ctx.lk| == |ctx.lt| && |ctx.rk| == |ctx.rt|
  {
  }

  // ---------- Leaves ----------

  /** Leaf `id` keeps `es` and a new leaf `r` to its right takes `rest`. */
  ghost predicate LeafSplitEffect(n: Nodes, n': Nodes, id: Id, r: Id, es: seq<LeafEntry>, rest: seq<LeafEntry>) {
    && id in n && n[id].LeafNode? && r !in n && n'.Keys == n.Keys + {r}
    && n'[id] == n[id].(entries := es, right := r)
    && n'[r] == LeafNode(0, id, if n[id].right in n then n[id].right else 0, rest)
    && forall z :: z in n && z != id ==> n'[z] == (if z == n[id].right then n[z].(left := r) else n[z])
  }

  function Reslot(n: Nodes, p: Id, slots: seq<BranchEntry>): Nodes
    requires p in n && n[p].BranchNode?
  {
    n[p := n[p].(slots := slots)]
  }

  function Adopt(n: Nodes, x: Id, p: Id): Nodes
    requires x in n
  {
    n[x := n[x].(parent := p)]
  }

  /** Slots of the branch around a hole that holds children `ids`. */
  function HoleSlots(ctx: Ctx, keys: seq<Key>, ids: seq<Id>): seq<BranchEntry>
    requires ctx.Frame? && |ctx.lk| == |ctx.lt| && |ctx.rk| == |ctx.rt| && |ids| == |keys| + 1
  {
    Slots(ctx.lk + keys + ctx.rk, IdsOf(ctx.lt) + ids + IdsOf(ctx.rt))
  }

  lemma {:induction false} SplitLeafSound(n: Nodes, n': Nodes, next: Id, next': Id, first: Id, exact: bool, ctx: Ctx,
                       id: Id, es: seq<LeafEntry>, es': seq<LeafEntry>, m: nat, r: Id)
    requires ctx.Frame? && Aligned(ctx) && Sound(n, next, first, exact, Depth(ctx), Plug(ctx, Leaf(id, es)))
    requires Sorted(Pre(ctx) + Toks(es') + Post(ctx)) && 0 < m < |es'|
    requires NewId(n, r) && next <= next' && r < next'
    requires LeafSplitEffect(n, n', id, r, es'[..m], es'[m..])
    requires ctx.id in n' && n'[ctx.id].BranchNode?
    ensures Sound(Reslot(Adopt(n', r, ctx.id), ctx.id, HoleSlots(ctx, [es'[m].key], [id, r])), next', first, exact,
                  Depth(ctx), SegPlug(ctx, [es'[m].key], [Leaf(id, es'[..m]), Leaf(r, es'[m..])]))
  {
    hide Plug, SegPlug, Pre, Post, CBag, FlatR, SegFlat, RepCtx, Linked, BagF, FrameBag, LinksAll, Sorted, Sound, Agree, SplitLinks, SameBody;
    OpenedOne(n, next, first, exact, 0, ctx, Leaf(id, es));
    FrameNode(n, ctx, id);
    RightKnown(n, next, first, exact, 0, ctx, Leaf(id, es));
    var v := n[id := n[id].(entries := es')];
    var k := es'[m].key;
    var x, x', y := Leaf(id, es'), Leaf(id, es'[..m]), Leaf(r, es'[m..]);
    EditLeaf(n, next, first, exact, ctx, id, es, es');
    OpenedOne(v, next, first, exact, 0, ctx, x);
    HoleApart(v, next, ctx, Bag(x));
    var w := Reslot(Adopt(n', r, ctx.id), ctx.id, HoleSlots(ctx, [k], [id, r]));
    SplitLeafOrder(Pre(ctx), es', m, Post(ctx));
    SplitLeafStore(n, n', ctx, id, es', m, r);
    RepCtxReslot(v, w, ctx, [], [id], [k], [id, r]);
    LeafLevels(id, r, es', m);
    Split(v, w, next, next', first, exact, 0, ctx, x, x', k, y);
  }

  lemma {:induction false} LeafLevels(id: Id, r: Id, es: seq<LeafEntry>, m: nat)
    requires m <= |es|
    ensures Bag(Leaf(id, es[..m])) + Bag(Leaf(r, es[m..])) == Bag(Leaf(id, es)) + multiset{r}
  {
  }

  lemma {:induction false} SplitLeafStore(n: Nodes, n': Nodes, ctx: Ctx, id: Id, es: seq<LeafEntry>, m: nat, r: Id)
    requires ctx.Frame? && |ctx.lk| == |ctx.lt| && |ctx.rk| == |ctx.rt| && m < |es|
    requires LeafSplitEffect(n, n', id, r, es[..m], es[m..])
    requires NewId(n, r) && id != ctx.id && id !in FrameBag(ctx) && ctx.id !in FrameBag(ctx)
    requires ctx.id in n && n[ctx.id].BranchNode? && n[id].parent == ctx.id
    requires n[id].right != id && (n[id].right == 0 || n[id].right in n) && 0 !in n
    ensures ctx.id in n' && n'[ctx.id].BranchNode? && r in n'
    ensures var v, w := n[id := n[id].(entries := es)], Reslot(Adopt(n', r, ctx.id), ctx.id, HoleSlots(ctx, [es[m].key], [id, r]));
            && SplitLinks(v, w, id, r) && NewId(v, r) && Agree(v, w, FrameBag(ctx)) && ctx.id in v
            && SameBody(v[ctx.id].(slots := HoleSlots(ctx, [es[m].key], [id, r])), w[ctx.id]) && ctx.id in w
            && Rep(w, Leaf(id, es[..m]), ctx.id) && Rep(w, Leaf(r, es[m..]), ctx.id)
  {
    hide FrameBag;
  }

  lemma {:induction false} SplitLeafOrder(a: seq<Tok>, es: seq<LeafEntry>, m: nat, b: seq<Tok>)
    requires Sorted(a + Toks(es) + b) && 0 < m < |es|
    ensures Sorted(a + (Toks(es[..m]) + [Sep(es[m].key)] + Toks(es[m..])) + b)
  {
    hide Sorted;
    var c, d := Toks(es[..m]), Toks(es[m..]);
    assert Toks(es) == c + d;
    Regroup(a, c, d, b);
    SortedNewSep(a + c, d + b);
    Around(a, c, [Sep(es[m].key)], d, b);
  }

  // ---------- Children that change parent ----------

  lemma {:induction false} PairInBag(kids: seq<Tree>, i: nat, j: nat)
    requires i < j < |kids|
    ensures Bag(kids[i]) + Bag(kids[j]) <= BagF(kids)
  {
    hide Bag, BagF;
    BagFMember(kids[..j], i);
    BagFMember(kids[j..], 0);
    assert kids[..j] + kids[j..] == kids;
    BagFConcat(kids[..j], kids[j..]);
  }

  /** With unique ids, a node strictly below child `i` is none of the children. */
  lemma {:induction false} BelowNotChild(kids: seq<Tree>, i: nat, z: Id)
    requires forall x :: BagF(kids)[x] <= 1
    requires i < |kids| && z in Bag(kids[i]) && z != kids[i].id
    ensures z in BagF(kids) && z !in IdsOf(kids)
  {
    BagFMember(kids, i);
    forall j | 0 <= j < |kids| ensures kids[j].id != z {
      if j != i {
        if i < j { PairInBag(kids, i, j); } else { PairInBag(kids, j, i); }
        assert Bag(kids[i])[z] + Bag(kids[j])[z] == (Bag(kids[i]) + Bag(kids[j]))[z] <= BagF(kids)[z];
        assert kids[j].id in Bag(kids[j]);
      }
    }
  }

  /** A run of children moves from parent `p` to parent `q`. */
  lemma {:induction false} MoveRun(v: Nodes, w: Nodes, kids: seq<Tree>, p: Id, q: Id)
    requires RepF(v, kids, p) && forall x :: BagF(kids)[x] <= 1
    requires forall i :: 0 <= i < |kids| ==> kids[i].id in v && kids[i].id in w && SameBody(v[kids[i].id].(parent := q), w[kids[i].id])
    requires forall z :: z in BagF(kids) && z !in IdsOf(kids) && z in v ==> z in w && SameBody(v[z], w[z])
    ensures RepF(w, kids, q)
  {
    hide BagF, SameBody;
    forall i | 0 <= i < |kids| ensures Rep(w, kids[i], q) {
      var t := kids[i];
      BagFMember(kids, i);
      assert Bag(t)[t.id] == 1;
      if t.Branch? {
        forall z | z in BagF(t.kids) && z in v ensures z in w && SameBody(v[z], w[z]) {
          assert Bag(t) == multiset{t.id} + BagF(t.kids);
          BelowNotChild(kids, i, z);
        }
      }
      RepMove(v, w, t, p, q);
    }
  }

  /** Children that stay where they are. */
  lemma {:induction false} StayRun(v: Nodes, w: Nodes, kids: seq<Tree>, p: Id)
    requires RepF(v, kids, p)
    requires forall z :: z in BagF(kids) && z in v ==> z in w && SameBody(v[z], w[z])
    ensures RepF(w, kids, p)
  {
    RepFrameF(v, w, kids, p);
  }

  // ---------- Branches ----------

  /** What a node other than the split one becomes. */
  function SplitOther(node: Node, z: Id, right: Id, r: Id, moved: seq<Id>): Node {
    var a := if z == right then node.(left := r) else node;
    if z in moved then a.(parent := r) else a
  }

  /** Branch `id`, standing for `keys` and `ids`, keeps `m` keys; key `m` leaves the branch and
      the rest goes to a new branch `r` on its right, the parent of the children it takes. */
  ghost predicate BranchSplitEffect(n: Nodes, n': Nodes, id: Id, r: Id, keys: seq<Key>, ids: seq<Id>, m: nat)
    requires m < |keys| && |ids| == |keys| + 1
  {
    && id in n && n[id].BranchNode? && r !in n && n'.Keys == n.Keys + {r}
    && n'[id] == n[id].(slots := Slots(keys[..m], ids[..m + 1]), right := r)
    && n'[r] == BranchNode(0, id, if n[id].right in n then n[id].right else 0, Slots(keys[m + 1..], ids[m + 1..]))
    && forall z :: z in n && z != id ==> n'[z] == SplitOther(n[z], z, n[id].right, r, ids[m + 1..])
  }

  lemma {:induction false} SplitBranchOrder(a: seq<Tok>, keys: seq<Key>, kids: seq<Tree>, m: nat, x: Tree, y: Tree, b: seq<Tok>)
    requires |kids| == |keys| + 1 && m < |keys|
    requires x.Branch? && x.keys == keys[..m] && x.kids == kids[..m + 1]
    requires y.Branch? && y.keys == keys[m + 1..] && y.kids == kids[m + 1..]
    requires Sorted(a + SegFlat(keys, kids) + b) && Solid(y)
    ensures SegFlat(keys, kids) == Flat(x) + [Sep(keys[m])] + Flat(y)
    ensures Sorted(a + (Flat(x) + [Sep(MinEnt(y).key)] + Flat(y)) + b)
  {
    hide Sorted, Solid, FlatR;
    SegCut(keys[..m], kids[..m + 1], keys[m], keys[m + 1..], kids[m + 1..]);
    assert keys[..m] + [keys[m]] + keys[m + 1..] == keys && kids[..m + 1] + kids[m + 1..] == kids;
    assert Flat(x) == SegFlat(x.keys, x.kids) && Flat(y) == SegFlat(y.keys, y.kids);
    RaiseSep(a, Flat(x), keys[m], y, b);
  }

  /** The separator in front of a solid tree may be raised to the smallest key in the tree. */
  lemma {:induction false} RaiseSep(a: seq<Tok>, p: seq<Tok>, k: Key, y: Tree, b: seq<Tok>)
    requires Solid(y) && Sorted(a + (p + [Sep(k)] + Flat(y)) + b)
    ensures Sorted(a + (p + [Sep(MinEnt(y).key)] + Flat(y)) + b)
  {
    hide Sorted, Solid, Flat;
    FlatEnds(y);
    Around(a, p, [Sep(k)], Flat(y), b);
    SortedResep(a + p, k, Flat(y) + b);
    Around(a, p, [Sep(MinEnt(y).key)], Flat(y), b);
  }

  /** Splitting the branch with id `id` that holds `kids`, one level below the branch of `ctx`. */
  lemma {:induction false} SplitBranchStore(n: Nodes, n': Nodes, next: Id, ctx: Ctx, id: Id, keys: seq<Key>, kids: seq<Tree>, m: nat, r: Id, k: Key)
    requires ctx.Frame? && |ctx.lk| == |ctx.lt| && |ctx.rk| == |ctx.rt|
    requires |kids| == |keys| + 1 && m < |keys|
    requires BranchSplitEffect(n, n', id, r, keys, IdsOf(kids), m)
    requires NewId(n, r) && Rep(n, Branch(id, keys, kids), ctx.id)
    requires Proper(n, next, CBag(ctx) + Bag(Branch(id, keys, kids)))
    requires ctx.id in n && n[ctx.id].BranchNode?
    requires n[id].right != id && (n[id].right == 0 || n[id].right in n)
    ensures ctx.id in n' && n'[ctx.id].BranchNode? && r in n'
    ensures var w := Reslot(Adopt(n', r, ctx.id), ctx.id, HoleSlots(ctx, [k], [id, r]));
            && SplitLinks(n, w, id, r) && Agree(n, w, FrameBag(ctx)) && ctx.id in w
            && SameBody(n[ctx.id].(slots := HoleSlots(ctx, [k], [id, r])), w[ctx.id])
            && Rep(w, Branch(id, keys[..m], kids[..m + 1]), ctx.id) && Rep(w, Branch(r, keys[m + 1..], kids[m + 1..]), ctx.id)
  {
    hide BagF, FrameBag, CBag, HoleSlots, Agree, Proper, SplitLinks, Rep, Bag;
    var t, kept, moved := Branch(id, keys, kids), kids[..m + 1], kids[m + 1..];
    assert kids == kept + moved;
    RepParts(n, t, ctx.id);
    BranchApart(n, next, ctx, id, keys, kids, kept, moved);
    IdsInBag(moved);
    var w := Reslot(Adopt(n', r, ctx.id), ctx.id, HoleSlots(ctx, [k], [id, r]));
    IdsCut(kids, m + 1);
    SplitBranchAround(n, n', ctx, id, keys, IdsOf(kids), m, r, k);
    RepRuns(n, id, kids, kept, moved);
    SplitBranchKids(n, w, {ctx.id, id}, kept, moved, id, r);
    RepBranch(w, Branch(id, keys[..m], kept), ctx.id);
    RepBranch(w, Branch(r, keys[m + 1..], moved), ctx.id);
  }

  lemma {:induction false} IdsCut(kids: seq<Tree>, m: nat)
    requires m <= |kids|
    ensures IdsOf(kids)[..m] == IdsOf(kids[..m]) && IdsOf(kids)[m..] == IdsOf(kids[m..])
  {
  }

  lemma {:induction false} RepRuns(n: Nodes, p: Id, kids: seq<Tree>, a: seq<Tree>, b: seq<Tree>)
    requires RepF(n, kids, p) && kids == a + b
    ensures RepF(n, a, p) && RepF(n, b, p)
  {
    hide Rep;
    forall i | 0 <= i < |b| ensures Rep(n, b[i], p) { assert b[i] == kids[|a| + i]; }
    forall i | 0 <= i < |a| ensures Rep(n, a[i], p) { assert a[i] == kids[i]; }
  }

  /** The ids below two runs of children of a branch, that of the branch and those around it are all different. */
  lemma {:induction false} BranchApart(n: Nodes, next: Id, ctx: Ctx, id: Id, keys: seq<Key>, kids: seq<Tree>, a: seq<Tree>, b: seq<Tree>)
    requires ctx.Frame? && kids == a + b
    requires Proper(n, next, CBag(ctx) + Bag(Branch(id, keys, kids)))
    ensures ctx.id !in FrameBag(ctx) && ctx.id in n && 0 !in n && id != ctx.id && id !in FrameBag(ctx)
    ensures forall z :: BagF(a)[z] + BagF(b)[z] <= 1
    ensures forall z :: z in BagF(a) || z in BagF(b) ==> z in n && z != id && z != ctx.id && z !in FrameBag(ctx)
  {
    hide BagF, FrameBag, CBag;
    var t := Branch(id, keys, kids);
    HoleApart(n, next, ctx, Bag(t));
    BagFConcat(a, b);
    assert Bag(t) == multiset{id} + (BagF(a) + BagF(b));
    assert forall z :: Bag(t)[z] == multiset{id}[z] + BagF(a)[z] + BagF(b)[z];
  }

  lemma {:induction false} SplitBranchAround(n: Nodes, n': Nodes, ctx: Ctx, id: Id, keys: seq<Key>, ids: seq<Id>, m: nat, r: Id, k: Key)
    requires ctx.Frame? && |ctx.lk| == |ctx.lt| && |ctx.rk| == |ctx.rt|
    requires |ids| == |keys| + 1 && m < |keys|
    requires BranchSplitEffect(n, n', id, r, keys, ids, m) && NewId(n, r)
    requires ctx.id in n && n[ctx.id].BranchNode? && n[id].parent == ctx.id
    requires n[id].right != id && (n[id].right == 0 || n[id].right in n) && 0 !in n
    requires id != ctx.id && ctx.id !in FrameBag(ctx) && id !in FrameBag(ctx)
    requires forall z :: z in ids[m + 1..] ==> z !in FrameBag(ctx) && z != ctx.id && z != id
    ensures ctx.id in n' && n'[ctx.id].BranchNode? && r in n'
    ensures var w := Reslot(Adopt(n', r, ctx.id), ctx.id, HoleSlots(ctx, [k], [id, r]));
            && SplitLinks(n, w, id, r) && Agree(n, w, FrameBag(ctx)) && ctx.id in w
            && SameBody(n[ctx.id].(slots := HoleSlots(ctx, [k], [id, r])), w[ctx.id])
            && w[id] == n'[id] && w[r] == n'[r].(parent := ctx.id)
            && forall z :: z in n && z != id && z != ctx.id ==> w[z] == SplitOther(n[z], z, n[id].right, r, ids[m + 1..])
  {
    hide FrameBag, HoleSlots;
  }

  lemma {:induction false} IdsInBag(kids: seq<Tree>)
    ensures forall z :: z in IdsOf(kids) ==> z in BagF(kids)
  {
    forall z | z in IdsOf(kids) ensures z in BagF(kids) {
      var i :| 0 <= i < |kids| && IdsOf(kids)[i] == z;
      BagFMember(kids, i);
      assert z in Bag(kids[i]);
    }
  }

  lemma {:induction false} SplitBranchKids(n: Nodes, w: Nodes, other: set<Id>, kept: seq<Tree>, moved: seq<Tree>, id: Id, r: Id)
    requires forall z :: BagF(kept)[z] + BagF(moved)[z] <= 1
    requires forall z :: z in BagF(moved) ==> z in n && z !in other
    requires forall z :: z in BagF(kept) ==> z !in other
    requires RepF(n, kept, id) && RepF(n, moved, id)
    requires forall z :: z in n && z !in other ==> z in w && SameBody(SplitBody(n[z], z, r, IdsOf(moved)), w[z])
    ensures RepF(w, kept, id) && RepF(w, moved, r)
  {
    hide BagF, Rep;
    IdsInBag(moved);
    StayRun(n, w, kept, id);
    forall i | 0 <= i < |moved|
      ensures moved[i].id in n && moved[i].id in w && SameBody(n[moved[i].id].(parent := r), w[moved[i].id])
    {
      assert moved[i].id == IdsOf(moved)[i];
      assert moved[i].id in BagF(moved);
    }
    MoveRun(n, w, moved, id, r);
  }

  function SplitBody(node: Node, z: Id, r: Id, moved: seq<Id>): Node {
    if z in moved then node.(parent := r) else node
  }

  lemma {:induction false} SplitBranchSound(n: Nodes, n': Nodes, next: Id, next': Id, first: Id, exact: bool, h: nat, ctx: Ctx,
                         id: Id, keys: seq<Key>, kids: seq<Tree>, m: nat, r: Id)
    requires ctx.Frame? && Aligned(ctx) && h > 0
    requires Sound(n, next, first, exact, h + Depth(ctx), Plug(ctx, Branch(id, keys, kids)))
    requires |kids| == |keys| + 1 && m < |keys| && Solid(Branch(r, keys[m + 1..], kids[m + 1..]))
    requires NewId(n, r) && next <= next' && r < next'
    requires BranchSplitEffect(n, n', id, r, keys, IdsOf(kids), m)
    requires ctx.id in n' && n'[ctx.id].BranchNode?
    ensures var y := Branch(r, keys[m + 1..], kids[m + 1..]);
            var k := MinEnt(y).key;
            Sound(Reslot(Adopt(n', r, ctx.id), ctx.id, HoleSlots(ctx, [k], [id, r])), next', first, exact,
                  h + Depth(ctx), SegPlug(ctx, [k], [Branch(id, keys[..m], kids[..m + 1]), y]))
  {
    hide Plug, SegPlug, Pre, Post, CBag, FlatR, Flat, Linked, BagF, FrameBag, LinksAll, Sorted, Sound, Agree, SplitLinks, SameBody, NewId, Solid, BranchSplitEffect;
    var x, x', y := Branch(id, keys, kids), Branch(id, keys[..m], kids[..m + 1]), Branch(r, keys[m + 1..], kids[m + 1..]);
    var k := MinEnt(y).key;
    OpenedOne(n, next, first, exact, h, ctx, x);
    FrameNode(n, ctx, id);
    RightKnown(n, next, first, exact, h, ctx, x);
    SplitBranchStore(n, n', next, ctx, id, keys, kids, m, r, k);
    var w := Reslot(Adopt(n', r, ctx.id), ctx.id, HoleSlots(ctx, [k], [id, r]));
    RepCtxReslot(n, w, ctx, [], [id], [k], [id, r]);
    BranchFlat(x);
    SplitBranchOrder(Pre(ctx), keys, kids, m, x', y, Post(ctx));
    assert kids == x'.kids + y.kids;
    BranchPartition(h, x, x', y);
    Split(n, w, next, next', first, exact, h, ctx, x, x', k, y);
  }

  /** Two branches that share out the children of a third one have its ids and levels. */
  lemma {:induction false} BranchPartition(h: nat, x: Tree, x': Tree, y: Tree)
    requires h > 0 && x.Branch? && x'.Branch? && y.Branch? && x.kids == x'.kids + y.kids && x.id == x'.id
    ensures Bag(x') + Bag(y) == Bag(x) + multiset{y.id}
    ensures forall l: nat :: l < h ==> Level(h, x', l) + Level(h, y, l) == Level(h, x, l)
  {
    BagFConcat(x'.kids, y.kids);
    forall l: nat | l < h ensures Level(h, x', l) + Level(h, y, l) == Level(h, x, l) {
      LevelFConcat(h - 1, x'.kids, y.kids, l);
    }
  }

  // ---------- Root ----------

  /** The store with a keyless branch `r` put on top of the root `x`. */
  function Crowned(n: Nodes, x: Id, r: Id): Nodes
    requires x in n
  {
    n[x := n[x].(parent := r)][r := BranchNode(0, 0, 0, [])]
  }

  lemma {:induction false} Grow(n: Nodes, next: Id, next': Id, first: Id, exact: bool, h: nat, t: Tree, r: Id)
    requires Sound(n, next, first, exact, h, t) && NewId(n, r) && next <= next' && r < next'
    ensures t.id in n && Sound(Crowned(n, t.id, r), next', first, exact, h + 1, Branch(r, [], [t]))
  {
    hide Flat, Sorted;
    var g, b := Crowned(n, t.id, r), Branch(r, [], [t]);
    OneKid(t);
    assert t.id in Bag(t);
    assert Flat(b) == Flat(t) by { BranchFlat(b); }
    if t.Branch? { assert Bag(t) == multiset{t.id} + BagF(t.kids); }
    assert forall z :: Bag(t)[z] <= 1;
    RepMove(n, g, t, 0, r);
    assert Slots([], [t.id]) == [];
    assert Rep(g, b, 0);
    assert Bag(b) == multiset{r} + Bag(t);
    GrowLinks(n, g, first, exact, h, t, r);
  }

  lemma {:induction false} GrowLinks(n: Nodes, g: Nodes, first: Id, exact: bool, h: nat, t: Tree, r: Id)
    requires LinksAll(n, first, exact, h, t) && r !in n && r in g && g[r].left == g[r].right == 0
    requires forall z :: z in n ==> z in g && SameLinks(n[z], g[z])
    requires forall z :: z in n && n[z].left in g ==> n[z].left in n
    ensures LinksAll(g, first, exact, h + 1, Branch(r, [], [t]))
  {
    hide Linked;
    var b := Branch(r, [], [t]);
    OneKid(t);
    var top := h + 1;
    forall l: nat | l <= top ensures LevelLinked(g, exact, top, b, l) {
      if l <= h {
        assert LevelLinked(n, exact, h, t, l);
        InNodes(n, l == 0 || exact, Level(h, t, l));
        LinkedKeep(n, g, l == 0 || exact, Level(h, t, l));
        assert Level(h + 1, b, l) == Level(h, t, l);
      } else {
        LinkedSingle(g, r, l == 0 || exact);
      }
    }
  }

  lemma {:induction false} InNodes(n: Nodes, exact: bool, s: seq<Id>)
    requires Linked(n, exact, s)
    ensures forall z :: z in s ==> z in n
  {
  }

  lemma {:induction false} LinkedSingle(g: Nodes, r: Id, exact: bool)
    requires r in g && g[r].left == g[r].right == 0
    ensures Linked(g, exact, [r])
  {
    assert RightLinked(g, [r], 0) && LeftLinked(g, exact, [r], 0);
  }

  /** A root left without keys is freed and its only child becomes the root. */
  lemma {:induction false} Collapse(n: Nodes, next: Id, first: Id, exact: bool, h: nat, t: Tree, r: Id)
    requires Sound(n, next, first, exact, h + 1, Branch(r, [], [t]))
    ensures t.id in n && t.id != r && r in n && Sound((n - {r})[t.id := n[t.id].(parent := 0)], next, first, exact, h, t)
  {
    hide Flat, Sorted, LinksAll, BagF, Linked;
    var b := Branch(r, [], [t]);
    OneKid(t);
    assert Rep(n, b.kids[0], r);
    assert Bag(b) == multiset{r} + Bag(t);
    assert t.id in Bag(t);
    assert forall z :: Bag(b)[z] == multiset{r}[z] + Bag(t)[z];
    var g := (n - {r})[t.id := n[t.id].(parent := 0)];
    assert Flat(b) == Flat(t) by { BranchFlat(b); }
    if t.Branch? { assert Bag(t) == multiset{t.id} + BagF(t.kids); }
    RepMove(n, g, t, r, 0);
    CollapseLinks(n, g, first, exact, h, t, r);
  }

  lemma {:induction false} CollapseLinks(n: Nodes, g: Nodes, first: Id, exact: bool, h: nat, t: Tree, r: Id)
    requires LinksAll(n, first, exact, h + 1, Branch(r, [], [t])) && Bag(t)[r] == 0
    requires forall z :: z in n && z != r ==> z in g && SameLinks(n[z], g[z])
    requires g.Keys <= n.Keys
    ensures LinksAll(g, first, exact, h, t)
  {
    hide Linked;
    var b := Branch(r, [], [t]);
    OneKid(t);
    forall l: nat | l <= h ensures LevelLinked(g, exact, h, t, l) {
      assert LevelLinked(n, exact, h + 1, b, l);
      assert Level(h + 1, b, l) == Level(h, t, l);
      InNodes(n, l == 0 || exact, Level(h, t, l));
      forall z | z in Level(h, t, l) ensures z != r { LevelsInBag(h, t, l, l + 1); assert z in multiset(Level(h, t, l)); }
      LinkedKeep(n, g, l == 0 || exact, Level(h, t, l));
    }
    assert LevelLinked(n, exact, h + 1, b, 0);
  }

  // ---------- A split root gets a new root ----------

  /** The store after a new root `p` has been put over `x` and `r`. */
  function Rooted(n: Nodes, x: Id, r: Id, k: Key, p: Id): Nodes
    requires x in n && r in n
  {
    n[p := BranchNode(0, 0, 0, [BranchEntry(k, x, r)])][x := n[x].(parent := p)][r := n[r].(parent := p)]
  }

  function RootFrame(p: Id): Ctx {
    Frame(Top, p, [], [], [], [])
  }

  lemma {:induction false} RootedIs(n: Nodes, x: Id, r: Id, k: Key, p: Id)
    requires x in n && r in n && x != r && p !in n
    ensures var g := Crowned(n, x, p);
            p in g && g[p].BranchNode? &&
            Rooted(n, x, r, k, p) == Reslot(Adopt(g, r, p), p, HoleSlots(RootFrame(p), [k], [x, r]))
  {
    assert IdsOf([]) == [];
    assert [] + [x, r] + [] == [x, r] && [] + [k] + [] == [k];
    assert HoleSlots(RootFrame(p), [k], [x, r]) == [BranchEntry(k, x, r)];
  }

  lemma {:induction false} RootHole(p: Id, k: Key, x: Tree, y: Tree)
    ensures Plug(RootFrame(p), x) == Branch(p, [], [x]) && Aligned(RootFrame(p)) && Depth(RootFrame(p)) == 1
    ensures SegPlug(RootFrame(p), [k], [x, y]) == Branch(p, [k], [x, y])
    ensures Pre(RootFrame(p)) == [] && Post(RootFrame(p)) == []
  {
    assert [] + [x, y] + [] == [x, y] && [] + [k] + [] == [k];
  }

  lemma {:induction false} CrownedNew(n: Nodes, next: Id, x: Id, r: Id, p: Id)
    requires x in n && NewId(n, r) && NewId(n, p) && r != p && r != 0
    ensures NewId(Crowned(n, x, p), r)
  {
  }

  lemma {:induction false} FreshIds(n: Nodes, next: Id, h: nat, t: Tree, first: Id, exact: bool)
    requires Sound(n, next, first, exact, h, t)
    ensures next > 0 && t.id in n && NewId(n, next) && NewId(n, next + 1)
  {
    assert t.id in Bag(t);
  }

  lemma {:induction false} RootSplitLeafSound(n: Nodes, n': Nodes, next: Id, first: Id, exact: bool, id: Id,
                                              es: seq<LeafEntry>, es': seq<LeafEntry>, m: nat)
    requires Sound(n, next, first, exact, 0, Leaf(id, es)) && Sorted(Toks(es')) && 0 < m < |es'|
    requires LeafSplitEffect(n, n', id, next, es'[..m], es'[m..])
    ensures id in n' && next in n'
    ensures Sound(Rooted(n', id, next, es'[m].key, next + 1), next + 2, first, exact, 1,
                  Branch(next + 1, [es'[m].key], [Leaf(id, es'[..m]), Leaf(next, es'[m..])]))
  {
    hide Sound, Sorted, Plug, SegPlug, Pre, Post;
    var x, y, k, p := Leaf(id, es'[..m]), Leaf(next, es'[m..]), es'[m].key, next + 1;
    FreshIds(n, next, 0, Leaf(id, es), first, exact);
    Grow(n, next, next + 2, first, exact, 0, Leaf(id, es), p);
    RootHole(p, k, Leaf(id, es), y);
    RootHole(p, k, x, y);
    CrownedNew(n, next, id, next, p);
    RootRight(n, next, first, exact, 0, Leaf(id, es));
    assert LeafSplitEffect(Crowned(n, id, p), Crowned(n', id, p), id, next, es'[..m], es'[m..]);
    RootedIs(n', id, next, k, p);
    assert [] + Toks(es') + [] == Toks(es');
    SplitLeafSound(Crowned(n, id, p), Crowned(n', id, p), next + 2, next + 2, first, exact, RootFrame(p), id, es, es', m, next);
  }

  lemma {:induction false} RootSplitBranchSound(n: Nodes, n': Nodes, next: Id, first: Id, exact: bool, h: nat, id: Id,
                                                keys: seq<Key>, kids: seq<Tree>, m: nat)
    requires h > 0 && Sound(n, next, first, exact, h, Branch(id, keys, kids))
    requires |kids| == |keys| + 1 && m < |keys| && Solid(Branch(next, keys[m + 1..], kids[m + 1..]))
    requires BranchSplitEffect(n, n', id, next, keys, IdsOf(kids), m)
    ensures id in n' && next in n'
    ensures var y := Branch(next, keys[m + 1..], kids[m + 1..]);
            var k := MinEnt(y).key;
            Sound(Rooted(n', id, next, k, next + 1), next + 2, first, exact, h + 1,
                  Branch(next + 1, [k], [Branch(id, keys[..m], kids[..m + 1]), y]))
  {
    hide Sound, Plug, SegPlug, Solid, MinEnt;
    var x, y, p := Branch(id, keys[..m], kids[..m + 1]), Branch(next, keys[m + 1..], kids[m + 1..]), next + 1;
    var k, t := MinEnt(y).key, Branch(id, keys, kids);
    FreshIds(n, next, h, t, first, exact);
    Grow(n, next, next + 2, first, exact, h, t, p);
    RootHole(p, k, t, y);
    RootHole(p, k, x, y);
    CrownedNew(n, next, id, next, p);
    RootKids(n, next, first, exact, h, t);
    CrownedEffect(n, n', id, next, keys, IdsOf(kids), m, p);
    RootedIs(n', id, next, k, p);
    SplitBranchSound(Crowned(n, id, p), Crowned(n', id, p), next + 2, next + 2, first, exact, h, RootFrame(p), id, keys, kids, m, next);
  }

  lemma {:induction false} CrownedEffect(n: Nodes, n': Nodes, id: Id, r: Id, keys: seq<Key>, ids: seq<Id>, m: nat, p: Id)
    requires m < |keys| && |ids| == |keys| + 1
    requires BranchSplitEffect(n, n', id, r, keys, ids, m) && p !in n && p != r && p != n[id].right && p !in ids[m + 1..]
    ensures BranchSplitEffect(Crowned(n, id, p), Crowned(n', id, p), id, r, keys, ids, m)
  {
  }

  lemma {:induction false} RootKids(n: Nodes, next: Id, first: Id, exact: bool, h: nat, t: Tree)
    requires t.Branch? && Sound(n, next, first, exact, h, t)
    ensures forall z :: z in IdsOf(t.kids) ==> z in n
    ensures n[t.id].right == 0 || n[t.id].right in n
  {
    hide Flat, Sorted, Level, LevelF;
    forall z | z in IdsOf(t.kids) ensures z in n {
      var i :| 0 <= i < |t.kids| && IdsOf(t.kids)[i] == z;
      assert Rep(n, t.kids[i], t.id);
    }
    RootRight(n, next, first, exact, h, t);
  }

  lemma {:induction false} RootRight(n: Nodes, next: Id, first: Id, exact: bool, h: nat, t: Tree)
    requires Sound(n, next, first, exact, h, t)
    ensures t.id in n && (n[t.id].right == 0 || n[t.id].right in n)
  {
    hide Sound;
    RightKnown(n, next, first, exact, h, Top, t);
  }

  // ---------- Two neighbours in a branch ----------

  /** Everything a step on two neighbouring children needs to know about them. */
  lemma {:induction false} OpenTwo(n: Nodes, next: Id, first: Id, exact: bool, h: nat, ctx: Ctx, x: Tree, k: Key, y: Tree)
    requires ctx.Frame? && Aligned(ctx) && Sound(n, next, first, exact, h + Depth(ctx), SegPlug(ctx, [k], [x, y]))
    ensures RepCtx(n, ctx, [k], [x.id, y.id]) && Rep(n, x, ctx.id) && Rep(n, y, ctx.id)
    ensures ctx.id in n && n[ctx.id].BranchNode? && |ctx.lk| == |ctx.lt| && |ctx.rk| == |ctx.rt|
    ensures n[ctx.id].slots == HoleSlots(ctx, [k], [x.id, y.id])
    ensures Proper(n, next, CBag(ctx) + (Bag(x) + Bag(y)))
    ensures Sorted(Pre(ctx) + (Flat(x) + [Sep(k)] + Flat(y)) + Post(ctx))
    ensures Linked(n, h == 0 || exact, HoleLevel(h, ctx, [x.id, y.id]))
  {
    hide Sorted, Proper, Linked, Bag, BagF, CBag, Flat, FlatR, Pre, Post, Sound;
    Opened(n, next, first, exact, h, ctx, [k], [x, y]);
    TwoKids(x, k, y);
    assert Rep(n, [x, y][0], ctx.id) && Rep(n, [x, y][1], ctx.id);
  }

  lemma {:induction false} TwoApart(n: Nodes, next: Id, ctx: Ctx, x: Id, y: Id, b: multiset<Id>)
    requires ctx.Frame? && Proper(n, next, CBag(ctx) + b) && multiset{x, y} <= b
    ensures x != y && x != ctx.id && y != ctx.id && 0 !in n && ctx.id in n && x in n && y in n
    ensures ctx.id !in FrameBag(ctx) && x !in FrameBag(ctx) && y !in FrameBag(ctx)
    ensures forall z :: z in b ==> z !in FrameBag(ctx) && z in n && z != ctx.id
  {
    hide FrameBag, CBag;
    HoleApart(n, next, ctx, b);
    assert x in b && y in b;
    assert x == y ==> b[x] >= 2;
  }

  lemma {:induction false} NextKnown(n: Nodes, exact: bool, h: nat, ctx: Ctx, x: Id, y: Id)
    requires Linked(n, exact, HoleLevel(h, ctx, [x, y])) && 0 !in n
    ensures x in n && y in n && n[x].right == y && n[y].right != y && n[y].right != x
    ensures n[y].right == 0 || n[y].right in n
  {
    hide PreLev, PostLev;
    var s, p := HoleLevel(h, ctx, [x, y]), |PreLev(h, ctx, h)|;
    assert s[p] == x && s[p + 1] == y && RightLinked(n, s, p) && RightLinked(n, s, p + 1);
  }

  // ---------- Merging leaves ----------

  ghost predicate LeafMergeEffect(n: Nodes, n': Nodes, x: Id, y: Id) {
    && x in n && y in n && n[x].LeafNode? && n[y].LeafNode? && n'.Keys == n.Keys - {y}
    && x in n' && n'[x] == n[x].(entries := n[x].entries + n[y].entries, right := n[y].right)
    && forall z :: z in n && z != x && z != y ==> n'[z] == (if z == n[y].right then n[z].(left := x) else n[z])
  }

  lemma {:induction false} MergeLeafSound(n: Nodes, n': Nodes, next: Id, first: Id, exact: bool, ctx: Ctx, x: Tree, k: Key, y: Tree)
    requires ctx.Frame? && Aligned(ctx) && x.Leaf? && y.Leaf?
    requires Sound(n, next, first, exact, Depth(ctx), SegPlug(ctx, [k], [x, y]))
    requires LeafMergeEffect(n, n', x.id, y.id)
    ensures ctx.id in n' && n'[ctx.id].BranchNode? && |ctx.lk| == |ctx.lt| && |ctx.rk| == |ctx.rt|
    ensures Sound(Reslot(n', ctx.id, HoleSlots(ctx, [], [x.id])), next, first, exact,
                  Depth(ctx), Plug(ctx, Leaf(x.id, x.entries + y.entries)))
  {
    hide Plug, SegPlug, Pre, Post, CBag, FlatR, SegFlat, RepCtx, Linked, BagF, FrameBag, LinksAll, Sorted, Sound, Agree, MergeLinks, SameBody, Level;
    OpenTwo(n, next, first, exact, 0, ctx, x, k, y);
    TwoApart(n, next, ctx, x.id, y.id, Bag(x) + Bag(y));
    NextKnown(n, true, 0, ctx, x.id, y.id);
    var t := Leaf(x.id, x.entries + y.entries);
    assert Toks(t.entries) == Toks(x.entries) + Toks(y.entries);
    DropSep(Pre(ctx), Flat(x), k, Flat(y), Post(ctx));
    MergeLeafStore(n, n', ctx, k, x, y);
    var w := Reslot(n', ctx.id, HoleSlots(ctx, [], [x.id]));
    RepCtxReslot(n, w, ctx, [k], [x.id, y.id], [], [x.id]);
    Merge(n, w, next, first, exact, 0, ctx, x, k, y, t);
  }

  lemma {:induction false} DropSep(a: seq<Tok>, p: seq<Tok>, k: Key, q: seq<Tok>, b: seq<Tok>)
    requires Sorted(a + (p + [Sep(k)] + q) + b)
    ensures Sorted(a + (p + q) + b)
  {
    hide Sorted;
    Around(a, p, [Sep(k)], q, b);
    SortedSub(a + p, [Sep(k)], q + b);
    Regroup(a, p, q, b);
  }

  lemma {:induction false} MergeLeafStore(n: Nodes, n': Nodes, ctx: Ctx, k: Key, x: Tree, y: Tree)
    requires ctx.Frame? && |ctx.lk| == |ctx.lt| && |ctx.rk| == |ctx.rt| && x.Leaf? && y.Leaf?
    requires LeafMergeEffect(n, n', x.id, y.id) && Rep(n, x, ctx.id) && Rep(n, y, ctx.id)
    requires x.id != y.id && x.id != ctx.id && y.id != ctx.id
    requires x.id !in FrameBag(ctx) && y.id !in FrameBag(ctx) && ctx.id !in FrameBag(ctx)
    requires ctx.id in n && n[ctx.id].BranchNode?
    ensures ctx.id in n' && n'[ctx.id].BranchNode?
    ensures var w := Reslot(n', ctx.id, HoleSlots(ctx, [], [x.id]));
            && MergeLinks(n, w, true, x.id, y.id) && Agree(n, w, FrameBag(ctx)) && ctx.id in w
            && SameBody(n[ctx.id].(slots := HoleSlots(ctx, [], [x.id])), w[ctx.id])
            && Rep(w, Leaf(x.id, x.entries + y.entries), ctx.id)
  {
    hide FrameBag, HoleSlots;
  }

  // ---------- Merging branches ----------

  function MergeOther(node: Node, z: Id, right: Id, relinked: bool, x: Id, moved: seq<Id>): Node {
    var a := if z == right && relinked then node.(left := x) else node;
    if z in moved then a.(parent := x) else a
  }

  /** Branch `x` now stands for `keys` and `ids`; its right neighbour `y` is gone and `moved`
      are the children it took over. The branch after `y` points back to `x` only if `relinked`. */
  ghost predicate BranchMergeEffect(n: Nodes, n': Nodes, x: Id, y: Id, keys: seq<Key>, ids: seq<Id>, moved: seq<Id>, relinked: bool)
    requires |ids| == |keys| + 1
  {
    && x in n && y in n && n[x].BranchNode? && n[y].BranchNode? && n'.Keys == n.Keys - {y}
    && x in n' && n'[x] == n[x].(slots := Slots(keys, ids), right := n[y].right)
    && forall z :: z in n && z != x && z != y ==> n'[z] == MergeOther(n[z], z, n[y].right, relinked, x, moved)
  }

  function Joined(x: Tree, k: Key, y: Tree): Tree
    requires x.Branch? && y.Branch?
  {
    Branch(x.id, x.keys + [k] + y.keys, x.kids + y.kids)
  }

  lemma {:induction false} JoinedFlat(x: Tree, k: Key, y: Tree)
    requires x.Branch? && y.Branch? && |x.kids| == |x.keys| + 1 && |y.kids| == |y.keys| + 1
    ensures Flat(Joined(x, k, y)) == Flat(x) + [Sep(k)] + Flat(y)
  {
    hide FlatR;
    SegCut(x.keys, x.kids, k, y.keys, y.kids);
    BranchFlat(x);
    BranchFlat(y);
    BranchFlat(Joined(x, k, y));
  }

  lemma {:induction false} MergeBranchSound(n: Nodes, n': Nodes, next: Id, first: Id, exact: bool, h: nat, ctx: Ctx, x: Tree, k: Key, y: Tree, relinked: bool)
    requires ctx.Frame? && Aligned(ctx) && x.Branch? && y.Branch? && h > 0
    requires Sound(n, next, first, exact, h + Depth(ctx), SegPlug(ctx, [k], [x, y]))
    requires Solid(y) && (exact ==> relinked)
    requires |x.kids| == |x.keys| + 1
    requires BranchMergeEffect(n, n', x.id, y.id, x.keys + [MinEnt(y).key] + y.keys, IdsOf(x.kids) + IdsOf(y.kids), IdsOf(y.kids), relinked)
    ensures ctx.id in n' && n'[ctx.id].BranchNode? && |ctx.lk| == |ctx.lt| && |ctx.rk| == |ctx.rt|
    ensures Sound(Reslot(n', ctx.id, HoleSlots(ctx, [], [x.id])), next, first, exact,
                  h + Depth(ctx), Plug(ctx, Joined(x, MinEnt(y).key, y)))
  {
    hide Plug, SegPlug, Pre, Post, CBag, FlatR, Flat, SegFlat, RepCtx, Linked, BagF, FrameBag, LinksAll, Sorted, Sound, Agree, MergeLinks, SameBody, Level, Solid, BranchMergeEffect;
    var q := MinEnt(y).key;
    var t := Joined(x, q, y);
    OpenTwo(n, next, first, exact, h, ctx, x, k, y);
    PairApart(n, next, ctx, x, y);
    NextKnown(n, h == 0 || exact, h, ctx, x.id, y.id);
    RaiseSep(Pre(ctx), Flat(x), k, y, Post(ctx));
    JoinedFlat(x, q, y);
    MergeBranchStore(n, n', next, ctx, k, x, q, y, relinked, exact);
    var w := Reslot(n', ctx.id, HoleSlots(ctx, [], [x.id]));
    RepCtxReslot(n, w, ctx, [k], [x.id, y.id], [], [x.id]);
    BranchPartition(h, t, x, y);
    Merge(n, w, next, first, exact, h, ctx, x, k, y, t);
  }

  lemma {:induction false} PairApart(n: Nodes, next: Id, ctx: Ctx, x: Tree, y: Tree)
    requires ctx.Frame? && x.Branch? && y.Branch? && Proper(n, next, CBag(ctx) + (Bag(x) + Bag(y)))
    ensures x.id != y.id && x.id != ctx.id && y.id != ctx.id && 0 !in n && ctx.id in n && x.id in n && y.id in n
    ensures ctx.id !in FrameBag(ctx) && x.id !in FrameBag(ctx) && y.id !in FrameBag(ctx)
    ensures forall z :: BagF(x.kids)[z] + BagF(y.kids)[z] <= 1
    ensures forall z :: z in BagF(x.kids) || z in BagF(y.kids) ==>
              z in n && z != x.id && z != y.id && z != ctx.id && z !in FrameBag(ctx)
  {
    hide FrameBag, CBag, BagF;
    var b := Bag(x) + Bag(y);
    assert b == multiset{x.id, y.id} + (BagF(x.kids) + BagF(y.kids));
    TwoApart(n, next, ctx, x.id, y.id, b);
    HoleApart(n, next, ctx, b);
    assert forall z :: b[z] == multiset{x.id, y.id}[z] + BagF(x.kids)[z] + BagF(y.kids)[z];
  }

  lemma {:induction false} MergeBranchStore(n: Nodes, n': Nodes, next: Id, ctx: Ctx, k: Key, x: Tree, q: Key, y: Tree, relinked: bool, exact: bool)
    requires ctx.Frame? && |ctx.lk| == |ctx.lt| && |ctx.rk| == |ctx.rt|
    requires x.Branch? && y.Branch? && |x.kids| == |x.keys| + 1 && |y.kids| == |y.keys| + 1
    requires BranchMergeEffect(n, n', x.id, y.id, x.keys + [q] + y.keys, IdsOf(x.kids) + IdsOf(y.kids), IdsOf(y.kids), relinked)
    requires Rep(n, x, ctx.id) && Rep(n, y, ctx.id) && Proper(n, next, CBag(ctx) + (Bag(x) + Bag(y)))
    requires ctx.id in n && n[ctx.id].BranchNode? && (exact ==> relinked)
    requires n[y.id].right != x.id && n[y.id].right != y.id
    ensures ctx.id in n' && n'[ctx.id].BranchNode?
    ensures var w := Reslot(n', ctx.id, HoleSlots(ctx, [], [x.id]));
            && MergeLinks(n, w, exact, x.id, y.id) && Agree(n, w, FrameBag(ctx)) && ctx.id in w
            && SameBody(n[ctx.id].(slots := HoleSlots(ctx, [], [x.id])), w[ctx.id])
            && Rep(w, Joined(x, q, y), ctx.id)
  {
    hide FrameBag, HoleSlots, CBag, BagF, Agree, MergeLinks, Proper, Rep;
    PairApart(n, next, ctx, x, y);
    IdsInBag(y.kids);
    RepParts(n, x, ctx.id);
    RepParts(n, y, ctx.id);
    var w, t := Reslot(n', ctx.id, HoleSlots(ctx, [], [x.id])), Joined(x, q, y);
    MergeBranchAround(n, n', ctx, x.id, y.id, t.keys, IdsOf(x.kids) + IdsOf(y.kids), IdsOf(y.kids), relinked, exact);
    JoinKids(n, w, {ctx.id, x.id, y.id}, x.kids, y.kids, x.id, y.id);
    assert IdsOf(t.kids) == IdsOf(x.kids) + IdsOf(y.kids);
    RepBranch(w, t, ctx.id);
  }

  lemma {:induction false} RepParts(n: Nodes, t: Tree, p: Id)
    requires t.Branch? && Rep(n, t, p)
    ensures t.id in n && n[t.id].BranchNode? && n[t.id].parent == p && RepF(n, t.kids, t.id)
    ensures |t.kids| == |t.keys| + 1 && n[t.id].slots == Slots(t.keys, IdsOf(t.kids))
  {
  }

  lemma {:induction false} RepBranch(n: Nodes, t: Tree, p: Id)
    requires t.Branch? && t.id in n && n[t.id].BranchNode? && n[t.id].parent == p && RepF(n, t.kids, t.id)
    requires |t.kids| == |t.keys| + 1 && n[t.id].slots == Slots(t.keys, IdsOf(t.kids))
    ensures Rep(n, t, p)
  {
  }

  lemma {:induction false} MergeBranchAround(n: Nodes, n': Nodes, ctx: Ctx, x: Id, y: Id, keys: seq<Key>, ids: seq<Id>, moved: seq<Id>, relinked: bool, exact: bool)
    requires ctx.Frame? && |ctx.lk| == |ctx.lt| && |ctx.rk| == |ctx.rt| && |ids| == |keys| + 1
    requires BranchMergeEffect(n, n', x, y, keys, ids, moved, relinked) && (exact ==> relinked)
    requires ctx.id in n && n[ctx.id].BranchNode? && x != y && x != ctx.id && y != ctx.id
    requires ctx.id !in FrameBag(ctx) && x !in FrameBag(ctx) && y !in FrameBag(ctx)
    requires forall z :: z in moved ==> z !in FrameBag(ctx) && z != ctx.id && z != x && z != y
    ensures ctx.id in n' && n'[ctx.id].BranchNode?
    ensures var w := Reslot(n', ctx.id, HoleSlots(ctx, [], [x]));
            && MergeLinks(n, w, exact, x, y) && Agree(n, w, FrameBag(ctx)) && ctx.id in w
            && SameBody(n[ctx.id].(slots := HoleSlots(ctx, [], [x])), w[ctx.id]) && w[x] == n'[x]
            && forall z :: z in n && z != x && z != y && z != ctx.id ==> z in w && SameBody(SplitBody(n[z], z, x, moved), w[z])
  {
    hide FrameBag, HoleSlots;
  }

  /** The children of `y` join those of `x`. */
  lemma {:induction false} JoinKids(n: Nodes, w: Nodes, other: set<Id>, a: seq<Tree>, b: seq<Tree>, x: Id, y: Id)
    requires RepF(n, a, x) && RepF(n, b, y)
    requires forall z :: BagF(a)[z] + BagF(b)[z] <= 1
    requires forall z :: z in BagF(a) || z in BagF(b) ==> z in n && z !in other
    requires forall z :: z in n && z !in other ==> z in w && SameBody(SplitBody(n[z], z, x, IdsOf(b)), w[z])
    ensures RepF(w, a + b, x)
  {
    hide BagF, Rep;
    IdsInBag(b);
    StayRun(n, w, a, x);
    forall i | 0 <= i < |b|
      ensures b[i].id in n && b[i].id in w && SameBody(n[b[i].id].(parent := x), w[b[i].id])
    {
      assert b[i].id == IdsOf(b)[i];
      assert b[i].id in BagF(b);
    }
    MoveRun(n, w, b, y, x);
    forall i | 0 <= i < |a + b| ensures Rep(w, (a + b)[i], x) {
      if i < |a| { assert (a + b)[i] == a[i]; } else { assert (a + b)[i] == b[i - |a|]; }
    }
  }

  // ---------- Leaves ----------

  /** Leaves `x` and `y` now hold `es` and `rest`; their parent `p` has new slots. */
  ghost predicate LeafBorrowEffect(n: Nodes, n': Nodes, p: Id, x: Id, y: Id, es: seq<LeafEntry>, rest: seq<LeafEntry>, slots: seq<BranchEntry>) {
    && x in n && n[x].LeafNode? && y in n && n[y].LeafNode? && p in n && n[p].BranchNode?
    && n' == n[x := n[x].(entries := es)][y := n[y].(entries := rest)][p := n[p].(slots := slots)]
  }

  lemma {:induction false} BorrowedIs(n: Nodes, n': Nodes, p: Id, x: Id, y: Id, es: seq<LeafEntry>, rest: seq<LeafEntry>, slots: seq<BranchEntry>)
    requires x in n && n[x].LeafNode? && y in n && n[y].LeafNode? && p in n && n[p].BranchNode?
    requires n' == n[x := n[x].(entries := es)][y := n[y].(entries := rest)][p := n[p].(slots := slots)]
    ensures LeafBorrowEffect(n, n', p, x, y, es, rest, slots)
  {
  }

  lemma {:induction false} BorrowedBack(n: Nodes, n': Nodes, p: Id, x: Id, y: Id, es: seq<LeafEntry>, rest: seq<LeafEntry>, slots: seq<BranchEntry>)
    requires x in n && n[x].LeafNode? && y in n && n[y].LeafNode? && p in n && n[p].BranchNode? && x != y
    requires n' == n[y := n[y].(entries := rest)][x := n[x].(entries := es)][p := n[p].(slots := slots)]
    ensures LeafBorrowEffect(n, n', p, x, y, es, rest, slots)
  {
    assert n[y := n[y].(entries := rest)][x := n[x].(entries := es)] == n[x := n[x].(entries := es)][y := n[y].(entries := rest)];
  }

  lemma {:induction false} BorrowLeafSound(n: Nodes, n': Nodes, next: Id, first: Id, exact: bool, ctx: Ctx, x: Tree, k: Key, y: Tree,
                        es: seq<LeafEntry>, rest: seq<LeafEntry>)
    requires ctx.Frame? && Aligned(ctx) && x.Leaf? && y.Leaf?
    requires Sound(n, next, first, exact, Depth(ctx), SegPlug(ctx, [k], [x, y]))
    requires x.entries + y.entries == es + rest && es != [] && rest != []
    requires LeafBorrowEffect(n, n', ctx.id, x.id, y.id, es, rest, HoleSlots(ctx, [rest[0].key], [x.id, y.id]))
    ensures Sound(n', next, first, exact, Depth(ctx), SegPlug(ctx, [rest[0].key], [Leaf(x.id, es), Leaf(y.id, rest)]))
  {
    hide Plug, SegPlug, Pre, Post, CBag, FlatR, SegFlat, RepCtx, Linked, BagF, FrameBag, LinksAll, Sorted, Sound, Agree, SameBody, LeafBorrowEffect;
    var k', x', y' := rest[0].key, Leaf(x.id, es), Leaf(y.id, rest);
    OpenTwo(n, next, first, exact, 0, ctx, x, k, y);
    TwoApart(n, next, ctx, x.id, y.id, Bag(x) + Bag(y));
    BorrowLeafOrder(Pre(ctx), x.entries, k, y.entries, es, rest, Post(ctx));
    BorrowLeafStore(n, n', ctx, k', x, y, es, rest);
    RepCtxReslot(n, n', ctx, [k], [x.id, y.id], [k'], [x.id, y.id]);
    Shuffle(n, n', next, first, exact, 0, ctx, x, k, y, x', k', y');
  }

  lemma {:induction false} BorrowLeafOrder(a: seq<Tok>, xs: seq<LeafEntry>, k: Key, ys: seq<LeafEntry>, es: seq<LeafEntry>, rest: seq<LeafEntry>, b: seq<Tok>)
    requires Sorted(a + (Toks(xs) + [Sep(k)] + Toks(ys)) + b) && xs + ys == es + rest && es != [] && rest != []
    ensures Sorted(a + (Toks(es) + [Sep(rest[0].key)] + Toks(rest)) + b)
  {
    hide Sorted;
    DropSep(a, Toks(xs), k, Toks(ys), b);
    assert Toks(es + rest) == Toks(xs) + Toks(ys);
    var m := |es|;
    assert (es + rest)[..m] == es && (es + rest)[m..] == rest;
    SplitLeafOrder(a, es + rest, m, b);
  }

  lemma {:induction false} BorrowLeafStore(n: Nodes, n': Nodes, ctx: Ctx, k: Key, x: Tree, y: Tree, es: seq<LeafEntry>, rest: seq<LeafEntry>)
    requires ctx.Frame? && |ctx.lk| == |ctx.lt| && |ctx.rk| == |ctx.rt| && x.Leaf? && y.Leaf?
    requires LeafBorrowEffect(n, n', ctx.id, x.id, y.id, es, rest, HoleSlots(ctx, [k], [x.id, y.id]))
    requires Rep(n, x, ctx.id) && Rep(n, y, ctx.id)
    requires x.id != y.id && x.id != ctx.id && y.id != ctx.id
    requires x.id !in FrameBag(ctx) && y.id !in FrameBag(ctx) && ctx.id !in FrameBag(ctx)
    ensures Agree(n, n', FrameBag(ctx)) && n'.Keys == n.Keys && forall z :: z in n ==> SameLinks(n[z], n'[z])
    ensures SameBody(n[ctx.id].(slots := HoleSlots(ctx, [k], [x.id, y.id])), n'[ctx.id])
    ensures Rep(n', Leaf(x.id, es), ctx.id) && Rep(n', Leaf(y.id, rest), ctx.id)
  {
    hide FrameBag, HoleSlots;
  }

  // ---------- Branches ----------

  /** Branches `x` and `y` have new slots, child `c` has a new parent `q`, and so has the
      parent `p` of the two branches its slots. */
  ghost predicate BranchBorrowEffect(n: Nodes, n': Nodes, p: Id, x: Id, y: Id, c: Id, q: Id,
                                     sx: seq<BranchEntry>, sy: seq<BranchEntry>, sp: seq<BranchEntry>) {
    && x in n && n[x].BranchNode? && y in n && n[y].BranchNode? && p in n && n[p].BranchNode? && c in n
    && n' == n[x := n[x].(slots := sx)][y := n[y].(slots := sy)][c := n[c].(parent := q)][p := n[p].(slots := sp)]
  }

  lemma {:induction false} BorrowBranchAround(n: Nodes, n': Nodes, ctx: Ctx, k: Key, x: Id, y: Id, c: Id, q: Id, sx: seq<BranchEntry>, sy: seq<BranchEntry>)
    requires ctx.Frame? && |ctx.lk| == |ctx.lt| && |ctx.rk| == |ctx.rt|
    requires BranchBorrowEffect(n, n', ctx.id, x, y, c, q, sx, sy, HoleSlots(ctx, [k], [x, y]))
    requires x != y && x != ctx.id && y != ctx.id && c != x && c != y && c != ctx.id
    requires x !in FrameBag(ctx) && y !in FrameBag(ctx) && ctx.id !in FrameBag(ctx) && c !in FrameBag(ctx)
    ensures Agree(n, n', FrameBag(ctx)) && n'.Keys == n.Keys && forall z :: z in n ==> SameLinks(n[z], n'[z])
    ensures SameBody(n[ctx.id].(slots := HoleSlots(ctx, [k], [x, y])), n'[ctx.id])
    ensures n'[x] == n[x].(slots := sx) && n'[y] == n[y].(slots := sy)
    ensures forall z :: z in n && z != x && z != y && z != ctx.id ==> SameBody(SplitBody(n[z], z, q, [c]), n'[z])
  {
    hide FrameBag, HoleSlots;
  }

  /** The common part of both directions: contents are shared out anew and order is known. */
  lemma {:induction false} BorrowBranchFinish(n: Nodes, n': Nodes, next: Id, first: Id, exact: bool, h: nat, ctx: Ctx,
                           x: Tree, k: Key, y: Tree, x': Tree, k': Key, y': Tree)
    requires ctx.Frame? && Aligned(ctx) && x.Branch? && y.Branch? && x'.Branch? && y'.Branch? && h > 0
    requires Sound(n, next, first, exact, h + Depth(ctx), SegPlug(ctx, [k], [x, y]))
    requires x'.id == x.id && y'.id == y.id && x'.kids + y'.kids == x.kids + y.kids
    requires Sorted(Pre(ctx) + (Flat(x') + [Sep(k')] + Flat(y')) + Post(ctx))
    requires Agree(n, n', FrameBag(ctx)) && n'.Keys == n.Keys && forall z :: z in n ==> SameLinks(n[z], n'[z])
    requires ctx.id in n && n[ctx.id].BranchNode? && |ctx.lk| == |ctx.lt| && |ctx.rk| == |ctx.rt|
    requires SameBody(n[ctx.id].(slots := HoleSlots(ctx, [k'], [x.id, y.id])), n'[ctx.id])
    requires Rep(n', x', ctx.id) && Rep(n', y', ctx.id)
    ensures Sound(n', next, first, exact, h + Depth(ctx), SegPlug(ctx, [k'], [x', y']))
  {
    hide Plug, SegPlug, Pre, Post, CBag, FlatR, Flat, SegFlat, RepCtx, Linked, BagF, FrameBag, LinksAll, Sorted, Sound, Agree, SameBody, Level, Rep;
    OpenTwo(n, next, first, exact, h, ctx, x, k, y);
    var t := Branch(x.id, [], x.kids + y.kids);
    BranchPartition(h, t, x, y);
    BranchPartition(h, t, x', y');
    RepCtxReslot(n, n', ctx, [k], [x.id, y.id], [k'], [x.id, y.id]);
    Shuffle(n, n', next, first, exact, h, ctx, x, k, y, x', k', y');
  }

  /** `x` takes the first child of `y`; the separator becomes the smallest key left in `y`. */
  lemma {:induction false} BorrowRightSound(n: Nodes, n': Nodes, next: Id, first: Id, exact: bool, h: nat, ctx: Ctx, x: Tree, k: Key, y: Tree)
    requires ctx.Frame? && Aligned(ctx) && x.Branch? && y.Branch? && h > 0
    requires Sound(n, next, first, exact, h + Depth(ctx), SegPlug(ctx, [k], [x, y]))
    requires |x.kids| == |x.keys| + 1 && |y.kids| == |y.keys| + 1 && y.keys != []
    requires |ctx.lk| == |ctx.lt| && |ctx.rk| == |ctx.rt|
    requires Solid(Branch(y.id, y.keys[1..], y.kids[1..]))
    requires var k' := MinEnt(Branch(y.id, y.keys[1..], y.kids[1..])).key;
             BranchBorrowEffect(n, n', ctx.id, x.id, y.id, y.kids[0].id, x.id,
                                Slots(x.keys + [k], IdsOf(x.kids) + [y.kids[0].id]), Slots(y.keys[1..], IdsOf(y.kids)[1..]),
                                HoleSlots(ctx, [k'], [x.id, y.id]))
    ensures var y' := Branch(y.id, y.keys[1..], y.kids[1..]);
            Sound(n', next, first, exact, h + Depth(ctx),
                  SegPlug(ctx, [MinEnt(y').key], [Branch(x.id, x.keys + [k], x.kids + [y.kids[0]]), y']))
  {
    hide Plug, SegPlug, Pre, Post, CBag, FlatR, Flat, SegFlat, RepCtx, Linked, BagF, FrameBag, LinksAll, Sorted, Sound, Agree, Level, Rep, Solid, MinEnt, HoleSlots, BranchBorrowEffect, Proper, Bag;
    var x', y' := Branch(x.id, x.keys + [k], x.kids + [y.kids[0]]), Branch(y.id, y.keys[1..], y.kids[1..]);
    OpenTwo(n, next, first, exact, h, ctx, x, k, y);
    BorrowRightOrder(ctx, x, k, y);
    FirstKid(y.kids);
    assert IdsOf(x'.kids) == IdsOf(x.kids) + [y.kids[0].id];
    BorrowRightStore(n, n', next, ctx, x, y, y.kids[0], x', y', MinEnt(y').key);
    ShiftOne(x.kids, y.kids);
    BorrowBranchFinish(n, n', next, first, exact, h, ctx, x, k, y, x', MinEnt(y').key, y');
  }

  lemma {:induction false} BorrowRightStore(n: Nodes, n': Nodes, next: Id, ctx: Ctx, x: Tree, y: Tree, c: Tree, x': Tree, y': Tree, k': Key)
    requires ctx.Frame? && |ctx.lk| == |ctx.lt| && |ctx.rk| == |ctx.rt| && x.Branch? && y.Branch? && x'.Branch? && y'.Branch?
    requires Rep(n, x, ctx.id) && Rep(n, y, ctx.id) && Proper(n, next, CBag(ctx) + (Bag(x) + Bag(y)))
    requires x'.id == x.id && x'.kids == x.kids + [c] && |x'.kids| == |x'.keys| + 1
    requires y'.id == y.id && y.kids == [c] + y'.kids && |y'.kids| == |y'.keys| + 1
    requires BranchBorrowEffect(n, n', ctx.id, x.id, y.id, c.id, x.id, Slots(x'.keys, IdsOf(x'.kids)), Slots(y'.keys, IdsOf(y'.kids)),
                                HoleSlots(ctx, [k'], [x.id, y.id]))
    ensures Agree(n, n', FrameBag(ctx)) && n'.Keys == n.Keys && forall z :: z in n ==> SameLinks(n[z], n'[z])
    ensures ctx.id in n && n[ctx.id].BranchNode?
    ensures SameBody(n[ctx.id].(slots := HoleSlots(ctx, [k'], [x.id, y.id])), n'[ctx.id])
    ensures Rep(n', x', ctx.id) && Rep(n', y', ctx.id)
  {
    hide CBag, BagF, FrameBag, Agree, Rep, HoleSlots, Proper, Bag;
    RepParts(n, x, ctx.id);
    RepParts(n, y, ctx.id);
    PairApart(n, next, ctx, x, y);
    ChildInBag(y.kids, 0);
    BorrowBranchAround(n, n', ctx, k', x.id, y.id, c.id, x.id, Slots(x'.keys, IdsOf(x'.kids)), Slots(y'.keys, IdsOf(y'.kids)));
    RepRuns(n, y.id, y.kids, [c], y'.kids);
    assert IdsOf([c]) == [c.id];
    BorrowKids(n, n', {ctx.id, x.id, y.id}, x.kids, [c], y'.kids, y.kids, x.id, y.id);
    RepBranch(n', x', ctx.id);
    RepBranch(n', y', ctx.id);
  }

  lemma {:induction false} FirstKid(kids: seq<Tree>)
    requires kids != []
    ensures kids == [kids[0]] + kids[1..] && IdsOf([kids[0]]) == [kids[0].id] && IdsOf(kids[1..]) == IdsOf(kids)[1..]
  {
  }

  lemma {:induction false} ChildInBag(kids: seq<Tree>, i: nat)
    requires i < |kids|
    ensures kids[i].id in BagF(kids)
  {
    BagFMember(kids, i);
    assert kids[i].id in Bag(kids[i]);
  }

  lemma {:induction false} ShiftOne<T>(a: seq<T>, b: seq<T>)
    requires b != []
    ensures a + b == (a + [b[0]]) + b[1..]
  {
  }

  lemma {:induction false} BorrowRightOrder(ctx: Ctx, x: Tree, k: Key, y: Tree)
    requires x.Branch? && y.Branch? && |x.kids| == |x.keys| + 1 && |y.kids| == |y.keys| + 1 && y.keys != []
    requires Solid(Branch(y.id, y.keys[1..], y.kids[1..]))
    requires Sorted(Pre(ctx) + (Flat(x) + [Sep(k)] + Flat(y)) + Post(ctx))
    ensures var x', y' := Branch(x.id, x.keys + [k], x.kids + [y.kids[0]]), Branch(y.id, y.keys[1..], y.kids[1..]);
            Sorted(Pre(ctx) + (Flat(x') + [Sep(MinEnt(y').key)] + Flat(y')) + Post(ctx))
  {
    hide Sorted, FlatR, Solid, Pre, Post;
    var x', y' := Branch(x.id, x.keys + [k], x.kids + [y.kids[0]]), Branch(y.id, y.keys[1..], y.kids[1..]);
    JoinedFlat(x, k, y);
    JoinedFlat(x', y.keys[0], y');
    ShiftOne(x.kids, y.kids);
    ShiftOne(x.keys + [k], y.keys);
    RaiseSep(Pre(ctx), Flat(x'), y.keys[0], y', Post(ctx));
  }

  /** The run `b` moves from `y` to `x`; `a` stays with `x` and `rest` with `y`. */
  lemma {:induction false} BorrowKids(n: Nodes, w: Nodes, other: set<Id>, a: seq<Tree>, b: seq<Tree>, rest: seq<Tree>, all: seq<Tree>, x: Id, y: Id)
    requires RepF(n, a, x) && RepF(n, b, y) && RepF(n, rest, y) && all == b + rest
    requires forall z :: BagF(a)[z] + BagF(all)[z] <= 1
    requires forall z :: z in BagF(a) || z in BagF(all) ==> z in n && z !in other
    requires forall z :: z in n && z !in other ==> z in w && SameBody(SplitBody(n[z], z, x, IdsOf(b)), w[z])
    ensures RepF(w, a + b, x) && RepF(w, rest, y)
  {
    hide BagF, Rep;
    BagFConcat(b, rest);
    assert forall z :: BagF(all)[z] == BagF(b)[z] + BagF(rest)[z];
    JoinKids(n, w, other, a, b, x, y);
    IdsInBag(b);
    StayRun(n, w, rest, y);
  }

  /** `y` takes the last child of `x`; the separator becomes the last key of `x`. */
  lemma {:induction false} BorrowLeftSound(n: Nodes, n': Nodes, next: Id, first: Id, exact: bool, h: nat, ctx: Ctx, x: Tree, k: Key, y: Tree)
    requires ctx.Frame? && Aligned(ctx) && x.Branch? && y.Branch? && h > 0
    requires Sound(n, next, first, exact, h + Depth(ctx), SegPlug(ctx, [k], [x, y]))
    requires |x.kids| == |x.keys| + 1 && |y.kids| == |y.keys| + 1 && x.keys != []
    requires |ctx.lk| == |ctx.lt| && |ctx.rk| == |ctx.rt|
    requires var l := |x.keys| - 1;
             BranchBorrowEffect(n, n', ctx.id, x.id, y.id, x.kids[l + 1].id, y.id,
                                Slots(x.keys[..l], IdsOf(x.kids)[..l + 1]), Slots([k] + y.keys, [x.kids[l + 1].id] + IdsOf(y.kids)),
                                HoleSlots(ctx, [x.keys[l]], [x.id, y.id]))
    ensures var l := |x.keys| - 1;
            Sound(n', next, first, exact, h + Depth(ctx),
                  SegPlug(ctx, [x.keys[l]], [Branch(x.id, x.keys[..l], x.kids[..l + 1]), Branch(y.id, [k] + y.keys, [x.kids[l + 1]] + y.kids)]))
  {
    hide Plug, SegPlug, Pre, Post, CBag, FlatR, Flat, SegFlat, RepCtx, Linked, BagF, FrameBag, LinksAll, Sorted, Sound, Agree, Level, Rep, HoleSlots, BranchBorrowEffect, Proper, Bag;
    var l := |x.keys| - 1;
    var c, k' := x.kids[l + 1], x.keys[l];
    var x', y' := Branch(x.id, x.keys[..l], x.kids[..l + 1]), Branch(y.id, [k] + y.keys, [c] + y.kids);
    OpenTwo(n, next, first, exact, h, ctx, x, k, y);
    BorrowLeftOrder(x, k, y);
    RepParts(n, x, ctx.id);
    RepParts(n, y, ctx.id);
    PairApart(n, next, ctx, x, y);
    assert x.kids == x'.kids + [c] && IdsOf([c]) == [c.id];
    ChildInBag(x.kids, l + 1);
    BorrowBranchAround(n, n', ctx, k', x.id, y.id, c.id, y.id, Slots(x'.keys, IdsOf(x.kids)[..l + 1]), Slots(y'.keys, [c.id] + IdsOf(y.kids)));
    RepRuns(n, x.id, x.kids, x'.kids, [c]);
    LendKids(n, n', {ctx.id, x.id, y.id}, x'.kids, [c], y.kids, x.kids, x.id, y.id);
    assert IdsOf(y'.kids) == [c.id] + IdsOf(y.kids) && IdsOf(x'.kids) == IdsOf(x.kids)[..l + 1];
    RepBranch(n', x', ctx.id);
    RepBranch(n', y', ctx.id);
    assert x'.kids + y'.kids == x.kids + y.kids;
    BorrowBranchFinish(n, n', next, first, exact, h, ctx, x, k, y, x', k', y');
  }

  lemma {:induction false} BorrowLeftOrder(x: Tree, k: Key, y: Tree)
    requires x.Branch? && y.Branch? && |x.kids| == |x.keys| + 1 && |y.kids| == |y.keys| + 1 && x.keys != []
    ensures var l := |x.keys| - 1;
            var x', y' := Branch(x.id, x.keys[..l], x.kids[..l + 1]), Branch(y.id, [k] + y.keys, [x.kids[l + 1]] + y.kids);
            Flat(x') + [Sep(x.keys[l])] + Flat(y') == Flat(x) + [Sep(k)] + Flat(y)
  {
    hide Flat;
    var l := |x.keys| - 1;
    var x', y' := Branch(x.id, x.keys[..l], x.kids[..l + 1]), Branch(y.id, [k] + y.keys, [x.kids[l + 1]] + y.kids);
    JoinedFlat(x, k, y);
    JoinedFlat(x', x.keys[l], y');
    assert Joined(x, k, y) == Joined(x', x.keys[l], y') by {
      assert x.keys == x'.keys + [x.keys[l]] && x.kids == x'.kids + [x.kids[l + 1]];
      Assoc3(x'.kids, [x.kids[l + 1]], y.kids);
      assert x.keys + [k] + y.keys == x'.keys + [x.keys[l]] + y'.keys;
    }
  }

  /** The run `b` moves from `x` to `y`; `a` stays with `x` and `rest` with `y`. */
  lemma {:induction false} LendKids(n: Nodes, w: Nodes, other: set<Id>, a: seq<Tree>, b: seq<Tree>, rest: seq<Tree>, all: seq<Tree>, x: Id, y: Id)
    requires RepF(n, a, x) && RepF(n, b, x) && RepF(n, rest, y) && all == a + b
    requires forall z :: BagF(all)[z] + BagF(rest)[z] <= 1
    requires forall z :: z in BagF(all) || z in BagF(rest) ==> z in n && z !in other
    requires forall z :: z in n && z !in other ==> z in w && SameBody(SplitBody(n[z], z, y, IdsOf(b)), w[z])
    ensures RepF(w, a, x) && RepF(w, b + rest, y)
  {
    hide BagF, Rep;
    BagFConcat(a, b);
    assert forall z :: BagF(all)[z] == BagF(a)[z] + BagF(b)[z];
    IdsInBag(b);
    StayRun(n, w, rest, y);
    SplitBranchKids(n, w, other, a, b, x, y);
    forall i | 0 <= i < |b + rest| ensures Rep(w, (b + rest)[i], y) {
      if i < |b| { assert (b + rest)[i] == b[i]; } else { assert (b + rest)[i] == rest[i - |b|]; }
    }
  }
}
