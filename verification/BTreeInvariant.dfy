/** When a node store represents a tree, and which local changes of the store keep it so. */
module BTreeInvariant {
  import opened BTreeNodes
  import opened BTreeModel

  type Nodes = map<Id, Node>

  /** Tree `t` hangs below node `p` in the store: contents and parent ids are exact. */
  ghost predicate Rep(n: Nodes, t: Tree, p: Id)
    decreases t
  {
    t.id in n && n[t.id].parent == p &&
    match t
    case Leaf(id, es) => n[id].LeafNode? && n[id].entries == es
    case Branch(id, keys, kids) =>
      n[id].BranchNode? && |kids| == |keys| + 1 && n[id].slots == Slots(keys, IdsOf(kids)) &&
      forall i | 0 <= i < |kids| :: Rep(n, kids[i], id)
  }

  ghost predicate RepF(n: Nodes, kids: seq<Tree>, p: Id) {
    forall i :: 0 <= i < |kids| ==> Rep(n, kids[i], p)
  }

  /** The store represents everything around the hole, which holds children `ids`. */
  ghost predicate RepCtx(n: Nodes, ctx: Ctx, keys: seq<Key>, ids: seq<Id>) {
    |ids| == |keys| + 1 &&
    (ctx.Frame? ==>
       && |ctx.lk| == |ctx.lt| && |ctx.rk| == |ctx.rt|
       && ctx.id in n && n[ctx.id].BranchNode? && n[ctx.id].parent == Pid(ctx.up)
       && n[ctx.id].slots == Slots(ctx.lk + keys + ctx.rk, IdsOf(ctx.lt) + ids + IdsOf(ctx.rt))
       && RepF(n, ctx.lt, ctx.id) && RepF(n, ctx.rt, ctx.id)
       && RepCtx(n, ctx.up, [], [ctx.id]))
  }

  predicate SameBody(a: Node, b: Node) {
    a.(left := 0, right := 0) == b.(left := 0, right := 0)
  }

  predicate SameLinks(a: Node, b: Node) {
    a.left == b.left && a.right == b.right
  }

  /** Contents and parent of every node of `b` are the same in both stores. */
  ghost predicate Agree(n: Nodes, n': Nodes, b: multiset<Id>) {
    forall x :: x in b && x in n ==> x in n' && SameBody(n[x], n'[x])
  }

  lemma {:induction false} RepFrame(n: Nodes, n': Nodes, t: Tree, p: Id)
    requires Rep(n, t, p) && Agree(n, n', Bag(t))
    ensures Rep(n', t, p)
    decreases t
  {
    assert t.id in Bag(t);
    assert SameBody(n[t.id], n'[t.id]);
    if t.Branch? {
      RepFrameF(n, n', t.kids, t.id);
    }
  }

  lemma {:induction false} RepFrameF(n: Nodes, n': Nodes, kids: seq<Tree>, p: Id)
    requires RepF(n, kids, p) && Agree(n, n', BagF(kids))
    ensures RepF(n', kids, p)
    decreases kids
  {
    forall i | 0 <= i < |kids| ensures Rep(n', kids[i], p) {
      BagFMember(kids, i);
      RepFrame(n, n', kids[i], p);
    }
  }

  /** A subtree is moved below another node: only its root's parent id changes. */
  lemma {:induction false} RepMove(n: Nodes, n': Nodes, t: Tree, p: Id, q: Id)
    requires Rep(n, t, p) && Bag(t)[t.id] == 1
    requires t.id in n' && SameBody(n[t.id].(parent := q), n'[t.id])
    requires t.Branch? ==> Agree(n, n', BagF(t.kids))
    ensures Rep(n', t, q)
  {
    if t.Branch? {
      RepFrameF(n, n', t.kids, t.id);
    }
  }

  lemma {:induction false} RepCtxFrame(n: Nodes, n': Nodes, ctx: Ctx, keys: seq<Key>, ids: seq<Id>)
    requires RepCtx(n, ctx, keys, ids) && Agree(n, n', CBag(ctx))
    ensures RepCtx(n', ctx, keys, ids)
    decreases ctx
  {
    if ctx.Frame? {
      assert ctx.id in CBag(ctx);
      assert SameBody(n[ctx.id], n'[ctx.id]);
      RepFrameF(n, n', ctx.lt, ctx.id);
      RepFrameF(n, n', ctx.rt, ctx.id);
      RepCtxFrame(n, n', ctx.up, [], [ctx.id]);
    }
  }

  ghost function FrameBag(ctx: Ctx): multiset<Id>
    requires ctx.Frame?
  {
    BagF(ctx.lt) + BagF(ctx.rt) + CBag(ctx.up)
  }

  /** The branch around the hole gets new slots; nothing else around the hole changes. */
  lemma {:induction false} RepCtxReslot(n: Nodes, n': Nodes, ctx: Ctx, keys: seq<Key>, ids: seq<Id>, keys': seq<Key>, ids': seq<Id>)
    requires ctx.Frame? && RepCtx(n, ctx, keys, ids) && Agree(n, n', FrameBag(ctx))
    requires |ids'| == |keys'| + 1 && ctx.id in n'
    requires SameBody(n[ctx.id].(slots := Slots(ctx.lk + keys' + ctx.rk, IdsOf(ctx.lt) + ids' + IdsOf(ctx.rt))), n'[ctx.id])
    ensures RepCtx(n', ctx, keys', ids')
  {
    RepFrameF(n, n', ctx.lt, ctx.id);
    RepFrameF(n, n', ctx.rt, ctx.id);
    RepCtxFrame(n, n', ctx.up, [], [ctx.id]);
  }

  lemma {:induction false} RepOpenOne(n: Nodes, ctx: Ctx, t: Tree)
    requires Aligned(ctx) && Rep(n, Plug(ctx, t), 0)
    ensures RepCtx(n, ctx, [], [t.id]) && Rep(n, t, Pid(ctx))
    decreases ctx
  {
    if ctx.Frame? {
      assert ctx.lk + [] + ctx.rk == ctx.lk + ctx.rk;
      assert IdsOf([t]) == [t.id];
      RepOpenFrame(n, ctx, [], [t]);
      assert Rep(n, [t][0], ctx.id);
    }
  }

  lemma {:induction false} RepOpenFrame(n: Nodes, ctx: Ctx, keys: seq<Key>, kids: seq<Tree>)
    requires ctx.Frame? && Aligned(ctx) && |kids| == |keys| + 1
    requires Rep(n, Plug(ctx.up, Branch(ctx.id, ctx.lk + keys + ctx.rk, ctx.lt + kids + ctx.rt)), 0)
    ensures RepCtx(n, ctx, keys, IdsOf(kids)) && RepF(n, kids, ctx.id)
    decreases ctx, 0
  {
    var b := Branch(ctx.id, ctx.lk + keys + ctx.rk, ctx.lt + kids + ctx.rt);
    RepOpenOne(n, ctx.up, b);
    assert IdsOf(b.kids) == IdsOf(ctx.lt) + IdsOf(kids) + IdsOf(ctx.rt);
    forall i | 0 <= i < |ctx.lt| ensures Rep(n, ctx.lt[i], ctx.id) { assert b.kids[i] == ctx.lt[i]; }
    forall i | 0 <= i < |kids| ensures Rep(n, kids[i], ctx.id) { assert b.kids[|ctx.lt| + i] == kids[i]; }
    forall i | 0 <= i < |ctx.rt| ensures Rep(n, ctx.rt[i], ctx.id) { assert b.kids[|ctx.lt| + |kids| + i] == ctx.rt[i]; }
  }

  lemma {:induction false} RepCloseOne(n: Nodes, ctx: Ctx, t: Tree)
    requires RepCtx(n, ctx, [], [t.id]) && Rep(n, t, Pid(ctx))
    ensures Aligned(ctx) && Rep(n, Plug(ctx, t), 0)
    decreases ctx
  {
    if ctx.Frame? {
      assert ctx.lk + [] + ctx.rk == ctx.lk + ctx.rk;
      assert IdsOf([t]) == [t.id];
      RepCloseFrame(n, ctx, [], [t]);
    }
  }

  lemma {:induction false} RepCloseFrame(n: Nodes, ctx: Ctx, keys: seq<Key>, kids: seq<Tree>)
    requires ctx.Frame? && |kids| == |keys| + 1
    requires RepCtx(n, ctx, keys, IdsOf(kids)) && RepF(n, kids, ctx.id)
    ensures Aligned(ctx) && Rep(n, Plug(ctx.up, Branch(ctx.id, ctx.lk + keys + ctx.rk, ctx.lt + kids + ctx.rt)), 0)
    decreases ctx, 0
  {
    var b := Branch(ctx.id, ctx.lk + keys + ctx.rk, ctx.lt + kids + ctx.rt);
    assert IdsOf(b.kids) == IdsOf(ctx.lt) + IdsOf(kids) + IdsOf(ctx.rt);
    assert RepF(n, b.kids, ctx.id);
    RepCloseOne(n, ctx.up, b);
  }

  lemma {:induction false} RepOpen(n: Nodes, ctx: Ctx, keys: seq<Key>, kids: seq<Tree>)
    requires Aligned(ctx) && FitsHole(ctx, keys, kids) && Rep(n, SegPlug(ctx, keys, kids), 0)
    ensures RepCtx(n, ctx, keys, IdsOf(kids)) && RepF(n, kids, Pid(ctx))
  {
    if ctx.Frame? { RepOpenFrame(n, ctx, keys, kids); }
  }

  lemma {:induction false} RepClose(n: Nodes, ctx: Ctx, keys: seq<Key>, kids: seq<Tree>)
    requires FitsHole(ctx, keys, kids)
    requires RepCtx(n, ctx, keys, IdsOf(kids)) && RepF(n, kids, Pid(ctx))
    ensures Rep(n, SegPlug(ctx, keys, kids), 0)
  {
    if ctx.Frame? { RepCloseFrame(n, ctx, keys, kids); }
  }

  // ---------- Identifiers and sibling links ----------

  /** Ids are unique and in use below `next`, and the store holds these nodes and no others. */
  ghost predicate Proper(n: Nodes, next: Id, b: multiset<Id>) {
    (forall x :: b[x] <= 1) &&
    (forall x :: x in n <==> x in b) &&
    (forall x :: x in n ==> 0 < x < next && n[x].left < next)
  }

  /** `s` is a whole level: right links are exact, and so are left links if `exact`; otherwise a
      left link may point to a node that is gone. */
  ghost predicate Linked(n: Nodes, exact: bool, s: seq<Id>) {
    && (forall i, j :: 0 <= i < j < |s| ==> s[i] != s[j])
    && (forall i :: 0 <= i < |s| ==> s[i] in n)
    && (forall i :: 0 <= i < |s| ==> RightLinked(n, s, i))
    && (forall i :: 0 <= i < |s| ==> LeftLinked(n, exact, s, i))
  }

  ghost predicate RightLinked(n: Nodes, s: seq<Id>, i: nat)
    requires i < |s| && s[i] in n
  {
    n[s[i]].right == if i + 1 < |s| then s[i + 1] else 0
  }

  ghost predicate LeftLinked(n: Nodes, exact: bool, s: seq<Id>, i: nat)
    requires i < |s| && s[i] in n
  {
    if i == 0 then n[s[0]].left == 0
    else n[s[i]].left == s[i - 1] || (!exact && n[s[i]].left !in n && n[s[i]].left != 0)
  }

  /** The leaf level has exact left links in any case. */
  ghost predicate LevelLinked(n: Nodes, exact: bool, h: nat, t: Tree, l: nat) {
    Linked(n, l == 0 || exact, Level(h, t, l))
  }

  ghost predicate LinksAll(n: Nodes, first: Id, exact: bool, h: nat, t: Tree) {
    (forall l: nat :: l <= h ==> LevelLinked(n, exact, h, t, l)) &&
    Level(h, t, 0) != [] && Level(h, t, 0)[0] == first
  }

  /** The store is a sound image of tree `t` of height `h`; nothing is said about occupancy. */
  ghost predicate Sound(n: Nodes, next: Id, first: Id, exact: bool, h: nat, t: Tree) {
    && Rep(n, t, 0)
    && Proper(n, next, Bag(t))
    && Sorted(Flat(t))
    && LinksAll(n, first, exact, h, t)
  }

  lemma {:induction false} LinkedKeep(n: Nodes, n': Nodes, exact: bool, s: seq<Id>)
    requires Linked(n, exact, s)
    requires forall x :: x in s ==> x in n' && SameLinks(n[x], n'[x])
    requires forall x :: x in s && n[x].left in n' ==> n[x].left in n
    ensures Linked(n', exact, s)
  {
    forall i | 0 <= i < |s| ensures s[i] in n' && LeftLinked(n', exact, s, i) && RightLinked(n', s, i) {
      assert LeftLinked(n, exact, s, i) && RightLinked(n, s, i);
      assert s[i] in s;
    }
  }

  lemma {:induction false} LevelsDisjoint(h: nat, t: Tree, l: nat, m: nat, x: Id)
    requires l != m && x in Level(h, t, l) && Bag(t)[x] <= 1
    ensures x in Bag(t) && x !in Level(h, t, m)
  {
    LevelsInBag(h, t, l, m);
    var a, b := multiset(Level(h, t, l)), multiset(Level(h, t, m));
    assert a[x] >= 1 && a[x] + b[x] == (a + b)[x] <= Bag(t)[x];
  }

  /** A node of another level keeps its links, so the level stays linked. */
  lemma {:induction false} OtherLevel(n: Nodes, n': Nodes, next: Id, exact: bool, h: nat, t: Tree, l: nat, m: nat)
    requires l != m && Proper(n, next, Bag(t)) && Linked(n, exact, Level(h, t, l))
    requires forall x :: x in n && x !in Level(h, t, m) ==> x in n' && SameLinks(n[x], n'[x])
    requires forall x :: x in n && n[x].left in n' ==> n[x].left in n
    ensures Linked(n', exact, Level(h, t, l))
  {
    forall x | x in Level(h, t, l) ensures x in n && x !in Level(h, t, m) {
      LevelsDisjoint(h, t, l, m, x);
    }
    LinkedKeep(n, n', exact, Level(h, t, l));
  }

  ghost function HoleLevel(h: nat, ctx: Ctx, ids: seq<Id>): seq<Id> {
    PreLev(h, ctx, h) + ids + PostLev(h, ctx, h)
  }

  /** The workhorse: the run of children in a hole is replaced by another one. */
  lemma {:induction false} Replace(n: Nodes, n': Nodes, next: Id, next': Id, first: Id, exact: bool, h: nat, ctx: Ctx,
                keys: seq<Key>, kids: seq<Tree>, keys': seq<Key>, kids': seq<Tree>)
    requires Aligned(ctx) && FitsHole(ctx, keys, kids) && FitsHole(ctx, keys', kids')
    requires Sound(n, next, first, exact, h + Depth(ctx), SegPlug(ctx, keys, kids))
    requires RepCtx(n', ctx, keys', IdsOf(kids')) && RepF(n', kids', Pid(ctx))
    requires Proper(n', next', CBag(ctx) + BagF(kids'))
    requires Sorted(Pre(ctx) + SegFlat(keys', kids') + Post(ctx))
    requires forall l: nat :: l < h ==> LevelF(h, kids', l) == LevelF(h, kids, l)
    requires Linked(n', h == 0 || exact, HoleLevel(h, ctx, IdsOf(kids')))
    requires forall x :: x in n && x !in HoleLevel(h, ctx, IdsOf(kids)) ==> x in n' && SameLinks(n[x], n'[x])
    requires forall x :: x in n && n[x].left in n' ==> n[x].left in n
    requires IdsOf(kids')[0] == IdsOf(kids)[0]
    ensures Sound(n', next', first, exact, h + Depth(ctx), SegPlug(ctx, keys', kids'))
  {
    hide Level, LevelF, PreLev, PostLev, SegPlug, Bag, LevelLinked, Rep, RepCtx, Flat, SegFlat, Sorted;
    RepClose(n', ctx, keys', kids');
    BagSegPlug(ctx, keys', kids');
    FlatSegPlug(ctx, keys', kids');
    ReplaceLinks(n, n', next, first, exact, h, ctx, keys, kids, keys', kids');
  }

  lemma {:induction false} ReplaceLinks(n: Nodes, n': Nodes, next: Id, first: Id, exact: bool, h: nat, ctx: Ctx,
                     keys: seq<Key>, kids: seq<Tree>, keys': seq<Key>, kids': seq<Tree>)
    requires FitsHole(ctx, keys, kids) && FitsHole(ctx, keys', kids')
    requires Proper(n, next, Bag(SegPlug(ctx, keys, kids)))
    requires LinksAll(n, first, exact, h + Depth(ctx), SegPlug(ctx, keys, kids))
    requires forall l: nat :: l < h ==> LevelF(h, kids', l) == LevelF(h, kids, l)
    requires Linked(n', h == 0 || exact, HoleLevel(h, ctx, IdsOf(kids')))
    requires forall x :: x in n && x !in HoleLevel(h, ctx, IdsOf(kids)) ==> x in n' && SameLinks(n[x], n'[x])
    requires forall x :: x in n && n[x].left in n' ==> n[x].left in n
    requires IdsOf(kids')[0] == IdsOf(kids)[0]
    ensures LinksAll(n', first, exact, h + Depth(ctx), SegPlug(ctx, keys', kids'))
  {
    hide Level, LevelF, PreLev, PostLev, SegPlug, Bag;
    LevelSegPlug(h, ctx, keys, kids, h);
    LevelFTop(h, kids);
    var H, t' := h + Depth(ctx), SegPlug(ctx, keys', kids');
    forall l: nat | l <= H ensures LevelLinked(n', exact, H, t', l) {
      ReplaceLevel(h, ctx, keys, kids, keys', kids', l);
      OtherLevelLinked(n, n', next, first, exact, h, H, SegPlug(ctx, keys, kids), l);
    }
    FirstKept(h, ctx, keys, kids, keys', kids');
  }

  lemma {:induction false} OtherLevelLinked(n: Nodes, n': Nodes, next: Id, first: Id, exact: bool, h: nat, H: nat, t: Tree, l: nat)
    requires Proper(n, next, Bag(t)) && LinksAll(n, first, exact, H, t) && l <= H
    requires forall x :: x in n && x !in Level(H, t, h) ==> x in n' && SameLinks(n[x], n'[x])
    requires forall x :: x in n && n[x].left in n' ==> n[x].left in n
    ensures l != h ==> LevelLinked(n', exact, H, t, l)
  {
    if l != h {
      assert LevelLinked(n, exact, H, t, l);
      OtherLevel(n, n', next, l == 0 || exact, H, t, l, h);
    }
  }

  lemma {:induction false} ReplaceLevel(h: nat, ctx: Ctx, keys: seq<Key>, kids: seq<Tree>, keys': seq<Key>, kids': seq<Tree>, l: nat)
    requires FitsHole(ctx, keys, kids) && FitsHole(ctx, keys', kids') && l <= h + Depth(ctx)
    requires l < h ==> LevelF(h, kids', l) == LevelF(h, kids, l)
    ensures l == h ==> Level(h + Depth(ctx), SegPlug(ctx, keys', kids'), l) == HoleLevel(h, ctx, IdsOf(kids'))
    ensures l != h ==> Level(h + Depth(ctx), SegPlug(ctx, keys', kids'), l) == Level(h + Depth(ctx), SegPlug(ctx, keys, kids), l)
  {
    if l <= h {
      LevelSegPlug(h, ctx, keys, kids, l);
      LevelSegPlug(h, ctx, keys', kids', l);
      LevelFTop(h, kids');
    } else {
      LevelSegAbove(h, ctx, keys, kids, keys', kids', l);
    }
  }

  lemma {:induction false} FirstKept(h: nat, ctx: Ctx, keys: seq<Key>, kids: seq<Tree>, keys': seq<Key>, kids': seq<Tree>)
    requires FitsHole(ctx, keys, kids) && FitsHole(ctx, keys', kids')
    requires forall l: nat :: l < h ==> LevelF(h, kids', l) == LevelF(h, kids, l)
    requires IdsOf(kids')[0] == IdsOf(kids)[0]
    requires Level(h + Depth(ctx), SegPlug(ctx, keys, kids), 0) != []
    ensures Level(h + Depth(ctx), SegPlug(ctx, keys', kids'), 0) != []
    ensures Level(h + Depth(ctx), SegPlug(ctx, keys', kids'), 0)[0] == Level(h + Depth(ctx), SegPlug(ctx, keys, kids), 0)[0]
  {
    LevelSegPlug(h, ctx, keys, kids, 0);
    LevelSegPlug(h, ctx, keys', kids', 0);
    if h == 0 {
      LevelFTop(0, kids);
      LevelFTop(0, kids');
    }
  }

  // ---------- Order ----------

  /** A new separator in front of an entry, equal to its key. */
  lemma {:induction false} SortedNewSep(a: seq<Tok>, b: seq<Tok>)
    requires Sorted(a + b) && b != [] && b[0].Ent?
    requires a != [] && a[|a| - 1].Ent?
    ensures Sorted(a + [Sep(b[0].e.key)] + b)
  {
    var k := b[0].e.key;
    var s := a + b;
    forall i | 0 <= i < |a| ensures Before(a[i], Sep(k)) {
      assert s[i] == a[i] && s[|a|] == b[0] && s[|a| - 1] == a[|a| - 1];
      assert Before(s[i], s[|a|]);
      if i < |a| - 1 { assert Before(s[i], s[|a| - 1]) && Before(s[|a| - 1], s[|a|]); }
    }
    forall i | 0 <= i < |b| ensures Before(Sep(k), b[i]) {
      assert s[|a| + i] == b[i] && s[|a|] == b[0];
      if i > 0 { assert Before(s[|a|], s[|a| + i]); }
    }
    SortedGlue(a, Sep(k), b);
  }

  lemma {:induction false} SortedGlue(a: seq<Tok>, x: Tok, b: seq<Tok>)
    requires Sorted(a + b)
    requires forall i :: 0 <= i < |a| ==> Before(a[i], x)
    requires forall i :: 0 <= i < |b| ==> Before(x, b[i])
    ensures Sorted(a + [x] + b)
  {
    var s, r := a + b, a + [x] + b;
    forall i, j | 0 <= i < j < |r| ensures Before(r[i], r[j]) {
      var i' := if i < |a| then i else i - 1;
      var j' := if j <= |a| then j else j - 1;
      if i != |a| && j != |a| {
        assert r[i] == s[i'] && r[j] == s[if j < |a| then j else j - 1];
      }
    }
  }

  lemma {:induction false} SortedSub(a: seq<Tok>, m: seq<Tok>, b: seq<Tok>)
    requires Sorted(a + m + b)
    ensures Sorted(a + b)
  {
    var s, r := a + m + b, a + b;
    forall i, j | 0 <= i < j < |r| ensures Before(r[i], r[j]) {
      var i' := if i < |a| then i else i + |m|;
      var j' := if j < |a| then j else j + |m|;
      assert r[i] == s[i'] && r[j] == s[j'];
    }
  }

  /** A separator may be raised to the key of the entry that follows it. */
  lemma {:induction false} SortedResep(a: seq<Tok>, k: Key, b: seq<Tok>)
    requires Sorted(a + [Sep(k)] + b) && b != [] && b[0].Ent?
    ensures Sorted(a + [Sep(b[0].e.key)] + b)
  {
    var s := a + [Sep(k)] + b;
    SortedSub(a, [Sep(k)], b);
    forall i | 0 <= i < |a| ensures Before(a[i], Sep(b[0].e.key)) {
      assert s[i] == a[i] && s[|a|] == Sep(k) && s[|a| + 1] == b[0];
      assert Before(s[i], s[|a|]) && Before(s[|a|], s[|a| + 1]);
    }
    forall i | 0 <= i < |b| ensures Before(Sep(b[0].e.key), b[i]) {
      assert s[|a| + 1 + i] == b[i] && s[|a| + 1] == b[0];
      if i > 0 { assert Before(s[|a| + 1], s[|a| + 1 + i]); }
    }
    SortedGlue(a, Sep(b[0].e.key), b);
  }

  // ---------- Links ----------

  /** Node `y` is new, stands right of `x`, and the node after it points back to it. */
  ghost predicate Inserts(n: Nodes, n': Nodes, x: Id, b: seq<Id>, y: Id) {
    && y !in n && y != 0 && x in n && y in n'
    && (forall z :: z in n ==> z in n')
    && n'[y].left == x && n'[y].right == n[x].right
    && n'[x].right == y && n'[x].left == n[x].left
    && (b != [] ==> b[0] in n && n'[b[0]].left == y && n'[b[0]].right == n[b[0]].right)
    && (forall z :: z in n && z != x && (b == [] || z != b[0]) ==> SameLinks(n[z], n'[z]))
    && (forall z :: z in n && n[z].left in n' ==> n[z].left in n)
  }

  lemma {:induction false} LinkedInsertAt(n: Nodes, n': Nodes, exact: bool, a: seq<Id>, x: Id, b: seq<Id>, y: Id, i: nat)
    requires Linked(n, exact, a + [x] + b) && Inserts(n, n', x, b, y)
    requires i < |a + [x, y] + b|
    ensures (a + [x, y] + b)[i] in n' && RightLinked(n', a + [x, y] + b, i) && LeftLinked(n', exact, a + [x, y] + b, i)
  {
    var s, r := a + [x] + b, a + [x, y] + b;
    assert s[|a|] == x == r[|a|] && r[|a| + 1] == y;
    if b != [] { assert s[|a| + 1] == b[0] == r[|a| + 2]; }
    if i <= |a| {
      assert r[i] == s[i] && LeftLinked(n, exact, s, i) && RightLinked(n, s, i);
      if b != [] { assert s[i] != s[|a| + 1]; }
      if i > 0 { assert r[i - 1] == s[i - 1]; }
      if i < |a| { assert s[i] != s[|a|] && s[i + 1] == r[i + 1]; }
    } else if i == |a| + 1 {
      assert RightLinked(n, s, |a|);
    } else {
      assert r[i] == s[i - 1] && LeftLinked(n, exact, s, i - 1) && RightLinked(n, s, i - 1);
      assert s[i - 1] != s[|a|];
      if i + 1 < |r| { assert r[i + 1] == s[i]; }
      if i > |a| + 2 { assert r[i - 1] == s[i - 2] && s[i - 1] != s[|a| + 1]; }
    }
  }

  lemma {:induction false} LinkedInsert(n: Nodes, n': Nodes, exact: bool, a: seq<Id>, x: Id, b: seq<Id>, y: Id)
    requires Linked(n, exact, a + [x] + b) && Inserts(n, n', x, b, y)
    ensures Linked(n', exact, a + [x, y] + b)
  {
    var r := a + [x, y] + b;
    forall i | 0 <= i < |r| ensures r[i] in n' && RightLinked(n', r, i) && LeftLinked(n', exact, r, i) {
      LinkedInsertAt(n, n', exact, a, x, b, y, i);
    }
    DistinctInsert(a, x, b, y, n.Keys);
  }

  lemma {:induction false} DistinctInsert(a: seq<Id>, x: Id, b: seq<Id>, y: Id, known: set<Id>)
    requires forall i, j :: 0 <= i < j < |a + [x] + b| ==> (a + [x] + b)[i] != (a + [x] + b)[j]
    requires forall i :: 0 <= i < |a + [x] + b| ==> (a + [x] + b)[i] in known
    requires y !in known
    ensures forall i, j :: 0 <= i < j < |a + [x, y] + b| ==> (a + [x, y] + b)[i] != (a + [x, y] + b)[j]
  {
    var s, r := a + [x] + b, a + [x, y] + b;
    forall i, j | 0 <= i < j < |r| ensures r[i] != r[j] {
      var i' := if i <= |a| then i else i - 1;
      var j' := if j <= |a| then j else j - 1;
      assert i != |a| + 1 ==> r[i] == s[i'];
      assert j != |a| + 1 ==> r[j] == s[j'];
    }
  }

  lemma {:induction false} DistinctRemove(a: seq<Id>, x: Id, y: Id, b: seq<Id>)
    requires forall i, j :: 0 <= i < j < |a + [x, y] + b| ==> (a + [x, y] + b)[i] != (a + [x, y] + b)[j]
    ensures forall i, j :: 0 <= i < j < |a + [x] + b| ==> (a + [x] + b)[i] != (a + [x] + b)[j]
  {
    var s, r := a + [x, y] + b, a + [x] + b;
    forall i, j | 0 <= i < j < |r| ensures r[i] != r[j] {
      var i' := if i <= |a| then i else i + 1;
      var j' := if j <= |a| then j else j + 1;
      assert r[i] == s[i'] && r[j] == s[j'];
    }
  }

  /** Node `y` is gone, `x` takes over its right link and the next node points back to `x`,
      or still to `y` where left links are not exact. */
  ghost predicate Unlinks(n: Nodes, n': Nodes, exact: bool, x: Id, y: Id, b: seq<Id>) {
    && y !in n' && y != 0 && x in n && x != y && y in n
    && (forall z :: z in n && z != y ==> z in n')
    && n'[x].right == n[y].right && n'[x].left == n[x].left
    && (b != [] ==> b[0] in n && b[0] != y && n'[b[0]].right == n[b[0]].right)
    && (b != [] ==> n'[b[0]].left == x || (!exact && n'[b[0]].left !in n' && n'[b[0]].left != 0))
    && (forall z :: z in n && z != x && z != y && (b == [] || z != b[0]) ==> SameLinks(n[z], n'[z]))
    && (forall z :: z in n && n[z].left in n' ==> n[z].left in n)
  }

  lemma {:induction false} LinkedRemoveAt(n: Nodes, n': Nodes, exact: bool, a: seq<Id>, x: Id, y: Id, b: seq<Id>, i: nat)
    requires Linked(n, exact, a + [x, y] + b) && Unlinks(n, n', exact, x, y, b)
    requires i < |a + [x] + b|
    ensures (a + [x] + b)[i] in n' && RightLinked(n', a + [x] + b, i) && LeftLinked(n', exact, a + [x] + b, i)
  {
    var s, r := a + [x, y] + b, a + [x] + b;
    assert s[|a|] == x && s[|a| + 1] == y && r[|a|] == x;
    if b != [] { assert s[|a| + 2] == b[0] == r[|a| + 1]; }
    if i <= |a| {
      assert r[i] == s[i] && LeftLinked(n, exact, s, i) && RightLinked(n, s, i);
      assert s[i] != y && RightLinked(n, s, |a| + 1);
      if b != [] { assert s[i] != s[|a| + 2]; }
      if i > 0 { assert r[i - 1] == s[i - 1]; }
      if i < |a| { assert r[i + 1] == s[i + 1] && s[i] != s[|a|]; }
    } else {
      assert r[i] == s[i + 1] && LeftLinked(n, exact, s, i + 1) && RightLinked(n, s, i + 1);
      assert s[i + 1] != s[|a|] && s[i + 1] != s[|a| + 1];
      if i + 1 < |r| { assert r[i + 1] == s[i + 2]; }
      if i > |a| + 1 { assert r[i - 1] == s[i] && s[i + 1] != s[|a| + 2]; }
    }
  }

  lemma {:induction false} LinkedRemove(n: Nodes, n': Nodes, exact: bool, a: seq<Id>, x: Id, y: Id, b: seq<Id>)
    requires Linked(n, exact, a + [x, y] + b) && Unlinks(n, n', exact, x, y, b)
    ensures Linked(n', exact, a + [x] + b)
  {
    var r := a + [x] + b;
    forall i | 0 <= i < |r| ensures r[i] in n' && RightLinked(n', r, i) && LeftLinked(n', exact, r, i) {
      LinkedRemoveAt(n, n', exact, a, x, y, b, i);
    }
    DistinctRemove(a, x, y, b);
  }

  // ---------- Steps at a hole ----------

  /** What soundness says about the surroundings and the contents of a hole. */
  lemma {:induction false} Opened(n: Nodes, next: Id, first: Id, exact: bool, h: nat, ctx: Ctx, keys: seq<Key>, kids: seq<Tree>)
    requires Aligned(ctx) && FitsHole(ctx, keys, kids)
    requires Sound(n, next, first, exact, h + Depth(ctx), SegPlug(ctx, keys, kids))
    ensures RepCtx(n, ctx, keys, IdsOf(kids)) && RepF(n, kids, Pid(ctx))
    ensures Proper(n, next, CBag(ctx) + BagF(kids))
    ensures Sorted(Pre(ctx) + SegFlat(keys, kids) + Post(ctx))
    ensures Linked(n, h == 0 || exact, HoleLevel(h, ctx, IdsOf(kids)))
  {
    hide Level, LevelF, PreLev, PostLev, SegPlug, Bag, BagF, CBag, Rep, RepCtx, RepF, Flat, SegFlat, Pre, Post, Sorted, Linked;
    RepOpen(n, ctx, keys, kids);
    BagSegPlug(ctx, keys, kids);
    FlatSegPlug(ctx, keys, kids);
    LevelSegPlug(h, ctx, keys, kids, h);
    LevelFTop(h, kids);
    assert LevelLinked(n, exact, h + Depth(ctx), SegPlug(ctx, keys, kids), h);
  }

  lemma {:induction false} OpenedOne(n: Nodes, next: Id, first: Id, exact: bool, h: nat, ctx: Ctx, t: Tree)
    requires Aligned(ctx) && Sound(n, next, first, exact, h + Depth(ctx), Plug(ctx, t))
    ensures RepCtx(n, ctx, [], [t.id]) && Rep(n, t, Pid(ctx))
    ensures Proper(n, next, CBag(ctx) + Bag(t))
    ensures Sorted(Pre(ctx) + Flat(t) + Post(ctx))
    ensures Linked(n, h == 0 || exact, HoleLevel(h, ctx, [t.id]))
  {
    SegPlugOne(ctx, t);
    Opened(n, next, first, exact, h, ctx, [], [t]);
    OneKid(t);
    assert Rep(n, [t][0], Pid(ctx));
  }

  lemma {:induction false} OneKid(t: Tree)
    ensures IdsOf([t]) == [t.id] && BagF([t]) == Bag(t) && SegFlat([], [t]) == Flat(t)
    ensures forall h, l :: LevelF(h, [t], l) == Level(h, t, l)
  {
    assert [t][1..] == [];
  }

  lemma {:induction false} BranchFlat(t: Tree)
    requires t.Branch?
    ensures Flat(t) == SegFlat(t.keys, t.kids)
  {
  }

  lemma {:induction false} TwoKids(x: Tree, k: Key, y: Tree)
    ensures IdsOf([x, y]) == [x.id, y.id] && BagF([x, y]) == Bag(x) + Bag(y)
    ensures SegFlat([k], [x, y]) == Flat(x) + [Sep(k)] + Flat(y)
    ensures forall h, l :: LevelF(h, [x, y], l) == Level(h, x, l) + Level(h, y, l)
  {
    OneKid(x);
    OneKid(y);
    assert [x, y] == [x] + [y];
    BagFConcat([x], [y]);
    assert [] + [k] + [] == [k];
    SegCut([], [x], k, [], [y]);
    forall h, l ensures LevelF(h, [x, y], l) == Level(h, x, l) + Level(h, y, l) {
      LevelFConcat(h, [x], [y], l);
    }
  }

  /** The entries of one leaf change. */
  lemma {:induction false} EditLeaf(n: Nodes, next: Id, first: Id, exact: bool, ctx: Ctx, id: Id, es: seq<LeafEntry>, es': seq<LeafEntry>)
    requires Aligned(ctx) && Sound(n, next, first, exact, Depth(ctx), Plug(ctx, Leaf(id, es)))
    requires Sorted(Pre(ctx) + Toks(es') + Post(ctx))
    ensures id in n && n[id].LeafNode? && n[id].entries == es
    ensures Sound(n[id := n[id].(entries := es')], next, first, exact, Depth(ctx), Plug(ctx, Leaf(id, es')))
  {
    hide Level, LevelF, BagF, FlatR, SegFlat, RepCtx, Plug, SegPlug, Pre, Post, PreLev, PostLev, CBag, Sorted, Agree, Proper, Linked, HoleLevel;
    var t, t' := Leaf(id, es), Leaf(id, es');
    OpenedOne(n, next, first, exact, 0, ctx, t);
    var n' := n[id := n[id].(entries := es')];
    OneKid(t);
    OneKid(t');
    SegPlugOne(ctx, t);
    SegPlugOne(ctx, t');
    assert Bag(t) == multiset{id} == Bag(t');
    EditKeeps(n, n', next, ctx, id);
    assert RepF(n', [t'], Pid(ctx));
    Replace(n, n', next, next, first, exact, 0, ctx, [], [t], [], [t']);
  }

  lemma {:induction false} EditKeeps(n: Nodes, n': Nodes, next: Id, ctx: Ctx, id: Id)
    requires id in n && id in n' && n' == n[id := n'[id]] && SameLinks(n[id], n'[id])
    requires Proper(n, next, CBag(ctx) + multiset{id}) && RepCtx(n, ctx, [], [id])
    requires Linked(n, true, HoleLevel(0, ctx, [id]))
    ensures Proper(n', next, CBag(ctx) + multiset{id}) && RepCtx(n', ctx, [], [id])
    ensures Linked(n', true, HoleLevel(0, ctx, [id]))
    ensures forall x :: x in n ==> x in n' && SameLinks(n[x], n'[x])
  {
    hide CBag, RepCtx, HoleLevel;
    assert id !in CBag(ctx) by { assert (CBag(ctx) + multiset{id})[id] <= 1; }
    RepCtxFrame(n, n', ctx, [], [id]);
    LinkedKeep(n, n', true, HoleLevel(0, ctx, [id]));
  }

  /** Sibling links after `y` has been put to the right of `x`. */
  ghost predicate SplitLinks(n: Nodes, n': Nodes, x: Id, y: Id) {
    && x in n && n'.Keys == n.Keys + {y}
    && n'[y].left == x && n'[y].right == n[x].right
    && n'[x].right == y && n'[x].left == n[x].left
    && (n[x].right in n ==> n'[n[x].right].left == y && n'[n[x].right].right == n[n[x].right].right)
    && (forall z :: z in n && z != x && z != n[x].right ==> SameLinks(n[z], n'[z]))
  }

  /** Sibling links after `y` has been taken away from the right of `x`. */
  ghost predicate MergeLinks(n: Nodes, n': Nodes, exact: bool, x: Id, y: Id) {
    && x in n && y in n && x != y && n'.Keys == n.Keys - {y}
    && n'[x].right == n[y].right && n'[x].left == n[x].left
    && (n[y].right in n && n[y].right != y && n[y].right != x ==>
          n'[n[y].right].right == n[n[y].right].right &&
          (n'[n[y].right].left == x || (!exact && n'[n[y].right].left == n[n[y].right].left)))
    && (forall z :: z in n && z != x && z != y && z != n[y].right ==> SameLinks(n[z], n'[z]))
  }

  /** No node has this id and no left link mentions it. */
  ghost predicate NewId(n: Nodes, y: Id) {
    y != 0 && y !in n && forall z :: z in n ==> n[z].left != y
  }

  /** Child `x` of a branch becomes `x'` and `y`. */
  lemma {:induction false} Split(n: Nodes, n': Nodes, next: Id, next': Id, first: Id, exact: bool, h: nat, ctx: Ctx,
              x: Tree, x': Tree, k: Key, y: Tree)
    requires ctx.Frame? && Aligned(ctx) && Sound(n, next, first, exact, h + Depth(ctx), Plug(ctx, x))
    requires x'.id == x.id && NewId(n, y.id) && next <= next' && y.id < next'
    requires Bag(x') + Bag(y) == Bag(x) + multiset{y.id}
    requires forall l: nat :: l < h ==> Level(h, x', l) + Level(h, y, l) == Level(h, x, l)
    requires Sorted(Pre(ctx) + (Flat(x') + [Sep(k)] + Flat(y)) + Post(ctx))
    requires SplitLinks(n, n', x.id, y.id)
    requires RepCtx(n', ctx, [k], [x.id, y.id]) && Rep(n', x', ctx.id) && Rep(n', y, ctx.id)
    ensures Sound(n', next', first, exact, h + Depth(ctx), SegPlug(ctx, [k], [x', y]))
  {
    hide Level, LevelF, Bag, BagF, Flat, FlatR, SegFlat, Rep, RepCtx, Plug, SegPlug, Pre, Post, PreLev, PostLev, CBag, Sorted, Proper;
    OpenedOne(n, next, first, exact, h, ctx, x);
    SegPlugOne(ctx, x);
    OneKid(x);
    TwoKids(x', k, y);
    var a, b := PreLev(h, ctx, h), PostLev(h, ctx, h);
    var s := a + [x.id] + b;
    assert s[|a|] == x.id && RightLinked(n, s, |a|);
    if b != [] { assert s[|a| + 1] == b[0]; }
    SplitProper(n, n', next, next', CBag(ctx), Bag(x), Bag(x') + Bag(y), x.id, y.id);
    LinkedInsert(n, n', h == 0 || exact, a, x.id, b, y.id);
    Replace(n, n', next, next', first, exact, h, ctx, [], [x], [k], [x', y]);
  }

  lemma {:induction false} SplitProper(n: Nodes, n': Nodes, next: Id, next': Id, c: multiset<Id>, b: multiset<Id>, b': multiset<Id>, x: Id, y: Id)
    requires Proper(n, next, c + b) && SplitLinks(n, n', x, y)
    requires b' == b + multiset{y} && NewId(n, y) && next <= next' && y < next'
    ensures Proper(n', next', c + b')
    ensures forall z :: z in n && n[z].left in n' ==> n[z].left in n
  {
    assert c + b' == (c + b) + multiset{y};
    assert y !in c + b;
  }

  /** Children `x` and `y` of a branch become `x'`. */
  lemma {:induction false} Merge(n: Nodes, n': Nodes, next: Id, first: Id, exact: bool, h: nat, ctx: Ctx,
              x: Tree, k: Key, y: Tree, x': Tree)
    requires ctx.Frame? && Aligned(ctx) && Sound(n, next, first, exact, h + Depth(ctx), SegPlug(ctx, [k], [x, y]))
    requires x'.id == x.id
    requires Bag(x') + multiset{y.id} == Bag(x) + Bag(y)
    requires forall l: nat :: l < h ==> Level(h, x', l) == Level(h, x, l) + Level(h, y, l)
    requires Sorted(Pre(ctx) + Flat(x') + Post(ctx))
    requires MergeLinks(n, n', h == 0 || exact, x.id, y.id)
    requires RepCtx(n', ctx, [], [x.id]) && Rep(n', x', ctx.id)
    ensures Sound(n', next, first, exact, h + Depth(ctx), Plug(ctx, x'))
  {
    hide Level, LevelF, Bag, BagF, Flat, FlatR, SegFlat, Rep, RepCtx, Plug, SegPlug, Pre, Post, PreLev, PostLev, CBag, Sorted;
    Opened(n, next, first, exact, h, ctx, [k], [x, y]);
    SegPlugOne(ctx, x');
    OneKid(x');
    TwoKids(x, k, y);
    var a, b := PreLev(h, ctx, h), PostLev(h, ctx, h);
    var s := a + [x.id, y.id] + b;
    assert s[|a|] == x.id && s[|a| + 1] == y.id && RightLinked(n, s, |a| + 1);
    if b != [] { assert s[|a| + 2] == b[0] && LeftLinked(n, h == 0 || exact, s, |a| + 2); }
    MergeProper(n, n', next, CBag(ctx), Bag(x) + Bag(y), Bag(x'), h == 0 || exact, x.id, y.id);
    LinkedRemove(n, n', h == 0 || exact, a, x.id, y.id, b);
    Replace(n, n', next, next, first, exact, h, ctx, [k], [x, y], [], [x']);
  }

  lemma {:induction false} MergeProper(n: Nodes, n': Nodes, next: Id, c: multiset<Id>, b: multiset<Id>, b': multiset<Id>, exact: bool, x: Id, y: Id)
    requires Proper(n, next, c + b) && MergeLinks(n, n', exact, x, y)
    requires b' + multiset{y} == b
    ensures Proper(n', next, c + b')
  {
    assert c + b == (c + b') + multiset{y};
    assert forall z :: (c + b)[z] == (c + b')[z] + multiset{y}[z];
  }

  /** Children `x` and `y` of a branch exchange contents and the separator between them changes. */
  lemma {:induction false} Shuffle(n: Nodes, n': Nodes, next: Id, first: Id, exact: bool, h: nat, ctx: Ctx,
                x: Tree, k: Key, y: Tree, x': Tree, k': Key, y': Tree)
    requires ctx.Frame? && Aligned(ctx) && Sound(n, next, first, exact, h + Depth(ctx), SegPlug(ctx, [k], [x, y]))
    requires x'.id == x.id && y'.id == y.id
    requires Bag(x') + Bag(y') == Bag(x) + Bag(y)
    requires forall l: nat :: l < h ==> Level(h, x', l) + Level(h, y', l) == Level(h, x, l) + Level(h, y, l)
    requires Sorted(Pre(ctx) + (Flat(x') + [Sep(k')] + Flat(y')) + Post(ctx))
    requires n'.Keys == n.Keys && forall z :: z in n ==> SameLinks(n[z], n'[z])
    requires RepCtx(n', ctx, [k'], [x.id, y.id]) && Rep(n', x', ctx.id) && Rep(n', y', ctx.id)
    ensures Sound(n', next, first, exact, h + Depth(ctx), SegPlug(ctx, [k'], [x', y']))
  {
    hide Level, LevelF, Bag, BagF, Flat, FlatR, SegFlat, Rep, RepCtx, Plug, SegPlug, Pre, Post, PreLev, PostLev, CBag, Sorted;
    Opened(n, next, first, exact, h, ctx, [k], [x, y]);
    TwoKids(x, k, y);
    TwoKids(x', k', y');
    LinkedKeep(n, n', h == 0 || exact, HoleLevel(h, ctx, [x.id, y.id]));
    Replace(n, n', next, next, first, exact, h, ctx, [k], [x, y], [k'], [x', y']);
  }
}
