/** The mathematical side of the B+ tree: the tree a node store stands for, the sequence of
    entries and separators it spells out, and one-hole contexts to talk about a place in it. */
module BTreeModel {
  import opened BTreeNodes

  datatype Tree =
    | Leaf(id: Id, entries: seq<LeafEntry>)
    | Branch(id: Id, keys: seq<Key>, kids: seq<Tree>)

  /** What an in-order walk meets: entries of leaves and separator keys of branches. */
  datatype Tok = Ent(e: LeafEntry) | Sep(k: Key)

  /** A separator may equal the entry to its right (and can be smaller after a delete). */
  predicate Before(a: Tok, b: Tok) {
    match (a, b)
    case (Ent(x), Ent(y)) => x.key < y.key
    case (Ent(x), Sep(y)) => x.key < y
    case (Sep(x), Ent(y)) => x <= y.key
    case (Sep(x), Sep(y)) => x < y
  }

  ghost predicate Sorted(s: seq<Tok>) {
    forall i, j :: 0 <= i < j < |s| ==> Before(s[i], s[j])
  }

  function Toks(es: seq<LeafEntry>): (s: seq<Tok>)
    ensures |s| == |es| && forall i :: 0 <= i < |s| ==> s[i] == Ent(es[i])
  {
    seq(|es|, i requires 0 <= i < |es| => Ent(es[i]))
  }

  /** The entries of a token sequence, in order. */
  function Ents(s: seq<Tok>): seq<LeafEntry> {
    if s == [] then [] else (if s[0].Ent? then [s[0].e] else []) + Ents(s[1..])
  }

  lemma {:induction false} EntsConcat(a: seq<Tok>, b: seq<Tok>)
    ensures Ents(a + b) == Ents(a) + Ents(b)
  {
    if a == [] {
      assert a + b == b;
    } else {
      assert (a + b)[1..] == a[1..] + b && (a + b)[0] == a[0];
      EntsConcat(a[1..], b);
      Assoc3(if a[0].Ent? then [a[0].e] else [], Ents(a[1..]), Ents(b));
    }
  }

  lemma {:induction false} Assoc3<T>(a: seq<T>, b: seq<T>, c: seq<T>)
    ensures a + (b + c) == (a + b) + c
  {
  }

  lemma {:induction false} EntsToks(es: seq<LeafEntry>)
    ensures Ents(Toks(es)) == es
  {
    if es != [] {
      assert Toks(es)[1..] == Toks(es[1..]);
      EntsToks(es[1..]);
    }
  }

  // ---------- In-order walk ----------

  function Flat(t: Tree): seq<Tok>
    decreases t
  {
    match t
    case Leaf(_, es) => Toks(es)
    case Branch(_, keys, kids) => if kids == [] then [] else Flat(kids[0]) + FlatR(keys, kids[1..])
  }

  /** Children each preceded by a separator. */
  function FlatR(keys: seq<Key>, kids: seq<Tree>): seq<Tok>
    decreases kids
  {
    if keys == [] || kids == [] then [] else [Sep(keys[0])] + Flat(kids[0]) + FlatR(keys[1..], kids[1..])
  }

  /** Children each followed by a separator. */
  function FlatL(keys: seq<Key>, kids: seq<Tree>): seq<Tok> {
    if keys == [] || kids == [] then [] else Flat(kids[0]) + [Sep(keys[0])] + FlatL(keys[1..], kids[1..])
  }

  /** A run of neighbouring children with the separators between them. */
  function SegFlat(keys: seq<Key>, kids: seq<Tree>): seq<Tok> {
    if kids == [] then [] else Flat(kids[0]) + FlatR(keys, kids[1..])
  }

  lemma {:induction false} FlatRConcat(a: seq<Key>, x: seq<Tree>, b: seq<Key>, y: seq<Tree>)
    requires |a| == |x| && |b| == |y|
    ensures FlatR(a + b, x + y) == FlatR(a, x) + FlatR(b, y)
    decreases |a|
  {
    if a == [] {
      assert a + b == b && x + y == y;
    } else {
      assert (a + b)[1..] == a[1..] + b && (x + y)[1..] == x[1..] + y;
      FlatRConcat(a[1..], x[1..], b, y);
    }
  }

  lemma {:induction false} FlatRSeg(k: Key, b: seq<Key>, y: seq<Tree>)
    requires |y| == |b| + 1
    ensures FlatR([k] + b, y) == [Sep(k)] + SegFlat(b, y)
  {
    assert ([k] + b)[1..] == b;
    Assoc3([Sep(k)], Flat(y[0]), FlatR(b, y[1..]));
  }

  lemma {:induction false} Assoc4<T>(a: seq<T>, b: seq<T>, c: seq<T>, d: seq<T>)
    ensures a + (b + (c + d)) == (a + b) + c + d
  {
  }

  /** A run of children cut before child |a|. */
  lemma {:induction false} SegCut(a: seq<Key>, x: seq<Tree>, k: Key, b: seq<Key>, y: seq<Tree>)
    requires |x| == |a| + 1 && |y| == |b| + 1
    ensures SegFlat(a + [k] + b, x + y) == SegFlat(a, x) + [Sep(k)] + SegFlat(b, y)
  {
    assert (x + y)[1..] == x[1..] + y;
    assert a + [k] + b == a + ([k] + b);
    FlatRConcat(a, x[1..], [k] + b, y);
    FlatRSeg(k, b, y);
    Assoc4(Flat(x[0]), FlatR(a, x[1..]), [Sep(k)], SegFlat(b, y));
  }

  lemma {:induction false} Assoc<T>(a: seq<T>, b: seq<T>, c: seq<T>, d: seq<T>)
    ensures a + (b + c + d) == (a + b) + c + d
  {
  }

  lemma {:induction false} Around<T>(a: seq<T>, b: seq<T>, c: seq<T>, d: seq<T>, e: seq<T>)
    ensures a + (b + c + d) + e == (a + b) + c + (d + e)
  {
  }

  lemma {:induction false} SegTail(mk: seq<Key>, mt: seq<Tree>, rk: seq<Key>, rt: seq<Tree>)
    requires |rk| == |rt| && |mt| == |mk| + 1
    ensures SegFlat(mk + rk, mt + rt) == SegFlat(mk, mt) + FlatR(rk, rt)
  {
    assert (mt + rt)[1..] == mt[1..] + rt;
    FlatRConcat(mk, mt[1..], rk, rt);
    Assoc3(Flat(mt[0]), FlatR(mk, mt[1..]), FlatR(rk, rt));
  }

  /** The walk of a whole branch around a run of its children. */
  lemma {:induction false} SegAround(lk: seq<Key>, lt: seq<Tree>, mk: seq<Key>, mt: seq<Tree>, rk: seq<Key>, rt: seq<Tree>)
    requires |lk| == |lt| && |rk| == |rt| && |mt| == |mk| + 1
    ensures SegFlat(lk + mk + rk, lt + mt + rt) == FlatL(lk, lt) + SegFlat(mk, mt) + FlatR(rk, rt)
    decreases |lk|
  {
    if lk == [] {
      assert lk + mk + rk == mk + rk && lt + mt + rt == mt + rt;
      SegTail(mk, mt, rk, rt);
    } else {
      SegPeel(lk[0], lt[0], lk[1..] + mk + rk, lt[1..] + mt + rt);
      assert lk + mk + rk == [lk[0]] + (lk[1..] + mk + rk);
      assert lt + mt + rt == [lt[0]] + (lt[1..] + mt + rt);
      SegAround(lk[1..], lt[1..], mk, mt, rk, rt);
      Assoc(Flat(lt[0]) + [Sep(lk[0])], FlatL(lk[1..], lt[1..]), SegFlat(mk, mt), FlatR(rk, rt));
    }
  }

  lemma {:induction false} Regroup<T>(a: seq<T>, x: seq<T>, y: seq<T>, b: seq<T>)
    ensures a + (x + y) + b == (a + x) + (y + b)
  {
  }

  lemma {:induction false} SegPeel(k: Key, t: Tree, keys: seq<Key>, kids: seq<Tree>)
    requires |kids| == |keys| + 1
    ensures SegFlat([k] + keys, [t] + kids) == Flat(t) + [Sep(k)] + SegFlat(keys, kids)
  {
    assert ([t] + kids)[1..] == kids;
    FlatRSeg(k, keys, kids);
    Assoc3(Flat(t), [Sep(k)], SegFlat(keys, kids));
  }

  // ---------- Identifiers ----------

  function IdsOf(kids: seq<Tree>): (ids: seq<Id>)
    ensures |ids| == |kids| && forall i :: 0 <= i < |ids| ==> ids[i] == kids[i].id
  {
    seq(|kids|, i requires 0 <= i < |kids| => kids[i].id)
  }

  /** All node ids of a tree, with multiplicity. */
  ghost function Bag(t: Tree): multiset<Id>
    decreases t
  {
    multiset{t.id} + (if t.Leaf? then multiset{} else BagF(t.kids))
  }

  ghost function BagF(kids: seq<Tree>): multiset<Id>
    decreases kids
  {
    if kids == [] then multiset{} else Bag(kids[0]) + BagF(kids[1..])
  }

  lemma {:induction false} BagFConcat(a: seq<Tree>, b: seq<Tree>)
    ensures BagF(a + b) == BagF(a) + BagF(b)
  {
    if a == [] {
      assert a + b == b;
    } else {
      assert (a + b)[1..] == a[1..] + b;
      BagFConcat(a[1..], b);
    }
  }

  lemma {:induction false} BagFMember(kids: seq<Tree>, i: nat)
    requires i < |kids|
    ensures Bag(kids[i]) <= BagF(kids)
  {
    assert kids == kids[..i] + [kids[i]] + kids[i + 1..];
    BagFConcat(kids[..i] + [kids[i]], kids[i + 1..]);
    BagFConcat(kids[..i], [kids[i]]);
    assert [kids[i]][1..] == [];
    assert BagF([kids[i]]) == Bag(kids[i]);
  }

  /** Ids at level `l` (0 = leaves) of a tree of height `h`, from left to right. */
  ghost function Level(h: nat, t: Tree, l: nat): seq<Id>
    decreases t
  {
    if l == h then [t.id] else if t.Leaf? || h == 0 then [] else LevelF(h - 1, t.kids, l)
  }

  ghost function LevelF(h: nat, kids: seq<Tree>, l: nat): seq<Id>
    decreases kids
  {
    if kids == [] then [] else Level(h, kids[0], l) + LevelF(h, kids[1..], l)
  }

  lemma {:induction false} LevelFConcat(h: nat, a: seq<Tree>, b: seq<Tree>, l: nat)
    ensures LevelF(h, a + b, l) == LevelF(h, a, l) + LevelF(h, b, l)
  {
    if a == [] {
      assert a + b == b;
    } else {
      assert (a + b)[1..] == a[1..] + b;
      LevelFConcat(h, a[1..], b, l);
    }
  }

  lemma {:induction false} LevelFTop(h: nat, kids: seq<Tree>)
    ensures LevelF(h, kids, h) == IdsOf(kids)
  {
    if kids != [] {
      LevelFTop(h, kids[1..]);
      assert IdsOf(kids) == [kids[0].id] + IdsOf(kids[1..]);
    }
  }

  /** Two different levels together use every id of the tree at most as often as the tree does. */
  lemma {:induction false} LevelsInBag(h: nat, t: Tree, l: nat, m: nat)
    requires l != m
    ensures multiset(Level(h, t, l)) + multiset(Level(h, t, m)) <= Bag(t)
    decreases t
  {
    if t.Branch? && h > 0 {
      LevelsInBagF(h - 1, t.kids, l, m);
    }
  }

  lemma {:induction false} LevelsInBagF(h: nat, kids: seq<Tree>, l: nat, m: nat)
    requires l != m
    ensures multiset(LevelF(h, kids, l)) + multiset(LevelF(h, kids, m)) <= BagF(kids)
    decreases kids
  {
    if kids != [] {
      LevelsInBag(h, kids[0], l, m);
      LevelsInBagF(h, kids[1..], l, m);
    }
  }

  // ---------- One-hole contexts ----------

  /** The path from a node up to the root; a frame is a branch without a run of its children. */
  datatype Ctx =
    | Top
    | Frame(up: Ctx, id: Id, lk: seq<Key>, lt: seq<Tree>, rk: seq<Key>, rt: seq<Tree>)

  ghost predicate Aligned(ctx: Ctx) {
    ctx.Frame? ==> |ctx.lk| == |ctx.lt| && |ctx.rk| == |ctx.rt| && Aligned(ctx.up)
  }

  function Plug(ctx: Ctx, t: Tree): Tree {
    match ctx
    case Top => t
    case Frame(up, id, lk, lt, rk, rt) => Plug(up, Branch(id, lk + rk, lt + [t] + rt))
  }

  function Depth(ctx: Ctx): nat {
    if ctx.Top? then 0 else 1 + Depth(ctx.up)
  }

  function Pid(ctx: Ctx): Id {
    if ctx.Top? then 0 else ctx.id
  }

  /** A run of children put in the hole; outside any branch the run is a single tree. */
  function SegPlug(ctx: Ctx, keys: seq<Key>, kids: seq<Tree>): Tree
    requires |kids| == |keys| + 1
  {
    match ctx
    case Top => kids[0]
    case Frame(up, id, lk, lt, rk, rt) => Plug(up, Branch(id, lk + keys + rk, lt + kids + rt))
  }

  ghost predicate FitsHole(ctx: Ctx, keys: seq<Key>, kids: seq<Tree>) {
    |kids| == |keys| + 1 && (ctx.Top? ==> keys == [])
  }

  lemma {:induction false} SegPlugOne(ctx: Ctx, t: Tree)
    ensures SegPlug(ctx, [], [t]) == Plug(ctx, t)
  {
    if ctx.Frame? {
      assert ctx.lk + [] + ctx.rk == ctx.lk + ctx.rk;
    }
  }

  ghost function Pre(ctx: Ctx): seq<Tok> {
    if ctx.Top? then [] else Pre(ctx.up) + FlatL(ctx.lk, ctx.lt)
  }

  ghost function Post(ctx: Ctx): seq<Tok> {
    if ctx.Top? then [] else FlatR(ctx.rk, ctx.rt) + Post(ctx.up)
  }

  ghost function CBag(ctx: Ctx): multiset<Id> {
    if ctx.Top? then multiset{} else multiset{ctx.id} + BagF(ctx.lt) + BagF(ctx.rt) + CBag(ctx.up)
  }

  ghost function PreLev(h: nat, ctx: Ctx, l: nat): seq<Id>
    decreases ctx
  {
    if ctx.Top? then [] else PreLev(h + 1, ctx.up, l) + LevelF(h, ctx.lt, l)
  }

  ghost function PostLev(h: nat, ctx: Ctx, l: nat): seq<Id>
    decreases ctx
  {
    if ctx.Top? then [] else LevelF(h, ctx.rt, l) + PostLev(h + 1, ctx.up, l)
  }

  lemma {:induction false} FlatPlug(ctx: Ctx, t: Tree)
    requires Aligned(ctx)
    ensures Flat(Plug(ctx, t)) == Pre(ctx) + Flat(t) + Post(ctx)
    decreases ctx
  {
    if ctx.Frame? {
      var b := Branch(ctx.id, ctx.lk + ctx.rk, ctx.lt + [t] + ctx.rt);
      FlatPlug(ctx.up, b);
      SegAround(ctx.lk, ctx.lt, [], [t], ctx.rk, ctx.rt);
      assert ctx.lk + [] + ctx.rk == ctx.lk + ctx.rk;
      assert [t][1..] == [];
      assert SegFlat([], [t]) == Flat(t);
      assert Flat(b) == SegFlat(b.keys, b.kids);
      Around(Pre(ctx.up), FlatL(ctx.lk, ctx.lt), Flat(t), FlatR(ctx.rk, ctx.rt), Post(ctx.up));
    }
  }

  lemma {:induction false} FlatSegPlug(ctx: Ctx, keys: seq<Key>, kids: seq<Tree>)
    requires Aligned(ctx) && FitsHole(ctx, keys, kids)
    ensures Flat(SegPlug(ctx, keys, kids)) == Pre(ctx) + SegFlat(keys, kids) + Post(ctx)
  {
    if ctx.Top? {
      assert kids[1..] == [];
    } else {
      var b := Branch(ctx.id, ctx.lk + keys + ctx.rk, ctx.lt + kids + ctx.rt);
      FlatPlug(ctx.up, b);
      SegAround(ctx.lk, ctx.lt, keys, kids, ctx.rk, ctx.rt);
      assert Flat(b) == SegFlat(b.keys, b.kids);
      Around(Pre(ctx.up), FlatL(ctx.lk, ctx.lt), SegFlat(keys, kids), FlatR(ctx.rk, ctx.rt), Post(ctx.up));
    }
  }

  lemma {:induction false} BagPlug(ctx: Ctx, t: Tree)
    ensures Bag(Plug(ctx, t)) == CBag(ctx) + Bag(t)
    decreases ctx
  {
    if ctx.Frame? {
      var b := Branch(ctx.id, ctx.lk + ctx.rk, ctx.lt + [t] + ctx.rt);
      BagPlug(ctx.up, b);
      BagFConcat(ctx.lt + [t], ctx.rt);
      BagFConcat(ctx.lt, [t]);
      assert [t][1..] == [];
      assert BagF([t]) == Bag(t);
    }
  }

  lemma {:induction false} BagSegPlug(ctx: Ctx, keys: seq<Key>, kids: seq<Tree>)
    requires FitsHole(ctx, keys, kids)
    ensures Bag(SegPlug(ctx, keys, kids)) == CBag(ctx) + BagF(kids)
  {
    if ctx.Top? {
      assert kids[1..] == [];
    } else {
      var b := Branch(ctx.id, ctx.lk + keys + ctx.rk, ctx.lt + kids + ctx.rt);
      BagPlug(ctx.up, b);
      BagFConcat(ctx.lt + kids, ctx.rt);
      BagFConcat(ctx.lt, kids);
    }
  }

  /** At or below the height of the hole, a level is split by the hole in three. */
  lemma {:induction false} LevelPlug(h: nat, ctx: Ctx, t: Tree, l: nat)
    requires l <= h
    ensures Level(h + Depth(ctx), Plug(ctx, t), l) == PreLev(h, ctx, l) + Level(h, t, l) + PostLev(h, ctx, l)
    decreases ctx
  {
    if ctx.Frame? {
      var b := Branch(ctx.id, ctx.lk + ctx.rk, ctx.lt + [t] + ctx.rt);
      LevelPlug(h + 1, ctx.up, b, l);
      LevelFConcat(h, ctx.lt + [t], ctx.rt, l);
      LevelFConcat(h, ctx.lt, [t], l);
      assert [t][1..] == [];
      assert LevelF(h, [t], l) == Level(h, t, l);
      Around(PreLev(h + 1, ctx.up, l), LevelF(h, ctx.lt, l), Level(h, t, l), LevelF(h, ctx.rt, l), PostLev(h + 1, ctx.up, l));
    }
  }

  lemma {:induction false} LevelSegPlug(h: nat, ctx: Ctx, keys: seq<Key>, kids: seq<Tree>, l: nat)
    requires FitsHole(ctx, keys, kids) && l <= h
    ensures Level(h + Depth(ctx), SegPlug(ctx, keys, kids), l)
         == PreLev(h, ctx, l) + LevelF(h, kids, l) + PostLev(h, ctx, l)
  {
    if ctx.Top? {
      assert kids[1..] == [];
    } else {
      var b := Branch(ctx.id, ctx.lk + keys + ctx.rk, ctx.lt + kids + ctx.rt);
      LevelPlug(h + 1, ctx.up, b, l);
      LevelFConcat(h, ctx.lt + kids, ctx.rt, l);
      LevelFConcat(h, ctx.lt, kids, l);
      Around(PreLev(h + 1, ctx.up, l), LevelF(h, ctx.lt, l), LevelF(h, kids, l), LevelF(h, ctx.rt, l), PostLev(h + 1, ctx.up, l));
    }
  }

  lemma {:induction false} LevelTooHigh(h: nat, t: Tree, l: nat)
    requires l > h
    ensures Level(h, t, l) == []
    decreases t
  {
    if t.Branch? && h > 0 {
      LevelFTooHigh(h - 1, t.kids, l);
    }
  }

  lemma {:induction false} LevelFTooHigh(h: nat, kids: seq<Tree>, l: nat)
    requires l > h
    ensures LevelF(h, kids, l) == []
    decreases kids
  {
    if kids != [] {
      LevelTooHigh(h, kids[0], l);
      LevelFTooHigh(h, kids[1..], l);
    }
  }

  /** Above the hole, a level does not depend on what is in it. */
  lemma {:induction false} LevelAbove(h: nat, ctx: Ctx, t: Tree, u: Tree, l: nat)
    requires t.id == u.id && l >= h
    ensures Level(h + Depth(ctx), Plug(ctx, t), l) == Level(h + Depth(ctx), Plug(ctx, u), l)
    decreases ctx
  {
    if l == h {
      LevelPlug(h, ctx, t, l);
      LevelPlug(h, ctx, u, l);
    } else if ctx.Frame? {
      var b := Branch(ctx.id, ctx.lk + ctx.rk, ctx.lt + [t] + ctx.rt);
      var c := Branch(ctx.id, ctx.lk + ctx.rk, ctx.lt + [u] + ctx.rt);
      LevelAbove(h + 1, ctx.up, b, c, l);
    } else {
      LevelTooHigh(h, t, l);
      LevelTooHigh(h, u, l);
    }
  }

  lemma {:induction false} LevelSegAbove(h: nat, ctx: Ctx, keys: seq<Key>, kids: seq<Tree>, keys': seq<Key>, kids': seq<Tree>, l: nat)
    requires FitsHole(ctx, keys, kids) && FitsHole(ctx, keys', kids')
    requires l > h
    ensures Level(h + Depth(ctx), SegPlug(ctx, keys, kids), l) == Level(h + Depth(ctx), SegPlug(ctx, keys', kids'), l)
  {
    if ctx.Top? {
      LevelTooHigh(h, kids[0], l);
      LevelTooHigh(h, kids'[0], l);
    } else {
      LevelAbove(h + 1, ctx.up, Branch(ctx.id, ctx.lk + keys + ctx.rk, ctx.lt + kids + ctx.rt),
                 Branch(ctx.id, ctx.lk + keys' + ctx.rk, ctx.lt + kids' + ctx.rt), l);
    }
  }

  // ---------- Occupancy ----------

  /** Largest number of entries of a leaf and of keys of a branch. */
  datatype Caps = Caps(leaf: nat, branch: nat)

  /** Below 4 the halves are so small that an underflowing node can be empty. */
  predicate CapsOk(c: Caps) {
    c.leaf >= 4 && c.branch >= 4
  }

  function Cap(c: Caps, h: nat): nat {
    if h == 0 then c.leaf else c.branch
  }

  function Size(t: Tree): nat {
    if t.Leaf? then |t.entries| else |t.keys|
  }

  predicate Shape(h: nat, t: Tree) {
    if h == 0 then t.Leaf? else t.Branch? && |t.kids| == |t.keys| + 1
  }

  /** A non-root node of height `h`: uniform depth, at least half full, never overfull. */
  ghost predicate Good(c: Caps, h: nat, t: Tree)
    decreases t
  {
    Shape(h, t) && Cap(c, h) / 2 <= Size(t) <= Cap(c, h) &&
    (t.Branch? ==> forall i | 0 <= i < |t.kids| :: Good(c, h - 1, t.kids[i]))
  }

  ghost predicate GoodF(c: Caps, h: nat, kids: seq<Tree>) {
    forall i :: 0 <= i < |kids| ==> Good(c, h, kids[i])
  }

  /** A node whose children are good and whose own size lies between the given bounds. */
  ghost predicate Sized(c: Caps, h: nat, t: Tree, lo: nat, hi: nat) {
    Shape(h, t) && lo <= Size(t) <= hi && (t.Branch? ==> GoodF(c, h - 1, t.kids))
  }

  ghost predicate RootGood(c: Caps, h: nat, t: Tree) {
    Sized(c, h, t, if h == 0 then 0 else 1, Cap(c, h))
  }

  /** All siblings around the hole are good, and so is everything above. */
  ghost predicate GoodSides(c: Caps, h: nat, ctx: Ctx)
    decreases ctx, 0
  {
    ctx.Frame? ==> |ctx.lk| == |ctx.lt| && |ctx.rk| == |ctx.rt| && GoodF(c, h, ctx.lt) && GoodF(c, h, ctx.rt)
                   && GoodCtx(c, h + 1, ctx.up)
  }

  function MinKeys(c: Caps, up: Ctx): nat {
    if up.Top? then 1 else c.branch / 2
  }

  ghost predicate GoodCtx(c: Caps, h: nat, ctx: Ctx)
    decreases ctx, 1
  {
    GoodSides(c, h, ctx) && (ctx.Frame? ==> MinKeys(c, ctx.up) <= |ctx.lk| + |ctx.rk| <= c.branch)
  }

  ghost predicate NodeGood(c: Caps, h: nat, ctx: Ctx, t: Tree) {
    if ctx.Top? then RootGood(c, h, t) else Good(c, h, t)
  }

  lemma {:induction false} GoodAligned(c: Caps, h: nat, ctx: Ctx)
    requires GoodSides(c, h, ctx)
    ensures Aligned(ctx)
    decreases ctx
  {
    if ctx.Frame? { GoodAligned(c, h + 1, ctx.up); }
  }

  lemma {:induction false} GoodPlug(c: Caps, h: nat, ctx: Ctx, t: Tree)
    requires GoodCtx(c, h, ctx) && NodeGood(c, h, ctx, t)
    ensures RootGood(c, h + Depth(ctx), Plug(ctx, t))
    decreases ctx
  {
    if ctx.Frame? {
      var b := Branch(ctx.id, ctx.lk + ctx.rk, ctx.lt + [t] + ctx.rt);
      assert GoodF(c, h, b.kids);
      GoodPlug(c, h + 1, ctx.up, b);
    }
  }

  /** No leaf is empty. */
  ghost predicate Solid(t: Tree)
    decreases t
  {
    match t
    case Leaf(_, es) => es != []
    case Branch(_, keys, kids) => |kids| == |keys| + 1 && forall i | 0 <= i < |kids| :: Solid(kids[i])
  }

  lemma {:induction false} GoodSolid(c: Caps, h: nat, t: Tree)
    requires CapsOk(c) && Good(c, h, t)
    ensures Solid(t)
    decreases t
  {
    if t.Branch? {
      forall i | 0 <= i < |t.kids| ensures Solid(t.kids[i]) { GoodSolid(c, h - 1, t.kids[i]); }
    }
  }

  lemma {:induction false} SizedSolid(c: Caps, h: nat, t: Tree, lo: nat, hi: nat)
    requires CapsOk(c) && Sized(c, h, t, lo, hi) && (t.Leaf? ==> lo > 0)
    ensures Solid(t)
  {
    if t.Branch? {
      forall i | 0 <= i < |t.kids| ensures Solid(t.kids[i]) { GoodSolid(c, h - 1, t.kids[i]); }
    }
  }

  /** The walk of a solid tree starts and ends with an entry. */
  lemma {:induction false} FlatEnds(t: Tree)
    requires Solid(t)
    ensures Flat(t) != [] && Flat(t)[0].Ent? && Flat(t)[|Flat(t)| - 1].Ent?
    decreases t
  {
    if t.Branch? {
      var last := |t.keys|;
      FlatEnds(t.kids[0]);
      FlatEnds(t.kids[last]);
      if last > 0 {
        var ks, ts := t.keys[..last - 1], t.kids[..last];
        assert t.keys == ks + [t.keys[last - 1]] + [] && t.kids == ts + [t.kids[last]];
        SegCut(ks, ts, t.keys[last - 1], [], [t.kids[last]]);
        assert [t.kids[last]][1..] == [];
        assert SegFlat([], [t.kids[last]]) == Flat(t.kids[last]);
        assert Flat(t) == SegFlat(t.keys, t.kids);
      } else {
        assert t.kids[1..] == [];
      }
    }
  }

  /** The first entry of a tree; its key is what the left spine search returns. */
  ghost function MinEnt(t: Tree): LeafEntry
    requires Solid(t)
  {
    FlatEnds(t);
    Flat(t)[0].e
  }
}
