/** Finding things in the tree: order of separators, the way down to a leaf, the slot of a
    child found again by key, and neighbours found through sibling links and parent ids. */
module BTreeSearch {
  import opened RowIDs
  import opened BTreeNodes
  import opened BTreeModel
  import opened BTreeInvariant

  predicate Increasing(keys: seq<Key>) {
    forall i, j :: 0 <= i < j < |keys| ==> keys[i] < keys[j]
  }

  // ---------- Order of separators ----------

  lemma {:induction false} SortedMiddle(a: seq<Tok>, m: seq<Tok>, b: seq<Tok>)
    requires Sorted(a + m + b)
    ensures Sorted(m)
  {
    var s := a + m + b;
    forall i, j | 0 <= i < j < |m| ensures Before(m[i], m[j]) {
      assert s[|a| + i] == m[i] && s[|a| + j] == m[j];
    }
  }

  /** The keys of a branch are strictly increasing. */
  lemma {:induction false} KeysIncrease(keys: seq<Key>, kids: seq<Tree>)
    requires |kids| == |keys| + 1 && Sorted(SegFlat(keys, kids))
    ensures Increasing(keys)
  {
    forall i, j | 0 <= i < j < |keys| ensures keys[i] < keys[j] {
      TwoSeps(keys, kids, i, j);
    }
  }

  lemma {:induction false} TwoSeps(keys: seq<Key>, kids: seq<Tree>, i: nat, j: nat)
    requires |kids| == |keys| + 1 && Sorted(SegFlat(keys, kids)) && i < j < |keys|
    ensures keys[i] < keys[j]
  {
    hide FlatR;
    var ks, ts := keys[i + 1..], kids[i + 1..];
    var p := j - i - 1;
    CutAt(keys, kids, i);
    CutAt(ks, ts, p);
    var a, b, c := SegFlat(keys[..i], kids[..i + 1]), SegFlat(ks[..p], ts[..p + 1]), SegFlat(ks[p + 1..], ts[p + 1..]);
    var s := a + [Sep(keys[i])] + (b + [Sep(ks[p])] + c);
    assert s[|a|] == Sep(keys[i]) && s[|a| + 1 + |b|] == Sep(ks[p]);
    assert Before(s[|a|], s[|a| + 1 + |b|]);
  }

  lemma {:induction false} CutAt(keys: seq<Key>, kids: seq<Tree>, i: nat)
    requires |kids| == |keys| + 1 && i < |keys|
    ensures SegFlat(keys, kids) == SegFlat(keys[..i], kids[..i + 1]) + [Sep(keys[i])] + SegFlat(keys[i + 1..], kids[i + 1..])
  {
    SegCut(keys[..i], kids[..i + 1], keys[i], keys[i + 1..], kids[i + 1..]);
    assert keys[..i] + [keys[i]] + keys[i + 1..] == keys && kids[..i + 1] + kids[i + 1..] == kids;
  }

  /** All keys in the parent, with the separator `k` in front of `y`, and a token of `y` between
      this separator and the next. */
  lemma {:induction false} LocateTok(ctx: Ctx, x: Tree, k: Key, y: Tree, i: nat)
    requires ctx.Frame? && Aligned(ctx) && i < |Flat(y)|
    requires Sorted(Pre(ctx) + (Flat(x) + [Sep(k)] + Flat(y)) + Post(ctx))
    ensures Increasing(ctx.lk + [k] + ctx.rk)
    ensures k <= TokKey(Flat(y)[i]) && (Flat(y)[i].Sep? ==> k < TokKey(Flat(y)[i]))
    ensures ctx.rk != [] ==> TokKey(Flat(y)[i]) < ctx.rk[0]
  {
    hide FlatL, Sorted;
    TwoKids(x, k, y);
    var f := FlatR(ctx.rk, ctx.rt);
    var a, b := Pre(ctx.up) + FlatL(ctx.lk, ctx.lt) + (Flat(x) + [Sep(k)]), Flat(y);
    var s := Pre(ctx) + (Flat(x) + [Sep(k)] + Flat(y)) + Post(ctx);
    ParentSorted(ctx, x, k, y);
    Regroup(Pre(ctx), Flat(x) + [Sep(k)], Flat(y), Post(ctx));
    Assoc3(a, b, f + Post(ctx.up));
    SepTok(s, a, b, f, Post(ctx.up), k, i);
  }

  lemma {:induction false} ParentSorted(ctx: Ctx, x: Tree, k: Key, y: Tree)
    requires ctx.Frame? && Aligned(ctx)
    requires Sorted(Pre(ctx) + (Flat(x) + [Sep(k)] + Flat(y)) + Post(ctx))
    ensures Increasing(ctx.lk + [k] + ctx.rk)
  {
    hide FlatL, FlatR, Sorted, Flat;
    TwoKids(x, k, y);
    var l, m, r := FlatL(ctx.lk, ctx.lt), SegFlat([k], [x, y]), FlatR(ctx.rk, ctx.rt);
    SegAround(ctx.lk, ctx.lt, [k], [x, y], ctx.rk, ctx.rt);
    Around(Pre(ctx.up), l, m, r, Post(ctx.up));
    SortedMiddle(Pre(ctx.up), l + m + r, Post(ctx.up));
    KeysIncrease(ctx.lk + [k] + ctx.rk, ctx.lt + [x, y] + ctx.rt);
  }

  lemma {:induction false} SepTok(s: seq<Tok>, a: seq<Tok>, b: seq<Tok>, f: seq<Tok>, z: seq<Tok>, k: Key, i: nat)
    requires s == a + b + (f + z) && Sorted(s) && a != [] && a[|a| - 1] == Sep(k) && i < |b|
    requires f != [] ==> f[0].Sep?
    ensures k <= TokKey(b[i]) && (b[i].Sep? ==> k < TokKey(b[i]))
    ensures f != [] ==> TokKey(b[i]) < f[0].k
  {
    assert s[|a| - 1] == Sep(k) && s[|a| + i] == b[i];
    assert Before(s[|a| - 1], s[|a| + i]);
    if f != [] {
      assert s[|a| + |b|] == f[0];
      assert Before(s[|a| + i], s[|a| + |b|]);
    }
  }

  function TokKey(t: Tok): Key {
    if t.Ent? then t.e.key else t.k
  }

  // ---------- The way down ----------

  /** What may stand left and right of the place where `key` belongs. */
  predicate Under(t: Tok, key: Key) {
    if t.Ent? then t.e.key < key else t.k <= key
  }

  predicate Over(key: Key, t: Tok) {
    key < TokKey(t)
  }

  ghost predicate Brackets(ctx: Ctx, key: Key) {
    (forall i :: 0 <= i < |Pre(ctx)| ==> Under(Pre(ctx)[i], key)) &&
    (forall i :: 0 <= i < |Post(ctx)| ==> Over(key, Post(ctx)[i]))
  }

  function Below(ctx: Ctx, t: Tree, i: nat): Ctx
    requires t.Branch? && |t.kids| == |t.keys| + 1 && i < |t.kids|
  {
    Frame(ctx, t.id, t.keys[..i], t.kids[..i], t.keys[i..], t.kids[i + 1..])
  }

  lemma {:induction false} BelowPlug(ctx: Ctx, t: Tree, i: nat)
    requires t.Branch? && |t.kids| == |t.keys| + 1 && i < |t.kids|
    ensures Plug(Below(ctx, t, i), t.kids[i]) == Plug(ctx, t)
  {
    assert t.keys[..i] + t.keys[i..] == t.keys;
    assert t.kids[..i] + [t.kids[i]] + t.kids[i + 1..] == t.kids;
  }

  lemma {:induction false} FlatLLast(keys: seq<Key>, kids: seq<Tree>)
    requires |keys| == |kids| > 0
    ensures FlatL(keys, kids) != [] && FlatL(keys, kids)[|FlatL(keys, kids)| - 1] == Sep(keys[|keys| - 1])
  {
    if |keys| > 1 {
      FlatLLast(keys[1..], kids[1..]);
    } else {
      assert keys[1..] == [] && kids[1..] == [];
    }
  }

  /** Going down to the child whose separators bracket the key. */
  lemma {:induction false} Descend(ctx: Ctx, t: Tree, i: nat, key: Key)
    requires Aligned(ctx) && t.Branch? && |t.kids| == |t.keys| + 1 && i < |t.kids|
    requires Sorted(Pre(ctx) + Flat(t) + Post(ctx)) && Brackets(ctx, key)
    requires i > 0 ==> t.keys[i - 1] <= key
    requires i < |t.keys| ==> key < t.keys[i]
    ensures Brackets(Below(ctx, t, i), key)
  {
    hide Sorted, FlatL, FlatR, Flat;
    var c := Below(ctx, t, i);
    var l, r := FlatL(c.lk, c.lt), FlatR(c.rk, c.rt);
    BelowFlat(t, i);
    var s := Pre(ctx) + Flat(t) + Post(ctx);
    Around(Pre(ctx), l, Flat(t.kids[i]), r, Post(ctx));
    if i > 0 {
      FlatLLast(c.lk, c.lt);
      Assoc3(Pre(ctx) + l, Flat(t.kids[i]), r + Post(ctx));
      assert (Pre(ctx) + l)[|Pre(ctx) + l| - 1] == l[|l| - 1];
      UnderPrefix(Pre(ctx) + l, Flat(t.kids[i]) + (r + Post(ctx)), key);
    } else {
      assert l == [] by { EmptyL(c.lk, c.lt); }
    }
    if i < |t.keys| {
      StartsWithSep(c.rk, c.rt);
      OverSuffix((Pre(ctx) + l) + Flat(t.kids[i]), r + Post(ctx), key);
    } else {
      assert r == [] by { EmptyR(c.rk, c.rt); }
    }
  }

  lemma {:induction false} EmptyL(keys: seq<Key>, kids: seq<Tree>)
    requires keys == []
    ensures FlatL(keys, kids) == []
  {
  }

  lemma {:induction false} EmptyR(keys: seq<Key>, kids: seq<Tree>)
    requires keys == []
    ensures FlatR(keys, kids) == []
  {
  }

  lemma {:induction false} StartsWithSep(keys: seq<Key>, kids: seq<Tree>)
    requires |keys| == |kids| > 0
    ensures FlatR(keys, kids) != [] && FlatR(keys, kids)[0] == Sep(keys[0])
  {
  }

  lemma {:induction false} BelowFlat(t: Tree, i: nat)
    requires t.Branch? && |t.kids| == |t.keys| + 1 && i < |t.kids|
    ensures Flat(t) == FlatL(t.keys[..i], t.kids[..i]) + Flat(t.kids[i]) + FlatR(t.keys[i..], t.kids[i + 1..])
  {
    hide FlatL, FlatR;
    OneKid(t.kids[i]);
    SegAround(t.keys[..i], t.kids[..i], [], [t.kids[i]], t.keys[i..], t.kids[i + 1..]);
    assert t.keys[..i] + [] + t.keys[i..] == t.keys;
    assert t.kids[..i] + [t.kids[i]] + t.kids[i + 1..] == t.kids;
  }

  lemma {:induction false} UnderPrefix(a: seq<Tok>, b: seq<Tok>, key: Key)
    requires Sorted(a + b) && a != [] && a[|a| - 1].Sep? && a[|a| - 1].k <= key
    ensures forall i :: 0 <= i < |a| ==> Under(a[i], key)
  {
    var s, l := a + b, |a| - 1;
    forall i | 0 <= i < |a| ensures Under(a[i], key) {
      assert s[i] == a[i] && s[l] == a[l];
      if i < l { assert Before(s[i], s[l]); }
    }
  }

  lemma {:induction false} OverSuffix(a: seq<Tok>, b: seq<Tok>, key: Key)
    requires Sorted(a + b) && b != [] && b[0].Sep? && key < b[0].k
    ensures forall i :: 0 <= i < |b| ==> Over(key, b[i])
  {
    var s, l := a + b, |a|;
    forall i | 0 <= i < |b| ensures Over(key, b[i]) {
      assert s[l + i] == b[i] && s[l] == b[0];
      if i > 0 { assert Before(s[l], s[l + i]); }
    }
  }

  // ---------- Putting an entry in and taking one out ----------

  lemma {:induction false} PutEntry(a: seq<Tok>, es: seq<LeafEntry>, p: nat, e: LeafEntry, b: seq<Tok>)
    requires Sorted(a + Toks(es) + b) && p <= |es|
    requires forall i :: 0 <= i < |a| ==> Under(a[i], e.key)
    requires forall i :: 0 <= i < |b| ==> Over(e.key, b[i])
    requires forall i :: 0 <= i < p ==> es[i].key < e.key
    requires forall i :: p <= i < |es| ==> e.key < es[i].key
    ensures Sorted(a + Toks(PutAt(es, p, e)) + b)
  {
    var x, y := Toks(es[..p]), Toks(es[p..]);
    assert Toks(es) == x + y;
    Regroup(a, x, y, b);
    var c, d := a + x, y + b;
    forall i | 0 <= i < |c| ensures Before(c[i], Ent(e)) {
      if i < |a| { assert c[i] == a[i]; } else { assert c[i] == x[i - |a|]; }
    }
    forall i | 0 <= i < |d| ensures Before(Ent(e), d[i]) {
      if i < |y| { assert d[i] == y[i]; } else { assert d[i] == b[i - |y|]; }
    }
    SortedGlue(c, Ent(e), d);
    Around(a, x, [Ent(e)], y, b);
    assert Toks(PutAt(es, p, e)) == x + [Ent(e)] + y;
  }

  lemma {:induction false} TakeEntry(a: seq<Tok>, es: seq<LeafEntry>, p: nat, b: seq<Tok>)
    requires Sorted(a + Toks(es) + b) && p < |es|
    ensures Sorted(a + Toks(DropAt(es, p)) + b)
  {
    hide Sorted;
    var x, y := Toks(es[..p]), Toks(es[p + 1..]);
    assert Toks(es) == x + [Ent(es[p])] + y;
    Around(a, x, [Ent(es[p])], y, b);
    SortedSub(a + x, [Ent(es[p])], y + b);
    Regroup(a, x, y, b);
    assert Toks(DropAt(es, p)) == x + y;
  }

  /** The entries left and right of a gap between two entries of a leaf. */
  ghost function Lower(ctx: Ctx, es: seq<LeafEntry>): seq<LeafEntry> {
    Ents(Pre(ctx)) + es
  }

  ghost function Upper(ctx: Ctx, es: seq<LeafEntry>): seq<LeafEntry> {
    es + Ents(Post(ctx))
  }

  lemma {:induction false} LeafEnts(ctx: Ctx, id: Id, x: seq<LeafEntry>, m: seq<LeafEntry>, y: seq<LeafEntry>)
    requires Aligned(ctx)
    ensures Ents(Flat(Plug(ctx, Leaf(id, x + m + y)))) == Lower(ctx, x) + m + Upper(ctx, y)
  {
    hide Ents;
    var t := Leaf(id, x + m + y);
    SegPlugOne(ctx, t);
    OneKid(t);
    EntsHole(ctx, [], [t]);
    EntsToks(x + m + y);
    Around(Ents(Pre(ctx)), x, m, y, Ents(Post(ctx)));
  }

  /** Entries of a tree with a given run of children in the hole. */
  lemma {:induction false} EntsHole(ctx: Ctx, keys: seq<Key>, kids: seq<Tree>)
    requires Aligned(ctx) && FitsHole(ctx, keys, kids)
    ensures Ents(Flat(SegPlug(ctx, keys, kids))) == Ents(Pre(ctx)) + Ents(SegFlat(keys, kids)) + Ents(Post(ctx))
  {
    FlatSegPlug(ctx, keys, kids);
    EntsConcat(Pre(ctx) + SegFlat(keys, kids), Post(ctx));
    EntsConcat(Pre(ctx), SegFlat(keys, kids));
  }

  lemma {:induction false} EntsSep(a: seq<Tok>, k: Key, b: seq<Tok>)
    ensures Ents(a + [Sep(k)] + b) == Ents(a) + Ents(b)
  {
    EntsConcat(a + [Sep(k)], b);
    EntsConcat(a, [Sep(k)]);
    assert [Sep(k)][1..] == [];
    assert Ents([Sep(k)]) == [];
  }

  // ---------- Neighbours ----------

  /** Below the root of a tree, parents are nodes of the tree. */
  lemma {:induction false} LevelParent(n: Nodes, h: nat, t: Tree, p: Id, l: nat)
    requires Rep(n, t, p) && l < h
    ensures forall z :: z in Level(h, t, l) ==> z in n && n[z].parent in Bag(t)
    decreases t
  {
    if t.Branch? {
      LevelFParent(n, h - 1, t.kids, t.id, l);
    }
  }

  lemma {:induction false} LevelFParent(n: Nodes, h: nat, kids: seq<Tree>, p: Id, l: nat)
    requires RepF(n, kids, p) && l <= h
    ensures forall z :: z in LevelF(h, kids, l) ==> z in n && (n[z].parent == p || n[z].parent in BagF(kids))
    decreases kids
  {
    if kids != [] {
      assert Rep(n, kids[0], p);
      if l < h { LevelParent(n, h, kids[0], p, l); }
      assert forall i :: 0 <= i < |kids[1..]| ==> kids[1..][i] == kids[i + 1];
      LevelFParent(n, h, kids[1..], p, l);
    }
  }

  /** Nodes of the level just below the hole's height that lie outside the hole have parents outside. */
  lemma {:induction false} OuterParent(n: Nodes, h: nat, ctx: Ctx, keys: seq<Key>, ids: seq<Id>, l: nat)
    requires RepCtx(n, ctx, keys, ids) && l < h
    ensures forall z :: z in PreLev(h, ctx, l) || z in PostLev(h, ctx, l) ==> z in n && n[z].parent in CBag(ctx)
    decreases ctx
  {
    if ctx.Frame? {
      LevelFParent(n, h, ctx.lt, ctx.id, l);
      LevelFParent(n, h, ctx.rt, ctx.id, l);
      OuterParent(n, h + 1, ctx.up, [], [ctx.id], l);
    }
  }

  lemma {:induction false} HoleLinks(n: Nodes, exact: bool, a: seq<Id>, x: Id, b: seq<Id>)
    requires Linked(n, exact, a + [x] + b)
    ensures x in n && n[x].right == if b != [] then b[0] else 0
    ensures if a == [] then n[x].left == 0 else n[x].left == a[|a| - 1] || (!exact && n[x].left !in n)
  {
    var s, p := a + [x] + b, |a|;
    assert s[p] == x && RightLinked(n, s, p) && LeftLinked(n, exact, s, p);
    if b != [] { assert s[p + 1] == b[0]; }
    if a != [] { assert s[p - 1] == a[p - 1]; }
  }

  lemma {:induction false} HoleOutside(n: Nodes, next: Id, ctx: Ctx, t: Tree, h: nat)
    requires ctx.Frame? && RepCtx(n, ctx, [], [t.id]) && Proper(n, next, CBag(ctx) + Bag(t))
    ensures 0 !in n
    ensures forall z :: z in PreLev(h + 1, ctx.up, h) || z in PostLev(h + 1, ctx.up, h) ==> z in n && n[z].parent != ctx.id
  {
    hide BagF, PreLev, PostLev;
    OuterParent(n, h + 1, ctx.up, [], [ctx.id], h);
    assert (CBag(ctx) + Bag(t))[ctx.id] <= 1;
    assert ctx.id !in CBag(ctx.up);
  }

  /** The right link leads to the right neighbour below the same parent, or to no node of that parent. */
  lemma {:induction false} RightNeighbour(n: Nodes, next: Id, first: Id, exact: bool, h: nat, ctx: Ctx, t: Tree)
    requires ctx.Frame? && Aligned(ctx) && Sound(n, next, first, exact, h + Depth(ctx), Plug(ctx, t))
    ensures t.id in n && n[t.id].parent == ctx.id
    ensures ctx.rt != [] ==> n[t.id].right == ctx.rt[0].id && ctx.rt[0].id in n && n[ctx.rt[0].id].parent == ctx.id
    ensures ctx.rt == [] && n[t.id].right in n ==> n[n[t.id].right].parent != ctx.id
  {
    hide Flat, Sorted, LevelF, FlatL, FlatR, BagF, PreLev, Linked, CBag, Bag, Sound, Proper, Plug;
    OpenedOne(n, next, first, exact, h, ctx, t);
    HoleLinks(n, h == 0 || exact, PreLev(h, ctx, h), t.id, PostLev(h, ctx, h));
    LevelFTop(h, ctx.rt);
    HoleOutside(n, next, ctx, t, h);
    if ctx.rt != [] {
      assert PostLev(h, ctx, h)[0] == ctx.rt[0].id;
      assert Rep(n, ctx.rt[0], ctx.id);
    } else {
      var q := PostLev(h + 1, ctx.up, h);
      assert PostLev(h, ctx, h) == q;
      assert q != [] ==> q[0] in q;
    }
  }

  /** The left link, if it leads to a node of the same parent at all, leads to the left neighbour;
      where left links are exact, it does so whenever there is one. */
  lemma {:induction false} LeftNeighbour(n: Nodes, next: Id, first: Id, exact: bool, h: nat, ctx: Ctx, t: Tree)
    requires ctx.Frame? && Aligned(ctx) && Sound(n, next, first, exact, h + Depth(ctx), Plug(ctx, t))
    ensures t.id in n && n[t.id].parent == ctx.id
    ensures ctx.lt != [] ==> var z := ctx.lt[|ctx.lt| - 1].id;
                             z in n && n[z].parent == ctx.id && (n[t.id].left == z || ((h != 0 && !exact) && n[t.id].left !in n))
    ensures ctx.lt == [] && n[t.id].left in n ==> n[n[t.id].left].parent != ctx.id
  {
    hide Flat, Sorted, LevelF, FlatL, FlatR, BagF, PostLev, Linked, CBag, Bag, Sound, Proper, Plug;
    OpenedOne(n, next, first, exact, h, ctx, t);
    HoleLinks(n, h == 0 || exact, PreLev(h, ctx, h), t.id, PostLev(h, ctx, h));
    LevelFTop(h, ctx.lt);
    HoleOutside(n, next, ctx, t, h);
    var a := PreLev(h + 1, ctx.up, h);
    if ctx.lt != [] {
      var l := |ctx.lt| - 1;
      assert IdsOf(ctx.lt)[l] == ctx.lt[l].id;
      assert Rep(n, ctx.lt[l], ctx.id);
    } else {
      assert PreLev(h, ctx, h) == a;
      assert a != [] ==> a[|a| - 1] in a;
    }
  }

  /** The root is the node in the hole exactly when nothing is around the hole. */
  lemma {:induction false} RootOf(ctx: Ctx, t: Tree)
    ensures ctx.Top? ==> Plug(ctx, t).id == t.id
    ensures ctx.Frame? ==> Plug(ctx, t).id in CBag(ctx)
    decreases ctx
  {
    if ctx.Frame? {
      RootOf(ctx.up, Branch(ctx.id, ctx.lk + ctx.rk, ctx.lt + [t] + ctx.rt));
    }
  }

  /** The smallest entry is found along the first children. */
  lemma {:induction false} MinEntDown(t: Tree)
    requires Solid(t) && t.Branch?
    ensures Solid(t.kids[0]) && MinEnt(t) == MinEnt(t.kids[0])
  {
    FlatEnds(t.kids[0]);
  }

  // ---------- Contents as a map ----------

  ghost function MapOf(es: seq<LeafEntry>): map<Key, RowID> {
    if es == [] then map[] else map[es[0].key := es[0].item] + MapOf(es[1..])
  }

  predicate AllBelow(es: seq<LeafEntry>, key: Key) {
    forall i :: 0 <= i < |es| ==> es[i].key < key
  }

  predicate AllAbove(key: Key, es: seq<LeafEntry>) {
    forall i :: 0 <= i < |es| ==> key < es[i].key
  }

  lemma {:induction false} MapConcat(a: seq<LeafEntry>, b: seq<LeafEntry>)
    ensures MapOf(a + b) == MapOf(a) + MapOf(b)
  {
    if a == [] {
      assert a + b == b;
    } else {
      assert (a + b)[1..] == a[1..] + b;
      MapConcat(a[1..], b);
    }
  }

  lemma {:induction false} NotInMap(es: seq<LeafEntry>, key: Key)
    requires forall i :: 0 <= i < |es| ==> es[i].key != key
    ensures key !in MapOf(es)
  {
    if es != [] { NotInMap(es[1..], key); }
  }

  /** A sequence with one entry of the key, or none, between smaller and larger keys. */
  lemma {:induction false} MapAround(a: seq<LeafEntry>, m: seq<LeafEntry>, b: seq<LeafEntry>, key: Key)
    requires AllBelow(a, key) && AllAbove(key, b) && |m| <= 1 && (m != [] ==> m[0].key == key)
    ensures key in MapOf(a + m + b) <==> m != []
    ensures m != [] ==> MapOf(a + m + b)[key] == m[0].item && MapOf(a + m + b) == MapOf(a + b)[key := m[0].item]
    ensures MapOf(a + b) == MapOf(a + m + b) - {key}
  {
    hide MapOf;
    NotInMap(a, key);
    NotInMap(b, key);
    MapConcat(a, b);
    if m == [] {
      assert a + m == a;
    } else {
      MapConcat(a + m, b);
      MapConcat(a, m);
      MapOfOne(m);
      MapPut(MapOf(a), MapOf(b), key, m[0].item);
    }
  }

  lemma {:induction false} MapOfOne(m: seq<LeafEntry>)
    requires |m| == 1
    ensures MapOf(m) == map[m[0].key := m[0].item]
  {
    assert m[1..] == [];
  }

  lemma {:induction false} MapPut(a: map<Key, RowID>, b: map<Key, RowID>, key: Key, item: RowID)
    requires key !in a && key !in b
    ensures a + map[key := item] + b == (a + b)[key := item] && a + b == (a + map[key := item] + b) - {key}
  {
  }

  lemma {:induction false} EntsUnder(s: seq<Tok>, key: Key)
    requires forall i :: 0 <= i < |s| ==> Under(s[i], key)
    ensures AllBelow(Ents(s), key)
  {
    if s != [] {
      assert Under(s[0], key);
      assert forall i :: 0 <= i < |s[1..]| ==> s[1..][i] == s[i + 1];
      EntsUnder(s[1..], key);
    }
  }

  lemma {:induction false} EntsOver(s: seq<Tok>, key: Key)
    requires forall i :: 0 <= i < |s| ==> Over(key, s[i])
    ensures AllAbove(key, Ents(s))
  {
    if s != [] {
      assert Over(key, s[0]);
      assert forall i :: 0 <= i < |s[1..]| ==> s[1..][i] == s[i + 1];
      EntsOver(s[1..], key);
    }
  }

  /** The contents of a tree around the place of a key in one of its leaves. */
  lemma {:induction false} ContentsAround(ctx: Ctx, id: Id, x: seq<LeafEntry>, m: seq<LeafEntry>, y: seq<LeafEntry>, key: Key)
    requires Aligned(ctx) && Brackets(ctx, key) && AllBelow(x, key) && AllAbove(key, y)
    ensures Ents(Flat(Plug(ctx, Leaf(id, x + m + y)))) == Lower(ctx, x) + m + Upper(ctx, y)
    ensures AllBelow(Lower(ctx, x), key) && AllAbove(key, Upper(ctx, y))
  {
    hide Pre, Post, Flat, Plug, Ents;
    LeafEnts(ctx, id, x, m, y);
    EntsUnder(Pre(ctx), key);
    EntsOver(Post(ctx), key);
  }

  /** The entries of a leaf have increasing keys. */
  lemma {:induction false} LeafIncreasing(a: seq<Tok>, es: seq<LeafEntry>, b: seq<Tok>)
    requires Sorted(a + Toks(es) + b)
    ensures forall i, j :: 0 <= i < j < |es| ==> es[i].key < es[j].key
  {
    var m := Toks(es);
    SortedMiddle(a, m, b);
    forall i, j | 0 <= i < j < |es| ensures es[i].key < es[j].key {
      assert Before(m[i], m[j]);
    }
  }

  // ---------- Contents through structural steps ----------

  lemma {:induction false} SameEnts(ctx: Ctx, keys: seq<Key>, kids: seq<Tree>, keys': seq<Key>, kids': seq<Tree>)
    requires Aligned(ctx) && FitsHole(ctx, keys, kids) && FitsHole(ctx, keys', kids')
    requires Ents(SegFlat(keys', kids')) == Ents(SegFlat(keys, kids))
    ensures Ents(Flat(SegPlug(ctx, keys', kids'))) == Ents(Flat(SegPlug(ctx, keys, kids)))
  {
    EntsHole(ctx, keys, kids);
    EntsHole(ctx, keys', kids');
  }

  /** One child becomes two, or two become one, without a change of contents. */
  lemma {:induction false} SameEntsSplit(ctx: Ctx, x: Tree, x': Tree, k: Key, y: Tree)
    requires Aligned(ctx) && ctx.Frame? && Ents(Flat(x')) + Ents(Flat(y)) == Ents(Flat(x))
    ensures Ents(Flat(SegPlug(ctx, [k], [x', y]))) == Ents(Flat(Plug(ctx, x)))
  {
    hide Ents, Flat, SegPlug, Plug, SegFlat, Aligned;
    OneKid(x);
    TwoKids(x', k, y);
    EntsSep(Flat(x'), k, Flat(y));
    SegPlugOne(ctx, x);
    SameEnts(ctx, [], [x], [k], [x', y]);
  }

  lemma {:induction false} SameEntsPair(ctx: Ctx, x: Tree, k: Key, y: Tree, x': Tree, k': Key, y': Tree)
    requires Aligned(ctx) && ctx.Frame? && Ents(Flat(x')) + Ents(Flat(y')) == Ents(Flat(x)) + Ents(Flat(y))
    ensures Ents(Flat(SegPlug(ctx, [k'], [x', y']))) == Ents(Flat(SegPlug(ctx, [k], [x, y])))
  {
    hide Ents, Flat, SegPlug, Plug, SegFlat, Aligned;
    TwoKids(x, k, y);
    TwoKids(x', k', y');
    EntsSep(Flat(x), k, Flat(y));
    EntsSep(Flat(x'), k', Flat(y'));
    SameEnts(ctx, [k], [x, y], [k'], [x', y']);
  }

  lemma {:induction false} EntsLeafCut(id: Id, r: Id, es: seq<LeafEntry>, m: nat)
    requires m <= |es|
    ensures Ents(Flat(Leaf(id, es[..m]))) + Ents(Flat(Leaf(r, es[m..]))) == es == Ents(Flat(Leaf(id, es)))
  {
    EntsToks(es);
    EntsToks(es[..m]);
    EntsToks(es[m..]);
    assert es[..m] + es[m..] == es;
  }

  lemma {:induction false} EntsBranchCut(x: Tree, x': Tree, k: Key, y: Tree)
    requires x.Branch? && x'.Branch? && y.Branch? && |x'.kids| == |x'.keys| + 1 && |y.kids| == |y.keys| + 1
    requires x.keys == x'.keys + [k] + y.keys && x.kids == x'.kids + y.kids
    ensures Ents(Flat(x')) + Ents(Flat(y)) == Ents(Flat(x))
  {
    hide Ents, FlatR;
    SegCut(x'.keys, x'.kids, k, y.keys, y.kids);
    BranchFlat(x);
    BranchFlat(x');
    BranchFlat(y);
    EntsSep(Flat(x'), k, Flat(y));
  }

  // ---------- All entries, leaf by leaf ----------

  predicate KeysIncreasing(es: seq<LeafEntry>) {
    forall i, j :: 0 <= i < j < |es| ==> es[i].key < es[j].key
  }

  lemma {:induction false} EntsIncrease(s: seq<Tok>)
    requires Sorted(s)
    ensures KeysIncreasing(Ents(s))
  {
    if s != [] {
      var rest := s[1..];
      assert forall i :: 0 <= i < |rest| ==> rest[i] == s[i + 1];
      assert Sorted(rest);
      EntsIncrease(rest);
      if s[0].Ent? {
        forall i | 0 <= i < |rest| ensures Over(s[0].e.key, rest[i]) { assert Before(s[0], s[i + 1]); }
        EntsOver(rest, s[0].e.key);
      }
    }
  }

  /** The entries of a run of leaves. */
  ghost function Collect(n: Nodes, ids: seq<Id>): seq<LeafEntry>
    requires forall i :: 0 <= i < |ids| ==> ids[i] in n && n[ids[i]].LeafNode?
  {
    if ids == [] then [] else n[ids[0]].entries + Collect(n, ids[1..])
  }

  ghost predicate AllLeaves(n: Nodes, ids: seq<Id>) {
    forall i :: 0 <= i < |ids| ==> ids[i] in n && n[ids[i]].LeafNode?
  }

  lemma {:induction false} CollectConcat(n: Nodes, a: seq<Id>, b: seq<Id>)
    requires AllLeaves(n, a) && AllLeaves(n, b)
    ensures AllLeaves(n, a + b) && Collect(n, a + b) == Collect(n, a) + Collect(n, b)
  {
    if a == [] {
      assert a + b == b;
    } else {
      assert AllLeaves(n, a[1..]);
      assert (a + b)[1..] == a[1..] + b && (a + b)[0] == a[0];
      CollectConcat(n, a[1..], b);
      Assoc3(n[a[0]].entries, Collect(n, a[1..]), Collect(n, b));
    }
  }

  /** The leaf level spells out the entries of the tree. */
  lemma {:induction false} LeafLevel(n: Nodes, c: Caps, h: nat, t: Tree, p: Id)
    requires Rep(n, t, p) && Shape(h, t) && (t.Branch? ==> GoodF(c, h - 1, t.kids))
    ensures AllLeaves(n, Level(h, t, 0)) && Collect(n, Level(h, t, 0)) == Ents(Flat(t))
    decreases t, 0
  {
    if t.Leaf? {
      EntsToks(t.entries);
      assert [t.id][1..] == [];
      assert Collect(n, [t.id]) == n[t.id].entries + [];
    } else {
      BranchFlat(t);
      LeafLevelF(n, c, h - 1, t.keys, t.kids, t.id);
    }
  }

  lemma {:induction false} LeafLevelF(n: Nodes, c: Caps, h: nat, keys: seq<Key>, kids: seq<Tree>, p: Id)
    requires |kids| == |keys| + 1 && RepF(n, kids, p) && GoodF(c, h, kids)
    ensures AllLeaves(n, LevelF(h, kids, 0)) && Collect(n, LevelF(h, kids, 0)) == Ents(SegFlat(keys, kids))
    decreases kids, 1
  {
    hide Flat, FlatR, Level, Collect, Ents;
    var t, rest := kids[0], kids[1..];
    assert kids == [t] + rest;
    assert Rep(n, t, p) && Good(c, h, t);
    LeafLevel(n, c, h, t, p);
    if rest == [] {
      OneKid(t);
      assert kids == [t] && keys == [];
    } else {
      assert keys == [keys[0]] + keys[1..];
      assert RepF(n, rest, p) && GoodF(c, h, rest) by { Tail(kids); }
      LeafLevelF(n, c, h, keys[1..], rest, p);
      SegPeel(keys[0], t, keys[1..], rest);
      EntsSep(Flat(t), keys[0], SegFlat(keys[1..], rest));
      CollectConcat(n, Level(h, t, 0), LevelF(h, rest, 0));
    }
  }

  lemma {:induction false} Tail<T>(s: seq<T>)
    requires s != []
    ensures forall i :: 0 <= i < |s[1..]| ==> s[1..][i] == s[i + 1]
  {
  }

  // ---------- A node and one of its neighbours ----------

  /** The surroundings of a node together with its right neighbour. */
  function RightPair(ctx: Ctx): Ctx
    requires ctx.Frame? && ctx.rk != [] && ctx.rt != []
  {
    Frame(ctx.up, ctx.id, ctx.lk, ctx.lt, ctx.rk[1..], ctx.rt[1..])
  }

  /** The surroundings of a node together with its left neighbour. */
  function LeftPair(ctx: Ctx): Ctx
    requires ctx.Frame? && ctx.lk != [] && ctx.lt != []
  {
    Frame(ctx.up, ctx.id, ctx.lk[..|ctx.lk| - 1], ctx.lt[..|ctx.lt| - 1], ctx.rk, ctx.rt)
  }

  lemma {:induction false} RightPairPlug(ctx: Ctx, t: Tree)
    requires ctx.Frame? && Aligned(ctx) && ctx.rt != []
    ensures SegPlug(RightPair(ctx), [ctx.rk[0]], [t, ctx.rt[0]]) == Plug(ctx, t)
    ensures Aligned(RightPair(ctx)) && Depth(RightPair(ctx)) == Depth(ctx)
  {
    Uncons(ctx.lk, ctx.rk);
    Uncons2(ctx.lt, t, ctx.rt);
  }

  lemma {:induction false} Uncons<T>(a: seq<T>, b: seq<T>)
    requires b != []
    ensures a + [b[0]] + b[1..] == a + b
  {
  }

  lemma {:induction false} Uncons2<T>(a: seq<T>, t: T, b: seq<T>)
    requires b != []
    ensures a + [t, b[0]] + b[1..] == a + [t] + b
  {
  }

  lemma {:induction false} LeftPairPlug(ctx: Ctx, t: Tree)
    requires ctx.Frame? && Aligned(ctx) && ctx.lt != []
    ensures var l := |ctx.lk| - 1;
            SegPlug(LeftPair(ctx), [ctx.lk[l]], [ctx.lt[l], t]) == Plug(ctx, t)
    ensures Aligned(LeftPair(ctx)) && Depth(LeftPair(ctx)) == Depth(ctx)
  {
    Unsnoc(ctx.lk, ctx.rk);
    Unsnoc2(ctx.lt, t, ctx.rt);
  }

  lemma {:induction false} Unsnoc<T>(a: seq<T>, b: seq<T>)
    requires a != []
    ensures a[..|a| - 1] + [a[|a| - 1]] + b == a + b
  {
  }

  lemma {:induction false} Unsnoc2<T>(a: seq<T>, t: T, b: seq<T>)
    requires a != []
    ensures a[..|a| - 1] + [a[|a| - 1], t] + b == a + [t] + b
  {
  }

  /** A branch that is well filled as long as it keeps the run of two children in the hole. */
  ghost predicate GoodPair(c: Caps, h: nat, ctx: Ctx) {
    ctx.Frame? && GoodSides(c, h, ctx) && MinKeys(c, ctx.up) <= |ctx.lk| + |ctx.rk| + 1 <= c.branch
  }

  lemma {:induction false} RightPairGood(c: Caps, h: nat, ctx: Ctx)
    requires ctx.Frame? && Aligned(ctx) && GoodCtx(c, h, ctx) && ctx.rt != []
    ensures GoodPair(c, h, RightPair(ctx)) && Good(c, h, ctx.rt[0])
  {
  }

  lemma {:induction false} LeftPairGood(c: Caps, h: nat, ctx: Ctx)
    requires ctx.Frame? && Aligned(ctx) && GoodCtx(c, h, ctx) && ctx.lt != []
    ensures GoodPair(c, h, LeftPair(ctx)) && Good(c, h, ctx.lt[|ctx.lt| - 1])
  {
  }

  // ---------- When a delete cannot go on ----------

  function LeftOf(n: Nodes, id: Id): Id {
    if id in n then n[id].left else 0
  }

  /** The left neighbour below the same parent exists and the left link leads to it. */
  predicate LeftVisible(n: Nodes, ctx: Ctx, id: Id)
    requires ctx.Frame?
  {
    ctx.lt != [] && LeftOf(n, id) == ctx.lt[|ctx.lt| - 1].id
  }

  /** How a delete ends: in a sound tree, at a node that finds no partner, or with a child lost to its parent. */
  datatype Ending = Through | Stuck | Astray

  /** A node of height `h`, left with `size` entries or keys, starts a chain of merges; it gets stuck at a node with no right
      neighbour and no visible left one, and goes astray at a parent that drops the wrong child. */
  function Ends(n: Nodes, c: Caps, right: bool, h: nat, ctx: Ctx, id: Id, size: nat): Ending
    decreases ctx, 0
  {
    var half := Cap(c, h) / 2;
    if ctx.Top? || size >= half then Through
    else if ctx.rt != [] && Size(ctx.rt[0]) > half then Through
    else if LeftVisible(n, ctx, id) && Size(ctx.lt[|ctx.lt| - 1]) > half then Through
    else if ctx.rt != [] then MergeEnds(n, c, right, h, ctx.up, ctx.id, |ctx.lk| + |ctx.rk|, |ctx.lk|)
    else if LeftVisible(n, ctx, id) then MergeEnds(n, c, right, h, ctx.up, ctx.id, |ctx.lk| + |ctx.rk|, |ctx.lk| - 1)
    else Stuck
  }

  /** The same for the parent of two merged nodes, which has `keys` keys and loses the one at `p`, with the child on its right
      (`right`) or as packed nodes do it, which is wrong strictly inside. */
  function MergeEnds(n: Nodes, c: Caps, right: bool, h: nat, up: Ctx, id: Id, keys: nat, p: int): Ending
    decreases up, 1
  {
    if keys == 0 || (up.Top? && keys == 1) then Through
    else if !right && 0 < p < keys - 1 then Astray
    else Ends(n, c, right, h + 1, up, id, keys - 1)
  }

  lemma {:induction false} NeverStrays(n: Nodes, c: Caps, h: nat, ctx: Ctx, id: Id, size: nat)
    ensures Ends(n, c, true, h, ctx, id, size) != Astray
    decreases ctx
  {
    if ctx.Frame? && |ctx.lk| + |ctx.rk| > 0 {
      NeverStrays(n, c, h + 1, ctx.up, ctx.id, |ctx.lk| + |ctx.rk| - 1);
    }
  }

  predicate OnPath(ctx: Ctx, z: Id) {
    ctx.Frame? && (z == ctx.id || OnPath(ctx.up, z))
  }

  /** Only left links on the path to the root matter. */
  lemma {:induction false} EndsFrame(n: Nodes, n': Nodes, c: Caps, right: bool, h: nat, ctx: Ctx, id: Id, size: nat)
    requires LeftOf(n, id) == LeftOf(n', id) && forall z :: OnPath(ctx, z) ==> LeftOf(n, z) == LeftOf(n', z)
    ensures Ends(n, c, right, h, ctx, id, size) == Ends(n', c, right, h, ctx, id, size)
    decreases ctx
  {
    if ctx.Frame? {
      var keys := |ctx.lk| + |ctx.rk|;
      assert OnPath(ctx, ctx.id);
      assert forall z :: OnPath(ctx.up, z) ==> OnPath(ctx, z);
      if keys > 0 {
        EndsFrame(n, n', c, right, h + 1, ctx.up, ctx.id, keys - 1);
      }
    }
  }

  /** Nodes on the path stand on higher levels than the hole. */
  lemma {:induction false} PathLevel(h: nat, ctx: Ctx, t: Tree, z: Id) returns (l: nat)
    requires OnPath(ctx, z)
    ensures l > h && z in Level(h + Depth(ctx), Plug(ctx, t), l)
    decreases ctx
  {
    var b := Branch(ctx.id, ctx.lk + ctx.rk, ctx.lt + [t] + ctx.rt);
    if z == ctx.id {
      l := h + 1;
      LevelPlug(h + 1, ctx.up, b, h + 1);
      assert z in [b.id];
    } else {
      l := PathLevel(h + 1, ctx.up, b, z);
    }
  }

  /** A node on the level of the hole is not on the path. */
  lemma {:induction false} LevelNotPath(n: Nodes, next: Id, first: Id, exact: bool, h: nat, ctx: Ctx, keys: seq<Key>, kids: seq<Tree>, z: Id)
    requires ctx.Frame? && Aligned(ctx) && FitsHole(ctx, keys, kids)
    requires Sound(n, next, first, exact, h + Depth(ctx), SegPlug(ctx, keys, kids))
    requires z in HoleLevel(h, ctx, IdsOf(kids))
    ensures !OnPath(ctx, z)
  {
    hide Flat, Sorted, Bag, Rep;
    if OnPath(ctx, z) {
      var b := Branch(ctx.id, ctx.lk + keys + ctx.rk, ctx.lt + kids + ctx.rt);
      var l: nat;
      if z == ctx.id {
        l := h + 1;
        LevelPlug(h + 1, ctx.up, b, h + 1);
        assert z in [b.id];
      } else {
        l := PathLevel(h + 1, ctx.up, b, z);
      }
      LevelSegPlug(h, ctx, keys, kids, h);
      LevelFTop(h, kids);
      assert Bag(SegPlug(ctx, keys, kids))[z] <= 1;
      LevelsDisjoint(h + Depth(ctx), SegPlug(ctx, keys, kids), l, h, z);
      assert false;
    }
  }

  // ---------- The path of a key ----------

  /** The child a key belongs to: as many keys as are not larger stand before it. */
  function ChildSlot(keys: seq<Key>, key: Key): (i: nat)
    ensures i <= |keys|
  {
    if keys == [] || key < keys[0] then 0 else 1 + ChildSlot(keys[1..], key)
  }

  lemma {:induction false} ChildSlotIs(keys: seq<Key>, key: Key, i: nat)
    requires Increasing(keys) && i <= |keys|
    requires i > 0 ==> keys[i - 1] <= key
    requires i < |keys| ==> key < keys[i]
    ensures ChildSlot(keys, key) == i
  {
    if i > 0 {
      assert keys[0] <= key;
      var rest := keys[1..];
      assert forall j :: 0 <= j < |rest| ==> rest[j] == keys[j + 1];
      ChildSlotIs(rest, key, i - 1);
    }
  }

  /** The surroundings of the leaf a key belongs to. */
  ghost function PathTo(ctx: Ctx, t: Tree, key: Key): Ctx
    decreases t
  {
    if t.Leaf? || |t.kids| != |t.keys| + 1 then ctx
    else PathTo(Below(ctx, t, ChildSlot(t.keys, key)), t.kids[ChildSlot(t.keys, key)], key)
  }

  /** The leaf a key belongs to. */
  ghost function LeafOf(t: Tree, key: Key): Tree
    decreases t
  {
    if t.Leaf? || |t.kids| != |t.keys| + 1 then t else LeafOf(t.kids[ChildSlot(t.keys, key)], key)
  }

  /** How the delete of a key from the leaf it belongs to ends. */
  ghost function EndIn(n: Nodes, c: Caps, right: bool, t: Tree, key: Key): Ending {
    if Size(LeafOf(t, key)) == 0 then Through
    else Ends(n, c, right, 0, PathTo(Top, t, key), LeafOf(t, key).id, Size(LeafOf(t, key)) - 1)
  }

  // ---------- A lost child ----------

  /** Some branch has a child that is no node. */
  ghost predicate Dangling(n: Nodes) {
    exists b, i :: b in n && n[b].BranchNode? && 0 <= i < |n[b].slots| && n[b].slots[i].gte !in n
  }

  /** No tree is stored in such nodes. */
  lemma {:induction false} DanglingUnsound(n: Nodes, next: Id, first: Id, exact: bool, h: nat, t: Tree)
    requires Dangling(n)
    ensures !Sound(n, next, first, exact, h, t)
  {
    hide Sorted, Flat, LinksAll;
    if Sound(n, next, first, exact, h, t) {
      var b, i :| b in n && n[b].BranchNode? && 0 <= i < |n[b].slots| && n[b].slots[i].gte !in n;
      assert b in Bag(t);
      KidsThere(n, t, 0, b);
      assert false;
    }
  }

  /** Where packed nodes drop a child strictly inside, it is the live one of two merged children. */
  lemma {:induction false} WrongChild(n: Nodes, n': Nodes, b: Id, keys: seq<Key>, kids: seq<Id>, p: nat)
    requires b in n && n[b].BranchNode? && |kids| == |keys| + 1 && 0 < p < |keys| - 1 && kids[p + 1] !in n
    requires n' == n[b := n[b].(slots := PackedDelete(keys, kids, p))]
    ensures Dangling(n')
  {
    assert n'[b].slots[p - 1].gte == DropAt(kids, p)[p] == kids[p + 1];
    assert kids[p + 1] !in n';
  }

  lemma {:induction false} KidsThere(n: Nodes, t: Tree, p: Id, b: Id)
    requires Rep(n, t, p) && b in Bag(t)
    ensures b in n && (n[b].BranchNode? ==> forall i :: 0 <= i < |n[b].slots| ==> n[b].slots[i].gte in n)
    decreases t
  {
    if t.Branch? {
      if b == t.id {
        forall i | 0 <= i < |n[b].slots| ensures n[b].slots[i].gte in n { assert Rep(n, t.kids[i + 1], t.id); }
      } else {
        var i := KidWith(t.kids, b);
        KidsThere(n, t.kids[i], t.id, b);
      }
    }
  }

  lemma {:induction false} KidWith(kids: seq<Tree>, b: Id) returns (i: nat)
    requires b in BagF(kids)
    ensures i < |kids| && b in Bag(kids[i])
  {
    if b in Bag(kids[0]) {
      i := 0;
    } else {
      i := KidWith(kids[1..], b);
      i := i + 1;
    }
  }

  // ---------- Links lead to nodes ----------

  /** Parent, neighbours and children of a node are nodes, or there are none. */
  ghost predicate LinksLive(n: Nodes, x: Id)
    requires x in n
  {
    && (n[x].parent == 0 || n[x].parent in n) && (n[x].left == 0 || n[x].left in n) && (n[x].right == 0 || n[x].right in n)
    && (n[x].BranchNode? ==> forall i :: 0 <= i < |n[x].slots| ==> n[x].slots[i].lt in n && n[x].slots[i].gte in n)
  }

  lemma {:induction false} OnSomeLevel(c: Caps, h: nat, t: Tree, x: Id) returns (l: nat)
    requires Good(c, h, t) && x in Bag(t)
    ensures l <= h && x in Level(h, t, l)
    decreases t
  {
    if x == t.id {
      l := h;
    } else {
      var i := KidWith(t.kids, x);
      l := OnSomeLevel(c, h - 1, t.kids[i], x);
      InKidLevel(h - 1, t.kids, i, l, x);
    }
  }

  lemma {:induction false} OnRootLevel(c: Caps, h: nat, t: Tree, x: Id) returns (l: nat)
    requires RootGood(c, h, t) && x in Bag(t)
    ensures l <= h && x in Level(h, t, l)
  {
    if x == t.id {
      l := h;
    } else {
      var i := KidWith(t.kids, x);
      l := OnSomeLevel(c, h - 1, t.kids[i], x);
      InKidLevel(h - 1, t.kids, i, l, x);
    }
  }

  lemma {:induction false} InKidLevel(h: nat, kids: seq<Tree>, i: nat, l: nat, x: Id)
    requires i < |kids| && x in Level(h, kids[i], l)
    ensures x in LevelF(h, kids, l)
  {
    if i > 0 { InKidLevel(h, kids[1..], i - 1, l, x); }
  }

  lemma {:induction false} ParentThere(n: Nodes, t: Tree, p: Id, b: Id)
    requires Rep(n, t, p) && b in Bag(t)
    ensures b in n && (n[b].parent == p || n[b].parent in n)
    ensures n[b].BranchNode? ==> forall i :: 0 <= i < |n[b].slots| ==> n[b].slots[i].lt in n
    decreases t
  {
    if t.Branch? {
      if b == t.id {
        forall i | 0 <= i < |n[b].slots| ensures n[b].slots[i].lt in n { assert Rep(n, t.kids[i], t.id); }
      } else {
        var i := KidWith(t.kids, b);
        ParentThere(n, t.kids[i], t.id, b);
      }
    }
  }

  /** Where left links are exact no link leads to a freed node, whoever has its id or its block by now. */
  lemma {:induction false} AllLinksLive(n: Nodes, next: Id, first: Id, c: Caps, h: nat, t: Tree, x: Id)
    requires Sound(n, next, first, true, h, t) && RootGood(c, h, t) && x in n
    ensures LinksLive(n, x)
  {
    hide Sorted, Flat, Level, Linked, RootGood;
    assert x in Bag(t);
    ParentThere(n, t, 0, x);
    KidsThere(n, t, 0, x);
    var l := OnRootLevel(c, h, t, x);
    assert LevelLinked(n, true, h, t, l);
    LinkedLive(n, Level(h, t, l), x);
  }

  lemma {:induction false} LinkedLive(n: Nodes, s: seq<Id>, x: Id)
    requires Linked(n, true, s) && x in s
    ensures x in n && (n[x].left == 0 || n[x].left in n) && (n[x].right == 0 || n[x].right in n)
  {
    var i :| 0 <= i < |s| && s[i] == x;
    assert RightLinked(n, s, i) && LeftLinked(n, true, s, i);
  }
}
