/** What insertion and deletion do to the nodes themselves: who is split, who lends, who is freed, and which leaves stay as they are. */
module BTreeSiblings {
  import opened BTreeNodes
  import opened BTreeModel
  import opened BTreeInvariant
  import opened BTreeMoves
  import opened BTreeFacts

  // ---------- Siblings in the store ----------

  /** A link leads to a sibling on the right, below the same parent. */
  ghost predicate HasRight(n: Nodes, x: Id) {
    x in n && n[x].right in n && n[n[x].right].parent == n[x].parent
  }

  ghost predicate HasLeft(n: Nodes, x: Id) {
    x in n && n[x].left in n && n[n[x].left].parent == n[x].parent
  }

  /** The sibling on the right has more than it needs. */
  ghost predicate SparesRight(n: Nodes, x: Id, half: nat) {
    HasRight(n, x) && |NodeKeys(n[n[x].right])| > half
  }

  ghost predicate SparesLeft(n: Nodes, x: Id, half: nat) {
    HasLeft(n, x) && |NodeKeys(n[n[x].left])| > half
  }

  ghost predicate Low(n: Nodes, root: Id, x: Id, half: nat) {
    x in n && x != root && |NodeKeys(n[x])| < half
  }

  lemma {:induction false} RightSeen(n: Nodes, x: Id, right: Id, half: nat)
    requires x in n && 0 !in n && (right != 0 ==> right == n[x].right && right in n && n[right].parent == n[x].parent)
    requires right == 0 ==> n[x].right !in n || n[n[x].right].parent != n[x].parent
    ensures (right != 0 <==> HasRight(n, x)) && (right != 0 ==> n[x].right == right)
    ensures SparesRight(n, x, half) <==> right != 0 && |NodeKeys(n[right])| > half
  {
  }

  lemma {:induction false} LeftSeen(n: Nodes, x: Id, left: Id, half: nat)
    requires x in n && 0 !in n && (left != 0 ==> left == n[x].left && left in n && n[left].parent == n[x].parent)
    requires left == 0 ==> n[x].left !in n || n[n[x].left].parent != n[x].parent
    ensures (left != 0 <==> HasLeft(n, x)) && (left != 0 ==> n[x].left == left)
    ensures SparesLeft(n, x, half) <==> left != 0 && |NodeKeys(n[left])| > half
  {
  }

  /** All leaves are still there with their entries. */
  ghost predicate LeavesKept(n: Nodes, n': Nodes) {
    forall z :: z in n && n[z].LeafNode? ==> z in n' && n'[z].LeafNode? && n'[z].entries == n[z].entries
  }

  lemma {:induction false} KeptTrans(n: Nodes, m: Nodes, n': Nodes)
    requires LeavesKept(n, m) && LeavesKept(m, n')
    ensures LeavesKept(n, n')
  {
  }

  lemma {:induction false} KeptSame(n: Nodes)
    ensures LeavesKept(n, n)
  {
  }

  lemma {:induction false} SlotsKept(n: Nodes, n': Nodes, b: Id)
    requires b in n && n[b].BranchNode? && b in n' && n' == n[b := n'[b]]
    ensures LeavesKept(n, n')
  {
  }

  lemma {:induction false} LoneKept(n: Nodes, n': Nodes, p: Id, x: Id)
    requires p in n && n[p].BranchNode? && x in n && x != p && n' == (n - {p})[x := n[x].(parent := 0)]
    ensures LeavesKept(n, n')
  {
  }

  lemma {:induction false} PouredKept(n: Nodes, n': Nodes, x: Id, y: Id, keys: seq<Key>, ids: seq<Id>, moved: seq<Id>, relinked: bool)
    requires |ids| == |keys| + 1 && BranchMergeEffect(n, n', x, y, keys, ids, moved, relinked)
    ensures LeavesKept(n, n') && y !in n'
  {
  }

  lemma {:induction false} RootedKept(n: Nodes, x: Id, r: Id, k: Key, p: Id)
    requires x in n && r in n && p !in n
    ensures LeavesKept(n, Rooted(n, x, r, k, p))
  {
  }

  lemma {:induction false} AdoptKept(n: Nodes, x: Id, p: Id)
    requires x in n
    ensures LeavesKept(n, Adopt(n, x, p))
  {
  }

  lemma {:induction false} SplitKept(n: Nodes, n': Nodes, id: Id, r: Id, keys: seq<Key>, ids: seq<Id>, m: nat)
    requires m < |keys| && |ids| == |keys| + 1 && BranchSplitEffect(n, n', id, r, keys, ids, m)
    ensures LeavesKept(n, n') && r !in n && r in n'
  {
  }

  /** Leaf `x` has got entry `e` at position `p`: in its place as long as there is room, and otherwise the leaf is cut at `half` and what is
      behind the cut goes to the new node `r`. No other leaf has changed. */
  ghost predicate LeafGrown(n: Nodes, n': Nodes, x: Id, p: nat, e: LeafEntry, cap: nat, half: nat, r: Id) {
    && x in n && n[x].LeafNode? && p <= |n[x].entries| && half <= cap
    && (n'.Keys == n.Keys <==> |n[x].entries| < cap)
    && var es := n[x].entries[..p] + [e] + n[x].entries[p..];
       && (|n[x].entries| < cap ==> n' == n[x := n[x].(entries := es)])
       && (|n[x].entries| >= cap ==>
             && r !in n && r in n' && n'[r].LeafNode? && x in n' && n'[x].LeafNode? && n'[x].entries == es[..half] && n'[r].entries == es[half..]
             && forall z :: z in n && n[z].LeafNode? && z != x ==> z in n' && n'[z].LeafNode? && n'[z].entries == n[z].entries)
  }

  lemma {:induction false} GrownInPlace(n: Nodes, x: Id, p: nat, e: LeafEntry, cap: nat, half: nat, r: Id)
    requires x in n && n[x].LeafNode? && p <= |n[x].entries| < cap && half <= cap
    ensures LeafGrown(n, n[x := n[x].(entries := PutAt(n[x].entries, p, e))], x, p, e, cap, half, r)
  {
  }

  lemma {:induction false} GrownApart(n: Nodes, m: Nodes, n': Nodes, x: Id, p: nat, e: LeafEntry, cap: nat, half: nat, r: Id)
    requires x in n && n[x].LeafNode? && p <= |n[x].entries| && |n[x].entries| >= cap >= half
    requires var es := PutAt(n[x].entries, p, e); LeafSplitEffect(n, m, x, r, es[..half], es[half..])
    requires LeavesKept(m, n')
    ensures LeafGrown(n, n', x, p, e, cap, half, r)
  {
  }

  /** Leaf `x` has got the entry in its place by the order of keys. */
  ghost predicate PutInto(n: Nodes, n': Nodes, x: Id, e: LeafEntry, cap: nat, half: nat, r: Id) {
    && x in n && n[x].LeafNode?
    && exists p: nat :: p <= |n[x].entries| && (forall i :: 0 <= i < p ==> n[x].entries[i].key < e.key)
         && (forall i :: p <= i < |n[x].entries| ==> e.key < n[x].entries[i].key) && LeafGrown(n, n', x, p, e, cap, half, r)
  }

  lemma {:induction false} PutFirst(n': Nodes, x: Id, e: LeafEntry, cap: nat, half: nat, r: Id)
    requires PutInto(map[x := LeafNode(0, 0, 0, [])], n', x, e, cap, half, r) && cap > 0
    ensures n' == map[x := LeafNode(0, 0, 0, [e])]
  {
    var n: Nodes := map[x := LeafNode(0, 0, 0, [])];
    assert n[x].entries[..0] + [e] + n[x].entries[0..] == [e];
    assert n' == n[x := LeafNode(0, 0, 0, [e])];
  }

  /** The store without one entry of a leaf. */
  function Less(n: Nodes, x: Id, p: nat): Nodes
    requires x in n && n[x].LeafNode? && p < |n[x].entries|
  {
    n[x := n[x].(entries := n[x].entries[..p] + n[x].entries[p + 1..])]
  }

  // ---------- Lending ----------

  /** The slot between two siblings has a new key, and no other slot has changed. */
  ghost predicate Rekeyed(slots: seq<BranchEntry>, slots': seq<BranchEntry>, l: Id, r: Id, key: Key) {
    exists i :: 0 <= i < |slots| && slots[i].lt == l && slots[i].gte == r && slots' == slots[i := slots[i].(key := key)]
  }

  /** Siblings `l` and `r` have shared out their entries anew; besides them only the slot between them has changed. */
  ghost predicate LeafLent(n: Nodes, n': Nodes, l: Id, r: Id, es: seq<LeafEntry>, rest: seq<LeafEntry>) {
    && l in n && r in n && n[l].LeafNode? && n[r].LeafNode? && n[l].parent in n && n'.Keys == n.Keys && rest != []
    && n'[l] == n[l].(entries := es) && n'[r] == n[r].(entries := rest)
    && var p := n[l].parent;
       && n[p].BranchNode? && n'[p].BranchNode? && n'[p] == n[p].(slots := n'[p].slots) && Rekeyed(n[p].slots, n'[p].slots, l, r, rest[0].key)
       && forall z :: z in n && z != l && z != r && z != p ==> n'[z] == n[z]
  }

  lemma {:induction false} RekeyedHole(ctx: Ctx, k: Key, k': Key, l: Id, r: Id)
    requires ctx.Frame? && |ctx.lk| == |ctx.lt| && |ctx.rk| == |ctx.rt|
    ensures Rekeyed(HoleSlots(ctx, [k], [l, r]), HoleSlots(ctx, [k'], [l, r]), l, r, k')
  {
    var i, a, b := |ctx.lk|, HoleSlots(ctx, [k], [l, r]), HoleSlots(ctx, [k'], [l, r]);
    assert a[i].lt == l && a[i].gte == r;
    assert b == a[i := a[i].(key := k')];
  }

  lemma {:induction false} LentIs(n: Nodes, n': Nodes, ctx: Ctx, l: Id, r: Id, k: Key, es: seq<LeafEntry>, rest: seq<LeafEntry>)
    requires ctx.Frame? && |ctx.lk| == |ctx.lt| && |ctx.rk| == |ctx.rt| && rest != []
    requires l in n && r in n && l != r && l != ctx.id && r != ctx.id && n[l].parent == ctx.id
    requires ctx.id in n && n[ctx.id].BranchNode? && n[ctx.id].slots == HoleSlots(ctx, [k], [l, r])
    requires LeafBorrowEffect(n, n', ctx.id, l, r, es, rest, HoleSlots(ctx, [rest[0].key], [l, r]))
    ensures LeafLent(n, n', l, r, es, rest)
  {
    hide HoleSlots, Rekeyed;
    RekeyedHole(ctx, k, rest[0].key, l, r);
  }

  /** Siblings `l` and `r` have passed on child `c`, which goes below `q`; besides, only the slot between them has changed. */
  ghost predicate BranchLent(n: Nodes, n': Nodes, l: Id, r: Id, c: Id, q: Id, sl: seq<BranchEntry>, sr: seq<BranchEntry>, key: Key) {
    && l in n && r in n && n[l].BranchNode? && n[r].BranchNode? && n[l].parent in n && c in n && n'.Keys == n.Keys
    && n'[l] == n[l].(slots := sl) && n'[r] == n[r].(slots := sr) && n'[c] == n[c].(parent := q)
    && var p := n[l].parent;
       && n[p].BranchNode? && n'[p].BranchNode? && n'[p] == n[p].(slots := n'[p].slots) && Rekeyed(n[p].slots, n'[p].slots, l, r, key)
       && forall z :: z in n && z != l && z != r && z != p && z != c ==> n'[z] == n[z]
  }

  lemma {:induction false} BranchLentIs(n: Nodes, n': Nodes, ctx: Ctx, l: Id, r: Id, k: Key, c: Id, q: Id,
                                        sl: seq<BranchEntry>, sr: seq<BranchEntry>, k': Key)
    requires ctx.Frame? && |ctx.lk| == |ctx.lt| && |ctx.rk| == |ctx.rt|
    requires l in n && r in n && l != r && l != ctx.id && r != ctx.id && n[l].parent == ctx.id && c != l && c != r && c != ctx.id
    requires ctx.id in n && n[ctx.id].BranchNode? && n[ctx.id].slots == HoleSlots(ctx, [k], [l, r])
    requires BranchBorrowEffect(n, n', ctx.id, l, r, c, q, sl, sr, HoleSlots(ctx, [k'], [l, r]))
    ensures BranchLent(n, n', l, r, c, q, sl, sr, k') && LeavesKept(n, n')
  {
    hide HoleSlots, Rekeyed;
    RekeyedHole(ctx, k, k', l, r);
  }

  // ---------- Merging ----------

  /** Leaf `r` is gone and leaf `l` has its entries; no other leaf has lost or gained any. */
  ghost predicate LeafMerged(n: Nodes, n': Nodes, l: Id, r: Id) {
    && l in n && r in n && n[l].LeafNode? && n[r].LeafNode? && r !in n'
    && l in n' && n'[l].LeafNode? && n'[l].entries == n[l].entries + n[r].entries
    && forall z :: z in n && n[z].LeafNode? && z != l && z != r ==> z in n' && n'[z].LeafNode? && n'[z].entries == n[z].entries
  }

  lemma {:induction false} MergedIs(n: Nodes, m: Nodes, n': Nodes, l: Id, r: Id)
    requires LeafMergeEffect(n, m, l, r) && LeavesKept(m, n') && n'.Keys <= m.Keys
    ensures LeafMerged(n, n', l, r)
  {
  }

  // ---------- How a node is settled ----------

  /** Store `n'` is store `n` after leaf `x`, which has lost an entry, was settled. A node is freed if and only if the leaf is too small
      and no sibling can spare an entry; the sibling on the right is asked first, and preferred for merging. */
  ghost predicate LeafSettled(n: Nodes, n': Nodes, root: Id, x: Id, half: nat, through: bool) {
    && x in n && n[x].LeafNode?
    && (n'.Keys == n.Keys <==> Low(n, root, x, half) ==> SparesRight(n, x, half) || SparesLeft(n, x, half))
    && (n'.Keys == n.Keys ==> through)
    && (!Low(n, root, x, half) ==> n' == n)
    && (Low(n, root, x, half) && SparesRight(n, x, half) ==> var r := n[x].right;
          n[r].LeafNode? && LeafLent(n, n', x, r, n[x].entries + n[r].entries[..1], n[r].entries[1..]))
    && (Low(n, root, x, half) && !SparesRight(n, x, half) && SparesLeft(n, x, half) ==> var l := n[x].left;
          n[l].LeafNode? && var m := |n[l].entries| - 1; LeafLent(n, n', l, x, n[l].entries[..m], n[l].entries[m..] + n[x].entries))
    && (Low(n, root, x, half) && n'.Keys != n.Keys ==> if HasRight(n, x) then LeafMerged(n, n', x, n[x].right) else HasLeft(n, x) && LeafMerged(n, n', n[x].left, x))
  }

  /** Leaf `x` has lost the entry of a key, and was settled. */
  ghost predicate TakenFrom(n: Nodes, n': Nodes, root: Id, x: Id, key: Key, half: nat, through: bool) {
    && x in n && n[x].LeafNode?
    && exists p: nat :: p < |n[x].entries| && n[x].entries[p].key == key && LeafSettled(Less(n, x, p), n', root, x, half, through)
  }

  /** The same for branch `x`, which has lost a key; without any sibling in sight the deletion stops there. */
  ghost predicate BranchSettled(n: Nodes, n': Nodes, root: Id, x: Id, half: nat, through: bool, stuck: bool) {
    && x in n && n[x].BranchNode? && LeavesKept(n, n')
    && (n'.Keys == n.Keys <==> Low(n, root, x, half) && (HasRight(n, x) || HasLeft(n, x)) ==> SparesRight(n, x, half) || SparesLeft(n, x, half))
    && (!Low(n, root, x, half) ==> through && n' == n)
    && (Low(n, root, x, half) && SparesRight(n, x, half) ==> through && LentByRight(n, n', x, n[x].right))
    && (Low(n, root, x, half) && !SparesRight(n, x, half) && SparesLeft(n, x, half) ==> through && LentByLeft(n, n', n[x].left, x))
    && (Low(n, root, x, half) && n'.Keys != n.Keys ==> if HasRight(n, x) then n[x].right !in n' else x !in n')
    && (Low(n, root, x, half) && !HasRight(n, x) && !HasLeft(n, x) ==> stuck && n' == n)
  }

  /** The first child of the sibling on the right comes behind the key that stood between the two. */
  ghost predicate LentByRight(n: Nodes, n': Nodes, x: Id, r: Id) {
    && x in n && r in n && n[x].BranchNode? && n[r].BranchNode? && n[x].slots != [] && n[r].slots != []
    && exists sep, key ::
         && Between(n, x, r, sep) && Between(n', x, r, key)
         && BranchLent(n, n', x, r, n[r].slots[0].lt, x, n[x].slots + [BranchEntry(sep, n[x].slots[|n[x].slots| - 1].gte, n[r].slots[0].lt)], n[r].slots[1..], key)
  }

  /** The last child of the sibling on the left comes before the key that stood between the two, and the last key of the sibling takes
      the place of that. */
  ghost predicate LentByLeft(n: Nodes, n': Nodes, l: Id, x: Id) {
    && l in n && x in n && n[x].BranchNode? && n[l].BranchNode? && n[x].slots != [] && n[l].slots != []
    && exists sep :: Between(n, l, x, sep) && var last := n[l].slots[|n[l].slots| - 1];
         BranchLent(n, n', l, x, last.gte, x, n[l].slots[..|n[l].slots| - 1], [BranchEntry(sep, last.gte, n[x].slots[0].lt)] + n[x].slots, last.key)
  }

  /** Key `sep` stands between siblings `l` and `r` in their parent. */
  ghost predicate Between(n: Nodes, l: Id, r: Id, sep: Key) {
    l in n && n[l].parent in n && n[n[l].parent].BranchNode? && BranchEntry(sep, l, r) in n[n[l].parent].slots
  }

  // ---------- The cases ----------

  lemma {:induction false} LeafStays(n: Nodes, root: Id, x: Id, half: nat)
    requires x in n && n[x].LeafNode? && !Low(n, root, x, half)
    ensures LeafSettled(n, n, root, x, half, true)
  {
  }

  lemma {:induction false} LeafFromRight(n: Nodes, n': Nodes, root: Id, x: Id, half: nat)
    requires x in n && n[x].LeafNode? && Low(n, root, x, half) && SparesRight(n, x, half) && n[n[x].right].LeafNode?
    requires LeafLent(n, n', x, n[x].right, n[x].entries + n[n[x].right].entries[..1], n[n[x].right].entries[1..])
    ensures LeafSettled(n, n', root, x, half, true)
  {
    hide Rekeyed;
  }

  lemma {:induction false} LeafFromLeft(n: Nodes, n': Nodes, root: Id, x: Id, half: nat)
    requires x in n && n[x].LeafNode? && Low(n, root, x, half) && !SparesRight(n, x, half) && SparesLeft(n, x, half) && n[n[x].left].LeafNode?
    requires var l := n[x].left; var m := |n[l].entries| - 1; LeafLent(n, n', l, x, n[l].entries[..m], n[l].entries[m..] + n[x].entries)
    ensures LeafSettled(n, n', root, x, half, true)
  {
    hide Rekeyed;
  }

  lemma {:induction false} LeafIntoOther(n: Nodes, n': Nodes, root: Id, x: Id, half: nat, through: bool)
    requires x in n && n[x].LeafNode? && Low(n, root, x, half) && !SparesRight(n, x, half) && !SparesLeft(n, x, half)
    requires if HasRight(n, x) then LeafMerged(n, n', x, n[x].right) else HasLeft(n, x) && LeafMerged(n, n', n[x].left, x)
    ensures LeafSettled(n, n', root, x, half, through)
  {
  }

  lemma {:induction false} BranchStays(n: Nodes, root: Id, x: Id, half: nat, through: bool, stuck: bool)
    requires x in n && n[x].BranchNode?
    requires if Low(n, root, x, half) then stuck && !HasRight(n, x) && !HasLeft(n, x) else through
    ensures BranchSettled(n, n, root, x, half, through, stuck)
  {
  }

  lemma {:induction false} BranchFromRight(n: Nodes, n': Nodes, root: Id, x: Id, half: nat)
    requires x in n && n[x].BranchNode? && Low(n, root, x, half) && SparesRight(n, x, half) && LentByRight(n, n', x, n[x].right) && LeavesKept(n, n')
    ensures BranchSettled(n, n', root, x, half, true, false)
  {
    hide Rekeyed, Between;
  }

  lemma {:induction false} BranchFromLeft(n: Nodes, n': Nodes, root: Id, x: Id, half: nat)
    requires x in n && n[x].BranchNode? && Low(n, root, x, half) && !SparesRight(n, x, half) && SparesLeft(n, x, half)
    requires LentByLeft(n, n', n[x].left, x) && LeavesKept(n, n')
    ensures BranchSettled(n, n', root, x, half, true, false)
  {
    hide Rekeyed, Between;
  }

  lemma {:induction false} BranchIntoOther(n: Nodes, n': Nodes, root: Id, x: Id, half: nat, through: bool, stuck: bool)
    requires x in n && n[x].BranchNode? && Low(n, root, x, half) && !SparesRight(n, x, half) && !SparesLeft(n, x, half)
    requires if HasRight(n, x) then n[x].right !in n' else HasLeft(n, x) && x !in n'
    requires LeavesKept(n, n')
    ensures BranchSettled(n, n', root, x, half, through, stuck)
  {
  }

  lemma {:induction false} BetweenHole(n: Nodes, ctx: Ctx, k: Key, l: Id, r: Id)
    requires ctx.Frame? && |ctx.lk| == |ctx.lt| && |ctx.rk| == |ctx.rt| && l in n && n[l].parent == ctx.id
    requires ctx.id in n && n[ctx.id].BranchNode? && n[ctx.id].slots == HoleSlots(ctx, [k], [l, r])
    ensures Between(n, l, r, k)
  {
    assert HoleSlots(ctx, [k], [l, r])[|ctx.lk|] == BranchEntry(k, l, r);
  }

  lemma {:induction false} LentByRightIs(n: Nodes, n': Nodes, ctx: Ctx, l: Id, r: Id, k: Key, xk: seq<Key>, xi: seq<Id>, yk: seq<Key>, yi: seq<Id>, k': Key)
    requires ctx.Frame? && |ctx.lk| == |ctx.lt| && |ctx.rk| == |ctx.rt| && |xi| == |xk| + 1 && |yi| == |yk| + 1 && xk != [] && yk != []
    requires l in n && r in n && l != r && l != ctx.id && r != ctx.id && n[l].parent == ctx.id && yi[0] != l && yi[0] != r && yi[0] != ctx.id
    requires ctx.id in n && n[ctx.id].BranchNode? && n[ctx.id].slots == HoleSlots(ctx, [k], [l, r])
    requires BranchBorrowEffect(n, n', ctx.id, l, r, yi[0], l, Slots(xk + [k], xi + [yi[0]]), Slots(yk[1..], yi[1..]), HoleSlots(ctx, [k'], [l, r]))
    requires n[l].slots == Slots(xk, xi) && n[r].slots == Slots(yk, yi)
    ensures LentByRight(n, n', l, r) && LeavesKept(n, n') && Between(n', l, r, k')
  {
    hide HoleSlots, Rekeyed, Between;
    BranchLentIs(n, n', ctx, l, r, k, yi[0], l, Slots(xk + [k], xi + [yi[0]]), Slots(yk[1..], yi[1..]), k');
    BetweenHole(n, ctx, k, l, r);
    BetweenHole(n', ctx, k', l, r);
    assert Slots(xk + [k], xi + [yi[0]]) == n[l].slots + [BranchEntry(k, n[l].slots[|xk| - 1].gte, n[r].slots[0].lt)];
    assert Slots(yk[1..], yi[1..]) == n[r].slots[1..];
  }

  lemma {:induction false} LentByLeftIs(n: Nodes, n': Nodes, ctx: Ctx, l: Id, r: Id, k: Key, xk: seq<Key>, xi: seq<Id>, yk: seq<Key>, yi: seq<Id>)
    requires ctx.Frame? && |ctx.lk| == |ctx.lt| && |ctx.rk| == |ctx.rt| && |xi| == |xk| + 1 && |yi| == |yk| + 1 && xk != [] && yk != []
    requires l in n && r in n && l != r && l != ctx.id && r != ctx.id && n[l].parent == ctx.id && xi[|xk|] != l && xi[|xk|] != r && xi[|xk|] != ctx.id
    requires ctx.id in n && n[ctx.id].BranchNode? && n[ctx.id].slots == HoleSlots(ctx, [k], [l, r])
    requires var m := |xk| - 1;
             BranchBorrowEffect(n, n', ctx.id, l, r, xi[m + 1], r, Slots(xk[..m], xi[..m + 1]), Slots([k] + yk, [xi[m + 1]] + yi), HoleSlots(ctx, [xk[m]], [l, r]))
    requires n[l].slots == Slots(xk, xi) && n[r].slots == Slots(yk, yi)
    ensures LentByLeft(n, n', l, r) && LeavesKept(n, n')
  {
    hide HoleSlots, Rekeyed, Between;
    var m := |xk| - 1;
    BranchLentIs(n, n', ctx, l, r, k, xi[m + 1], r, Slots(xk[..m], xi[..m + 1]), Slots([k] + yk, [xi[m + 1]] + yi), xk[m]);
    BetweenHole(n, ctx, k, l, r);
    assert Slots([k] + yk, [xi[m + 1]] + yi) == [BranchEntry(k, xi[m + 1], n[r].slots[0].lt)] + n[r].slots;
    assert Slots(xk[..m], xi[..m + 1]) == n[l].slots[..m];
  }

  lemma {:induction false} LentLeftPair(n: Nodes, n': Nodes, ctx: Ctx, x: Tree, k: Key, y: Tree)
    requires ctx.Frame? && |ctx.lk| == |ctx.lt| && |ctx.rk| == |ctx.rt| && x.Branch? && y.Branch? && x.keys != [] && y.keys != []
    requires |x.kids| == |x.keys| + 1 && |y.kids| == |y.keys| + 1
    requires x.id in n && y.id in n && x.id != y.id && x.id != ctx.id && y.id != ctx.id && n[x.id].parent == ctx.id
    requires n[x.id].BranchNode? && n[y.id].BranchNode? && n[x.id].slots == Slots(x.keys, IdsOf(x.kids)) && n[y.id].slots == Slots(y.keys, IdsOf(y.kids))
    requires ctx.id in n && n[ctx.id].BranchNode? && n[ctx.id].slots == HoleSlots(ctx, [k], [x.id, y.id])
    requires var c := x.kids[|x.keys|].id; c != x.id && c != y.id && c != ctx.id
    requires var l := |x.keys| - 1;
             BranchBorrowEffect(n, n', ctx.id, x.id, y.id, x.kids[l + 1].id, y.id,
                                Slots(x.keys[..l], IdsOf(x.kids)[..l + 1]), Slots([k] + y.keys, [x.kids[l + 1].id] + IdsOf(y.kids)),
                                HoleSlots(ctx, [x.keys[l]], [x.id, y.id]))
    ensures LentByLeft(n, n', x.id, y.id) && LeavesKept(n, n')
  {
    hide HoleSlots, Slots, BranchBorrowEffect, LentByLeft, LeavesKept;
    LentByLeftIs(n, n', ctx, x.id, y.id, k, x.keys, IdsOf(x.kids), y.keys, IdsOf(y.kids));
  }
}
