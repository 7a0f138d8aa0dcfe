/** The B+ tree itself: insertion, deletion and search over the node store. */
module BPlusTrees {
  import opened RowIDs
  import opened BTreeNodes
  import opened BTreeModel
  import opened BTreeInvariant
  import opened BTreeMoves
  import opened BTreeSearch
  import opened BTreeFacts
  import opened BTreeCounts
  import opened BTreeDeletes
  import opened BTreeSiblings
  import opened BTreeStore

  datatype Option<T> = None | Some(value: T)

  datatype Outcome = Done | KeyExists | KeyNotFound | Panicked | Strayed

  class BPlusTree {
    const adapter: InMemoryAdapter
    const leafCapacity: nat
    const halfLeafCapacity: nat
    const branchCapacity: nat
    const halfBranchCapacity: nat
    /** The original relinks the branch after a merged one only below the same parent (false);
        with true the relinking is done always, as it is for leaves. */
    const relinkCousins: bool
    /** Branches lose the child on the right of a deleted key (true), or the one that packed nodes drop (false). */
    const dropsRight: bool

    ghost var tree: Tree
    ghost var height: nat

    ghost function Capacities(): Caps {
      Caps(leafCapacity, branchCapacity)
    }

    ghost predicate Configured() {
      CapsOk(Capacities()) && halfLeafCapacity == leafCapacity / 2 && halfBranchCapacity == branchCapacity / 2
    }

    ghost predicate SoundStore(n: Nodes, h: nat, t: Tree)
      reads adapter
    {
      Sound(n, adapter.nextNodeID, adapter.firstLeafID, relinkCousins, h, t)
    }

    ghost predicate Holds()
      reads this, adapter
    {
      SoundStore(adapter.nodes, height, tree) && adapter.rootID == tree.id && RootGood(Capacities(), height, tree)
    }

    /** No root yet, or a sound store of a well-filled tree. */
    ghost predicate Valid()
      reads this, adapter
    {
      Configured() && (if adapter.rootID in adapter.nodes then Holds() else adapter.nodes == map[] && adapter.nextNodeID > 0)
    }

    /** All entries, in order of their keys. */
    ghost function Entries(): seq<LeafEntry>
      reads this, adapter
    {
      if adapter.rootID in adapter.nodes then Ents(Flat(tree)) else []
    }

    constructor (adapter: InMemoryAdapter, leafCapacity: nat, branchCapacity: nat, relinkCousins: bool, dropsRight: bool)
      requires leafCapacity >= 4 && branchCapacity >= 4
      requires adapter.nodes == map[] && adapter.nextNodeID > 0
      ensures Valid() && Entries() == [] && Contents() == map[] && this.adapter == adapter && this.relinkCousins == relinkCousins && this.dropsRight == dropsRight
      ensures Capacities() == Caps(leafCapacity, branchCapacity) && halfLeafCapacity == leafCapacity / 2 && halfBranchCapacity == branchCapacity / 2
    {
      this.adapter := adapter;
      this.leafCapacity, halfLeafCapacity := leafCapacity, leafCapacity / 2;
      this.branchCapacity, halfBranchCapacity := branchCapacity, branchCapacity / 2;
      this.relinkCousins := relinkCousins;
      this.dropsRight := dropsRight;
      tree, height := Leaf(0, []), 0;
    }

    // ---------- Search ----------

    method FindOnNode(id: Id, key: Key) returns (position: nat, found: bool)
      requires id in adapter.nodes && Increasing(NodeKeys(adapter.nodes[id]))
      ensures position <= |NodeKeys(adapter.nodes[id])|
      ensures forall i :: 0 <= i < position ==> NodeKeys(adapter.nodes[id])[i] < key
      ensures forall i :: position <= i < |NodeKeys(adapter.nodes[id])| ==> key <= NodeKeys(adapter.nodes[id])[i]
      ensures found <==> position < |NodeKeys(adapter.nodes[id])| && NodeKeys(adapter.nodes[id])[position] == key
    {
      var keys := NodeKeys(adapter.nodes[id]);
      var j;
      position, j := 0, |keys|;
      while position < j
        invariant position <= j <= |keys|
        invariant forall i :: 0 <= i < position ==> keys[i] < key
        invariant forall i :: j <= i < |keys| ==> key <= keys[i]
      {
        var h := position + (j - position) / 2;
        if keys[h] < key {
          position := h + 1;
        } else {
          j := h;
        }
      }
      found := position < |keys| && keys[position] == key;
    }

    /** Follows separators from the root down to the one leaf that may hold the key. */
    method FindLeafForKey(root: Id, key: Key) returns (leaf: Id, ghost ctx: Ctx, ghost es: seq<LeafEntry>)
      requires Configured() && Holds() && root == adapter.rootID
      ensures Plug(ctx, Leaf(leaf, es)) == tree && Depth(ctx) == height
      ensures GoodCtx(Capacities(), 0, ctx) && NodeGood(Capacities(), 0, ctx, Leaf(leaf, es)) && Brackets(ctx, key)
      ensures ctx == PathTo(Top, tree, key) && Leaf(leaf, es) == LeafOf(tree, key)
    {
      leaf := root;
      ctx := Top;
      ghost var cur, h: nat := tree, height;
      assert adapter.rootID in adapter.nodes by { assert Rep(adapter.nodes, tree, 0); }
      while !adapter.nodes[leaf].LeafNode?
        invariant leaf == cur.id && Plug(ctx, cur) == tree && h + Depth(ctx) == height
        invariant GoodCtx(Capacities(), h, ctx) && NodeGood(Capacities(), h, ctx, cur) && Brackets(ctx, key)
        invariant leaf in adapter.nodes && adapter.nodes[leaf].LeafNode? == cur.Leaf?
        invariant PathTo(ctx, cur, key) == PathTo(Top, tree, key) && LeafOf(cur, key) == LeafOf(tree, key)
        decreases h
      {
        leaf, ctx, cur := FindChildForKey(leaf, key, h, ctx, cur);
        h := h - 1;
      }
      es := cur.entries;
    }

    /** One step of the way down. */
    method FindChildForKey(branch: Id, key: Key, ghost h: nat, ghost ctx: Ctx, ghost t: Tree)
      returns (child: Id, ghost ctx': Ctx, ghost t': Tree)
      requires Configured() && Holds() && branch == t.id && t.Branch? && branch in adapter.nodes
      requires Plug(ctx, t) == tree && h + Depth(ctx) == height
      requires GoodCtx(Capacities(), h, ctx) && NodeGood(Capacities(), h, ctx, t) && Brackets(ctx, key)
      ensures h > 0 && child == t'.id && child in adapter.nodes && adapter.nodes[child].LeafNode? == t'.Leaf?
      ensures Plug(ctx', t') == tree && h - 1 + Depth(ctx') == height
      ensures GoodCtx(Capacities(), h - 1, ctx') && Good(Capacities(), h - 1, t') && ctx'.Frame? && Brackets(ctx', key)
      ensures PathTo(ctx, t, key) == PathTo(ctx', t', key) && LeafOf(t, key) == LeafOf(t', key)
    {
      hide Brackets, Sound, Flat, Sorted, Plug, Depth, GoodCtx, Good, RootGood, Aligned, Below, PathTo, LeafOf;
      ChildOpen(adapter.nodes, adapter.nextNodeID, adapter.firstLeafID, relinkCousins, Capacities(), h, ctx, t);
      NodeSize(Capacities(), h, ctx, t);
      var position, found := FindOnNode(branch, key);
      if position >= |adapter.nodes[branch].slots| {
        position := position - 1;
      }
      var entry := adapter.nodes[branch].slots[position];
      child := entry.gte;
      ghost var i := position + 1;
      if key < entry.key {
        child := entry.lt;
        i := position;
      }
      t' := t.kids[i];
      ctx' := Below(ctx, t, i);
      ChildReached(adapter.nodes, Capacities(), h, ctx, t, i, key);
    }

    // ---------- Insertion ----------

    /** The position of an entry in a leaf; what stands on both sides of it in the whole tree. */
    method FindEntry(leaf: Id, key: Key, ghost ctx: Ctx, ghost es: seq<LeafEntry>)
      returns (position: nat, found: bool, ghost low: seq<LeafEntry>, ghost high: seq<LeafEntry>)
      requires Configured() && Holds() && Plug(ctx, Leaf(leaf, es)) == tree && Depth(ctx) == height
      requires GoodCtx(Capacities(), 0, ctx) && Brackets(ctx, key)
      ensures leaf in adapter.nodes && adapter.nodes[leaf].LeafNode? && adapter.nodes[leaf].entries == es
      ensures Sorted(Pre(ctx) + Toks(es) + Post(ctx))
      ensures position <= |es| && (found <==> position < |es| && es[position].key == key)
      ensures forall i :: 0 <= i < position ==> es[i].key < key
      ensures !found ==> forall i :: position <= i < |es| ==> key < es[i].key
      ensures AllBelow(low, key) && AllAbove(key, high)
      ensures !found ==> Ents(Flat(tree)) == low + [] + high && low == Lower(ctx, es[..position]) && high == Upper(ctx, es[position..])
      ensures found ==> Ents(Flat(tree)) == low + [es[position]] + high && low == Lower(ctx, es[..position]) && high == Upper(ctx, es[position + 1..])
    {
      hide Sound, Pre, Post, Sorted, Plug, Depth, GoodCtx, Flat, Ents, Lower, Upper, Brackets, RootGood, Aligned, AllBelow, AllAbove;
      EntryOpen(adapter.nodes, adapter.nextNodeID, adapter.firstLeafID, relinkCousins, Capacities(), ctx, leaf, es);
      position, found := FindOnNode(leaf, key);
      low := Lower(ctx, es[..position]);
      high := Upper(ctx, if found then es[position + 1..] else es[position..]);
      EntryAround(ctx, leaf, es, position, found, key);
    }

    /** The tree is put together again after a step at a place that is well filled. */
    ghost method Conclude(h: nat, ctx: Ctx, t: Tree)
      requires Configured() && SoundStore(adapter.nodes, h + Depth(ctx), Plug(ctx, t))
      requires GoodCtx(Capacities(), h, ctx) && NodeGood(Capacities(), h, ctx, t)
      requires adapter.rootID == Plug(ctx, t).id
      modifies this`tree, this`height
      ensures Holds() && tree == Plug(ctx, t)
    {
      tree, height := Plug(ctx, t), h + Depth(ctx);
      GoodPlug(Capacities(), h, ctx, t);
    }

    /** A full leaf is cut in two halves around the new entry; the right half goes to a new leaf. */
    method LeafCut(leaf: Id, position: nat, entry: LeafEntry) returns (right: Id)
      requires Configured() && leaf in adapter.nodes && adapter.nodes[leaf].LeafNode?
      requires |adapter.nodes[leaf].entries| == leafCapacity && position <= leafCapacity
      requires adapter.nextNodeID !in adapter.nodes
      modifies adapter`nodes, adapter`nextNodeID
      ensures old(adapter.nodes.Keys) <= adapter.nodes.Keys
      ensures right == old(adapter.nextNodeID) && adapter.nextNodeID == right + 1
      ensures var n, m := old(adapter.nodes), halfLeafCapacity;
              var es := PutAt(n[leaf].entries, position, entry);
              adapter.nodes == n[leaf := n[leaf].(entries := es[..m])][right := LeafNode(0, 0, 0, es[m..])]
    {
      ghost var n, es := adapter.nodes, adapter.nodes[leaf].entries;
      var splitFrom := halfLeafCapacity;
      if position < splitFrom {
        splitFrom := splitFrom - 1;
      }
      var rightEntries := adapter.LeafDeleteFrom(leaf, splitFrom);
      right := adapter.CreateLeaf();
      for i := 0 to |rightEntries|
        invariant adapter.nodes == n[leaf := n[leaf].(entries := es[..splitFrom])][right := LeafNode(0, 0, 0, rightEntries[..i])]
        invariant adapter.nextNodeID == right + 1
      {
        adapter.LeafInsertAt(right, i, rightEntries[i]);
        assert PutAt(rightEntries[..i], i, rightEntries[i]) == rightEntries[..i + 1];
      }
      assert rightEntries[..|rightEntries|] == rightEntries;
      LeafCutCases(es, position, entry, halfLeafCapacity);
      if position < halfLeafCapacity {
        adapter.LeafInsertAt(leaf, position, entry);
      } else {
        adapter.LeafInsertAt(right, position - halfLeafCapacity, entry);
      }
    }

    method LeafSplit(leaf: Id, position: nat, entry: LeafEntry) returns (right: Id)
      requires Configured() && leaf in adapter.nodes && adapter.nodes[leaf].LeafNode?
      requires |adapter.nodes[leaf].entries| == leafCapacity && position <= leafCapacity
      requires adapter.nextNodeID !in adapter.nodes && 0 !in adapter.nodes && adapter.nextNodeID > 0
      requires adapter.nodes[leaf].right != leaf && (adapter.nodes[leaf].right == 0 || adapter.nodes[leaf].right in adapter.nodes)
      modifies adapter`nodes, adapter`nextNodeID
      ensures old(adapter.nodes.Keys) <= adapter.nodes.Keys
      ensures right == old(adapter.nextNodeID) && adapter.nextNodeID == right + 1
      ensures var es := PutAt(old(adapter.nodes)[leaf].entries, position, entry);
              LeafSplitEffect(old(adapter.nodes), adapter.nodes, leaf, right, es[..halfLeafCapacity], es[halfLeafCapacity..])
    {
      right := LeafCut(leaf, position, entry);
      SetSiblings(leaf, right);
    }

    method SetSiblings(left: Id, right: Id)
      requires left in adapter.nodes && right in adapter.nodes && left != right
      requires adapter.nodes[left].right != left && adapter.nodes[left].right != right
      modifies adapter`nodes
      ensures old(adapter.nodes.Keys) <= adapter.nodes.Keys
      ensures var n, z := old(adapter.nodes), old(adapter.nodes)[left].right;
              && adapter.nodes.Keys == n.Keys
              && adapter.nodes[left] == n[left].(right := right)
              && adapter.nodes[right] == n[right].(left := left, right := if z in n then z else n[right].right)
              && forall x :: x in n && x != left && x != right ==> adapter.nodes[x] == if x == z then n[x].(left := right) else n[x]
    {
      var oldRight := adapter.nodes[left].right;
      if oldRight in adapter.nodes {
        adapter.SetLeftSiblingID(oldRight, right);
        adapter.SetRightSiblingID(right, oldRight);
      }
      adapter.SetRightSiblingID(left, right);
      adapter.SetLeftSiblingID(right, left);
    }

    method AllocateNewRoot(key: Key, lt: Id, gte: Id)
      requires lt in adapter.nodes && gte in adapter.nodes && lt != gte && adapter.nextNodeID !in adapter.nodes
      modifies adapter
      ensures old(adapter.nodes.Keys) <= adapter.nodes.Keys
      ensures adapter.rootID == old(adapter.nextNodeID) && adapter.nextNodeID == old(adapter.nextNodeID) + 1
      ensures adapter.firstLeafID == old(adapter.firstLeafID)
      ensures adapter.nodes == Rooted(old(adapter.nodes), lt, gte, key, adapter.rootID)
    {
      var parent := adapter.CreateBranch(BranchEntry(key, lt, gte));
      adapter.SetParentID(lt, parent);
      adapter.SetParentID(gte, parent);
      adapter.SetRoot(parent);
    }

    method InsertOnLeaf(leaf: Id, position: nat, entry: LeafEntry, ghost ctx: Ctx, ghost es: seq<LeafEntry>) returns (panicked: bool)
      requires Configured() && position <= |es|
      requires SoundStore(adapter.nodes, Depth(ctx), Plug(ctx, Leaf(leaf, es))) && adapter.rootID == Plug(ctx, Leaf(leaf, es)).id
      requires GoodCtx(Capacities(), 0, ctx) && NodeGood(Capacities(), 0, ctx, Leaf(leaf, es))
      requires Sorted(Pre(ctx) + Toks(PutAt(es, position, entry)) + Post(ctx))
      modifies adapter, this`tree, this`height
      ensures old(adapter.nodes.Keys) <= adapter.nodes.Keys
      ensures LeafGrown(old(adapter.nodes), adapter.nodes, leaf, position, entry, leafCapacity, halfLeafCapacity, old(adapter.nextNodeID))
      ensures !panicked && Holds()
      ensures Ents(Flat(tree)) == Ents(Flat(Plug(ctx, Leaf(leaf, PutAt(es, position, entry)))))
    {
      hide LeafGrown, Sound, Pre, Post, Sorted, Plug, Depth, GoodSides, Flat, Ents, LeafSplitEffect, Rooted, SegPlug, RepCtx, HoleSlots;
      panicked := false;
      ghost var n, next, first, es', m := adapter.nodes, adapter.nextNodeID, adapter.firstLeafID, PutAt(es, position, entry), halfLeafCapacity;
      GoodAligned(Capacities(), 0, ctx);
      LeafReady(n, next, first, relinkCousins, ctx, leaf, es);
      if |adapter.nodes[leaf].entries| < leafCapacity {
        EditLeaf(n, next, first, relinkCousins, ctx, leaf, es, es');
        adapter.LeafInsertAt(leaf, position, entry);
        SameRoot(ctx, Leaf(leaf, es), Leaf(leaf, es'));
        Conclude(0, ctx, Leaf(leaf, es'));
        GrownInPlace(n, leaf, position, entry, leafCapacity, halfLeafCapacity, next);
        return;
      }
      panicked := InsertOnFullLeaf(leaf, position, entry, ctx, es);
    }

    method InsertOnFullLeaf(leaf: Id, position: nat, entry: LeafEntry, ghost ctx: Ctx, ghost es: seq<LeafEntry>) returns (panicked: bool)
      requires Configured() && position <= |es| == leafCapacity
      requires SoundStore(adapter.nodes, Depth(ctx), Plug(ctx, Leaf(leaf, es))) && adapter.rootID == Plug(ctx, Leaf(leaf, es)).id
      requires GoodCtx(Capacities(), 0, ctx)
      requires Sorted(Pre(ctx) + Toks(PutAt(es, position, entry)) + Post(ctx))
      modifies adapter, this`tree, this`height
      ensures old(adapter.nodes.Keys) <= adapter.nodes.Keys
      ensures LeafGrown(old(adapter.nodes), adapter.nodes, leaf, position, entry, leafCapacity, halfLeafCapacity, old(adapter.nextNodeID))
      ensures !panicked && Holds()
      ensures Ents(Flat(tree)) == Ents(Flat(Plug(ctx, Leaf(leaf, PutAt(es, position, entry)))))
    {
      hide LeafGrown, LeavesKept, Sound, Pre, Post, Sorted, Plug, Depth, GoodSides, Flat, Ents, LeafSplitEffect, Rooted, SegPlug, RepCtx, HoleSlots;
      panicked := false;
      ghost var n, next, first, es', m := adapter.nodes, adapter.nextNodeID, adapter.firstLeafID, PutAt(es, position, entry), halfLeafCapacity;
      GoodAligned(Capacities(), 0, ctx);
      LeafReady(n, next, first, relinkCousins, ctx, leaf, es);
      var right := LeafSplit(leaf, position, entry);
      ghost var cut := adapter.nodes;
      LeafSplitKeys(n, adapter.nodes, leaf, right, es'[..m], es'[m..]);
      var parentKey := NodeKeys(adapter.nodes[right])[0];
      if adapter.rootID == leaf {
        RaiseLeaf(leaf, right, parentKey, n, ctx, es, es');
      } else {
        panicked := LowerLeaf(leaf, right, parentKey, n, ctx, es, es');
      }
      GrownApart(n, cut, adapter.nodes, leaf, position, entry, leafCapacity, m, right);
    }

    /** A split leaf was not the root: both halves go to its parent. */
    method LowerLeaf(leaf: Id, right: Id, key: Key, ghost n: Nodes, ghost ctx: Ctx, ghost es: seq<LeafEntry>, ghost es': seq<LeafEntry>)
      returns (panicked: bool)
      requires Configured() && ctx.Frame? && |es'| == leafCapacity + 1 && right + 1 == adapter.nextNodeID
      requires Sound(n, right, adapter.firstLeafID, relinkCousins, Depth(ctx), Plug(ctx, Leaf(leaf, es)))
      requires GoodCtx(Capacities(), 0, ctx) && adapter.rootID == Plug(ctx, Leaf(leaf, es)).id
      requires Sorted(Pre(ctx) + Toks(es') + Post(ctx))
      requires LeafSplitEffect(n, adapter.nodes, leaf, right, es'[..halfLeafCapacity], es'[halfLeafCapacity..])
      requires key == es'[halfLeafCapacity].key
      modifies adapter, this`tree, this`height
      ensures old(adapter.nodes.Keys) <= adapter.nodes.Keys && LeavesKept(old(adapter.nodes), adapter.nodes)
      ensures !panicked && Holds() && Ents(Flat(tree)) == Ents(Flat(Plug(ctx, Leaf(leaf, es'))))
    {
      hide LeavesKept, Sound, Pre, Post, Sorted, Plug, Depth, GoodSides, Flat, Ents, LeafSplitEffect, SegPlug, RepCtx, HoleSlots;
      ghost var m := halfLeafCapacity;
      GoodAligned(Capacities(), 0, ctx);
      LeafReady(n, right, adapter.firstLeafID, relinkCousins, ctx, leaf, es);
      LeafSplitKeys(n, adapter.nodes, leaf, right, es'[..m], es'[m..]);
      LeafSplitReady(n, adapter.nodes, right, adapter.firstLeafID, relinkCousins, ctx, leaf, es, es', m);
      EntsLeafCut(leaf, right, es', m);
      SameEntsSplit(ctx, Leaf(leaf, es'), Leaf(leaf, es'[..m]), key, Leaf(right, es'[m..]));
      panicked := HandToParent(leaf, right, key, 0, ctx, Leaf(leaf, es'[..m]), Leaf(right, es'[m..]));
    }

    /** A split leaf was the root: both halves go below a new root. */
    method RaiseLeaf(leaf: Id, right: Id, key: Key, ghost n: Nodes, ghost ctx: Ctx, ghost es: seq<LeafEntry>, ghost es': seq<LeafEntry>)
      requires Configured() && ctx.Top? && |es'| == leafCapacity + 1 && right + 1 == adapter.nextNodeID
      requires Sound(n, right, adapter.firstLeafID, relinkCousins, Depth(ctx), Plug(ctx, Leaf(leaf, es)))
      requires Sorted(Pre(ctx) + Toks(es') + Post(ctx))
      requires LeafSplitEffect(n, adapter.nodes, leaf, right, es'[..halfLeafCapacity], es'[halfLeafCapacity..])
      requires key == es'[halfLeafCapacity].key
      modifies adapter, this`tree, this`height
      ensures old(adapter.nodes.Keys) <= adapter.nodes.Keys && LeavesKept(old(adapter.nodes), adapter.nodes)
      ensures Holds() && Ents(Flat(tree)) == Ents(Flat(Plug(ctx, Leaf(leaf, es'))))
    {
      hide LeavesKept, Sound, Sorted, Flat, Ents, Rooted, LeafSplitEffect, Pre, Post;
      ghost var m := halfLeafCapacity;
      ghost var x, y := Leaf(leaf, es'[..m]), Leaf(right, es'[m..]);
      FreshIds(n, right, 0, Leaf(leaf, es), adapter.firstLeafID, relinkCousins);
      TopSorted(ctx, Toks(es'));
      LeafSplitKeys(n, adapter.nodes, leaf, right, es'[..m], es'[m..]);
      RootSplitLeafSound(n, adapter.nodes, right, adapter.firstLeafID, relinkCousins, leaf, es, es', m);
      RootedKept(adapter.nodes, leaf, right, key, adapter.nextNodeID);
      AllocateNewRoot(key, leaf, right);
      EntsLeafCut(leaf, right, es', m);
      RootEnts(right + 1, x, key, y);
      Conclude(1, Top, Branch(right + 1, [key], [x, y]));
    }

    /** Both halves of a split node go below its parent, which may have to be split in turn. */
    method HandToParent(left: Id, right: Id, key: Key, ghost h: nat, ghost ctx: Ctx, ghost x: Tree, ghost y: Tree) returns (panicked: bool)
      requires Configured() && ctx.Frame? && left == x.id && right == y.id
      requires |ctx.lk| == |ctx.lt| && |ctx.rk| == |ctx.rt|
      requires left in adapter.nodes && adapter.nodes[left].parent == ctx.id && right in adapter.nodes
      requires ctx.id in adapter.nodes && adapter.nodes[ctx.id].BranchNode? && adapter.nodes[ctx.id].slots == HoleSlots(ctx, [], [left])
      requires SoundStore(Reslot(Adopt(adapter.nodes, right, ctx.id), ctx.id, HoleSlots(ctx, [key], [left, right])),
                          h + Depth(ctx), SegPlug(ctx, [key], [x, y]))
      requires GoodCtx(Capacities(), h, ctx) && Good(Capacities(), h, x) && Good(Capacities(), h, y)
      requires adapter.rootID == SegPlug(ctx, [key], [x, y]).id
      modifies adapter, this`tree, this`height
      ensures old(adapter.nodes.Keys) <= adapter.nodes.Keys && LeavesKept(old(adapter.nodes), adapter.nodes)
      ensures !panicked && Holds() && Ents(Flat(tree)) == Ents(Flat(SegPlug(ctx, [key], [x, y])))
      decreases ctx, 1
    {
      hide LeavesKept, Sound, Plug, SegPlug, Depth, Good, GoodSides, Flat, Ents, HoleSlots;
      GoodAligned(Capacities(), h, ctx);
      ParentReady(adapter.nodes, adapter.nextNodeID, adapter.firstLeafID, relinkCousins, h, ctx, x, key, y);
      var parent := adapter.nodes[left].parent;
      var position, found := FindOnNode(parent, key);
      NewSlot(ctx.lk, key, ctx.rk, position);
      if found {
        return true;
      }
      ghost var n := adapter.nodes;
      AdoptKept(n, right, parent);
      adapter.SetParentID(right, parent);
      ghost var adopted := adapter.nodes;
      panicked := InsertOnBranch(parent, position, key, right, h, ctx, x, y);
      KeptTrans(n, adopted, adapter.nodes);
    }

    method InsertOnBranch(branch: Id, position: nat, key: Key, gte: Id, ghost h: nat, ghost ctx: Ctx, ghost x: Tree, ghost y: Tree)
      returns (panicked: bool)
      requires Configured() && ctx.Frame? && branch == ctx.id && gte == y.id && position == |ctx.lk|
      requires |ctx.lk| == |ctx.lt| && |ctx.rk| == |ctx.rt|
      requires branch in adapter.nodes && adapter.nodes[branch].BranchNode? && adapter.nodes[branch].slots == HoleSlots(ctx, [], [x.id])
      requires SoundStore(Reslot(adapter.nodes, branch, HoleSlots(ctx, [key], [x.id, gte])), h + Depth(ctx), SegPlug(ctx, [key], [x, y]))
      requires GoodCtx(Capacities(), h, ctx) && Good(Capacities(), h, x) && Good(Capacities(), h, y)
      requires adapter.rootID == SegPlug(ctx, [key], [x, y]).id
      modifies adapter, this`tree, this`height
      ensures old(adapter.nodes.Keys) <= adapter.nodes.Keys && LeavesKept(old(adapter.nodes), adapter.nodes)
      ensures adapter.nodes.Keys == old(adapter.nodes.Keys) <==> |old(adapter.nodes)[branch].slots| < branchCapacity
      ensures !panicked && Holds() && Ents(Flat(tree)) == Ents(Flat(SegPlug(ctx, [key], [x, y])))
      decreases ctx, 0
    {
      hide LeavesKept, Sound, Good, GoodSides, Flat, Ents, Plug;
      panicked := false;
      ghost var up, keys, ids := ctx.up, ctx.lk + ctx.rk, IdsOf(ctx.lt) + [x.id] + IdsOf(ctx.rt);
      ghost var t := Branch(branch, ctx.lk + [key] + ctx.rk, ctx.lt + [x, y] + ctx.rt);
      assert ctx.lk + [] + ctx.rk == keys;
      InsertArgs(ctx, key, x, y);
      FullBranchGood(Capacities(), h, ctx, key, x, y);
      if |adapter.nodes[branch].slots| < branchCapacity {
        ghost var n := adapter.nodes;
        adapter.BranchInsertAt(branch, position, key, gte, keys, ids);
        SlotsKept(n, adapter.nodes, branch);
        Conclude(h + 1, up, t);
        return;
      }
      panicked := InsertOnFullBranch(branch, position, key, gte, h + 1, up, t, keys, ids);
    }

    /** A branch one key too full is cut in two; `t` is the branch as if it had room. */
    method InsertOnFullBranch(branch: Id, position: nat, key: Key, gte: Id, ghost h: nat, ghost ctx: Ctx, ghost t: Tree,
                              ghost keys: seq<Key>, ghost ids: seq<Id>) returns (panicked: bool)
      requires Configured() && h > 0 && t.Branch? && branch == t.id && position <= |keys| == branchCapacity && |ids| == |keys| + 1
      requires branch in adapter.nodes && adapter.nodes[branch].BranchNode? && adapter.nodes[branch].slots == Slots(keys, ids)
      requires |t.kids| == |t.keys| + 1 && t.keys == PutAt(keys, position, key) && IdsOf(t.kids) == PutAt(ids, position + 1, gte)
      requires SoundStore(Reslot(adapter.nodes, branch, Slots(t.keys, IdsOf(t.kids))), h + Depth(ctx), Plug(ctx, t))
      requires GoodCtx(Capacities(), h, ctx) && GoodF(Capacities(), h - 1, t.kids)
      requires adapter.rootID == Plug(ctx, t).id
      modifies adapter, this`tree, this`height
      ensures old(adapter.nodes.Keys) <= adapter.nodes.Keys && LeavesKept(old(adapter.nodes), adapter.nodes) && old(adapter.nextNodeID) !in old(adapter.nodes) && old(adapter.nextNodeID) in adapter.nodes
      ensures !panicked && Holds() && Ents(Flat(tree)) == Ents(Flat(Plug(ctx, t)))
      decreases ctx, 3
    {
      hide LeavesKept, Sound, Pre, Post, Sorted, Plug, Depth, Good, GoodSides, Flat, Ents, BranchSplitEffect, Rooted, SegPlug, RepCtx, HoleSlots, Solid, MinEnt;
      panicked := false;
      ghost var n, next, first, m := adapter.nodes, adapter.nextNodeID, adapter.firstLeafID, halfBranchCapacity;
      ghost var v := Reslot(n, branch, Slots(t.keys, IdsOf(t.kids)));
      GoodAligned(Capacities(), h, ctx);
      FullReady(n, v, next, first, relinkCousins, h, ctx, t);
      IdsInBag(t.kids);
      var right, parentKey := BranchSplit(branch, position, key, gte, h, t, keys, ids);
      ghost var cut := adapter.nodes;
      SplitKept(n, cut, branch, right, t.keys, IdsOf(t.kids), m);
      EffectSlots(n, v, adapter.nodes, branch, right, t.keys, IdsOf(t.kids), m);
      if adapter.rootID == branch {
        RaiseBranch(branch, right, parentKey, v, h, ctx, t);
      } else {
        panicked := LowerBranch(branch, right, parentKey, v, h, ctx, t);
      }
      KeptTrans(n, cut, adapter.nodes);
    }

    /** A split branch was not the root: both halves go to its parent. */
    method LowerBranch(branch: Id, right: Id, key: Key, ghost n: Nodes, ghost h: nat, ghost ctx: Ctx, ghost t: Tree) returns (panicked: bool)
      requires Configured() && ctx.Frame? && h > 0 && t.Branch? && |t.kids| == |t.keys| + 1 && |t.keys| == branchCapacity + 1
      requires branch == t.id && right + 1 == adapter.nextNodeID
      requires GoodCtx(Capacities(), h, ctx) && GoodF(Capacities(), h - 1, t.kids)
      requires Sound(n, right, adapter.firstLeafID, relinkCousins, h + Depth(ctx), Plug(ctx, t)) && adapter.rootID == Plug(ctx, t).id
      requires BranchSplitEffect(n, adapter.nodes, branch, right, t.keys, IdsOf(t.kids), halfBranchCapacity)
      requires var y := Branch(right, t.keys[halfBranchCapacity + 1..], t.kids[halfBranchCapacity + 1..]);
               Solid(y) && key == MinEnt(y).key
      modifies adapter, this`tree, this`height
      ensures old(adapter.nodes.Keys) <= adapter.nodes.Keys && LeavesKept(old(adapter.nodes), adapter.nodes)
      ensures !panicked && Holds() && Ents(Flat(tree)) == Ents(Flat(Plug(ctx, t)))
      decreases ctx, 2
    {
      hide LeavesKept, Sound, Pre, Post, Sorted, Plug, Depth, Good, GoodSides, GoodF, Flat, Ents, BranchSplitEffect, SegPlug, RepCtx, HoleSlots, Solid, MinEnt;
      ghost var m := halfBranchCapacity;
      ghost var x, y := Branch(branch, t.keys[..m], t.kids[..m + 1]), Branch(right, t.keys[m + 1..], t.kids[m + 1..]);
      GoodAligned(Capacities(), h, ctx);
      CutGood(Capacities(), h, t, m, right);
      CutContents(t, x, y, m);
      BranchSplitReady(n, adapter.nodes, right, adapter.firstLeafID, relinkCousins, h, ctx, t, m);
      SameEntsSplit(ctx, t, x, key, y);
      panicked := HandToParent(branch, right, key, h, ctx, x, y);
    }

    /** A split branch was the root: both halves go below a new root. */
    method RaiseBranch(branch: Id, right: Id, key: Key, ghost n: Nodes, ghost h: nat, ghost ctx: Ctx, ghost t: Tree)
      requires Configured() && ctx.Top? && h > 0 && t.Branch? && |t.kids| == |t.keys| + 1 && |t.keys| == branchCapacity + 1
      requires branch == t.id && right + 1 == adapter.nextNodeID && GoodF(Capacities(), h - 1, t.kids)
      requires Sound(n, right, adapter.firstLeafID, relinkCousins, h + Depth(ctx), Plug(ctx, t))
      requires BranchSplitEffect(n, adapter.nodes, branch, right, t.keys, IdsOf(t.kids), halfBranchCapacity)
      requires var y := Branch(right, t.keys[halfBranchCapacity + 1..], t.kids[halfBranchCapacity + 1..]);
               Solid(y) && key == MinEnt(y).key
      modifies adapter, this`tree, this`height
      ensures old(adapter.nodes.Keys) <= adapter.nodes.Keys && LeavesKept(old(adapter.nodes), adapter.nodes)
      ensures Holds() && Ents(Flat(tree)) == Ents(Flat(Plug(ctx, t)))
    {
      hide LeavesKept, Sound, Sorted, Flat, Ents, Rooted, Solid, MinEnt, Good;
      ghost var m := halfBranchCapacity;
      ghost var x, y := Branch(branch, t.keys[..m], t.kids[..m + 1]), Branch(right, t.keys[m + 1..], t.kids[m + 1..]);
      FreshIds(n, right, h, t, adapter.firstLeafID, relinkCousins);
      RootSplitBranchSound(n, adapter.nodes, right, adapter.firstLeafID, relinkCousins, h, branch, t.keys, t.kids, m);
      RootedKept(adapter.nodes, branch, right, key, adapter.nextNodeID);
      AllocateNewRoot(key, branch, right);
      CutContents(t, x, y, m);
      CutGood(Capacities(), h, t, m, right);
      RootEnts(right + 1, x, key, y);
      Conclude(h + 1, Top, Branch(right + 1, [key], [x, y]));
    }

    // ---------- Splitting a branch ----------

    /** A new branch with the given entries, put in one by one. */
    method CreateFrom(entries: seq<BranchEntry>, ghost keys: seq<Key>, ghost ids: seq<Id>) returns (id: Id)
      requires |ids| == |keys| + 1 && keys != [] && entries == Slots(keys, ids)
      modifies adapter`nodes, adapter`nextNodeID
      ensures old(adapter.nodes.Keys) <= adapter.nodes.Keys
      ensures id == old(adapter.nextNodeID) && adapter.nextNodeID == id + 1
      ensures adapter.nodes == old(adapter.nodes)[id := BranchNode(0, 0, 0, Slots(keys, ids))]
    {
      ghost var n := adapter.nodes;
      id := adapter.CreateBranch(entries[0]);
      assert [entries[0]] == Slots(keys[..1], ids[..2]);
      for i := 1 to |entries|
        invariant adapter.nodes == n[id := BranchNode(0, 0, 0, Slots(keys[..i], ids[..i + 1]))]
        invariant adapter.nextNodeID == id + 1
      {
        adapter.BranchInsertAt(id, i, entries[i].key, entries[i].gte, keys[..i], ids[..i + 1]);
        assert PutAt(keys[..i], i, keys[i]) == keys[..i + 1] && PutAt(ids[..i + 1], i + 1, ids[i + 1]) == ids[..i + 2];
      }
      assert keys[..|keys|] == keys && ids[..|keys| + 1] == ids;
    }

    /** The right part of a branch cut at half its capacity, with the new key if it belongs there. */
    method CreateRight(removed: seq<BranchEntry>, position: nat, key: Key, gte: Id, ghost keys: seq<Key>, ghost ids: seq<Id>)
      returns (right: Id)
      requires Configured() && position <= |keys| == branchCapacity && |ids| == |keys| + 1
      requires var s := if position < halfBranchCapacity then halfBranchCapacity - 1 else halfBranchCapacity;
               removed == Slots(keys[s..], ids[s..])
      modifies adapter`nodes, adapter`nextNodeID
      ensures old(adapter.nodes.Keys) <= adapter.nodes.Keys
      ensures right == old(adapter.nextNodeID) && adapter.nextNodeID == right + 1
      ensures var m, ks, xs := halfBranchCapacity, PutAt(keys, position, key), PutAt(ids, position + 1, gte);
              adapter.nodes == old(adapter.nodes)[right := BranchNode(0, 0, 0, Slots(ks[m + 1..], xs[m + 1..]))]
    {
      hide PutAt;
      ghost var s := if position < halfBranchCapacity then halfBranchCapacity - 1 else halfBranchCapacity;
      ghost var ks, xs := keys[s..], ids[s..];
      var entries := removed;
      SlotTail(ks, xs, gte);
      CutCases(keys, ids, position, key, gte, halfBranchCapacity);
      if position == halfBranchCapacity {
        entries := entries[0 := entries[0].(lt := gte)];
        xs := [gte] + xs[1..];
      } else {
        entries := entries[1..];
        ks, xs := ks[1..], xs[1..];
      }
      right := CreateFrom(entries, ks, xs);
      if position > halfBranchCapacity {
        adapter.BranchInsertAt(right, position - halfBranchCapacity - 1, key, gte, ks, xs);
      }
    }

    /** A full branch is cut in two around the new key; one key goes up and is left out here. */
    method BranchCut(branch: Id, position: nat, key: Key, gte: Id, ghost keys: seq<Key>, ghost ids: seq<Id>) returns (right: Id)
      requires Configured() && branch in adapter.nodes && adapter.nodes[branch].BranchNode?
      requires position <= |keys| == branchCapacity && |ids| == |keys| + 1 && adapter.nodes[branch].slots == Slots(keys, ids)
      requires adapter.nextNodeID !in adapter.nodes
      modifies adapter`nodes, adapter`nextNodeID
      ensures old(adapter.nodes.Keys) <= adapter.nodes.Keys
      ensures right == old(adapter.nextNodeID) && adapter.nextNodeID == right + 1
      ensures var n, m, ks, xs := old(adapter.nodes), halfBranchCapacity, PutAt(keys, position, key), PutAt(ids, position + 1, gte);
              adapter.nodes == n[branch := n[branch].(slots := Slots(ks[..m], xs[..m + 1]))]
                                [right := BranchNode(0, 0, 0, Slots(ks[m + 1..], xs[m + 1..]))]
    {
      ghost var m := halfBranchCapacity;
      var splitFrom := halfBranchCapacity;
      if position < splitFrom {
        splitFrom := splitFrom - 1;
      }
      var rightEntries := adapter.BranchDeleteFrom(branch, splitFrom, keys, ids);
      CutCases(keys, ids, position, key, gte, m);
      if position < halfBranchCapacity {
        adapter.BranchInsertAt(branch, position, key, gte, keys[..m - 1], ids[..m]);
      }
      right := CreateRight(rightEntries, position, key, gte, keys, ids);
    }

    /** Every child of a branch gets the branch as its parent. */
    method AdoptAll(branch: Id, ghost keys: seq<Key>, ghost ids: seq<Id>)
      requires branch in adapter.nodes && adapter.nodes[branch].BranchNode? && |ids| == |keys| + 1 && keys != []
      requires adapter.nodes[branch].slots == Slots(keys, ids) && branch !in ids
      modifies adapter`nodes
      ensures old(adapter.nodes.Keys) <= adapter.nodes.Keys
      ensures adapter.nodes.Keys == old(adapter.nodes).Keys
      ensures forall z :: z in adapter.nodes ==> adapter.nodes[z] == SplitBody(old(adapter.nodes)[z], z, branch, ids)
    {
      ghost var n := adapter.nodes;
      UpdateParentID(adapter.nodes[branch].slots[0].lt, branch);
      for i := 0 to |adapter.nodes[branch].slots|
        invariant branch in adapter.nodes && adapter.nodes[branch] == n[branch] && adapter.nodes.Keys == n.Keys
        invariant forall z :: z in n ==> adapter.nodes[z] == SplitBody(n[z], z, branch, ids[..i + 1])
      {
        UpdateParentID(adapter.nodes[branch].slots[i].gte, branch);
        assert ids[..i + 2] == ids[..i + 1] + [ids[i + 1]];
      }
      assert ids[..|ids|] == ids;
    }

    method UpdateParentID(id: Id, parent: Id)
      modifies adapter`nodes
      ensures old(adapter.nodes.Keys) <= adapter.nodes.Keys
      ensures adapter.nodes == if id in old(adapter.nodes) then old(adapter.nodes)[id := old(adapter.nodes)[id].(parent := parent)]
                               else old(adapter.nodes)
    {
      if id in adapter.nodes {
        adapter.SetParentID(id, parent);
      }
    }

    /** The smallest key below a branch, read off the leaf its first children lead to. */
    method FindMinimum(branch: Id, ghost t: Tree, ghost h: nat, ghost p: Id) returns (key: Key)
      requires CapsOk(Capacities()) && branch == t.id && t.Branch? && Rep(adapter.nodes, t, p)
      requires Sized(Capacities(), h, t, 1, branchCapacity) && Solid(t)
      ensures key == MinEnt(t).key
    {
      hide MinEnt, Solid;
      var id, isLeaf := branch, false;
      ghost var cur, q, d := t, p, h;
      while !isLeaf
        invariant id == cur.id && Rep(adapter.nodes, cur, q) && isLeaf == cur.Leaf? && Solid(cur) && MinEnt(cur) == MinEnt(t)
        invariant d >= 0 && Sized(Capacities(), d, cur, 1, Cap(Capacities(), d))
        decreases d
      {
        MinEntDown(cur);
        id := adapter.nodes[id].slots[0].lt;
        isLeaf := adapter.nodes[id].LeafNode?;
        q, cur, d := cur.id, cur.kids[0], d - 1;
      }
      LeafMin(cur);
      key := NodeKeys(adapter.nodes[id])[0];
    }

    method BranchSplit(branch: Id, position: nat, key: Key, gte: Id, ghost h: nat, ghost t: Tree, ghost keys: seq<Key>, ghost ids: seq<Id>)
      returns (right: Id, parentKey: Key)
      requires Configured() && branch in adapter.nodes && adapter.nodes[branch].BranchNode? && branch == t.id
      requires position <= |keys| == branchCapacity && |ids| == |keys| + 1 && adapter.nodes[branch].slots == Slots(keys, ids)
      requires h > 0 && t.Branch? && |t.kids| == |t.keys| + 1 && t.keys == PutAt(keys, position, key) && IdsOf(t.kids) == PutAt(ids, position + 1, gte)
      requires GoodF(Capacities(), h - 1, t.kids) && RepF(adapter.nodes, t.kids, branch)
      requires forall z :: BagF(t.kids)[z] <= 1
      requires forall z :: z in BagF(t.kids) ==> z in adapter.nodes && z != branch
      requires branch !in IdsOf(t.kids) && adapter.nextNodeID !in IdsOf(t.kids)
      requires NewId(adapter.nodes, adapter.nextNodeID) && 0 !in adapter.nodes && adapter.nextNodeID > 0
      requires adapter.nodes[branch].right != branch && (adapter.nodes[branch].right == 0 || adapter.nodes[branch].right in adapter.nodes)
      modifies adapter`nodes, adapter`nextNodeID
      ensures old(adapter.nodes.Keys) <= adapter.nodes.Keys
      ensures right == old(adapter.nextNodeID) && adapter.nextNodeID == right + 1
      ensures BranchSplitEffect(old(adapter.nodes), adapter.nodes, branch, right, t.keys, IdsOf(t.kids), halfBranchCapacity)
      ensures var y := Branch(right, t.keys[halfBranchCapacity + 1..], t.kids[halfBranchCapacity + 1..]);
              Solid(y) && parentKey == MinEnt(y).key
    {
      hide BagF, Rep, Good, Solid, MinEnt, BranchSplitEffect;
      ghost var n, m := adapter.nodes, halfBranchCapacity;
      right := BranchShare(branch, position, key, gte, t.keys, IdsOf(t.kids), keys, ids);
      CutGood(Capacities(), h, t, m, right);
      ShareRep(n, adapter.nodes, branch, right, t, m);
      parentKey := FindMinimum(right, Branch(right, t.keys[m + 1..], t.kids[m + 1..]), h, 0);
    }

    /** The store after a cut, with sibling links and the parents of the moved children in place. */
    method BranchShare(branch: Id, position: nat, key: Key, gte: Id, ghost ks: seq<Key>, ghost xs: seq<Id>, ghost keys: seq<Key>, ghost ids: seq<Id>)
      returns (right: Id)
      requires Configured() && branch in adapter.nodes && adapter.nodes[branch].BranchNode?
      requires position <= |keys| == branchCapacity && |ids| == |keys| + 1 && adapter.nodes[branch].slots == Slots(keys, ids)
      requires ks == PutAt(keys, position, key) && xs == PutAt(ids, position + 1, gte)
      requires branch !in xs && adapter.nextNodeID !in xs
      requires NewId(adapter.nodes, adapter.nextNodeID) && 0 !in adapter.nodes && adapter.nextNodeID > 0
      requires adapter.nodes[branch].right != branch && (adapter.nodes[branch].right == 0 || adapter.nodes[branch].right in adapter.nodes)
      modifies adapter`nodes, adapter`nextNodeID
      ensures old(adapter.nodes.Keys) <= adapter.nodes.Keys
      ensures right == old(adapter.nextNodeID) && adapter.nextNodeID == right + 1
      ensures BranchSplitEffect(old(adapter.nodes), adapter.nodes, branch, right, ks, xs, halfBranchCapacity)
    {
      ghost var n, m := adapter.nodes, halfBranchCapacity;
      right := BranchCut(branch, position, key, gte, keys, ids);
      ghost var n1 := adapter.nodes;
      SetSiblings(branch, right);
      ghost var n2 := adapter.nodes;
      AdoptAll(right, ks[m + 1..], xs[m + 1..]);
      ShareEffect(n, n1, n2, adapter.nodes, branch, right, ks, xs, m);
    }

    // ---------- Deletion: leaves ----------

    /** The tree is put together again after a step on two neighbours in a branch. */
    ghost method ConcludePair(h: nat, ctx: Ctx, x: Tree, k: Key, y: Tree)
      requires Configured() && GoodPair(Capacities(), h, ctx) && Good(Capacities(), h, x) && Good(Capacities(), h, y)
      requires SoundStore(adapter.nodes, h + Depth(ctx), SegPlug(ctx, [k], [x, y]))
      requires adapter.rootID == SegPlug(ctx, [k], [x, y]).id
      modifies this`tree, this`height
      ensures Holds() && tree == SegPlug(ctx, [k], [x, y])
    {
      hide Sound, Good, GoodCtx;
      PairGood(Capacities(), h, ctx, k, x, y);
      Conclude(h + 1, ctx.up, Branch(ctx.id, ctx.lk + [k] + ctx.rk, ctx.lt + [x, y] + ctx.rt));
    }

    method RightSibling(left: Id) returns (right: Id)
      requires left in adapter.nodes && 0 !in adapter.nodes
      ensures right != 0 ==> right == adapter.nodes[left].right && right in adapter.nodes && adapter.nodes[right].parent == adapter.nodes[left].parent
      ensures right == 0 ==> adapter.nodes[left].right !in adapter.nodes
                             || adapter.nodes[adapter.nodes[left].right].parent != adapter.nodes[left].parent
    {
      right := adapter.nodes[left].right;
      if right !in adapter.nodes || adapter.nodes[left].parent != adapter.nodes[right].parent {
        right := 0;
      }
    }

    method LeftSibling(right: Id) returns (left: Id)
      requires right in adapter.nodes && 0 !in adapter.nodes
      ensures left != 0 ==> left == adapter.nodes[right].left && left in adapter.nodes && adapter.nodes[left].parent == adapter.nodes[right].parent
      ensures left == 0 ==> adapter.nodes[right].left !in adapter.nodes
                            || adapter.nodes[adapter.nodes[right].left].parent != adapter.nodes[right].parent
    {
      left := adapter.nodes[right].left;
      if left !in adapter.nodes || adapter.nodes[right].parent != adapter.nodes[left].parent {
        left := 0;
      }
    }

    /** The slot of the separator in front of a key of its right child. */
    method SeparatorSlot(parent: Id, key: Key, ghost ctx: Ctx, ghost k: Key) returns (position: nat)
      requires ctx.Frame? && parent in adapter.nodes && NodeKeys(adapter.nodes[parent]) == ctx.lk + [k] + ctx.rk
      requires Increasing(ctx.lk + [k] + ctx.rk) && k <= key && (ctx.rk != [] ==> key < ctx.rk[0])
      ensures position == |ctx.lk|
    {
      var found;
      position, found := FindOnNode(parent, key);
      OldSlot(ctx.lk, k, ctx.rk, key, position);
      if !found {
        position := position - 1;
      }
    }

    method PipeFromRightLeaf(right: Id, left: Id, ghost ctx: Ctx, ghost x: Tree, ghost k: Key, ghost y: Tree)
      requires Configured() && x.Leaf? && y.Leaf? && left == x.id && right == y.id
      requires |x.entries| + 1 == halfLeafCapacity && halfLeafCapacity < |y.entries| <= leafCapacity
      requires GoodPair(Capacities(), 0, ctx) && SoundStore(adapter.nodes, Depth(ctx), SegPlug(ctx, [k], [x, y]))
      requires adapter.rootID == SegPlug(ctx, [k], [x, y]).id
      modifies adapter`nodes, this`tree, this`height
      ensures adapter.nodes.Keys <= old(adapter.nodes.Keys)
      ensures var n := old(adapter.nodes);
              && left in n && right in n && n[left].LeafNode? && n[right].LeafNode? && n[right].entries != []
              && LeafLent(n, adapter.nodes, left, right, n[left].entries + n[right].entries[..1], n[right].entries[1..])
      ensures Holds() && Ents(Flat(tree)) == Ents(Flat(SegPlug(ctx, [k], [x, y])))
    {
      hide LeafLent, LeafBorrowEffect, Sound, Sorted, Flat, Ents, SegPlug, Pre, Post, HoleSlots, GoodSides, Depth, Aligned, Slots, IdsOf, Increasing, RootGood;
      ghost var n, next, first := adapter.nodes, adapter.nextNodeID, adapter.firstLeafID;
      GoodAligned(Capacities(), 0, ctx);
      PairFacts(n, next, first, relinkCousins, 0, ctx, x, k, y);
      LeafFlat(right, y.entries);
      LocateTok(ctx, x, k, y, 0);
      ShiftEntry(x.entries, y.entries);
      var entry := adapter.LeafDeleteAt(right, 0);
      adapter.LeafInsertAt(left, |adapter.nodes[left].entries|, entry);
      var parent := adapter.nodes[right].parent;
      var position := SeparatorSlot(parent, entry.key, ctx, k);
      var newKey := NodeKeys(adapter.nodes[right])[0];
      ReplaceSlots(ctx, k, newKey, left, right);
      adapter.BranchReplaceKeyAt(parent, position, newKey, ctx.lk + [k] + ctx.rk, IdsOf(ctx.lt) + [left, right] + IdsOf(ctx.rt));
      ghost var es, rest := x.entries + [y.entries[0]], y.entries[1..];
      BorrowedBack(n, adapter.nodes, ctx.id, left, right, es, rest, HoleSlots(ctx, [newKey], [left, right]));
      assert es == n[left].entries + n[right].entries[..1];
      LentIs(n, adapter.nodes, ctx, left, right, k, es, rest);
      BorrowLeaf(n, adapter.nodes, ctx, x, k, y, es, rest);
    }

    /** Entries have been shared out anew between two leaves and the separator replaced. */
    ghost method BorrowLeaf(n: Nodes, n': Nodes, ctx: Ctx, x: Tree, k: Key, y: Tree, es: seq<LeafEntry>, rest: seq<LeafEntry>)
      requires Configured() && x.Leaf? && y.Leaf? && n' == adapter.nodes && x.entries + y.entries == es + rest
      requires halfLeafCapacity <= |es| <= leafCapacity && halfLeafCapacity <= |rest| <= leafCapacity
      requires GoodPair(Capacities(), 0, ctx) && SoundStore(n, Depth(ctx), SegPlug(ctx, [k], [x, y]))
      requires adapter.rootID == SegPlug(ctx, [k], [x, y]).id
      requires LeafBorrowEffect(n, n', ctx.id, x.id, y.id, es, rest, HoleSlots(ctx, [rest[0].key], [x.id, y.id]))
      modifies this`tree, this`height
      ensures Holds() && Ents(Flat(tree)) == Ents(Flat(SegPlug(ctx, [k], [x, y])))
    {
      hide Sound, Sorted, Flat, Ents, SegPlug, HoleSlots, GoodSides, Depth, LeafBorrowEffect, Aligned;
      ghost var x', y', k' := Leaf(x.id, es), Leaf(y.id, rest), rest[0].key;
      GoodAligned(Capacities(), 0, ctx);
      BorrowLeafSound(n, n', adapter.nextNodeID, adapter.firstLeafID, relinkCousins, ctx, x, k, y, es, rest);
      SameSegRoot(ctx, [k], [x, y], [k'], [x', y']);
      EntsLeaf(x.id, x.entries);
      EntsLeaf(y.id, y.entries);
      EntsLeaf(x.id, es);
      EntsLeaf(y.id, rest);
      SameEntsPair(ctx, x, k, y, x', k', y');
      ConcludePair(0, ctx, x', k', y');
    }

    method PipeFromLeftLeaf(left: Id, right: Id, ghost ctx: Ctx, ghost x: Tree, ghost k: Key, ghost y: Tree)
      requires Configured() && x.Leaf? && y.Leaf? && left == x.id && right == y.id
      requires |y.entries| + 1 == halfLeafCapacity && halfLeafCapacity < |x.entries| <= leafCapacity
      requires GoodPair(Capacities(), 0, ctx) && SoundStore(adapter.nodes, Depth(ctx), SegPlug(ctx, [k], [x, y]))
      requires adapter.rootID == SegPlug(ctx, [k], [x, y]).id
      modifies adapter`nodes, this`tree, this`height
      ensures adapter.nodes.Keys <= old(adapter.nodes.Keys)
      ensures var n, m := old(adapter.nodes), |x.entries| - 1;
              && left in n && right in n && n[left].LeafNode? && n[right].LeafNode? && m + 1 == |n[left].entries|
              && LeafLent(n, adapter.nodes, left, right, n[left].entries[..m], n[left].entries[m..] + n[right].entries)
      ensures Holds() && Ents(Flat(tree)) == Ents(Flat(SegPlug(ctx, [k], [x, y])))
    {
      hide LeafLent, Sound, Sorted, Flat, Ents, SegPlug, Pre, Post, HoleSlots, GoodSides, Depth, Aligned, Slots, PutAt, DropAt, IdsOf, LeafBorrowEffect, RootGood;
      ghost var n, next, first := adapter.nodes, adapter.nextNodeID, adapter.firstLeafID;
      GoodAligned(Capacities(), 0, ctx);
      PairFacts(n, next, first, relinkCousins, 0, ctx, x, k, y);
      LeafFlat(right, y.entries);
      LocateTok(ctx, x, k, y, 0);
      var firstFromRight := NodeKeys(adapter.nodes[right])[0];
      UnshiftEntry(x.entries, y.entries);
      ghost var l := |x.entries| - 1;
      var entry := adapter.LeafDeleteAt(left, |adapter.nodes[left].entries| - 1);
      adapter.LeafInsertAt(right, 0, entry);
      var parent := adapter.nodes[right].parent;
      var position := SeparatorSlot(parent, firstFromRight, ctx, k);
      ReplaceSlots(ctx, k, entry.key, left, right);
      adapter.BranchReplaceKeyAt(parent, position, entry.key, ctx.lk + [k] + ctx.rk, IdsOf(ctx.lt) + [left, right] + IdsOf(ctx.rt));
      BorrowedIs(n, adapter.nodes, ctx.id, left, right, x.entries[..l], [x.entries[l]] + y.entries, HoleSlots(ctx, [entry.key], [left, right]));
      assert x.entries[l..] == [x.entries[l]];
      LentIs(n, adapter.nodes, ctx, left, right, k, x.entries[..l], [x.entries[l]] + y.entries);
      BorrowLeaf(n, adapter.nodes, ctx, x, k, y, x.entries[..l], [x.entries[l]] + y.entries);
    }

    /** Leaf `right` is poured into leaf `left` and freed; the parent loses its slot. */
    method MergeLeaves(left: Id, right: Id, ghost ctx: Ctx, ghost x: Tree, ghost k: Key, ghost y: Tree, ghost n: Nodes) returns (end: Ending)
      requires Configured() && x.Leaf? && y.Leaf? && left == x.id && right == y.id && y.entries != []
      requires halfLeafCapacity <= |x.entries| + |y.entries| <= leafCapacity
      requires GoodPair(Capacities(), 0, ctx) && SoundStore(adapter.nodes, Depth(ctx), SegPlug(ctx, [k], [x, y]))
      requires adapter.rootID == SegPlug(ctx, [k], [x, y]).id && SamePath(n, adapter.nodes, ctx)
      modifies adapter`nodes, adapter`rootID, this`tree, this`height
      ensures adapter.nodes.Keys <= old(adapter.nodes.Keys)
      ensures end == MergeEnds(n, Capacities(), dropsRight, 0, ctx.up, ctx.id, |ctx.lk| + |ctx.rk| + 1, |ctx.lk|)
      ensures LeafMerged(old(adapter.nodes), adapter.nodes, left, right)
      ensures end == Astray ==> Dangling(adapter.nodes)
      ensures end == Through ==> Holds() && Ents(Flat(tree)) == Ents(Flat(SegPlug(ctx, [k], [x, y])))
    {
      hide LeafMerged, LeavesKept, Sound, Sorted, Flat, Ents, SegPlug, Pre, Post, HoleSlots, GoodSides, Depth, Aligned, LeafMergeEffect, Plug, MergeEnds, SamePath;
      ghost var m, next, first := adapter.nodes, adapter.nextNodeID, adapter.firstLeafID;
      GoodAligned(Capacities(), 0, ctx);
      PairFacts(m, next, first, relinkCousins, 0, ctx, x, k, y);
      PairRight(m, next, first, relinkCousins, 0, ctx, x, k, y);
      LeafFlat(right, y.entries);
      LocateTok(ctx, x, k, y, 0);
      var parentKey := PourLeaf(left, right, x.entries, y.entries);
      ghost var t := Leaf(left, x.entries + y.entries);
      MergeKeepsParent(m, adapter.nodes, ctx.id, left, right);
      MergeLeafSound(m, adapter.nodes, next, first, relinkCousins, ctx, x, k, y);
      MergedLeafEnts(ctx, x, k, y, t);
      MergePathLeaf(m, adapter.nodes, next, first, relinkCousins, ctx, x, k, y);
      SamePathTrans(n, m, adapter.nodes, ctx);
      ghost var poured := adapter.nodes;
      end := ShrinkParent(left, right, parentKey, 0, ctx, t, k, n);
      MergedIs(m, poured, adapter.nodes, left, right);
    }

    /** The loop of a leaf merge and the relinking. */
    method PourLeaf(left: Id, right: Id, ghost xs: seq<LeafEntry>, ghost ys: seq<LeafEntry>) returns (parentKey: Key)
      requires left in adapter.nodes && right in adapter.nodes && left != right && 0 !in adapter.nodes
      requires adapter.nodes[left].LeafNode? && adapter.nodes[left].entries == xs
      requires adapter.nodes[right].LeafNode? && adapter.nodes[right].entries == ys && ys != []
      requires adapter.nodes[right].right != left && adapter.nodes[right].right != right
      modifies adapter`nodes
      ensures adapter.nodes.Keys <= old(adapter.nodes.Keys)
      ensures LeafMergeEffect(old(adapter.nodes), adapter.nodes, left, right) && parentKey == ys[0].key
    {
      ghost var n := adapter.nodes;
      var position := |adapter.nodes[left].entries|;
      var entries := adapter.nodes[right].entries;
      assert xs + ys[..0] == xs && n[left := n[left]] == n;
      for i := 0 to |entries|
        invariant adapter.nodes == n[left := n[left].(entries := xs + ys[..i])] && position == |xs| + i
      {
        adapter.LeafInsertAt(left, position, entries[i]);
        assert PutAt(xs + ys[..i], |xs| + i, ys[i]) == xs + ys[..i + 1];
        position := position + 1;
      }
      assert ys[..|ys|] == ys;
      var newRight := adapter.nodes[right].right;
      if newRight in adapter.nodes {
        adapter.SetLeftSiblingID(newRight, left);
      }
      adapter.SetRightSiblingID(left, newRight);
      parentKey := NodeKeys(adapter.nodes[right])[0];
      adapter.Free(right);
    }

    /** After a merge the parent loses the slot of the freed node; a root with one key goes away. */
    method ShrinkParent(left: Id, ghost dead: Id, key: Key, ghost h: nat, ghost ctx: Ctx, ghost t: Tree, ghost k: Key, ghost n: Nodes)
      returns (end: Ending)
      requires Configured() && GoodPair(Capacities(), h, ctx) && Good(Capacities(), h, t) && left == t.id
      requires left in adapter.nodes && adapter.nodes[left].parent == ctx.id && left != ctx.id
      requires ctx.id in adapter.nodes && adapter.nodes[ctx.id].BranchNode? && adapter.nodes[ctx.id].slots == HoleSlots(ctx, [k], [left, dead])
      requires dead !in adapter.nodes
      requires Increasing(ctx.lk + [k] + ctx.rk) && k <= key && (ctx.rk != [] ==> key < ctx.rk[0])
      requires SoundStore(Reslot(adapter.nodes, ctx.id, HoleSlots(ctx, [], [left])), h + Depth(ctx), Plug(ctx, t))
      requires adapter.rootID == Plug(ctx, t).id && SamePath(n, adapter.nodes, ctx)
      modifies adapter`nodes, adapter`rootID, this`tree, this`height
      ensures adapter.nodes.Keys <= old(adapter.nodes.Keys) && LeavesKept(old(adapter.nodes), adapter.nodes)
      ensures end == MergeEnds(n, Capacities(), dropsRight, h, ctx.up, ctx.id, |ctx.lk| + |ctx.rk| + 1, |ctx.lk|)
      ensures end == Astray ==> Dangling(adapter.nodes)
      ensures end == Through ==> Holds() && Ents(Flat(tree)) == Ents(Flat(Plug(ctx, t)))
      decreases ctx.up, 7
    {
      hide LeavesKept, Sound, Sorted, Flat, Ents, Pre, Post, HoleSlots, Aligned, Good, GoodF;
      var parent := adapter.nodes[left].parent;
      ghost var m0 := adapter.nodes;
      ghost var v := Reslot(adapter.nodes, parent, HoleSlots(ctx, [], [left]));
      SlotCount(ctx, [k], [left, dead]);
      FrameRoot(ctx, t);
      if adapter.rootID == parent && |adapter.nodes[parent].slots| == 1 {
        LoneChild(ctx, t);
        Collapse(v, adapter.nextNodeID, adapter.firstLeafID, relinkCousins, h, t, parent);
        adapter.Free(parent);
        adapter.SetRoot(left);
        assert adapter.nodes == LoneRoot(v, parent, left);
        LoneKept(m0, adapter.nodes, parent, left);
        LoneEnts(parent, t);
        ConcludeRoot(h, t);
        return Through;
      }
      SlotKeys(adapter.nodes[parent], ctx.lk + [k] + ctx.rk, IdsOf(ctx.lt) + [left, dead] + IdsOf(ctx.rt));
      var position := SeparatorSlot(parent, key, ctx, k);
      end := DeleteFromBranch(parent, position, h, ctx, t, k, dead, n);
    }

    ghost method ConcludeRoot(h: nat, t: Tree)
      requires Configured() && SoundStore(adapter.nodes, h, t) && Good(Capacities(), h, t) && adapter.rootID == t.id
      modifies this`tree, this`height
      ensures Holds() && tree == t
    {
      Conclude(h, Top, t);
    }

    /** Takes the key at `position` and the child on its right out of a branch. */
    method DeleteFromBranch(branch: Id, position: nat, ghost h: nat, ghost ctx: Ctx, ghost t: Tree, ghost k: Key, ghost dead: Id, ghost n: Nodes)
      returns (end: Ending)
      requires Configured() && GoodPair(Capacities(), h, ctx) && Good(Capacities(), h, t) && branch == ctx.id && position == |ctx.lk|
      requires |ctx.lk| + |ctx.rk| > 0 && dead !in adapter.nodes
      requires branch in adapter.nodes && adapter.nodes[branch].BranchNode? && adapter.nodes[branch].slots == HoleSlots(ctx, [k], [t.id, dead])
      requires SoundStore(Reslot(adapter.nodes, branch, HoleSlots(ctx, [], [t.id])), h + Depth(ctx), Plug(ctx, t))
      requires adapter.rootID == Plug(ctx, t).id && SamePath(n, adapter.nodes, ctx)
      modifies adapter`nodes, adapter`rootID, this`tree, this`height
      ensures adapter.nodes.Keys <= old(adapter.nodes.Keys) && LeavesKept(old(adapter.nodes), adapter.nodes)
      ensures end == if !dropsRight && 0 < |ctx.lk| < |ctx.lk| + |ctx.rk| then Astray else Ends(n, Capacities(), dropsRight, h + 1, ctx.up, branch, |ctx.lk| + |ctx.rk|)
      ensures end == Astray ==> Dangling(adapter.nodes)
      ensures end == Through ==> Holds() && Ents(Flat(tree)) == Ents(Flat(Plug(ctx, t)))
      decreases ctx.up, 6
    {
      hide LeavesKept, Sound, Sorted, Flat, Ents, Pre, Post, Ends, Good, GoodF, GoodSides, GoodCtx, Slots, DropAt, HoleSlots, IdsOf, Plug, Depth, Sized, GoodPair;
      PairAligned(Capacities(), h, ctx);
      ghost var m, keys, ids := adapter.nodes, ctx.lk + [k] + ctx.rk, IdsOf(ctx.lt) + [t.id, dead] + IdsOf(ctx.rt);
      ShrunkGood(Capacities(), h, ctx, t);
      DropSlot(ctx, k, t.id, dead);
      if position == 0 {
        adapter.BranchShift(branch, keys, ids);
      } else if !dropsRight && position < |adapter.nodes[branch].slots| - 1 {
        var _ := adapter.BranchDeletePacked(branch, position, keys, ids);
        WrongChild(m, adapter.nodes, branch, keys, ids, position);
        SlotsKept(m, adapter.nodes, branch);
        return Astray;
      } else {
        var _ := adapter.BranchDeleteAt(branch, position, keys, ids);
      }
      assert adapter.nodes == Reslot(m, branch, HoleSlots(ctx, [], [t.id]));
      ghost var b := Branch(branch, ctx.lk + ctx.rk, ctx.lt + [t] + ctx.rt);
      SamePathUp(n, m, adapter.nodes, ctx);
      ghost var shrunk := adapter.nodes;
      SlotsKept(m, shrunk, branch);
      end := RebalanceBranch(branch, h + 1, ctx.up, b, n);
      KeptTrans(m, shrunk, adapter.nodes);
    }

    method RebalanceBranch(branch: Id, ghost h: nat, ghost ctx: Ctx, ghost t: Tree, ghost n: Nodes) returns (end: Ending)
      requires Configured() && h > 0 && t.Branch? && branch == t.id
      requires GoodCtx(Capacities(), h, ctx) && Sized(Capacities(), h, t, 1, branchCapacity)
      requires ctx.Frame? ==> halfBranchCapacity <= |t.keys| + 1
      requires SoundStore(adapter.nodes, h + Depth(ctx), Plug(ctx, t)) && adapter.rootID == Plug(ctx, t).id
      requires LeftOf(n, branch) == LeftOf(adapter.nodes, branch) && SamePath(n, adapter.nodes, ctx)
      modifies adapter`nodes, adapter`rootID, this`tree, this`height
      ensures adapter.nodes.Keys <= old(adapter.nodes.Keys) && LeavesKept(old(adapter.nodes), adapter.nodes)
      ensures BranchSettled(old(adapter.nodes), adapter.nodes, old(adapter.rootID), branch, halfBranchCapacity, end == Through, end == Stuck)
      ensures end == Ends(n, Capacities(), dropsRight, h, ctx, branch, |t.keys|)
      ensures end == Astray ==> Dangling(adapter.nodes)
      ensures end == Through ==> Holds() && Ents(Flat(tree)) == Ents(Flat(Plug(ctx, t)))
      decreases ctx, 5
    {
      hide HasRight, HasLeft, SparesRight, SparesLeft, Between, Solid, MinEnt, Slots, LeavesKept, BranchSettled, LentByRight, LentByLeft, Sound, Sorted, Flat, Ents, Pre, Post, GoodF, GoodSides, SamePath, Plug, SegPlug, MergeEnds, Rep, RepCtx, Depth, Aligned, RightPair, LeftPair, GoodPair, RootGood, SameLinks, SameBody, Good, Sized, NodeGood;
      end := Through;
      ghost var m, root, half := adapter.nodes, adapter.rootID, halfBranchCapacity;
      KeptSame(m);
      GoodAligned(Capacities(), h, ctx);
      NodeReady(adapter.nodes, adapter.nextNodeID, adapter.firstLeafID, relinkCousins, h, ctx, t);
      RepParts(adapter.nodes, t, Pid(ctx));
      if |adapter.nodes[branch].slots| >= halfBranchCapacity || adapter.rootID == branch {
        SizedGood(Capacities(), h, ctx, t);
        Conclude(h, ctx, t);
        BranchStays(m, root, branch, half, true, false);
        return;
      }
      Neighbours(adapter.nodes, adapter.nextNodeID, adapter.firstLeafID, relinkCousins, Capacities(), h, ctx, t);
      var right := RightSibling(branch);
      RightSeen(m, branch, right, half);
      if right != 0 && |NodeKeys(adapter.nodes[right])| > halfBranchCapacity {
        RightReady(Capacities(), h, ctx, t, n, adapter.nodes);
        PipeFromRightBranch(right, branch, h, RightPair(ctx), t, ctx.rk[0], ctx.rt[0]);
        BranchFromRight(m, adapter.nodes, root, branch, half);
        return;
      }
      var left := LeftSibling(branch);
      LeftSeen(m, branch, left, half);
      if left != 0 && |NodeKeys(adapter.nodes[left])| > halfBranchCapacity {
        LeftReady(Capacities(), h, ctx, t, n, adapter.nodes);
        PipeFromLeftBranch(left, branch, h, LeftPair(ctx), ctx.lt[|ctx.lt| - 1], ctx.lk[|ctx.lk| - 1], t);
        BranchFromLeft(m, adapter.nodes, root, branch, half);
        return;
      }
      end := MergeBranch(branch, right, left, h, ctx, t, n);
      if right != 0 || left != 0 {
        BranchIntoOther(m, adapter.nodes, root, branch, half, end == Through, end == Stuck);
      } else {
        BranchStays(m, root, branch, half, false, true);
      }
    }

    /** No sibling has a key to spare: the branch and one of them become one, if there is any. */
    method MergeBranch(branch: Id, right: Id, left: Id, ghost h: nat, ghost ctx: Ctx, ghost t: Tree, ghost n: Nodes) returns (end: Ending)
      requires Configured() && h > 0 && t.Branch? && branch == t.id && ctx.Frame?
      requires GoodCtx(Capacities(), h, ctx) && Sized(Capacities(), h, t, 1, branchCapacity) && |t.keys| + 1 == halfBranchCapacity
      requires SoundStore(adapter.nodes, h + Depth(ctx), Plug(ctx, t)) && adapter.rootID == Plug(ctx, t).id
      requires LeftOf(n, branch) == LeftOf(adapter.nodes, branch) && SamePath(n, adapter.nodes, ctx)
      requires |ctx.lk| == |ctx.lt| && |ctx.rk| == |ctx.rt|
      requires right != 0 <==> ctx.rt != []
      requires right != 0 ==> right == ctx.rt[0].id && Size(ctx.rt[0]) <= halfBranchCapacity
      requires left != 0 <==> LeftVisible(n, ctx, branch)
      requires left != 0 ==> left == ctx.lt[|ctx.lt| - 1].id && Size(ctx.lt[|ctx.lt| - 1]) <= halfBranchCapacity
      modifies adapter`nodes, adapter`rootID, this`tree, this`height
      ensures adapter.nodes.Keys <= old(adapter.nodes.Keys) && LeavesKept(old(adapter.nodes), adapter.nodes)
      ensures if right != 0 then right !in adapter.nodes else if left != 0 then branch !in adapter.nodes else end == Stuck && adapter.nodes == old(adapter.nodes)
      ensures end == Ends(n, Capacities(), dropsRight, h, ctx, branch, |t.keys|)
      ensures end == Astray ==> Dangling(adapter.nodes)
      ensures end == Through ==> Holds() && Ents(Flat(tree)) == Ents(Flat(Plug(ctx, t)))
      decreases ctx, 4
    {
      hide LeavesKept, Sound, Sorted, Flat, Ents, Pre, Post, GoodF, GoodSides, SamePath, Plug, SegPlug, MergeEnds, Depth, Aligned, RightPair, LeftPair, GoodPair, RootGood, Good;
      GoodAligned(Capacities(), h, ctx);
      KeptSame(adapter.nodes);
      if right != 0 {
        RightReady(Capacities(), h, ctx, t, n, adapter.nodes);
        end := MergeBranches(branch, right, h, RightPair(ctx), t, ctx.rk[0], ctx.rt[0], n);
      } else if left != 0 {
        LeftReady(Capacities(), h, ctx, t, n, adapter.nodes);
        end := MergeBranches(left, branch, h, LeftPair(ctx), ctx.lt[|ctx.lt| - 1], ctx.lk[|ctx.lk| - 1], t, n);
      } else {
        end := Stuck;
      }
    }

    // ---------- Deletion: branches ----------

    /** The slot in the parent that separates two branches, found by the first key of the right one. */
    method BranchSeparator(right: Id, ghost h: nat, ghost ctx: Ctx, ghost x: Tree, ghost k: Key, ghost y: Tree)
      returns (parent: Id, position: nat)
      requires ctx.Frame? && Aligned(ctx) && x.Branch? && y.Branch? && right == y.id && y.keys != []
      requires SoundStore(adapter.nodes, h + Depth(ctx), SegPlug(ctx, [k], [x, y]))
      ensures parent == ctx.id && parent in adapter.nodes && position == |ctx.lk|
    {
      hide Sound, Sorted, Flat, SegPlug, Pre, Post, HoleSlots, Depth, Aligned, Rep, Bag, CBag, Proper;
      BranchPair(adapter.nodes, adapter.nextNodeID, adapter.firstLeafID, relinkCousins, h, ctx, x, k, y);
      FirstSep(y);
      LocateTok(ctx, x, k, y, |Flat(y.kids[0])|);
      parent := adapter.nodes[right].parent;
      position := SeparatorSlot(parent, NodeKeys(adapter.nodes[right])[0], ctx, k);
    }

    method PipeFromRightBranch(right: Id, left: Id, ghost h: nat, ghost ctx: Ctx, ghost x: Tree, ghost k: Key, ghost y: Tree)
      requires Configured() && h > 0 && x.Branch? && y.Branch? && left == x.id && right == y.id
      requires Sized(Capacities(), h, x, 1, branchCapacity) && |x.keys| + 1 == halfBranchCapacity
      requires Good(Capacities(), h, y) && |y.keys| > halfBranchCapacity
      requires GoodPair(Capacities(), h, ctx) && SoundStore(adapter.nodes, h + Depth(ctx), SegPlug(ctx, [k], [x, y]))
      requires adapter.rootID == SegPlug(ctx, [k], [x, y]).id
      modifies adapter`nodes, this`tree, this`height
      ensures adapter.nodes.Keys <= old(adapter.nodes.Keys)
      ensures LentByRight(old(adapter.nodes), adapter.nodes, left, right) && LeavesKept(old(adapter.nodes), adapter.nodes)
      ensures y.keys != [] && y.kids != [] && var y' := Branch(right, y.keys[1..], y.kids[1..]); Solid(y') && Between(adapter.nodes, left, right, MinEnt(y').key)
      ensures Holds() && Ents(Flat(tree)) == Ents(Flat(SegPlug(ctx, [k], [x, y])))
    {
      hide LentByRight, LeavesKept, Between, Sound, Sorted, Flat, Ents, SegPlug, Pre, Post, HoleSlots, GoodSides, Depth, Aligned, Good, GoodF, Rep, MinEnt, Solid, BagF, Bag, CBag, Proper, GoodPair, Sized, RootGood, Increasing, Slots, IdsOf, MinKeys, Before;
      ghost var n, next, first := adapter.nodes, adapter.nextNodeID, adapter.firstLeafID;
      PairAligned(Capacities(), h, ctx);
      BranchPair(n, next, first, relinkCousins, h, ctx, x, k, y);
      BorrowRightGood(Capacities(), h, x, k, y);
      ghost var x', y' := Branch(left, x.keys + [k], x.kids + [y.kids[0]]), Branch(right, y.keys[1..], y.kids[1..]);
      var parent, position := BranchSeparator(right, h, ctx, x, k, y);
      var leftKey := NodeKeys(adapter.nodes[parent])[position];
      var child := LendFirst(right, left, leftKey, x.keys, IdsOf(x.kids), y.keys, IdsOf(y.kids));
      RestRep(n, adapter.nodes, next, ctx, x, y);
      var parentKey := FindMinimum(right, y', h, ctx.id);
      ReplaceSlots(ctx, k, parentKey, left, right);
      adapter.BranchReplaceKeyAt(parent, position, parentKey, ctx.lk + [k] + ctx.rk, IdsOf(ctx.lt) + [left, right] + IdsOf(ctx.rt));
      LentByRightIs(n, adapter.nodes, ctx, left, right, k, x.keys, IdsOf(x.kids), y.keys, IdsOf(y.kids), parentKey);
      BorrowRightSound(n, adapter.nodes, next, first, relinkCousins, h, ctx, x, k, y);
      BorrowRightEnts(ctx, x, k, y, parentKey);
      ConcludePair(h, ctx, x', parentKey, y');
    }

    /** The first child of `right` goes to the end of `left`, behind the key `leftKey`. */
    method LendFirst(right: Id, left: Id, leftKey: Key, ghost xk: seq<Key>, ghost xi: seq<Id>, ghost yk: seq<Key>, ghost yi: seq<Id>)
      returns (child: Id)
      requires left in adapter.nodes && right in adapter.nodes && left != right
      requires adapter.nodes[left].BranchNode? && adapter.nodes[right].BranchNode?
      requires |xi| == |xk| + 1 && |yi| == |yk| + 1 && xk != [] && yk != []
      requires adapter.nodes[left].slots == Slots(xk, xi) && adapter.nodes[right].slots == Slots(yk, yi)
      requires yi[0] in adapter.nodes && yi[0] != left && yi[0] != right
      modifies adapter`nodes
      ensures child == yi[0]
      ensures var n := old(adapter.nodes);
              adapter.nodes == n[left := n[left].(slots := Slots(xk + [leftKey], xi + [child]))]
                                [right := n[right].(slots := Slots(yk[1..], yi[1..]))][child := n[child].(parent := left)]
    {
      ghost var n := adapter.nodes;
      var first := adapter.BranchDeleteAt(right, 0, yk, yi);
      adapter.BranchInsertAt(left, |adapter.nodes[left].slots|, leftKey, first.lt, xk, xi);
      AppendSlot(xk, xi, leftKey, first.lt);
      child := first.lt;
      adapter.SetParentID(child, left);
    }

    method PipeFromLeftBranch(left: Id, right: Id, ghost h: nat, ghost ctx: Ctx, ghost x: Tree, ghost k: Key, ghost y: Tree)
      requires Configured() && h > 0 && x.Branch? && y.Branch? && left == x.id && right == y.id
      requires Sized(Capacities(), h, y, 1, branchCapacity) && |y.keys| + 1 == halfBranchCapacity
      requires Good(Capacities(), h, x) && |x.keys| > halfBranchCapacity
      requires GoodPair(Capacities(), h, ctx) && SoundStore(adapter.nodes, h + Depth(ctx), SegPlug(ctx, [k], [x, y]))
      requires adapter.rootID == SegPlug(ctx, [k], [x, y]).id
      modifies adapter`nodes, this`tree, this`height
      ensures adapter.nodes.Keys <= old(adapter.nodes.Keys)
      ensures LentByLeft(old(adapter.nodes), adapter.nodes, left, right) && LeavesKept(old(adapter.nodes), adapter.nodes)
      ensures Holds() && Ents(Flat(tree)) == Ents(Flat(SegPlug(ctx, [k], [x, y])))
    {
      hide LentByLeft, LeavesKept, Between, Sound, Sorted, Flat, Ents, SegPlug, Pre, Post, HoleSlots, GoodSides, Depth, Aligned, Good, GoodF, Rep, MinEnt, Solid, BagF, Bag, CBag, Proper, GoodPair, Sized, RootGood, BranchBorrowEffect, Increasing, Slots, IdsOf, MinKeys, Before;
      ghost var n, next, first := adapter.nodes, adapter.nextNodeID, adapter.firstLeafID;
      PairAligned(Capacities(), h, ctx);
      BranchPair(n, next, first, relinkCousins, h, ctx, x, k, y);
      BorrowLeftGood(Capacities(), h, x, k, y);
      var parent, position := BranchSeparator(right, h, ctx, x, k, y);
      var rightKey := NodeKeys(adapter.nodes[parent])[position];
      var child, key := LendLast(left, right, rightKey, x.keys, IdsOf(x.kids), y.keys, IdsOf(y.kids));
      ReplaceSlots(ctx, k, key, left, right);
      adapter.BranchReplaceKeyAt(parent, position, key, ctx.lk + [k] + ctx.rk, IdsOf(ctx.lt) + [left, right] + IdsOf(ctx.rt));
      assert adapter.nodes.Keys <= n.Keys;
      LentLast(n, adapter.nodes, ctx, x, k, y, child);
      LentLeftPair(n, adapter.nodes, ctx, x, k, y);
      ConcludeLeft(n, h, ctx, x, k, y);
    }

    ghost method ConcludeLeft(n: Nodes, h: nat, ctx: Ctx, x: Tree, k: Key, y: Tree)
      requires Configured() && h > 0 && x.Branch? && y.Branch? && GoodPair(Capacities(), h, ctx)
      requires Sized(Capacities(), h, y, 1, branchCapacity) && |y.keys| + 1 == halfBranchCapacity
      requires Good(Capacities(), h, x) && |x.keys| > halfBranchCapacity
      requires SoundStore(n, h + Depth(ctx), SegPlug(ctx, [k], [x, y])) && adapter.rootID == SegPlug(ctx, [k], [x, y]).id
      requires |x.kids| == |x.keys| + 1 && |ctx.lk| == |ctx.lt| && |ctx.rk| == |ctx.rt|
      requires var l := |x.keys| - 1;
               BranchBorrowEffect(n, adapter.nodes, ctx.id, x.id, y.id, x.kids[l + 1].id, y.id,
                                  Slots(x.keys[..l], IdsOf(x.kids)[..l + 1]), Slots([k] + y.keys, [x.kids[l + 1].id] + IdsOf(y.kids)),
                                  HoleSlots(ctx, [x.keys[l]], [x.id, y.id]))
      modifies this`tree, this`height
      ensures Holds() && Ents(Flat(tree)) == Ents(Flat(SegPlug(ctx, [k], [x, y])))
    {
      hide Sound, Sorted, Flat, Ents, SegPlug, HoleSlots, GoodSides, Depth, Aligned, Good, GoodF, Sized, RootGood, BranchBorrowEffect, GoodPair;
      var l := |x.keys| - 1;
      PairAligned(Capacities(), h, ctx);
      BorrowLeftGood(Capacities(), h, x, k, y);
      BorrowLeftSound(n, adapter.nodes, adapter.nextNodeID, adapter.firstLeafID, relinkCousins, h, ctx, x, k, y);
      BorrowLeftEnts(ctx, x, k, y);
      ConcludePair(h, ctx, Branch(x.id, x.keys[..l], x.kids[..l + 1]), x.keys[l], Branch(y.id, [k] + y.keys, [x.kids[l + 1]] + y.kids));
    }

    /** The last child of `left` goes to the front of `right`, before the key `rightKey`. */
    method LendLast(left: Id, right: Id, rightKey: Key, ghost xk: seq<Key>, ghost xi: seq<Id>, ghost yk: seq<Key>, ghost yi: seq<Id>)
      returns (child: Id, key: Key)
      requires left in adapter.nodes && right in adapter.nodes && left != right
      requires adapter.nodes[left].BranchNode? && adapter.nodes[right].BranchNode?
      requires |xi| == |xk| + 1 && |yi| == |yk| + 1 && |xk| > 1 && yk != []
      requires adapter.nodes[left].slots == Slots(xk, xi) && adapter.nodes[right].slots == Slots(yk, yi)
      requires xi[|xk|] in adapter.nodes && xi[|xk|] != left && xi[|xk|] != right
      modifies adapter`nodes
      ensures child == xi[|xk|] && key == xk[|xk| - 1]
      ensures var n, l := old(adapter.nodes), |xk| - 1;
              adapter.nodes == n[left := n[left].(slots := Slots(xk[..l], xi[..l + 1]))]
                                [right := n[right].(slots := Slots([rightKey] + yk, [child] + yi))][child := n[child].(parent := right)]
    {
      ghost var n := adapter.nodes;
      var last := adapter.BranchDeleteAt(left, |adapter.nodes[left].slots| - 1, xk, xi);
      DropLast(xk, xi);
      adapter.BranchUnshift(right, rightKey, last.gte, yk, yi);
      child, key := last.gte, last.key;
      adapter.SetParentID(child, right);
    }

    /** Branch `right` is poured into branch `left` and freed; the parent loses its slot. */
    method MergeBranches(left: Id, right: Id, ghost h: nat, ghost ctx: Ctx, ghost x: Tree, ghost k: Key, ghost y: Tree, ghost n: Nodes)
      returns (end: Ending)
      requires Configured() && h > 0 && x.Branch? && y.Branch? && left == x.id && right == y.id
      requires Sized(Capacities(), h, x, 1, branchCapacity) && Sized(Capacities(), h, y, 1, branchCapacity)
      requires halfBranchCapacity <= |x.keys| + |y.keys| + 1 <= branchCapacity
      requires GoodPair(Capacities(), h, ctx) && SoundStore(adapter.nodes, h + Depth(ctx), SegPlug(ctx, [k], [x, y]))
      requires adapter.rootID == SegPlug(ctx, [k], [x, y]).id && SamePath(n, adapter.nodes, ctx)
      modifies adapter`nodes, adapter`rootID, this`tree, this`height
      ensures adapter.nodes.Keys <= old(adapter.nodes.Keys) && right !in adapter.nodes && LeavesKept(old(adapter.nodes), adapter.nodes)
      ensures end == MergeEnds(n, Capacities(), dropsRight, h, ctx.up, ctx.id, |ctx.lk| + |ctx.rk| + 1, |ctx.lk|)
      ensures end == Astray ==> Dangling(adapter.nodes)
      ensures end == Through ==> Holds() && Ents(Flat(tree)) == Ents(Flat(SegPlug(ctx, [k], [x, y])))
      decreases ctx.up, 8
    {
      hide LeavesKept, Sound, Sorted, Flat, Ents, SegPlug, Pre, Post, HoleSlots, GoodSides, Depth, Aligned, Good, GoodF, Rep, MinEnt, Solid, BagF, Bag, CBag, Proper, BranchMergeEffect, Plug, MergeEnds, SamePath, RootGood, GoodPair;
      ghost var m, next, first := adapter.nodes, adapter.nextNodeID, adapter.firstLeafID;
      PairAligned(Capacities(), h, ctx);
      BranchPair(m, next, first, relinkCousins, h, ctx, x, k, y);
      SizedSolid(Capacities(), h, y, 1, branchCapacity);
      MinIs(y);
      LocateTok(ctx, x, k, y, 0);
      var leftKey; ghost var relinked;
      leftKey, relinked := JoinBranches(left, right, h, ctx, x, k, y);
      MergedBranchReady(m, adapter.nodes, next, first, relinkCousins, Capacities(), h, ctx, x, k, y, leftKey, relinked);
      SamePathTrans(n, m, adapter.nodes, ctx);
      ghost var poured := adapter.nodes;
      PouredKept(m, poured, left, right, x.keys + [leftKey] + y.keys, IdsOf(x.kids) + IdsOf(y.kids), IdsOf(y.kids), relinked);
      end := ShrinkParent(left, right, leftKey, h, ctx, Joined(x, leftKey, y), k, n);
      KeptTrans(m, poured, adapter.nodes);
    }

    /** The children and keys of branch `right` go to branch `left`, behind the least key below `right`. */
    method JoinBranches(left: Id, right: Id, ghost h: nat, ghost ctx: Ctx, ghost x: Tree, ghost k: Key, ghost y: Tree)
      returns (leftKey: Key, ghost relinked: bool)
      requires Configured() && h > 0 && x.Branch? && y.Branch? && left == x.id && right == y.id
      requires Sized(Capacities(), h, x, 1, branchCapacity) && Sized(Capacities(), h, y, 1, branchCapacity)
      requires GoodPair(Capacities(), h, ctx) && SoundStore(adapter.nodes, h + Depth(ctx), SegPlug(ctx, [k], [x, y]))
      modifies adapter`nodes
      ensures adapter.nodes.Keys <= old(adapter.nodes.Keys) && |x.kids| == |x.keys| + 1 && |y.kids| == |y.keys| + 1
      ensures Solid(y) && leftKey == MinEnt(y).key
      ensures BranchMergeEffect(old(adapter.nodes), adapter.nodes, left, right, x.keys + [leftKey] + y.keys, IdsOf(x.kids) + IdsOf(y.kids), IdsOf(y.kids), relinked)
      ensures right in old(adapter.nodes) && var n, z := old(adapter.nodes), old(adapter.nodes)[right].right;
              z == 0 || (z in n && (relinked <==> relinkCousins || n[z].parent == n[right].parent))
      ensures relinkCousins ==> relinked
    {
      hide Sound, Sorted, Flat, Ents, SegPlug, Pre, Post, HoleSlots, GoodSides, Depth, Aligned, Good, GoodF, Rep, MinEnt, Solid, BagF, Bag, CBag, Proper, BranchMergeEffect, Plug, RootGood, GoodPair;
      ghost var m, next, first := adapter.nodes, adapter.nextNodeID, adapter.firstLeafID;
      PairAligned(Capacities(), h, ctx);
      BranchPair(m, next, first, relinkCousins, h, ctx, x, k, y);
      PairRight(m, next, first, relinkCousins, h, ctx, x, k, y);
      SizedSolid(Capacities(), h, y, 1, branchCapacity);
      leftKey := FindMinimum(right, y, h, ctx.id);
      SuccessorNotChild(m, next, first, relinkCousins, h, ctx, x, k, y);
      relinked := PourBranch(left, right, leftKey, x.keys, IdsOf(x.kids), y.keys, IdsOf(y.kids));
    }

    /** The loop of a branch merge and the relinking. The branch after `right` gets its left link
        redirected if it has the same parent, and otherwise only in the repaired tree. */
    method PourBranch(left: Id, right: Id, leftKey: Key, ghost xk: seq<Key>, ghost xi: seq<Id>, ghost yk: seq<Key>, ghost yi: seq<Id>)
      returns (ghost relinked: bool)
      requires left in adapter.nodes && right in adapter.nodes && left != right && 0 !in adapter.nodes
      requires adapter.nodes[left].BranchNode? && adapter.nodes[right].BranchNode?
      requires |xi| == |xk| + 1 && |yi| == |yk| + 1 && xk != [] && yk != []
      requires adapter.nodes[left].slots == Slots(xk, xi) && adapter.nodes[right].slots == Slots(yk, yi)
      requires left !in yi && right !in yi
      requires adapter.nodes[right].right != left && adapter.nodes[right].right != right
      requires adapter.nodes[right].right !in yi && (adapter.nodes[right].right == 0 || adapter.nodes[right].right in adapter.nodes)
      modifies adapter`nodes
      ensures adapter.nodes.Keys <= old(adapter.nodes.Keys)
      ensures var n, z := old(adapter.nodes), old(adapter.nodes)[right].right;
              relinked <==> relinkCousins || z == 0 || n[z].parent == n[right].parent
      ensures BranchMergeEffect(old(adapter.nodes), adapter.nodes, left, right, xk + [leftKey] + yk, xi + yi, yi, relinked)
    {
      ghost var n := adapter.nodes;
      MoveChildren(left, right, leftKey, xk, xi, yk, yi);
      ghost var v := adapter.nodes;
      adapter.SetRightSiblingID(left, adapter.nodes[right].right);
      var newRight := adapter.nodes[right].right;
      if !relinkCousins {
        newRight := RightSibling(right);
      }
      relinked := newRight == adapter.nodes[right].right;
      if newRight in adapter.nodes {
        adapter.SetLeftSiblingID(newRight, left);
      }
      adapter.Free(right);
      PourEffect(n, v, adapter.nodes, left, right, xk + [leftKey] + yk, xi + yi, yi, newRight, relinked);
    }

    method MoveChildren(left: Id, right: Id, leftKey: Key, ghost xk: seq<Key>, ghost xi: seq<Id>, ghost yk: seq<Key>, ghost yi: seq<Id>)
      requires left in adapter.nodes && right in adapter.nodes && left != right
      requires adapter.nodes[left].BranchNode? && adapter.nodes[right].BranchNode?
      requires |xi| == |xk| + 1 && |yi| == |yk| + 1 && xk != [] && yk != []
      requires adapter.nodes[left].slots == Slots(xk, xi) && adapter.nodes[right].slots == Slots(yk, yi)
      requires left !in yi && right !in yi
      modifies adapter`nodes
      ensures var n := old(adapter.nodes);
              && adapter.nodes.Keys == n.Keys && adapter.nodes[left] == n[left].(slots := Slots(xk + [leftKey] + yk, xi + yi))
              && adapter.nodes[right] == n[right].(slots := [])
              && forall z :: z in n && z != left && z != right ==> adapter.nodes[z] == SplitBody(n[z], z, left, yi)
    {
      ghost var n := adapter.nodes;
      var position := MoveFirst(left, right, leftKey, xk, xi, yk, yi);
      ghost var i := 0;
      MoveStart(xk + [leftKey], xi, yk, yi);
      while |adapter.nodes[right].slots| > 0
        invariant i <= |yk| && position == |xk| + 1 + i
        invariant left in adapter.nodes && right in adapter.nodes && adapter.nodes.Keys == n.Keys
        invariant adapter.nodes[left] == n[left].(slots := Slots(xk + [leftKey] + yk[..i], xi + yi[..i + 1]))
        invariant adapter.nodes[right] == n[right].(slots := Slots(yk[i..], yi[i..]))
        invariant forall z :: z in n && z != left && z != right ==> adapter.nodes[z] == SplitBody(n[z], z, left, yi[..i + 1])
        decreases |yk| - i
      {
        position := MoveChild(left, right, position, xk + [leftKey] + yk[..i], xi + yi[..i + 1], yk[i..], yi[i..]);
        MoveStep(xk + [leftKey], xi, yk, yi, i);
        i := i + 1;
      }
      assert yk[..i] == yk && yi[..i + 1] == yi;
    }

    /** The first child of `right` goes to the end of `left`, behind the smallest key of `right`. */
    method MoveFirst(left: Id, right: Id, leftKey: Key, ghost xk: seq<Key>, ghost xi: seq<Id>, ghost yk: seq<Key>, ghost yi: seq<Id>)
      returns (position: nat)
      requires left in adapter.nodes && right in adapter.nodes && left != right
      requires adapter.nodes[left].BranchNode? && adapter.nodes[right].BranchNode?
      requires |xi| == |xk| + 1 && |yi| == |yk| + 1 && xk != [] && yk != []
      requires adapter.nodes[left].slots == Slots(xk, xi) && adapter.nodes[right].slots == Slots(yk, yi)
      requires left !in yi && right !in yi
      modifies adapter`nodes
      ensures position == |xk| + 1
      ensures var n := old(adapter.nodes);
              && adapter.nodes.Keys == n.Keys && adapter.nodes[left] == n[left].(slots := Slots(xk + [leftKey], xi + [yi[0]]))
              && adapter.nodes[right] == n[right]
              && forall z :: z in n && z != left && z != right ==> adapter.nodes[z] == SplitBody(n[z], z, left, [yi[0]])
    {
      var entry := adapter.nodes[right].slots[0];
      position := |adapter.nodes[left].slots|;
      adapter.BranchInsertAt(left, position, leftKey, entry.lt, xk, xi);
      AppendSlot(xk, xi, leftKey, entry.lt);
      UpdateParentID(entry.lt, left);
      position := position + 1;
    }

    /** The first key of `right` and the child behind it go to the end of `left`. */
    method MoveChild(left: Id, right: Id, position: nat, ghost xk: seq<Key>, ghost xi: seq<Id>, ghost yk: seq<Key>, ghost yi: seq<Id>)
      returns (next: nat)
      requires left in adapter.nodes && right in adapter.nodes && left != right
      requires adapter.nodes[left].BranchNode? && adapter.nodes[right].BranchNode?
      requires |xi| == |xk| + 1 && |yi| == |yk| + 1 && xk != [] && yk != [] && position == |xk|
      requires adapter.nodes[left].slots == Slots(xk, xi) && adapter.nodes[right].slots == Slots(yk, yi)
      requires left !in yi && right !in yi
      modifies adapter`nodes
      ensures next == position + 1
      ensures var n := old(adapter.nodes);
              && adapter.nodes.Keys == n.Keys && adapter.nodes[left] == n[left].(slots := Slots(xk + [yk[0]], xi + [yi[1]]))
              && adapter.nodes[right] == n[right].(slots := Slots(yk[1..], yi[1..]))
              && forall z :: z in n && z != left && z != right ==> adapter.nodes[z] == SplitBody(n[z], z, left, [yi[1]])
    {
      var entry := adapter.BranchDeleteAt(right, 0, yk, yi);
      adapter.BranchInsertAt(left, position, entry.key, entry.gte, xk, xi);
      AppendSlot(xk, xi, entry.key, entry.gte);
      UpdateParentID(entry.gte, left);
      next := position + 1;
    }

    // ---------- Deletion ----------

    /** Takes an entry out of a leaf; `n` is the store before. */
    method DeleteFromLeaf(leaf: Id, position: nat, ghost ctx: Ctx, ghost es: seq<LeafEntry>) returns (end: Ending)
      requires Configured() && position < |es|
      requires SoundStore(adapter.nodes, Depth(ctx), Plug(ctx, Leaf(leaf, es))) && adapter.rootID == Plug(ctx, Leaf(leaf, es)).id
      requires GoodCtx(Capacities(), 0, ctx) && NodeGood(Capacities(), 0, ctx, Leaf(leaf, es))
      requires Sorted(Pre(ctx) + Toks(DropAt(es, position)) + Post(ctx))
      modifies adapter`nodes, adapter`rootID, this`tree, this`height
      ensures adapter.nodes.Keys <= old(adapter.nodes.Keys)
      ensures end == Ends(old(adapter.nodes), Capacities(), dropsRight, 0, ctx, leaf, |es| - 1)
      ensures leaf in old(adapter.nodes) && old(adapter.nodes)[leaf].LeafNode? && old(adapter.nodes)[leaf].entries == es
      ensures LeafSettled(Less(old(adapter.nodes), leaf, position), adapter.nodes, old(adapter.rootID), leaf, halfLeafCapacity, end == Through)
      ensures end == Astray ==> Dangling(adapter.nodes)
      ensures end == Through ==> Holds() && Ents(Flat(tree)) == Ents(Flat(Plug(ctx, Leaf(leaf, DropAt(es, position)))))
    {
      hide LeafSettled, Sound, Sorted, Flat, Ents, Pre, Post, GoodF, GoodSides, Plug, Depth, Ends, SamePath;
      ghost var n, es' := adapter.nodes, DropAt(es, position);
      GoodAligned(Capacities(), 0, ctx);
      EditLeaf(n, adapter.nextNodeID, adapter.firstLeafID, relinkCousins, ctx, leaf, es, es');
      var _ := adapter.LeafDeleteAt(leaf, position);
      SameRoot(ctx, Leaf(leaf, es), Leaf(leaf, es'));
      EditPath(n, adapter.nodes, leaf, ctx);
      end := RebalanceLeaf(leaf, ctx, es', n);
    }

    method RebalanceLeaf(leaf: Id, ghost ctx: Ctx, ghost es: seq<LeafEntry>, ghost n: Nodes) returns (end: Ending)
      requires Configured() && |es| <= leafCapacity && (ctx.Frame? ==> halfLeafCapacity <= |es| + 1) && GoodCtx(Capacities(), 0, ctx)
      requires SoundStore(adapter.nodes, Depth(ctx), Plug(ctx, Leaf(leaf, es))) && adapter.rootID == Plug(ctx, Leaf(leaf, es)).id
      requires LeftOf(n, leaf) == LeftOf(adapter.nodes, leaf) && SamePath(n, adapter.nodes, ctx)
      modifies adapter`nodes, adapter`rootID, this`tree, this`height
      ensures adapter.nodes.Keys <= old(adapter.nodes.Keys)
      ensures end == Ends(n, Capacities(), dropsRight, 0, ctx, leaf, |es|)
      ensures LeafSettled(old(adapter.nodes), adapter.nodes, old(adapter.rootID), leaf, halfLeafCapacity, end == Through)
      ensures end == Astray ==> Dangling(adapter.nodes)
      ensures end == Through ==> Holds() && Ents(Flat(tree)) == Ents(Flat(Plug(ctx, Leaf(leaf, es))))
    {
      hide Rep, HasRight, HasLeft, SparesRight, SparesLeft, LeafSettled, LeafLent, LeafMerged, Sound, Sorted, Flat, Ents, Pre, Post, GoodF, GoodSides, SamePath, Plug, SegPlug, MergeEnds, RepCtx, Depth, Aligned, RightPair, LeftPair, GoodPair, RootGood, SameLinks, SameBody, Good;
      end := Through;
      ghost var m, root, half := adapter.nodes, adapter.rootID, halfLeafCapacity;
      ghost var t := Leaf(leaf, es);
      GoodAligned(Capacities(), 0, ctx);
      LeafReady(adapter.nodes, adapter.nextNodeID, adapter.firstLeafID, relinkCousins, ctx, leaf, es);
      if |adapter.nodes[leaf].entries| >= halfLeafCapacity || adapter.rootID == leaf {
        LeafGood(Capacities(), ctx, leaf, es);
        Conclude(0, ctx, t);
        LeafStays(m, root, leaf, half);
        return;
      }
      Neighbours(adapter.nodes, adapter.nextNodeID, adapter.firstLeafID, relinkCousins, Capacities(), 0, ctx, t);
      var right := RightSibling(leaf);
      RightSeen(m, leaf, right, half);
      if right != 0 && |NodeKeys(adapter.nodes[right])| > halfLeafCapacity {
        RightReady(Capacities(), 0, ctx, t, n, adapter.nodes);
        PipeFromRightLeaf(right, leaf, RightPair(ctx), t, ctx.rk[0], ctx.rt[0]);
        LeafFromRight(m, adapter.nodes, root, leaf, half);
        return;
      }
      var left := LeftSibling(leaf);
      LeftSeen(m, leaf, left, half);
      if left != 0 && |NodeKeys(adapter.nodes[left])| > halfLeafCapacity {
        LeftReady(Capacities(), 0, ctx, t, n, adapter.nodes);
        PipeFromLeftLeaf(left, leaf, LeftPair(ctx), ctx.lt[|ctx.lt| - 1], ctx.lk[|ctx.lk| - 1], t);
        LeafFromLeft(m, adapter.nodes, root, leaf, half);
        return;
      }
      end := MergeLeaf(leaf, right, left, ctx, es, n);
      LeafIntoOther(m, adapter.nodes, root, leaf, half, end == Through);
    }

    /** No sibling has an entry to spare: the leaf and one of them become one. */
    method MergeLeaf(leaf: Id, right: Id, left: Id, ghost ctx: Ctx, ghost es: seq<LeafEntry>, ghost n: Nodes) returns (end: Ending)
      requires Configured() && |es| + 1 == halfLeafCapacity && ctx.Frame? && GoodCtx(Capacities(), 0, ctx)
      requires SoundStore(adapter.nodes, Depth(ctx), Plug(ctx, Leaf(leaf, es))) && adapter.rootID == Plug(ctx, Leaf(leaf, es)).id
      requires LeftOf(n, leaf) == LeftOf(adapter.nodes, leaf) && SamePath(n, adapter.nodes, ctx)
      requires |ctx.lk| == |ctx.lt| && |ctx.rk| == |ctx.rt|
      requires right != 0 <==> ctx.rt != []
      requires right != 0 ==> right == ctx.rt[0].id && Size(ctx.rt[0]) <= halfLeafCapacity
      requires left != 0 <==> LeftVisible(n, ctx, leaf)
      requires left != 0 ==> left == ctx.lt[|ctx.lt| - 1].id && Size(ctx.lt[|ctx.lt| - 1]) <= halfLeafCapacity
      requires right != 0 || left != 0
      modifies adapter`nodes, adapter`rootID, this`tree, this`height
      ensures adapter.nodes.Keys <= old(adapter.nodes.Keys)
      ensures if right != 0 then LeafMerged(old(adapter.nodes), adapter.nodes, leaf, right) else LeafMerged(old(adapter.nodes), adapter.nodes, left, leaf)
      ensures end == Ends(n, Capacities(), dropsRight, 0, ctx, leaf, |es|)
      ensures end == Astray ==> Dangling(adapter.nodes)
      ensures end == Through ==> Holds() && Ents(Flat(tree)) == Ents(Flat(Plug(ctx, Leaf(leaf, es))))
    {
      hide LeafMerged, Sound, Sorted, Flat, Ents, Pre, Post, GoodF, GoodSides, SamePath, Plug, SegPlug, MergeEnds, Depth, Aligned, RightPair, LeftPair, GoodPair, RootGood, Good;
      ghost var t := Leaf(leaf, es);
      GoodAligned(Capacities(), 0, ctx);
      if right != 0 {
        RightReady(Capacities(), 0, ctx, t, n, adapter.nodes);
        end := MergeLeaves(leaf, right, RightPair(ctx), t, ctx.rk[0], ctx.rt[0], n);
      } else if left != 0 {
        LeftReady(Capacities(), 0, ctx, t, n, adapter.nodes);
        end := MergeLeaves(left, leaf, LeftPair(ctx), ctx.lt[|ctx.lt| - 1], ctx.lk[|ctx.lk| - 1], t, n);
      } else {
        assert false;
      }
    }

    // ---------- The public operations ----------

    /** What the tree holds, as a map. */
    ghost function Contents(): map<Key, RowID>
      reads this, adapter
    {
      MapOf(Entries())
    }

    /** The nodes a tree takes: one, and two for every half leaf of entries. */
    lemma {:induction false} NodeLimit()
      requires Valid()
      ensures |adapter.nodes| <= MaxNodes(Capacities(), |Contents()|) && 0 !in adapter.nodes
      ensures forall id :: id in adapter.nodes ==> id < adapter.nextNodeID
    {
      hide Flat, Ents, Sorted, Rep, LinksAll, RootGood;
      if adapter.rootID in adapter.nodes {
        NodeCount(adapter.nodes, adapter.nextNodeID, adapter.firstLeafID, relinkCousins, Capacities(), height, tree);
        EntsIncrease(Flat(tree));
        MapSize(Entries());
      }
    }

    /** With the relinking repaired no link leads to a freed node, so its id, or its block, may be used again. */
    lemma {:induction false} NoDeadLinks(id: Id)
      requires Valid() && relinkCousins && id in adapter.nodes
      ensures LinksLive(adapter.nodes, id) && (adapter.rootID in adapter.nodes)
    {
      hide Sound, RootGood, Flat, Ents, LinksLive;
      AllLinksLive(adapter.nodes, adapter.nextNodeID, adapter.firstLeafID, Capacities(), height, tree, id);
    }

    /** The leaf that may hold the key, whatever the root is. */
    method LeafFor(key: Key) returns (leaf: Id, ghost ctx: Ctx, ghost es: seq<LeafEntry>)
      requires Configured() && Holds()
      ensures Plug(ctx, Leaf(leaf, es)) == tree && Depth(ctx) == height
      ensures GoodCtx(Capacities(), 0, ctx) && NodeGood(Capacities(), 0, ctx, Leaf(leaf, es)) && Brackets(ctx, key)
      ensures ctx == PathTo(Top, tree, key) && Leaf(leaf, es) == LeafOf(tree, key)
    {
      assert adapter.rootID in adapter.nodes by { assert Rep(adapter.nodes, tree, 0); }
      if adapter.nodes[adapter.rootID].LeafNode? {
        leaf, ctx, es := adapter.rootID, Top, adapter.nodes[adapter.rootID].entries;
        assert Rep(adapter.nodes, tree, 0);
      } else {
        leaf, ctx, es := FindLeafForKey(adapter.rootID, key);
      }
    }

    method Insert(key: Key, item: RowID) returns (r: Outcome)
      requires Valid()
      modifies adapter, this`tree, this`height
      ensures old(adapter.nodes.Keys) <= adapter.nodes.Keys
      ensures Valid() && r == if key in old(Contents()) then KeyExists else Done
      ensures r == Done ==> if old(adapter.rootID) in old(adapter.nodes)
                then PutInto(old(adapter.nodes), adapter.nodes, old(LeafOf(tree, key)).id, LeafEntry(key, item), leafCapacity, leafCapacity / 2, old(adapter.nextNodeID))
                else adapter.nodes == map[old(adapter.nextNodeID) := LeafNode(0, 0, 0, [LeafEntry(key, item)])]
      ensures r == KeyExists ==> adapter.nodes == old(adapter.nodes) && Contents() == old(Contents())
      ensures r == Done ==> Contents() == old(Contents())[key := item]
    {
      hide PutInto, Sound, Flat, Ents, RootGood;
      if adapter.rootID !in adapter.nodes {
        var root := adapter.Init();
        FirstLeaf(adapter.nodes, adapter.nextNodeID, root, relinkCousins, Capacities());
        tree, height := Leaf(root, []), 0;
      }
      assert Entries() == old(Entries());
      ghost var first := adapter.rootID;
      r := InsertInto(key, item);
      RootPresent();
      if old(adapter.rootID) !in old(adapter.nodes) && r == Done {
        PutFirst(adapter.nodes, first, LeafEntry(key, item), leafCapacity, halfLeafCapacity, first + 1);
      }
    }

    /** A delete cannot go on exactly when the merges it causes get stuck, and loses a child exactly when they go astray
        (see `Ends`); the entry is gone from its leaf by then. What the original does after a child is lost is left out. */
    method Delete(key: Key) returns (r: Outcome)
      requires Valid()
      modifies adapter`nodes, adapter`rootID, this`tree, this`height
      ensures adapter.nodes.Keys <= old(adapter.nodes.Keys)
      ensures r == KeyNotFound <==> key !in old(Contents())
      ensures r == KeyNotFound ==> adapter.nodes == old(adapter.nodes) && tree == old(tree) && Valid()
      ensures r == Panicked <==> key in old(Contents()) && old(StallsAt(key))
      ensures r == Strayed <==> key in old(Contents()) && old(StraysAt(key))
      ensures (relinkCousins ==> r != Panicked) && (dropsRight ==> r != Strayed)
      ensures r == Strayed ==> forall h, t :: !SoundStore(adapter.nodes, h, t)
      ensures r == Done ==> Valid() && Contents() == old(Contents()) - {key}
      ensures r != KeyExists
      ensures r != KeyNotFound ==> TakenFrom(old(adapter.nodes), adapter.nodes, old(adapter.rootID), old(LeafOf(tree, key)).id, key, leafCapacity / 2, r == Done)
    {
      hide TakenFrom, Sound, Flat, Ents, RootGood, Ends, Dangling;
      if adapter.rootID !in adapter.nodes {
        return KeyNotFound;
      }
      r := DeleteFrom(key);
      if r == Strayed {
        NoTree();
      } else if r != Panicked {
        RootPresent();
      }
    }

    ghost predicate StallsAt(key: Key)
      reads this, adapter
    {
      EndIn(adapter.nodes, Capacities(), dropsRight, tree, key) == Stuck
    }

    ghost predicate StraysAt(key: Key)
      reads this, adapter
    {
      EndIn(adapter.nodes, Capacities(), dropsRight, tree, key) == Astray
    }

    lemma {:induction false} NoTree()
      requires Dangling(adapter.nodes)
      ensures forall h, t :: !SoundStore(adapter.nodes, h, t)
    {
      hide Dangling, Sound;
      forall h, t ensures !SoundStore(adapter.nodes, h, t) {
        DanglingUnsound(adapter.nodes, adapter.nextNodeID, adapter.firstLeafID, relinkCousins, h, t);
      }
    }

    method DeleteFrom(key: Key) returns (r: Outcome)
      requires Configured() && Holds()
      modifies adapter`nodes, adapter`rootID, this`tree, this`height
      ensures adapter.nodes.Keys <= old(adapter.nodes.Keys)
      ensures r == KeyNotFound <==> key !in old(MapOf(Ents(Flat(tree))))
      ensures r == KeyNotFound ==> adapter.nodes == old(adapter.nodes) && adapter.rootID == old(adapter.rootID) && tree == old(tree) && Holds()
      ensures r == Panicked <==> key in old(MapOf(Ents(Flat(tree)))) && old(StallsAt(key))
      ensures r == Strayed <==> key in old(MapOf(Ents(Flat(tree)))) && old(StraysAt(key))
      ensures (relinkCousins ==> r != Panicked) && (dropsRight ==> r != Strayed) && (r == Strayed ==> Dangling(adapter.nodes))
      ensures r == Done ==> Holds() && MapOf(Ents(Flat(tree))) == old(MapOf(Ents(Flat(tree)))) - {key}
      ensures r != KeyExists
      ensures r != KeyNotFound ==> TakenFrom(old(adapter.nodes), adapter.nodes, old(adapter.rootID), old(LeafOf(tree, key)).id, key, halfLeafCapacity, r == Done)
    {
      hide LeafSettled, Sound, Pre, Post, Sorted, Plug, Depth, RootGood, GoodSides, Flat, Ents, Lower, Upper, Brackets, Aligned, MapOf, Ends, PathTo, LeafOf, Dangling;
      var leaf; ghost var ctx, es;
      leaf, ctx, es := LeafFor(key);
      GoodAligned(Capacities(), 0, ctx);
      var position, found; ghost var low, high;
      position, found, low, high := FindEntry(leaf, key, ctx, es);
      if !found {
        MapAround(low, [], high, key);
        return KeyNotFound;
      }
      MapAround(low, [es[position]], high, key);
      TakeReady(ctx, leaf, es, position, key);
      assert EndIn(adapter.nodes, Capacities(), dropsRight, tree, key) == Ends(adapter.nodes, Capacities(), dropsRight, 0, ctx, leaf, |es| - 1) by { assert LeafOf(tree, key) == Leaf(leaf, es); }
      if relinkCousins {
        NeverStalls(adapter.nodes, adapter.nextNodeID, adapter.firstLeafID, Capacities(), dropsRight, 0, ctx, Leaf(leaf, es), |es| - 1);
      }
      if dropsRight {
        NeverStrays(adapter.nodes, Capacities(), 0, ctx, leaf, |es| - 1);
      }
      var end := DeleteFromLeaf(leaf, position, ctx, es);
      r := match end case Through => Done case Stuck => Panicked case Astray => Strayed;
    }

    lemma {:induction false} RootPresent()
      requires Holds()
      ensures adapter.rootID in adapter.nodes
    {
      assert Rep(adapter.nodes, tree, 0);
    }

    /** Insertion once there is a root. */
    method InsertInto(key: Key, item: RowID) returns (r: Outcome)
      requires Configured() && Holds()
      modifies adapter, this`tree, this`height
      ensures old(adapter.nodes.Keys) <= adapter.nodes.Keys
      ensures Holds() && r == if key in old(MapOf(Ents(Flat(tree)))) then KeyExists else Done
      ensures r == Done ==> PutInto(old(adapter.nodes), adapter.nodes, old(LeafOf(tree, key)).id, LeafEntry(key, item), leafCapacity, halfLeafCapacity, old(adapter.nextNodeID))
      ensures r == KeyExists ==> adapter.nodes == old(adapter.nodes) && tree == old(tree)
      ensures r == Done ==> MapOf(Ents(Flat(tree))) == old(MapOf(Ents(Flat(tree))))[key := item]
    {
      hide LeafGrown, LeafOf, PathTo, Sound, Pre, Post, Sorted, Plug, Depth, RootGood, GoodSides, Flat, Ents, Lower, Upper, Brackets, Aligned, MapOf;
      var leaf; ghost var ctx, es;
      leaf, ctx, es := LeafFor(key);
      GoodAligned(Capacities(), 0, ctx);
      var position, found; ghost var low, high;
      position, found, low, high := FindEntry(leaf, key, ctx, es);
      if found {
        MapAround(low, [es[position]], high, key);
        return KeyExists;
      }
      var e := LeafEntry(key, item);
      MapAround(low, [], high, key);
      MapAround(low, [e], high, key);
      assert low + [] + high == low + high;
      PutReady(ctx, leaf, es, position, e);
      ghost var n, next := adapter.nodes, adapter.nextNodeID;
      var panicked := InsertOnLeaf(leaf, position, e, ctx, es);
      assert PutInto(n, adapter.nodes, leaf, e, leafCapacity, halfLeafCapacity, next);
      r := if panicked then Panicked else Done;
    }

    method Find(key: Key) returns (r: Option<RowID>)
      requires Valid()
      ensures r == if key in Contents() then Some(Contents()[key]) else None
    {
      if adapter.rootID !in adapter.nodes {
        return None;
      }
      var leaf; ghost var ctx, es;
      leaf, ctx, es := LeafFor(key);
      var position, found; ghost var low, high;
      position, found, low, high := FindEntry(leaf, key, ctx, es);
      MapAround(low, if found then [es[position]] else [], high, key);
      if !found {
        return None;
      }
      r := Some(adapter.nodes[leaf].entries[position].item);
    }

    /** Hands out every entry, from the first leaf along the right links. */
    method All() returns (all: seq<LeafEntry>)
      requires Valid() && adapter.rootID in adapter.nodes
      ensures all == Entries() && KeysIncreasing(all)
      ensures forall k :: k in Contents() <==> exists i :: 0 <= i < |all| && all[i].key == k
      ensures forall i :: 0 <= i < |all| ==> Contents()[all[i].key] == all[i].item
    {
      hide Sound, Pre, Post, Sorted, Flat, Ents, Collect, Linked, RootGood;
      ghost var n, s := adapter.nodes, Level(height, tree, 0);
      LeafChain();
      var leaf := adapter.firstLeafID;
      ghost var i := 0;
      all := [];
      assert Collect(n, s[..0]) == [] by { CollectNone(n); }
      while leaf in adapter.nodes
        invariant 0 <= i <= |s| && leaf == (if i < |s| then s[i] else 0) && all == Collect(n, s[..i])
        decreases |s| - i
      {
        var rightID := adapter.nodes[leaf].right;
        assert s[..i + 1] == s[..i] + [s[i]];
        CollectOne(n, s, i);
        all := all + adapter.nodes[leaf].entries;
        assert RightLinked(n, s, i);
        leaf := rightID;
        i := i + 1;
      }
      assert s[..|s|] == s;
      MapKeys(all);
      MapItems(all);
    }

    /** The leaf level is a chain of right links from the first leaf and spells out the entries. */
    lemma {:induction false} LeafChain()
      requires Configured() && Holds()
      ensures var s := Level(height, tree, 0);
              && AllLeaves(adapter.nodes, s) && Collect(adapter.nodes, s) == Ents(Flat(tree)) && KeysIncreasing(Ents(Flat(tree)))
              && s != [] && s[0] == adapter.firstLeafID && 0 !in adapter.nodes
              && forall i :: 0 <= i < |s| ==> RightLinked(adapter.nodes, s, i)
    {
      var n := adapter.nodes;
      LeafLevel(n, Capacities(), height, tree, 0);
      EntsIncrease(Flat(tree));
      assert LevelLinked(n, relinkCousins, height, tree, 0);
    }

  }
}
