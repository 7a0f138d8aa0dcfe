/** The packed form and the list form of a node, worked on side by side. */
module PackedRuns {
  import opened BTreeNodes
  import opened BTreeStore
  import opened DataBlocks
  import opened PackedNodes

  datatype NodeOp =
    | PutEntry(p: nat, entry: LeafEntry)
    | DropEntry(p: nat)
    | CutEntries(start: nat)
    | PutKey(p: nat, key: Key, gte: Id)
    | DropKey(p: nat)
    | CutKeys(start: nat)
    | ShiftKeys
    | UnshiftKey(key: Key, lt: Id)
    | ReplaceKey(p: nat, key: Key)
    | LinkParent(id: Id)
    | LinkLeft(id: Id)
    | LinkRight(id: Id)

  predicate Key32(key: Key) {
    0 <= key < 0x1_0000_0000
  }

  /** When the tree may do this to a node: in range, with room for one more, and numbers that fit their
      fields. A key is dropped from a branch at either end only: elsewhere the forms differ (`DeletesAgree`). */
  predicate Takes(node: Node, op: NodeOp) {
    match op
    case PutEntry(p, entry) => node.LeafNode? && p <= |node.entries| < LEAF_MAX_ENTRIES && FitsLeaf(entry)
    case DropEntry(p) => node.LeafNode? && p < |node.entries|
    case CutEntries(start) => node.LeafNode? && start <= |node.entries|
    case PutKey(p, key, gte) => node.BranchNode? && p <= |node.slots| < BRANCH_MAX_ENTRIES && node.slots != [] && Key32(key) && gte < 0x1_0000
    case DropKey(p) => node.BranchNode? && p < |node.slots| && (p == 0 || p == |node.slots| - 1)
    case CutKeys(start) => node.BranchNode? && start <= |node.slots|
    case ShiftKeys => node.BranchNode? && |node.slots| >= 2
    case UnshiftKey(key, lt) => node.BranchNode? && 0 < |node.slots| < BRANCH_MAX_ENTRIES && Key32(key) && lt < 0x1_0000
    case ReplaceKey(p, key) => node.BranchNode? && p < |node.slots| && Key32(key)
    case LinkParent(id) => id < 0x1_0000
    case LinkLeft(id) => id < 0x1_0000
    case LinkRight(id) => id < 0x1_0000
  }

  // ---------- What an operation does to a node, and what it hands back ----------

  function KeysOf(slots: seq<BranchEntry>): (keys: seq<Key>)
    ensures |keys| == |slots| && forall i :: 0 <= i < |keys| ==> keys[i] == slots[i].key
  {
    seq(|slots|, i requires 0 <= i < |slots| => slots[i].key)
  }

  /** The children of a branch with at least one key. */
  function KidsOf(slots: seq<BranchEntry>): (kids: seq<Id>)
    requires slots != []
    ensures |kids| == |slots| + 1 && kids[0] == slots[0].lt && forall i :: 0 <= i < |slots| ==> kids[i + 1] == slots[i].gte
  {
    [slots[0].lt] + seq(|slots|, i requires 0 <= i < |slots| => slots[i].gte)
  }

  function NodeAfter(node: Node, op: NodeOp): Node
    requires Takes(node, op)
  {
    match op
    case PutEntry(p, entry) => node.(entries := PutAt(node.entries, p, entry))
    case DropEntry(p) => node.(entries := DropAt(node.entries, p))
    case CutEntries(start) => node.(entries := node.entries[..start])
    case PutKey(p, key, gte) => node.(slots := Slots(PutAt(KeysOf(node.slots), p, key), PutAt(KidsOf(node.slots), p + 1, gte)))
    case DropKey(p) => node.(slots := if p == 0 then node.slots[1..] else node.slots[..p])
    case CutKeys(start) => node.(slots := node.slots[..start])
    case ShiftKeys => node.(slots := [node.slots[1].(lt := node.slots[0].lt)] + node.slots[2..])
    case UnshiftKey(key, lt) => node.(slots := [BranchEntry(key, lt, node.slots[0].lt)] + node.slots)
    case ReplaceKey(p, key) => node.(slots := node.slots[p := node.slots[p].(key := key)])
    case LinkParent(id) => Linked(node, id, node.left, node.right)
    case LinkLeft(id) => Linked(node, node.parent, id, node.right)
    case LinkRight(id) => Linked(node, node.parent, node.left, id)
  }

  function Linked(node: Node, parent: Id, left: Id, right: Id): Node {
    if node.LeafNode? then LeafNode(parent, left, right, node.entries) else BranchNode(parent, left, right, node.slots)
  }

  datatype Handed = Nothing | Entries(entries: seq<LeafEntry>) | Keys(slots: seq<BranchEntry>)

  function HandedBack(node: Node, op: NodeOp): Handed
    requires Takes(node, op)
  {
    match op
    case DropEntry(p) => Entries([node.entries[p]])
    case CutEntries(start) => Entries(node.entries[start..])
    case DropKey(p) => Keys([node.slots[p]])
    case CutKeys(start) => Keys(node.slots[start..])
    case _ => Nothing
  }

  /** All operations are allowed when their turn comes. */
  predicate TakesAll(node: Node, ops: seq<NodeOp>)
    decreases |ops|, 0
  {
    ops == [] || (TakesAll(node, ops[..|ops| - 1]) && Takes(AfterAll(node, ops[..|ops| - 1]), ops[|ops| - 1]))
  }

  function AfterAll(node: Node, ops: seq<NodeOp>): Node
    requires TakesAll(node, ops)
    decreases |ops|, 1
  {
    if ops == [] then node else NodeAfter(AfterAll(node, ops[..|ops| - 1]), ops[|ops| - 1])
  }

  function HandedAll(node: Node, ops: seq<NodeOp>): seq<Handed>
    requires TakesAll(node, ops)
  {
    if ops == [] then [] else HandedAll(node, ops[..|ops| - 1]) + [HandedBack(AfterAll(node, ops[..|ops| - 1]), ops[|ops| - 1])]
  }

  lemma {:induction false} OneMoreOp(node: Node, ops: seq<NodeOp>, op: NodeOp)
    requires TakesAll(node, ops) && Takes(AfterAll(node, ops), op)
    ensures TakesAll(node, ops + [op]) && AfterAll(node, ops + [op]) == NodeAfter(AfterAll(node, ops), op)
    ensures HandedAll(node, ops + [op]) == HandedAll(node, ops) + [HandedBack(AfterAll(node, ops), op)]
  {
    assert (ops + [op])[..|ops|] == ops;
  }

  /** The entries of a branch and the keys and children they stand for, in both directions. */
  lemma {:induction false} SlotsParts(keys: seq<Key>, kids: seq<Id>)
    requires |kids| == |keys| + 1 && keys != []
    ensures KeysOf(Slots(keys, kids)) == keys && KidsOf(Slots(keys, kids)) == kids
  {
    forall i | 0 <= i < |kids| ensures KidsOf(Slots(keys, kids))[i] == kids[i] {
      if i > 0 { assert KidsOf(Slots(keys, kids))[i - 1 + 1] == Slots(keys, kids)[i - 1].gte; }
    }
  }

  lemma {:induction false} SlotsDropped(keys: seq<Key>, kids: seq<Id>, p: nat)
    requires |kids| == |keys| + 1 && p < |keys| && (p == 0 || p == |keys| - 1)
    ensures ListDelete(keys, kids, p) == if p == 0 then Slots(keys, kids)[1..] else Slots(keys, kids)[..p]
  {
    DropEnds(keys, kids);
  }

  lemma {:induction false} SlotsCut(keys: seq<Key>, kids: seq<Id>, start: nat)
    requires |kids| == |keys| + 1 && start <= |keys|
    ensures Slots(keys[..start], kids[..start + 1]) == Slots(keys, kids)[..start] && Slots(keys[start..], kids[start..]) == Slots(keys, kids)[start..]
  {
  }

  lemma {:induction false} SlotsShifted(keys: seq<Key>, kids: seq<Id>)
    requires |kids| == |keys| + 1 && |keys| >= 2
    ensures var bs := Slots(keys, kids); Slots(keys[1..], DropAt(kids, 1)) == [bs[1].(lt := bs[0].lt)] + bs[2..]
  {
    var bs, cs := Slots(keys, kids), Slots(keys[1..], DropAt(kids, 1));
    var ds := [bs[1].(lt := bs[0].lt)] + bs[2..];
    forall i | 0 <= i < |cs| ensures cs[i] == ds[i] { if i > 0 { assert ds[i] == bs[i + 1]; } }
  }

  lemma {:induction false} SlotsUnshifted(keys: seq<Key>, kids: seq<Id>, key: Key, lt: Id)
    requires |kids| == |keys| + 1 && keys != []
    ensures Slots([key] + keys, [lt] + kids) == [BranchEntry(key, lt, Slots(keys, kids)[0].lt)] + Slots(keys, kids)
  {
  }

  lemma {:induction false} SlotsReplaced(keys: seq<Key>, kids: seq<Id>, p: nat, key: Key)
    requires |kids| == |keys| + 1 && p < |keys|
    ensures Slots(keys[p := key], kids) == Slots(keys, kids)[p := Slots(keys, kids)[p].(key := key)]
  {
  }

  /** The bytes stand for the node. */
  ghost predicate Mirrors(node: Node, packed: IndexNode)
    reads packed.block.data
  {
    if node.LeafNode? then packed.IsLeaf() && packed.Leaf() == node else packed.IsBranch() && packed.Branch() == node
  }

  /** One operation on both: the same node, and the same handed back. */
  method InBoth(mem: InMemoryAdapter, id: Id, packed: IndexNode, op: NodeOp) returns (a: Handed, b: Handed)
    requires id in mem.nodes && Mirrors(mem.nodes[id], packed) && Takes(mem.nodes[id], op)
    modifies mem`nodes, packed`dirty, packed.block.data
    ensures mem.nodes == old(mem.nodes)[id := NodeAfter(old(mem.nodes)[id], op)] && Mirrors(mem.nodes[id], packed)
    ensures a == b == HandedBack(old(mem.nodes)[id], op)
  {
    hide NodeAfter, HandedBack, Mirrors;
    if op.PutEntry? || op.DropEntry? || op.CutEntries? {
      a, b := LeafInBoth(mem, id, packed, op);
    } else if op.LinkParent? || op.LinkLeft? || op.LinkRight? {
      LinkInBoth(mem, id, packed, op);
      a, b := Nothing, Nothing;
      NothingBack(old(mem.nodes)[id], op);
    } else {
      a, b := BranchInBoth(mem, id, packed, op);
    }
  }

  lemma {:induction false} NothingBack(node: Node, op: NodeOp)
    requires Takes(node, op) && (op.LinkParent? || op.LinkLeft? || op.LinkRight?)
    ensures HandedBack(node, op) == Nothing
  {
  }

  method LeafInBoth(mem: InMemoryAdapter, id: Id, packed: IndexNode, op: NodeOp) returns (a: Handed, b: Handed)
    requires id in mem.nodes && Mirrors(mem.nodes[id], packed) && Takes(mem.nodes[id], op)
    requires op.PutEntry? || op.DropEntry? || op.CutEntries?
    modifies mem`nodes, packed`dirty, packed.block.data
    ensures mem.nodes == old(mem.nodes)[id := NodeAfter(old(mem.nodes)[id], op)] && Mirrors(mem.nodes[id], packed)
    ensures a == b == HandedBack(old(mem.nodes)[id], op)
  {
    hide IndexNode.Leaf, IndexNode.Branch, IndexNode.IsLeaf, IndexNode.IsBranch, PutAt, DropAt;
    packed.LeafLength();
    a, b := Nothing, Nothing;
    match op {
      case PutEntry(p, entry) =>
        mem.LeafInsertAt(id, p, entry);
        packed.LeafInsertAt(p, entry);
      case DropEntry(p) =>
        var x := mem.LeafDeleteAt(id, p);
        var y := packed.LeafDeleteAt(p);
        a, b := Entries([x]), Entries([y.value]);
      case CutEntries(start) =>
        var xs := mem.LeafDeleteFrom(id, start);
        var ys := packed.LeafDeleteFrom(start);
        a, b := Entries(xs), Entries(ys);
    }
  }

  method LinkInBoth(mem: InMemoryAdapter, id: Id, packed: IndexNode, op: NodeOp)
    requires id in mem.nodes && Mirrors(mem.nodes[id], packed) && Takes(mem.nodes[id], op)
    requires op.LinkParent? || op.LinkLeft? || op.LinkRight?
    modifies mem`nodes, packed`dirty, packed.block.data
    ensures mem.nodes == old(mem.nodes)[id := NodeAfter(old(mem.nodes)[id], op)] && Mirrors(mem.nodes[id], packed)
  {
    hide PutAt, DropAt, Slots, LeafOf, BranchOf;
    match op {
      case LinkParent(x) =>
        mem.SetParentID(id, x);
        packed.SetParentID(x);
      case LinkLeft(x) =>
        mem.SetLeftSiblingID(id, x);
        packed.SetLeftSiblingID(x);
      case LinkRight(x) =>
        mem.SetRightSiblingID(id, x);
        packed.SetRightSiblingID(x);
    }
  }

  method BranchInBoth(mem: InMemoryAdapter, id: Id, packed: IndexNode, op: NodeOp) returns (a: Handed, b: Handed)
    requires id in mem.nodes && Mirrors(mem.nodes[id], packed) && Takes(mem.nodes[id], op)
    requires op.PutKey? || op.DropKey? || op.CutKeys? || op.ShiftKeys? || op.UnshiftKey? || op.ReplaceKey?
    modifies mem`nodes, packed`dirty, packed.block.data
    ensures mem.nodes == old(mem.nodes)[id := NodeAfter(old(mem.nodes)[id], op)] && Mirrors(mem.nodes[id], packed)
    ensures a == b == HandedBack(old(mem.nodes)[id], op)
  {
    hide IndexNode.Branch, IndexNode.IsBranch, PutAt, DropAt, IndexNode.BranchKeys, IndexNode.BranchKids, PackedDelete, Slots, KeysOf, KidsOf;
    packed.BranchLength();
    ghost var keys, kids := packed.BranchKeys(), packed.BranchKids();
    a, b := Nothing, Nothing;
    match op {
      case PutKey(p, key, gte) =>
        SlotsParts(keys, kids);
        mem.BranchInsertAt(id, p, key, gte, keys, kids);
        packed.BranchInsertAt(p, key, gte);
      case DropKey(p) =>
        DeletesAgree(keys, kids, p);
        SlotsDropped(keys, kids, p);
        var x := mem.BranchDeleteAt(id, p, keys, kids);
        var y := packed.BranchDeleteAt(p);
        a, b := Keys([x]), Keys([y.value]);
      case CutKeys(start) =>
        SlotsCut(keys, kids, start);
        var xs := mem.BranchDeleteFrom(id, start, keys, kids);
        var ys := packed.BranchDeleteFrom(start);
        a, b := Keys(xs), Keys(ys);
      case ShiftKeys =>
        SlotsShifted(keys, kids);
        mem.BranchShift(id, keys, kids);
        packed.BranchShift();
      case UnshiftKey(key, lt) =>
        SlotsUnshifted(keys, kids, key, lt);
        mem.BranchUnshift(id, key, lt, keys, kids);
        packed.BranchUnshift(key, lt);
      case ReplaceKey(p, key) =>
        SlotsReplaced(keys, kids, p, key);
        mem.BranchReplaceKeyAt(id, p, key, keys, kids);
        var _ := packed.BranchReplaceKeyAt(p, key);
    }
  }

  /** Any run of operations, up to the first one that is not allowed: list form and packed form come to the
      same node, which is what the operations say, and hand back the same. */
  method Run(mem: InMemoryAdapter, id: Id, packed: IndexNode, ops: seq<NodeOp>) returns (done: nat, lists: seq<Handed>, bytes: seq<Handed>)
    requires id in mem.nodes && Mirrors(mem.nodes[id], packed)
    modifies mem`nodes, packed`dirty, packed.block.data
    ensures done <= |ops| && TakesAll(old(mem.nodes)[id], ops[..done])
    ensures mem.nodes == old(mem.nodes)[id := AfterAll(old(mem.nodes)[id], ops[..done])] && Mirrors(mem.nodes[id], packed)
    ensures lists == bytes == HandedAll(old(mem.nodes)[id], ops[..done])
    ensures done == |ops| || !Takes(mem.nodes[id], ops[done])
  {
    hide NodeAfter, HandedBack, Mirrors, Takes;
    ghost var node := mem.nodes[id];
    done, lists, bytes := 0, [], [];
    while done < |ops| && Takes(mem.nodes[id], ops[done])
      invariant done <= |ops| && id in mem.nodes && Mirrors(mem.nodes[id], packed) && TakesAll(node, ops[..done])
      invariant mem.nodes == old(mem.nodes)[id := AfterAll(node, ops[..done])] && lists == bytes == HandedAll(node, ops[..done])
    {
      var a, b := InBoth(mem, id, packed, ops[done]);
      OneMoreOp(node, ops[..done], ops[done]);
      assert ops[..done + 1] == ops[..done] + [ops[done]];
      lists, bytes := lists + [a], bytes + [b];
      done := done + 1;
    }
  }
}
