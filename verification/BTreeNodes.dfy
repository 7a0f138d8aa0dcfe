/** Node contents of the B+ tree: what a leaf and a branch hold, and the effect of every
    entry operation on the two sequences a branch stands for, its keys and its children. */
module BTreeNodes {
  import opened RowIDs

  type Key = int

  /** Node identifier; 0 stands for "no node". */
  type Id = nat

  datatype LeafEntry = LeafEntry(key: Key, item: RowID)

  /** A branch entry repeats one child id: its `gte` is the `lt` of the entry that follows. */
  datatype BranchEntry = BranchEntry(key: Key, lt: Id, gte: Id)

  datatype Node =
    | LeafNode(parent: Id, left: Id, right: Id, entries: seq<LeafEntry>)
    | BranchNode(parent: Id, left: Id, right: Id, slots: seq<BranchEntry>)

  function NodeKeys(node: Node): (keys: seq<Key>)
    ensures |keys| == if node.LeafNode? then |node.entries| else |node.slots|
    ensures node.LeafNode? ==> forall i :: 0 <= i < |keys| ==> keys[i] == node.entries[i].key
    ensures node.BranchNode? ==> forall i :: 0 <= i < |keys| ==> keys[i] == node.slots[i].key
  {
    if node.LeafNode? then seq(|node.entries|, i requires 0 <= i < |node.entries| => node.entries[i].key)
    else seq(|node.slots|, i requires 0 <= i < |node.slots| => node.slots[i].key)
  }

  /** The entries of a branch with n keys and n + 1 children, in order. */
  function Slots(keys: seq<Key>, kids: seq<Id>): (bs: seq<BranchEntry>)
    requires |kids| == |keys| + 1
    ensures |bs| == |keys|
    ensures forall i :: 0 <= i < |keys| ==> bs[i] == BranchEntry(keys[i], kids[i], kids[i + 1])
  {
    seq(|keys|, i requires 0 <= i < |keys| => BranchEntry(keys[i], kids[i], kids[i + 1]))
  }

  function PutAt<T>(s: seq<T>, p: nat, x: T): seq<T>
    requires p <= |s|
  {
    s[..p] + [x] + s[p..]
  }

  function DropAt<T>(s: seq<T>, p: nat): seq<T>
    requires p < |s|
  {
    s[..p] + s[p + 1..]
  }

  /** What is left of a branch when the key at `p` is deleted from the list of its entries: the first key goes with
      its left child, any other with its right child. */
  function ListDelete(keys: seq<Key>, kids: seq<Id>, p: nat): seq<BranchEntry>
    requires |kids| == |keys| + 1 && p < |keys|
  {
    if p == 0 then Slots(keys[1..], kids[1..]) else Slots(DropAt(keys, p), DropAt(kids, p + 1))
  }

  /** The same in packed form: the last key goes with its right child, any other with its left child. */
  function PackedDelete(keys: seq<Key>, kids: seq<Id>, p: nat): seq<BranchEntry>
    requires |kids| == |keys| + 1 && p < |keys|
  {
    if p == |keys| - 1 then Slots(keys[..p], kids[..p + 1]) else Slots(DropAt(keys, p), DropAt(kids, p))
  }
}
