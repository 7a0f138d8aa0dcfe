/** The node store of the B+ tree: nodes by id, the root, the first leaf and the next free id. */
module BTreeStore {
  import opened BTreeNodes

  // ---------- Entries and the keys and children they stand for ----------

  lemma {:induction false} DropMiddle(keys: seq<Key>, kids: seq<Id>, p: nat)
    requires |kids| == |keys| + 1 && 0 < p < |keys| - 1
    ensures var bs := Slots(keys, kids);
            var cs := bs[p + 1 := bs[p + 1].(lt := bs[p - 1].gte)];
            cs[..p] + cs[p + 1..] == Slots(DropAt(keys, p), DropAt(kids, p + 1))
  {
    var bs := Slots(keys, kids);
    var cs := bs[p + 1 := bs[p + 1].(lt := bs[p - 1].gte)];
    var ds, ks, xs := cs[..p] + cs[p + 1..], DropAt(keys, p), DropAt(kids, p + 1);
    forall i | 0 <= i < |ks| ensures ds[i] == BranchEntry(ks[i], xs[i], xs[i + 1]) {
      if i < p { assert ds[i] == bs[i]; } else { assert ds[i] == cs[i + 1]; }
    }
    assert ds == Slots(ks, xs);
  }

  lemma {:induction false} DropEnds(keys: seq<Key>, kids: seq<Id>)
    requires |kids| == |keys| + 1 && |keys| > 0
    ensures var bs, l := Slots(keys, kids), |keys| - 1;
            bs[1..] == Slots(keys[1..], kids[1..]) &&
            bs[..l] == Slots(DropAt(keys, l), DropAt(kids, l + 1)) &&
            (l == 0 ==> bs[..l] == Slots(keys[1..], kids[1..]))
  {
  }

  lemma {:induction false} PutMiddle(keys: seq<Key>, kids: seq<Id>, p: nat, key: Key, gte: Id)
    requires |kids| == |keys| + 1 && 0 < p < |keys|
    ensures var bs := Slots(keys, kids);
            var cs := bs[p := bs[p].(lt := gte)];
            cs[..p] + [BranchEntry(key, bs[p - 1].gte, gte)] + cs[p..] == Slots(PutAt(keys, p, key), PutAt(kids, p + 1, gte))
  {
    var bs := Slots(keys, kids);
    var cs := bs[p := bs[p].(lt := gte)];
    var ds := cs[..p] + [BranchEntry(key, bs[p - 1].gte, gte)] + cs[p..];
    var ks, xs := PutAt(keys, p, key), PutAt(kids, p + 1, gte);
    forall i | 0 <= i < |ks| ensures ds[i] == BranchEntry(ks[i], xs[i], xs[i + 1]) {
      if i < p { assert ds[i] == bs[i]; } else if i > p { assert ds[i] == cs[i - 1]; }
    }
    assert ds == Slots(ks, xs);
  }

  lemma {:induction false} PutEnds(keys: seq<Key>, kids: seq<Id>, key: Key, gte: Id)
    requires |kids| == |keys| + 1 && |keys| > 0
    ensures var bs, l := Slots(keys, kids), |keys|;
            [BranchEntry(key, bs[0].lt, gte)] + bs[0 := bs[0].(lt := gte)] == Slots(PutAt(keys, 0, key), PutAt(kids, 1, gte)) &&
            bs + [BranchEntry(key, bs[l - 1].gte, gte)] == Slots(PutAt(keys, l, key), PutAt(kids, l + 1, gte))
  {
    var bs, l := Slots(keys, kids), |keys|;
    var cs := [BranchEntry(key, bs[0].lt, gte)] + bs[0 := bs[0].(lt := gte)];
    var ks, xs := PutAt(keys, 0, key), PutAt(kids, 1, gte);
    forall i | 0 <= i < |ks| ensures cs[i] == BranchEntry(ks[i], xs[i], xs[i + 1]) {
      if i > 0 { assert ks[i] == keys[i - 1] && xs[i + 1] == kids[i]; }
    }
    assert cs == Slots(ks, xs);
  }

  lemma {:induction false} PackedMiddle(keys: seq<Key>, kids: seq<Id>, p: nat, cs: seq<BranchEntry>)
    requires |kids| == |keys| + 1 && p < |keys|
    requires var bs := Slots(keys, kids);
             cs == if p == |keys| - 1 then bs[..p]
                   else if p == 0 then bs[1..]
                   else bs[p - 1 := bs[p - 1].(gte := bs[p + 1].lt)][..p] + bs[p + 1..]
    ensures cs == PackedDelete(keys, kids, p)
  {
    var ds := PackedDelete(keys, kids, p);
    if p < |keys| - 1 {
      var ks, xs := DropAt(keys, p), DropAt(kids, p);
      forall i | 0 <= i < |ks| ensures cs[i] == BranchEntry(ks[i], xs[i], xs[i + 1]) { }
    }
    assert cs == ds;
  }

  class InMemoryAdapter {
    var rootID: Id
    var firstLeafID: Id
    var nextNodeID: Id
    var nodes: map<Id, Node>

    constructor ()
      ensures rootID == 9999 && firstLeafID == 0 && nextNodeID == 1 && nodes == map[]
    {
      rootID, firstLeafID, nextNodeID := 9999, 0, 1;
      nodes := map[];
    }

    method SetRoot(id: Id)
      requires id in nodes
      modifies `rootID, `nodes
      ensures rootID == id && nodes == old(nodes)[id := old(nodes)[id].(parent := 0)]
    {
      rootID := id;
      SetParentID(id, 0);
    }

    method Init() returns (id: Id)
      modifies this
      ensures id == old(nextNodeID) == rootID == firstLeafID && nextNodeID == id + 1
      ensures nodes == old(nodes)[id := LeafNode(0, 0, 0, [])]
    {
      id := CreateLeaf();
      rootID := id;
      firstLeafID := id;
    }

    method CreateLeaf() returns (id: Id)
      modifies `nextNodeID, `nodes
      ensures id == old(nextNodeID) && nextNodeID == id + 1
      ensures nodes == old(nodes)[id := LeafNode(0, 0, 0, [])]
    {
      id := nextNodeID;
      nodes := nodes[id := LeafNode(0, 0, 0, [])];
      nextNodeID := nextNodeID + 1;
    }

    method CreateBranch(entry: BranchEntry) returns (id: Id)
      modifies `nextNodeID, `nodes
      ensures id == old(nextNodeID) && nextNodeID == id + 1
      ensures nodes == old(nodes)[id := BranchNode(0, 0, 0, [entry])]
    {
      id := nextNodeID;
      nodes := nodes[id := BranchNode(0, 0, 0, [entry])];
      nextNodeID := nextNodeID + 1;
    }

    method Free(id: Id)
      modifies `nodes
      ensures nodes == old(nodes) - {id}
    {
      nodes := nodes - {id};
    }

    method SetParentID(id: Id, parent: Id)
      requires id in nodes
      modifies `nodes
      ensures nodes == old(nodes)[id := old(nodes)[id].(parent := parent)]
    {
      nodes := nodes[id := nodes[id].(parent := parent)];
    }

    method SetLeftSiblingID(id: Id, left: Id)
      requires id in nodes
      modifies `nodes
      ensures nodes == old(nodes)[id := old(nodes)[id].(left := left)]
    {
      nodes := nodes[id := nodes[id].(left := left)];
    }

    method SetRightSiblingID(id: Id, right: Id)
      requires id in nodes
      modifies `nodes
      ensures nodes == old(nodes)[id := old(nodes)[id].(right := right)]
    {
      nodes := nodes[id := nodes[id].(right := right)];
    }

    // ---------- Leaf entries ----------

    method LeafInsertAt(id: Id, position: nat, entry: LeafEntry)
      requires id in nodes && nodes[id].LeafNode? && position <= |nodes[id].entries|
      modifies `nodes
      ensures nodes == old(nodes)[id := old(nodes)[id].(entries := PutAt(old(nodes)[id].entries, position, entry))]
    {
      var es := nodes[id].entries;
      if position == |es| {
        es := es + [entry];
      } else if position == 0 {
        es := [entry] + es;
      } else {
        es := es[..position] + [entry] + es[position..];
      }
      assert es == PutAt(nodes[id].entries, position, entry);
      nodes := nodes[id := nodes[id].(entries := es)];
    }

    method LeafDeleteAt(id: Id, position: nat) returns (entry: LeafEntry)
      requires id in nodes && nodes[id].LeafNode? && position < |nodes[id].entries|
      modifies `nodes
      ensures entry == old(nodes)[id].entries[position]
      ensures nodes == old(nodes)[id := old(nodes)[id].(entries := DropAt(old(nodes)[id].entries, position))]
    {
      entry := nodes[id].entries[position];
      nodes := nodes[id := nodes[id].(entries := nodes[id].entries[..position] + nodes[id].entries[position + 1..])];
    }

    method LeafDeleteFrom(id: Id, start: nat) returns (removed: seq<LeafEntry>)
      requires id in nodes && nodes[id].LeafNode? && start <= |nodes[id].entries|
      modifies `nodes
      ensures removed == old(nodes)[id].entries[start..]
      ensures nodes == old(nodes)[id := old(nodes)[id].(entries := old(nodes)[id].entries[..start])]
    {
      removed := nodes[id].entries[start..];
      nodes := nodes[id := nodes[id].(entries := nodes[id].entries[..start])];
    }

    // ---------- Branch entries ----------
    // Each operation is stated on the keys and children the entries stand for.

    method BranchInsertAt(id: Id, position: nat, key: Key, gte: Id, ghost keys: seq<Key>, ghost kids: seq<Id>)
      requires id in nodes && nodes[id].BranchNode? && |kids| == |keys| + 1 && keys != []
      requires nodes[id].slots == Slots(keys, kids) && position <= |keys|
      modifies `nodes
      ensures nodes == old(nodes)[id := old(nodes)[id].(slots := Slots(PutAt(keys, position, key), PutAt(kids, position + 1, gte)))]
    {
      var bs := nodes[id].slots;
      if position == 0 {
        bs := [BranchEntry(key, bs[0].lt, gte)] + bs[0 := bs[0].(lt := gte)];
      } else if position == |bs| {
        bs := bs + [BranchEntry(key, bs[position - 1].gte, gte)];
      } else {
        PutMiddle(keys, kids, position, key, gte);
        var entry := BranchEntry(key, bs[position - 1].gte, gte);
        bs := bs[position := bs[position].(lt := gte)];
        bs := bs[..position] + [entry] + bs[position..];
      }
      PutEnds(keys, kids, key, gte);
      nodes := nodes[id := nodes[id].(slots := bs)];
    }

    /** Drops the key at `position`, with its left child at the front and its right child elsewhere. */
    method BranchDeleteAt(id: Id, position: nat, ghost keys: seq<Key>, ghost kids: seq<Id>) returns (entry: BranchEntry)
      requires id in nodes && nodes[id].BranchNode? && |kids| == |keys| + 1
      requires nodes[id].slots == Slots(keys, kids) && position < |keys|
      modifies `nodes
      ensures entry == BranchEntry(keys[position], kids[position], kids[position + 1])
      ensures nodes == old(nodes)[id := old(nodes)[id].(slots :=
                if position == 0 then Slots(keys[1..], kids[1..]) else Slots(DropAt(keys, position), DropAt(kids, position + 1)))]
    {
      var bs := nodes[id].slots;
      entry := bs[position];
      if position == |bs| - 1 {
        bs := bs[..position];
      } else if position == 0 {
        bs := bs[1..];
      } else {
        DropMiddle(keys, kids, position);
        bs := bs[position + 1 := bs[position + 1].(lt := bs[position - 1].gte)];
        bs := bs[..position] + bs[position + 1..];
      }
      DropEnds(keys, kids);
      nodes := nodes[id := nodes[id].(slots := bs)];
    }

    /** The same as packed nodes do it (see `PackedDelete`): except at the end of the branch the child on the left goes. */
    method BranchDeletePacked(id: Id, position: nat, ghost keys: seq<Key>, ghost kids: seq<Id>) returns (entry: BranchEntry)
      requires id in nodes && nodes[id].BranchNode? && |kids| == |keys| + 1
      requires nodes[id].slots == Slots(keys, kids) && position < |keys|
      modifies `nodes
      ensures entry == BranchEntry(keys[position], kids[position], kids[position + 1])
      ensures nodes == old(nodes)[id := old(nodes)[id].(slots := PackedDelete(keys, kids, position))]
    {
      var bs := nodes[id].slots;
      entry := bs[position];
      if position == |bs| - 1 {
        bs := bs[..position];
      } else {
        if position > 0 {
          bs := bs[position - 1 := bs[position - 1].(gte := bs[position + 1].lt)];
        }
        bs := bs[..position] + bs[position + 1..];
      }
      PackedMiddle(keys, kids, position, bs);
      nodes := nodes[id := nodes[id].(slots := bs)];
    }

    method BranchDeleteFrom(id: Id, start: nat, ghost keys: seq<Key>, ghost kids: seq<Id>) returns (removed: seq<BranchEntry>)
      requires id in nodes && nodes[id].BranchNode? && |kids| == |keys| + 1
      requires nodes[id].slots == Slots(keys, kids) && start <= |keys|
      modifies `nodes
      ensures removed == Slots(keys[start..], kids[start..])
      ensures nodes == old(nodes)[id := old(nodes)[id].(slots := Slots(keys[..start], kids[..start + 1]))]
    {
      removed := nodes[id].slots[start..];
      assert removed == Slots(keys[start..], kids[start..]);
      assert nodes[id].slots[..start] == Slots(keys[..start], kids[..start + 1]);
      nodes := nodes[id := nodes[id].(slots := nodes[id].slots[..start])];
    }

    /** Drops the first key with the child on its right. */
    method BranchShift(id: Id, ghost keys: seq<Key>, ghost kids: seq<Id>)
      requires id in nodes && nodes[id].BranchNode? && |kids| == |keys| + 1
      requires nodes[id].slots == Slots(keys, kids) && |keys| >= 2
      modifies `nodes
      ensures nodes == old(nodes)[id := old(nodes)[id].(slots := Slots(keys[1..], DropAt(kids, 1)))]
    {
      var bs := nodes[id].slots;
      var lt := bs[0].lt;
      bs := bs[1..];
      bs := bs[0 := bs[0].(lt := lt)];
      assert bs == Slots(keys[1..], DropAt(kids, 1));
      nodes := nodes[id := nodes[id].(slots := bs)];
    }

    method BranchUnshift(id: Id, key: Key, lt: Id, ghost keys: seq<Key>, ghost kids: seq<Id>)
      requires id in nodes && nodes[id].BranchNode? && |kids| == |keys| + 1 && keys != []
      requires nodes[id].slots == Slots(keys, kids)
      modifies `nodes
      ensures nodes == old(nodes)[id := old(nodes)[id].(slots := Slots([key] + keys, [lt] + kids))]
    {
      var bs := [BranchEntry(key, lt, nodes[id].slots[0].lt)] + nodes[id].slots;
      assert bs == Slots([key] + keys, [lt] + kids);
      nodes := nodes[id := nodes[id].(slots := bs)];
    }

    method BranchReplaceKeyAt(id: Id, position: nat, key: Key, ghost keys: seq<Key>, ghost kids: seq<Id>)
      requires id in nodes && nodes[id].BranchNode? && |kids| == |keys| + 1
      requires nodes[id].slots == Slots(keys, kids) && position < |keys|
      modifies `nodes
      ensures nodes == old(nodes)[id := old(nodes)[id].(slots := Slots(keys[position := key], kids))]
    {
      var bs := nodes[id].slots;
      bs := bs[position := bs[position].(key := key)];
      assert bs == Slots(keys[position := key], kids);
      nodes := nodes[id := nodes[id].(slots := bs)];
    }
  }
}
