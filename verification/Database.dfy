/** The database: the indexed heap with the blocks that the nodes of the index take, seen as one map from ids to data. */
module Databases {
  import opened RowIDs
  import opened Results
  import opened DataBlocks
  import opened RecordPages
  import opened PageViews
  import opened HeapModel
  import opened HeapWrites
  import opened HeapRemovals
  import opened HeapRecords
  import opened HeapOwners
  import opened BlockMaps
  import opened RecordHeaps
  import opened BTreeNodes
  import opened BTreeStore
  import opened BPlusTrees
  import opened IndexedHeaps

  // ---------- Nodes and their blocks ----------

  /** Each node has a block of its own, which is held and is no page of the heap. */
  ghost predicate Lodged(blockOf: map<Id, nat>, list: seq<nat>, held: set<nat>) {
    && (forall id :: id in blockOf ==> blockOf[id] in held && blockOf[id] in Usable() && blockOf[id] !in list && blockOf[id] > 2)
    && (forall i, j :: i in blockOf && j in blockOf && blockOf[i] == blockOf[j] ==> i == j)
  }

  lemma {:induction false} LodgedStill(blockOf: map<Id, nat>, list: seq<nat>, held: set<nat>, list': seq<nat>, held': set<nat>)
    requires Lodged(blockOf, list, held) && StillHeld(list, held, list', held')
    ensures Lodged(blockOf, list', held')
  {
    hide Usable;
  }

  lemma {:induction false} LodgedPut(blockOf: map<Id, nat>, list: seq<nat>, held: set<nat>, id: Id, b: nat)
    requires Lodged(blockOf, list, held) && id !in blockOf && b !in held && b in Usable() && b !in list && b > 2
    ensures Lodged(blockOf[id := b], list, held + {b}) && |blockOf[id := b]| == |blockOf| + 1
  {
    hide Usable;
  }

  lemma {:induction false} LodgedDrop(blockOf: map<Id, nat>, list: seq<nat>, held: set<nat>, id: Id)
    requires Lodged(blockOf, list, held) && id in blockOf
    ensures Lodged(blockOf - {id}, list, held - {blockOf[id]}) && |blockOf - {id}| == |blockOf| - 1
    ensures blockOf[id] in held && blockOf[id] !in list && blockOf[id] > 2
  {
    hide Usable;
    var less := blockOf - {id};
    assert less.Keys == blockOf.Keys - {id};
    assert |less| == |less.Keys| && |blockOf| == |blockOf.Keys|;
  }

  lemma {:induction false} FewerKeys<V, W>(a: map<Id, V>, b: map<Id, W>)
    requires a.Keys <= b.Keys
    ensures |a| <= |b| && (|a| == |b| ==> a.Keys == b.Keys)
  {
    assert |a| == |a.Keys| && |b| == |b.Keys| && b.Keys == a.Keys + (b.Keys - a.Keys);
  }

  lemma {:induction false} OneShort<V, W>(a: map<Id, V>, b: map<Id, W>, id: Id)
    requires a.Keys <= b.Keys && id in b && id !in a
    ensures |a| < |b|
  {
    FewerKeys(a, b);
    assert id in b.Keys && id !in a.Keys;
  }

  lemma {:induction false} NoneOver(a: set<Id>, b: set<Id>)
    requires a - b == {} && b <= a
    ensures a == b
  {
    forall x | x in a ensures x in b { assert x !in a - b; }
  }

  class Database {
    const store: IndexedHeap
    /** The blocks of the nodes, by the names that nodes have in the tree. */
    var blockOf: map<Id, nat>

    ghost predicate Housed()
      reads this, store.index, store.index.adapter, store.heap, store.heap.Arrays(), store.heap.blocksMap, store.heap.blocksMap.low.vals, store.heap.blocksMap.high.vals
    {
      store.Valid() && Lodged(blockOf, store.heap.list, store.heap.blocksMap.held)
    }

    /** Every node of the index has its block. */
    ghost predicate Valid()
      reads this, store.index, store.index.adapter, store.heap, store.heap.Arrays(), store.heap.blocksMap, store.heap.blocksMap.low.vals, store.heap.blocksMap.high.vals
    {
      Housed() && blockOf.Keys == store.index.adapter.nodes.Keys
    }

    ghost function Contents(): map<int, seq<Byte>>
      requires Housed()
      reads this, store.index, store.index.adapter, store.heap, store.heap.Arrays(), store.heap.blocksMap, store.heap.blocksMap.low.vals, store.heap.blocksMap.high.vals
    {
      store.Contents()
    }

    ghost predicate Clean()
      requires Housed()
      reads this, store.index, store.index.adapter, store.heap, store.heap.Arrays(), store.heap.blocksMap, store.heap.blocksMap.low.vals, store.heap.blocksMap.high.vals
    {
      store.Clean()
    }

    ghost function LostPages(): set<nat>
      requires Housed()
      reads this, store.index, store.index.adapter, store.heap, store.heap.Arrays(), store.heap.blocksMap, store.heap.blocksMap.low.vals, store.heap.blocksMap.high.vals
    {
      store.LostPages()
    }

    /** The page whose pointer back an update of a record loses, if any. */
    ghost function SpoiltBy(id: int): set<nat>
      requires Housed()
      reads this, store.index, store.index.adapter, store.heap, store.heap.Arrays(), store.heap.blocksMap, store.heap.blocksMap.low.vals, store.heap.blocksMap.high.vals
    {
      if id in Contents() && id in store.index.Contents() then Spoilt(store.index.Contents()[id], store.heap.first) else {}
    }

    /** Room for new records, and the blocks that the index has taken. */
    ghost function Budget(): nat
      requires Housed()
      reads this, store.index, store.index.adapter, store.heap, store.heap.Arrays(), store.heap.blocksMap, store.heap.blocksMap.low.vals, store.heap.blocksMap.high.vals
    {
      store.Space() + NEW_SPACE * |blockOf|
    }

    /** There is room for new data, and for the nodes that the index may need with one id more. */
    ghost predicate Insertable(size: nat)
      requires Housed()
      reads this, store.index, store.index.adapter, store.heap, store.heap.Arrays(), store.heap.blocksMap, store.heap.blocksMap.low.vals, store.heap.blocksMap.high.vals
    {
      store.heap.Blanks() && size + HEADER_SIZE + NEW_SPACE * (1 + NodesFor(|Contents()| + 1)) <= Budget()
    }

    ghost predicate Removable(id: int)
      requires Housed() && id in Contents()
      reads this, store.index, store.index.adapter, store.heap, store.heap.Arrays(), store.heap.blocksMap, store.heap.blocksMap.low.vals, store.heap.blocksMap.high.vals
    {
      store.Removable(id)
    }

    ghost predicate Replaceable(id: int, size: nat)
      requires Housed() && id in Contents()
      reads this, store.index, store.index.adapter, store.heap, store.heap.Arrays(), store.heap.blocksMap, store.heap.blocksMap.low.vals, store.heap.blocksMap.high.vals
    {
      store.Replaceable(id, size)
    }

    constructor (relinkCousins: bool, dropsRight: bool, clearsNext: bool, clearsNodes: bool)
      ensures Valid() && Contents() == map[] && Budget() == 7166 * NEW_SPACE
      ensures fresh(store.index) && fresh(store.index.adapter) && fresh(store.heap) && fresh(store.heap.Arrays())
      ensures fresh(store.heap.blocksMap) && fresh(store.heap.blocksMap.low.vals) && fresh(store.heap.blocksMap.high.vals)
      ensures store.index.relinkCousins == relinkCousins && store.index.dropsRight == dropsRight
      ensures store.heap.clearsNext == clearsNext && store.heap.clearsNodes == clearsNodes
      ensures relinkCousins && dropsRight && clearsNext && clearsNodes ==> Clean()
    {
      hide RecordHeap.Valid, RecordHeap.Apart, RecordHeap.Pages, RecordHeap.Records, RecordHeap.Fine, RecordHeap.Blanks, BPlusTree.Valid, BPlusTree.Contents, BPlusTree.StallsAt, BPlusTree.StraysAt,
           BPlusTree.Capacities, IndexedHeap.Rows, HeapOk, Indexed, Head, Matched, IsRow, RowAt, Joined, RecordsOf, Lost, EndRoom, DataBlocksMap.Valid, Usable, StillHeld, NodesFor;
      store := new IndexedHeap(relinkCousins, dropsRight, clearsNext, clearsNodes);
      blockOf := map[];
    }

    // ---------- Blocks of the index ----------

    /** The nodes in `taken` have their blocks; what the database holds, its budget, its cleanness and its lost pointers are as given. */
    ghost predicate Settling(taken: map<Id, nat>, c: map<int, seq<Byte>>, room: nat, clean: bool, lost: set<nat>)
      reads store.index, store.index.adapter, store.heap, store.heap.Arrays(), store.heap.blocksMap, store.heap.blocksMap.low.vals, store.heap.blocksMap.high.vals
    {
      && store.Valid() && Lodged(taken, store.heap.list, store.heap.blocksMap.held)
      && store.Contents() == c && store.Space() + NEW_SPACE * |taken| == room && (clean ==> store.Clean()) && store.LostPages() == lost
    }

    /** A node gets the least free block. */
    method TakeBlock(taken: map<Id, nat>, id: Id, ghost c: map<int, seq<Byte>>, ghost room: nat, ghost clean: bool, ghost lost: set<nat>) returns (taken': map<Id, nat>)
      requires Settling(taken, c, room, clean, lost) && id !in taken && room >= NEW_SPACE * (|taken| + 2)
      modifies store.heap.Arrays(), store.heap.blocksMap`held, store.heap.blocksMap.low.vals, store.heap.blocksMap.high.vals
      ensures Settling(taken', c, room, clean, lost) && taken'.Keys == taken.Keys + {id}
    {
      hide IndexedHeap.Valid, IndexedHeap.Contents, IndexedHeap.Clean, IndexedHeap.Space, IndexedHeap.LostPages, RecordHeap.Apart, DataBlocksMap.Valid, Usable, Lodged;
      ghost var l, held := store.heap.list, store.heap.blocksMap.held;
      var b := store.Lend();
      LodgedPut(taken, l, held, id, b);
      taken' := taken[id := b];
    }

    /** After an insertion the new nodes get their blocks, in the order in which the nodes were made. */
    method TakeAll(ghost c: map<int, seq<Byte>>, ghost room: nat, ghost clean: bool, ghost lost: set<nat>) returns (taken: map<Id, nat>)
      requires Settling(blockOf, c, room, clean, lost) && blockOf.Keys <= store.index.adapter.nodes.Keys && room >= NEW_SPACE * (1 + |store.index.adapter.nodes|)
      requires forall id :: id in store.index.adapter.nodes ==> id < store.index.adapter.nextNodeID
      modifies store.heap.Arrays(), store.heap.blocksMap`held, store.heap.blocksMap.low.vals, store.heap.blocksMap.high.vals
      ensures Settling(taken, c, room, clean, lost) && taken.Keys == store.index.adapter.nodes.Keys
    {
      hide Settling;
      taken := blockOf;
      for id := 0 to store.index.adapter.nextNodeID
        invariant Settling(taken, c, room, clean, lost) && taken.Keys <= store.index.adapter.nodes.Keys
        invariant forall x :: x in store.index.adapter.nodes && x < id ==> x in taken
      {
        if id in store.index.adapter.nodes && id !in taken {
          OneShort(taken, store.index.adapter.nodes, id);
          taken := TakeBlock(taken, id, c, room, clean, lost);
        }
      }
      assert taken.Keys == store.index.adapter.nodes.Keys;
    }

    ghost predicate Releasing(kept: map<Id, nat>)
      reads store.heap, store.heap.Arrays(), store.heap.blocksMap, store.heap.blocksMap.low.vals, store.heap.blocksMap.high.vals
    {
      store.heap.Apart() && store.heap.blocksMap.Valid() && Lodged(kept, store.heap.list, store.heap.blocksMap.held)
    }

    /** The block of a freed node is free; where it is not cleared nothing is promised about the heap. */
    method GiveBlock(kept: map<Id, nat>, id: Id, ghost c: map<int, seq<Byte>>, ghost room: nat, ghost clean: bool, ghost lost: set<nat>) returns (kept': map<Id, nat>)
      requires Releasing(kept) && id in kept
      modifies store.heap.Arrays(), store.heap.blocksMap`held, store.heap.blocksMap.low.vals, store.heap.blocksMap.high.vals
      ensures Releasing(kept') && kept' == kept - {id}
      ensures store.heap.clearsNodes && old(Settling(kept, c, room, clean, lost)) ==> Settling(kept', c, room, clean, lost)
    {
      hide IndexedHeap.Valid, IndexedHeap.Contents, IndexedHeap.Clean, IndexedHeap.Space, IndexedHeap.LostPages, RecordHeap.Apart, DataBlocksMap.Valid, Usable, Lodged;
      ghost var l, held := store.heap.list, store.heap.blocksMap.held;
      LodgedDrop(kept, l, held, id);
      store.TakeBack(kept[id]);
      kept' := kept - {id};
    }

    /** After a deletion the blocks of the freed nodes are free. */
    method GiveAll(ghost c: map<int, seq<Byte>>, ghost room: nat, ghost clean: bool, ghost lost: set<nat>) returns (kept: map<Id, nat>)
      requires Settling(blockOf, c, room, clean, lost) && store.index.adapter.nodes.Keys <= blockOf.Keys
      modifies store.heap.Arrays(), store.heap.blocksMap`held, store.heap.blocksMap.low.vals, store.heap.blocksMap.high.vals
      ensures kept.Keys == store.index.adapter.nodes.Keys
      ensures store.heap.clearsNodes || blockOf.Keys == store.index.adapter.nodes.Keys ==> Settling(kept, c, room, clean, lost)
    {
      hide Settling, Releasing;
      ReleaseReady(c, room, clean, lost);
      kept := blockOf;
      var gone := kept.Keys - store.index.adapter.nodes.Keys;
      while gone != {}
        invariant gone == kept.Keys - store.index.adapter.nodes.Keys && store.index.adapter.nodes.Keys <= kept.Keys <= blockOf.Keys
        invariant Releasing(kept)
        invariant store.heap.clearsNodes || kept.Keys == blockOf.Keys ==> Settling(kept, c, room, clean, lost)
        decreases gone
      {
        var id :| id in gone;
        kept := GiveBlock(kept, id, c, room, clean, lost);
        gone := gone - {id};
      }
      NoneOver(kept.Keys, store.index.adapter.nodes.Keys);
    }

    method TakeBlocks(ghost c: map<int, seq<Byte>>, ghost room: nat, ghost clean: bool, ghost lost: set<nat>)
      requires Settling(blockOf, c, room, clean, lost) && blockOf.Keys <= store.index.adapter.nodes.Keys && room >= NEW_SPACE * (1 + |store.index.adapter.nodes|)
      requires forall id :: id in store.index.adapter.nodes ==> id < store.index.adapter.nextNodeID
      modifies this`blockOf, store.heap.Arrays(), store.heap.blocksMap`held, store.heap.blocksMap.low.vals, store.heap.blocksMap.high.vals
      ensures Valid() && Contents() == c && Budget() == room && (clean ==> Clean()) && LostPages() == lost
    {
      hide IndexedHeap.Valid, IndexedHeap.Contents, IndexedHeap.Clean, IndexedHeap.Space, IndexedHeap.LostPages, Lodged;
      var taken := TakeAll(c, room, clean, lost);
      blockOf := taken;
    }

    method GiveBlocks(ghost c: map<int, seq<Byte>>, ghost room: nat, ghost clean: bool, ghost lost: set<nat>)
      requires Settling(blockOf, c, room, clean, lost) && store.index.adapter.nodes.Keys <= blockOf.Keys
      modifies this`blockOf, store.heap.Arrays(), store.heap.blocksMap`held, store.heap.blocksMap.low.vals, store.heap.blocksMap.high.vals
      ensures store.heap.clearsNodes || old(blockOf.Keys) == store.index.adapter.nodes.Keys ==>
                Valid() && Contents() == c && Budget() == room && (clean ==> Clean()) && LostPages() == lost
    {
      hide IndexedHeap.Valid, IndexedHeap.Contents, IndexedHeap.Clean, IndexedHeap.Space, IndexedHeap.LostPages, Lodged;
      var kept := GiveAll(c, room, clean, lost);
      blockOf := kept;
    }

    lemma {:induction false} ReleaseReady(c: map<int, seq<Byte>>, room: nat, clean: bool, lost: set<nat>)
      requires Settling(blockOf, c, room, clean, lost)
      ensures Releasing(blockOf)
    {
      hide HeapState, Lodged, Indexed, DataBlocksMap.Valid, RecordHeap.Apart, BPlusTree.Valid, BPlusTree.Contents;
    }

    // ---------- Operations ----------

    method Insert(id: int, data: seq<Byte>) returns (res: Outcome)
      requires Valid() && 0 < id < 0x1_0000_0000 && data != [] && (id !in Contents() ==> Insertable(|data|))
      modifies store.index.adapter, store.index`tree, store.index`height, store.heap`first, store.heap`nextAvailable, store.heap`list,
               this`blockOf, store.heap.Arrays(), store.heap.blocksMap`held, store.heap.blocksMap.low.vals, store.heap.blocksMap.high.vals
      ensures Valid() && res == (if id in old(Contents()) then KeyExists else Outcome.Done)
      ensures Contents() == if id in old(Contents()) then old(Contents()) else old(Contents())[id := data]
      ensures (old(Clean()) ==> Clean()) && Budget() + |data| + HEADER_SIZE >= old(Budget()) && LostPages() == old(LostPages())
    {
      hide IndexedHeap.Valid, IndexedHeap.Contents, IndexedHeap.Clean, IndexedHeap.Space, IndexedHeap.LostPages, RecordHeap.Valid, RecordHeap.Apart, RecordHeap.Pages, RecordHeap.Records, RecordHeap.Fine, RecordHeap.Blanks, BPlusTree.Valid, BPlusTree.Contents, BPlusTree.StallsAt, BPlusTree.StraysAt,
           BPlusTree.Capacities, IndexedHeap.Rows, HeapOk, Indexed, Head, Matched, IsRow, RowAt, Joined, RecordsOf, Lost, EndRoom, DataBlocksMap.Valid, Usable, StillHeld, Lodged, NodesFor;
      ghost var l, held := store.heap.list, store.heap.blocksMap.held;
      store.NodesFit();
      NodesMore(|Contents()|);
      FewerKeys(blockOf, store.index.adapter.nodes);
      res := store.Insert(id, data);
      LodgedStill(blockOf, l, held, store.heap.list, store.heap.blocksMap.held);
      if res == Outcome.Done {
        store.NodesFit();
        TakeBlocks(Contents(), Budget(), Clean(), LostPages());
      }
    }

    method Delete(id: int) returns (res: Outcome)
      requires Valid() && (id in Contents() ==> Removable(id))
      modifies store.index.adapter`nodes, store.index.adapter`rootID, store.index`tree, store.index`height, store.heap`first, store.heap`nextAvailable, store.heap`list,
               this`blockOf, store.heap.Arrays(), store.heap.blocksMap`held, store.heap.blocksMap.low.vals, store.heap.blocksMap.high.vals
      ensures res != KeyExists && (res == KeyNotFound <==> id !in old(Contents()))
      ensures res == Panicked <==> id in old(Contents()) && old(store.index.StallsAt(id))
      ensures res == Strayed <==> id in old(Contents()) && old(store.index.StraysAt(id))
      ensures res == KeyNotFound || (res == Outcome.Done && (old(Clean()) || store.heap.clearsNodes || store.index.adapter.nodes.Keys == old(store.index.adapter.nodes.Keys))) ==>
                Valid() && Contents() == old(Contents()) - {id} && Budget() >= old(Budget()) && LostPages() <= old(LostPages())
      ensures old(Clean()) ==> res != Panicked && res != Strayed && Valid() && Clean()
    {
      hide IndexedHeap.Valid, IndexedHeap.Contents, IndexedHeap.Clean, IndexedHeap.Space, IndexedHeap.LostPages, RecordHeap.Valid, RecordHeap.Apart, RecordHeap.Pages, RecordHeap.Records, RecordHeap.Fine, RecordHeap.Blanks, BPlusTree.Valid, BPlusTree.Contents, BPlusTree.StallsAt, BPlusTree.StraysAt,
           BPlusTree.Capacities, IndexedHeap.Rows, HeapOk, Indexed, Head, Matched, IsRow, RowAt, Joined, RecordsOf, Lost, EndRoom, DataBlocksMap.Valid, Usable, StillHeld, Lodged, NodesFor;
      ghost var l, held := store.heap.list, store.heap.blocksMap.held;
      store.CleanClears();
      res := store.Delete(id);
      LodgedStill(blockOf, l, held, store.heap.list, store.heap.blocksMap.held);
      if res == Outcome.Done {
        GiveBlocks(Contents(), Budget(), Clean(), LostPages());
      }
    }

    lemma {:induction false} CleanRemovable(id: int)
      requires Valid() && Clean() && id in Contents()
      ensures Removable(id)
    {
      hide IndexedHeap.Valid, IndexedHeap.Clean, IndexedHeap.Contents, IndexedHeap.Removable, Lodged;
      store.CleanRemovable(id);
    }

    lemma {:induction false} CleanInsertable(size: nat)
      requires Valid() && Clean() && size + HEADER_SIZE + NEW_SPACE * (1 + NodesFor(|Contents()| + 1)) <= Budget()
      ensures Insertable(size)
    {
      hide IndexedHeap.Valid, IndexedHeap.Contents, IndexedHeap.Space, IndexedHeap.LostPages, RecordHeap.Blanks, Lodged, NodesFor;
      store.CleanBlanks();
    }

    method Update(id: int, data: seq<Byte>) returns (res: Outcome)
      requires Valid() && 0 < id < 0x1_0000_0000 && data != [] && (id in Contents() ==> Replaceable(id, |data|))
      modifies store.heap`first, store.heap`nextAvailable, store.heap`list, store.heap.Arrays(), store.heap.blocksMap`held,
               store.heap.blocksMap.low.vals, store.heap.blocksMap.high.vals
      ensures Valid() && res == (if id in old(Contents()) then Outcome.Done else KeyNotFound)
      ensures Contents() == if id in old(Contents()) then old(Contents())[id := data] else old(Contents())
      ensures LostPages() <= old(LostPages()) + old(SpoiltBy(id)) && (old(Clean()) ==> (Clean() <==> old(SpoiltBy(id)) == {}))
    {
      hide RecordHeap.Valid, RecordHeap.Apart, RecordHeap.Pages, RecordHeap.Records, RecordHeap.Fine, RecordHeap.Blanks, BPlusTree.Valid, BPlusTree.Contents, BPlusTree.StallsAt, BPlusTree.StraysAt,
           BPlusTree.Capacities, IndexedHeap.Rows, HeapOk, Indexed, Head, Matched, IsRow, RowAt, Joined, RecordsOf, Lost, EndRoom, DataBlocksMap.Valid, Usable, StillHeld, Lodged, NodesFor;
      ghost var l, held := store.heap.list, store.heap.blocksMap.held;
      res := store.Update(id, data);
      LodgedStill(blockOf, l, held, store.heap.list, store.heap.blocksMap.held);
    }

    method Find(id: int) returns (res: Result<Record>)
      requires Valid()
      ensures Valid() && res == if id in Contents() then Result.Done(Record(id, Contents()[id])) else Refused
    {
      hide RecordHeap.Valid, RecordHeap.Apart, RecordHeap.Pages, RecordHeap.Records, RecordHeap.Fine, RecordHeap.Blanks, BPlusTree.Valid, BPlusTree.Contents, BPlusTree.StallsAt, BPlusTree.StraysAt,
           BPlusTree.Capacities, IndexedHeap.Rows, HeapOk, Indexed, Head, Matched, IsRow, RowAt, Joined, RecordsOf, Lost, EndRoom, DataBlocksMap.Valid, Usable, StillHeld, Lodged, NodesFor;
      res := store.Find(id);
      assert unchanged(this, store.index, store.index.adapter, store.heap, store.heap.Arrays(), store.heap.blocksMap, store.heap.blocksMap.low.vals, store.heap.blocksMap.high.vals);
    }

    method Search(matches: seq<Byte> -> bool) returns (found: seq<Record>)
      requires Valid()
      ensures Valid() && forall i, j :: 0 <= i < j < |found| ==> found[i].id < found[j].id
      ensures forall rec :: rec in found <==> rec.id in Contents() && rec.data == Contents()[rec.id] && matches(rec.data)
    {
      hide RecordHeap.Valid, RecordHeap.Apart, RecordHeap.Pages, RecordHeap.Records, RecordHeap.Fine, RecordHeap.Blanks, BPlusTree.Valid, BPlusTree.Contents, BPlusTree.StallsAt, BPlusTree.StraysAt,
           BPlusTree.Capacities, IndexedHeap.Rows, HeapOk, Indexed, Head, Matched, IsRow, RowAt, Joined, RecordsOf, Lost, EndRoom, DataBlocksMap.Valid, Usable, StillHeld, Lodged, NodesFor;
      found := store.Search(matches);
      assert unchanged(this, store.index, store.index.adapter, store.heap, store.heap.Arrays(), store.heap.blocksMap, store.heap.blocksMap.low.vals, store.heap.blocksMap.high.vals);
    }
  }
}
