/** An index from ids to rows over a heap of records, seen as one map from ids to data. */
module IndexedHeaps {
  import opened RowIDs
  import opened Results
  import opened DataBlocks
  import opened RecordPages
  import opened PageViews
  import opened HeapModel
  import opened HeapWrites
  import opened HeapRemovals
  import opened HeapRecords
  import opened HeapOwners
  import opened BlockMaps
  import opened RecordHeaps
  import opened BTreeNodes
  import opened BTreeModel
  import opened BTreeCounts
  import BTreeSearch
  import opened BTreeStore
  import opened BPlusTrees

  const LEAF_ENTRIES: nat := 510
  const BRANCH_ENTRIES: nat := 680

  /** As many nodes as an index of so many ids may take. */
  function NodesFor(ids: nat): nat {
    MaxNodes(Caps(LEAF_ENTRIES, BRANCH_ENTRIES), ids)
  }

  lemma {:induction false} NodesMore(ids: nat)
    ensures NodesFor(ids) <= NodesFor(ids + 1)
  {
  }

  datatype Record = Record(id: int, data: seq<Byte>)

  // ---------- Searching ----------

  /** The records found so far are those among the ids seen that match. */
  ghost predicate Sought(found: seq<Record>, seen: set<int>, c: map<int, seq<Byte>>, matches: seq<Byte> -> bool) {
    && (forall k :: k in seen ==> k in c)
    && (forall i, j :: 0 <= i < j < |found| ==> found[i].id < found[j].id)
    && (forall i :: 0 <= i < |found| ==> found[i].id in seen)
    && (forall rec :: rec in found <==> rec.id in seen && rec.data == c[rec.id] && matches(rec.data))
  }

  lemma {:induction false} SoughtNext(found: seq<Record>, seen: set<int>, c: map<int, seq<Byte>>, matches: seq<Byte> -> bool, k: int)
    requires Sought(found, seen, c, matches) && k in c && forall j :: j in seen ==> j < k
    ensures Sought(if matches(c[k]) then found + [Record(k, c[k])] else found, seen + {k}, c, matches)
  {
  }

  lemma {:induction false} NoneSought(c: map<int, seq<Byte>>, matches: seq<Byte> -> bool)
    ensures Sought([], {}, c, matches)
  {
  }

  lemma {:induction false} AllSought(found: seq<Record>, seen: set<int>, c: map<int, seq<Byte>>, matches: seq<Byte> -> bool)
    requires Sought(found, seen, c, matches) && forall k :: k in c ==> k in seen
    ensures forall i, j :: 0 <= i < j < |found| ==> found[i].id < found[j].id
    ensures forall rec :: rec in found <==> rec.id in c && rec.data == c[rec.id] && matches(rec.data)
  {
  }

  class IndexedHeap {
    const index: BPlusTree
    const heap: RecordHeap

    /** The index leads to exactly the records of the heap. */
    ghost predicate Valid()
      reads index, index.adapter, heap, heap.Arrays(), heap.blocksMap, heap.blocksMap.low.vals, heap.blocksMap.high.vals
    {
      && index.Valid() && heap.Valid() && Indexed(index.Contents(), heap.Pages(), heap.list)
      && index.Capacities() == Caps(LEAF_ENTRIES, BRANCH_ENTRIES)
    }

    /** What the database holds. */
    ghost function Contents(): map<int, seq<Byte>>
      requires Valid()
      reads index, index.adapter, heap, heap.Arrays(), heap.blocksMap, heap.blocksMap.low.vals, heap.blocksMap.high.vals
    {
      Joined(index.Contents(), heap.Records())
    }

    /** Nothing is left behind that the original could stumble over, and all repairs are made. */
    ghost predicate Clean()
      requires Valid()
      reads index, index.adapter, heap, heap.Arrays(), heap.blocksMap, heap.blocksMap.low.vals, heap.blocksMap.high.vals
    {
      && heap.clearsNext && heap.clearsNodes && index.relinkCousins && index.dropsRight && heap.Blanks()
      && Lost(heap.Pages(), heap.list) == {}
    }

    /** The pages whose pointer back is lost. */
    ghost function LostPages(): set<nat>
      requires Valid()
      reads index, index.adapter, heap, heap.Arrays(), heap.blocksMap, heap.blocksMap.low.vals, heap.blocksMap.high.vals
    {
      Lost(heap.Pages(), heap.list)
    }

    /** Room for the data of new records. */
    ghost function Space(): nat
      requires Valid()
      reads index, index.adapter, heap, heap.Arrays(), heap.blocksMap, heap.blocksMap.low.vals, heap.blocksMap.high.vals
    {
      EndRoom(heap.Pages(), heap.list, heap.blocksMap.held)
    }

    /** There are blank blocks, and pages, enough for new data. */
    ghost predicate Insertable(size: nat)
      requires Valid()
      reads index, index.adapter, heap, heap.Arrays(), heap.blocksMap, heap.blocksMap.low.vals, heap.blocksMap.high.vals
    {
      heap.Blanks() && size <= Space()
    }

    constructor (relinkCousins: bool, dropsRight: bool, clearsNext: bool, clearsNodes: bool)
      ensures Valid() && Contents() == map[]
      ensures fresh(index) && fresh(index.adapter) && fresh(heap) && fresh(heap.Arrays())
      ensures fresh(heap.blocksMap) && fresh(heap.blocksMap.low.vals) && fresh(heap.blocksMap.high.vals)
      ensures index.relinkCousins == relinkCousins && index.dropsRight == dropsRight && heap.clearsNext == clearsNext && heap.clearsNodes == clearsNodes
      ensures index.adapter.nodes == map[] && (relinkCousins && dropsRight && clearsNext && clearsNodes ==> Clean()) && Space() == 7166 * NEW_SPACE
    {
      hide RecordHeap.Apart, RecordHeap.Pages, RecordHeap.Fine, BPlusTree.Configured, BPlusTree.Holds, BPlusTree.Contents,
           HeapOk, Indexed, Head, IsRow, RowAt, RecordsOf, Lost, EndRoom, HeapState, DataBlocksMap.Valid, BlanksOf, Joined, Usable;
      var h := new RecordHeap(clearsNext, clearsNodes);
      var adapter := new InMemoryAdapter();
      label Made:
      var i := new BPlusTree(adapter, LEAF_ENTRIES, BRANCH_ENTRIES, relinkCousins, dropsRight);
      assert unchanged@Made(h, h.Arrays(), h.blocksMap, h.blocksMap.low.vals, h.blocksMap.high.vals);
      index, heap := i, h;
      new;
      Heads();
      NothingIndexed(heap.Pages(), heap.list);
    }

    lemma {:induction false} Heads()
      requires heap.Valid()
      ensures heap.Apart() && HeapOk(heap.Pages(), heap.list) && |heap.Pages()| == TOTAL && heap.nextAvailable in heap.list
      ensures forall r :: r in heap.Records() <==> Head(heap.Pages(), heap.list, r)
      ensures forall b :: b in heap.list ==> 2 < b < TOTAL
    {
      hide HeapOk, RecordsOf, Head, RecordHeap.Apart, RecordHeap.Pages, RecordHeap.Fine, DataBlocksMap.Valid;
      StateFacts(heap.Pages(), heap.list, heap.first, heap.nextAvailable, heap.blocksMap.held, heap.Fine(), -1, heap.clearsNext);
      RecordsKeys(heap.Pages(), heap.list);
    }

    /** What the parts of a valid database say about the rows of its records. */
    lemma {:induction false} Parts()
      requires Valid()
      ensures Matched(index.Contents(), heap.Records()) && forall k :: k in Contents() <==> k in index.Contents()
      ensures !Head(heap.Pages(), heap.list, NO_ROW)
      ensures forall k :: k in index.Contents() ==>
                var r := index.Contents()[k];
                IsRow(heap.Pages(), r) && r.block in heap.list && r.block > 2 && RowAt(heap.Pages(), r).id == k
      ensures heap.Apart() && HeapOk(heap.Pages(), heap.list) && |heap.Pages()| == TOTAL && heap.nextAvailable in heap.list
      ensures forall r :: r in heap.Records() <==> Head(heap.Pages(), heap.list, r)
      ensures forall b :: b in heap.list ==> 2 < b < TOTAL
    {
      hide HeapOk, Indexed, Matched, Joined, RecordsOf, Head, RecordHeap.Apart, RecordHeap.Pages, RecordHeap.Fine, DataBlocksMap.Valid;
      Heads();
      IndexedMatched(index.Contents(), heap.Pages(), heap.list);
    }

    /** The rows of a record. */
    ghost function Rows(id: int): (path: seq<RowID>)
      requires Valid() && id in Contents()
      reads index, index.adapter, heap, heap.Arrays(), heap.blocksMap, heap.blocksMap.low.vals, heap.blocksMap.high.vals
      ensures IsChain(heap.Pages(), path) && path[0] == index.Contents()[id]
    {
      Parts();
      RowsFrom(heap.Pages(), heap.list, index.Contents()[id])
    }

    /** Wherever removing a record empties a page, the pointer back of that page is exact. */
    ghost predicate Removable(id: int)
      requires Valid() && id in Contents()
      reads index, index.adapter, heap, heap.Arrays(), heap.blocksMap, heap.blocksMap.low.vals, heap.blocksMap.high.vals
    {
      Leavable(heap.Pages(), heap.list, Rows(id), heap.nextAvailable)
    }

    /** The record of an id, or none. */
    method Find(id: int) returns (res: Result<Record>)
      requires Valid()
      ensures Valid() && res == if id in Contents() then Result.Done(Record(id, Contents()[id])) else Refused
    {
      hide RecordHeap.Valid, RecordHeap.Holds, RecordHeap.Apart, RecordHeap.Pages, RecordHeap.Records, BPlusTree.Valid, BPlusTree.Contents,
           HeapOk, Indexed, Head, Matched, IsRow, RowAt, Stored, IsChain, DataOf, RecordsOf, BPlusTree.StallsAt, BPlusTree.StraysAt, BPlusTree.Capacities, StillHeld, RecordHeap.Fine, RecordHeap.Blanks;
      Parts();
      var found := index.Find(id);
      assert unchanged(heap, heap.Arrays(), heap.blocksMap, heap.blocksMap.low.vals, heap.blocksMap.high.vals);
      assert heap.Valid();
      match found
      case None => return Refused;
      case Some(rowID) =>
        var data := heap.Load(rowID);
        assert unchanged(heap, heap.Arrays(), heap.blocksMap, heap.blocksMap.low.vals, heap.blocksMap.high.vals);
        assert Valid();
        match data
        case Refused => return Refused;
        case Done(d) => return Result.Done(Record(id, d));
    }

    /** A new record under a new id. */
    method Insert(id: int, data: seq<Byte>) returns (res: Outcome)
      requires Valid() && 0 < id < 0x1_0000_0000 && data != [] && (id !in Contents() ==> Insertable(|data|))
      modifies index.adapter, index`tree, index`height, heap`first, heap`nextAvailable, heap`list, heap.Arrays(), heap.blocksMap`held, heap.blocksMap.low.vals, heap.blocksMap.high.vals
      ensures res == KeyExists ==> index.adapter.nodes == old(index.adapter.nodes)
      ensures old(index.adapter.nodes.Keys) <= index.adapter.nodes.Keys && StillHeld(old(heap.list), old(heap.blocksMap.held), heap.list, heap.blocksMap.held)
      ensures Valid() && res == (if id in old(Contents()) then KeyExists else Outcome.Done)
      ensures Contents() == if id in old(Contents()) then old(Contents()) else old(Contents())[id := data]
      ensures (old(Clean()) ==> Clean()) && Space() + |data| + HEADER_SIZE >= old(Space()) && LostPages() == old(LostPages())
    {
      hide RecordHeap.Holds, RecordHeap.Apart, RecordHeap.Pages, RecordHeap.Records, RecordHeap.Fine, RecordHeap.Grown, BPlusTree.Valid, BPlusTree.Contents, BPlusTree.StallsAt, BPlusTree.StraysAt, BPlusTree.Capacities, StillHeld,
           HeapOk, Indexed, Head, Matched, IsRow, RowAt, Stored, IsChain, DataOf, RecordsOf, Written, Lost, EndRoom, Room, HasId, HeapState, DataBlocksMap.Valid, BlanksOf, Joined, Usable,
           RowsLess, Leaves, Leavable, Sieve;
      HeldSame(heap.list, heap.blocksMap.held);
      Parts();
      var found := index.Find(id);
      assert unchanged(heap, heap.Arrays(), heap.blocksMap, heap.blocksMap.low.vals, heap.blocksMap.high.vals);
      assert Valid() && Contents() == old(Contents());
      var rowID := if found == None then NO_ROW else found.value;
      if rowID != NO_ROW {
        return KeyExists;
      }
      Store(id, data);
      return Outcome.Done;
    }

    /** Stores a new record and enters it in the index. */
    method Store(id: int, data: seq<Byte>)
      requires Valid() && 0 < id < 0x1_0000_0000 && data != [] && id !in Contents() && Insertable(|data|)
      modifies index.adapter, index`tree, index`height, heap`first, heap`nextAvailable, heap`list, heap.Arrays(), heap.blocksMap`held, heap.blocksMap.low.vals, heap.blocksMap.high.vals
      ensures old(index.adapter.nodes.Keys) <= index.adapter.nodes.Keys && StillHeld(old(heap.list), old(heap.blocksMap.held), heap.list, heap.blocksMap.held)
      ensures Valid() && Contents() == old(Contents())[id := data]
      ensures (old(Clean()) ==> Clean()) && Space() + |data| + HEADER_SIZE >= old(Space()) && LostPages() == old(LostPages())
    {
      hide RecordHeap.Holds, RecordHeap.Apart, RecordHeap.Pages, RecordHeap.Records, RecordHeap.Fine, RecordHeap.Grown, BPlusTree.Valid, BPlusTree.Contents, BPlusTree.StallsAt, BPlusTree.StraysAt, BPlusTree.Capacities, StillHeld,
           HeapOk, Indexed, Head, Matched, IsRow, RowAt, Stored, IsChain, DataOf, RecordsOf, Written, Lost, EndRoom, Room, HasId, HeapState, DataBlocksMap.Valid, BlanksOf, Joined, Usable,
           RowsLess, Leaves, Leavable, Sieve;
      Parts();
      ghost var m, pages, l, records := index.Contents(), heap.Pages(), heap.list, heap.Records();
      NewId(m, pages, l, id, heap.nextAvailable);
      var r;
      ghost var path;
      r, path := heap.Add(id, data);
      label Added:
      Heads();
      IndexGrown(m, pages, l, heap.Pages(), heap.list, path, id, data);
      JoinedPut(m, records, id, r, data);
      var res := index.Insert(id, r);
      assert unchanged@Added(heap, heap.Arrays(), heap.blocksMap, heap.blocksMap.low.vals, heap.blocksMap.high.vals);
    }

    /** The record of an id goes, and the id with it, unless the index gets stuck or goes astray. */
    method Delete(id: int) returns (res: Outcome)
      requires Valid() && (id in Contents() ==> Removable(id))
      modifies index.adapter`nodes, index.adapter`rootID, index`tree, index`height, heap`first, heap`nextAvailable, heap`list, heap.Arrays(), heap.blocksMap`held, heap.blocksMap.low.vals, heap.blocksMap.high.vals
      ensures res == KeyNotFound ==> index.adapter.nodes == old(index.adapter.nodes)
      ensures index.adapter.nodes.Keys <= old(index.adapter.nodes.Keys) && StillHeld(old(heap.list), old(heap.blocksMap.held), heap.list, heap.blocksMap.held)
      ensures res != KeyExists && (res == KeyNotFound <==> id !in old(Contents()))
      ensures res == Panicked <==> id in old(Contents()) && old(index.StallsAt(id))
      ensures res == Strayed <==> id in old(Contents()) && old(index.StraysAt(id))
      ensures res != Panicked && res != Strayed ==> Valid() && Contents() == old(Contents()) - {id} && Space() >= old(Space()) && LostPages() <= old(LostPages())
      ensures old(Clean()) ==> res != Panicked && res != Strayed && Clean()
    {
      hide RecordHeap.Holds, RecordHeap.Apart, RecordHeap.Pages, RecordHeap.Records, RecordHeap.Fine, RecordHeap.Grown, BPlusTree.Valid, BPlusTree.Contents, BPlusTree.StallsAt, BPlusTree.StraysAt, BPlusTree.Capacities, StillHeld,
           HeapOk, Indexed, Head, Matched, IsRow, RowAt, Stored, IsChain, DataOf, RecordsOf, Written, Lost, EndRoom, Room, HasId, HeapState, DataBlocksMap.Valid, BlanksOf, Joined, Usable,
           RowsLess, Leaves, Leavable, Sieve;
      HeldSame(heap.list, heap.blocksMap.held);
      Parts();
      var found := index.Find(id);
      assert unchanged(heap, heap.Arrays(), heap.blocksMap, heap.blocksMap.low.vals, heap.blocksMap.high.vals);
      assert Valid() && Contents() == old(Contents());
      if found == None {
        return KeyNotFound;
      }
      res := Discard(id, found.value);
    }

    /** Removes a record and its entry in the index. */
    method Discard(id: int, r: RowID) returns (res: Outcome)
      requires Valid() && id in Contents() && r == index.Contents()[id] && Removable(id)
      modifies index.adapter`nodes, index.adapter`rootID, index`tree, index`height, heap`first, heap`nextAvailable, heap`list, heap.Arrays(), heap.blocksMap`held, heap.blocksMap.low.vals, heap.blocksMap.high.vals
      ensures index.adapter.nodes.Keys <= old(index.adapter.nodes.Keys) && StillHeld(old(heap.list), old(heap.blocksMap.held), heap.list, heap.blocksMap.held)
      ensures res != KeyExists && res != KeyNotFound && (res == Panicked <==> old(index.StallsAt(id))) && (res == Strayed <==> old(index.StraysAt(id)))
      ensures res != Panicked && res != Strayed ==> Valid() && Contents() == old(Contents()) - {id} && Space() >= old(Space()) && LostPages() <= old(LostPages())
      ensures old(Clean()) ==> res != Panicked && res != Strayed && Clean()
    {
      hide RecordHeap.Holds, RecordHeap.Apart, RecordHeap.Pages, RecordHeap.Records, RecordHeap.Fine, RecordHeap.Grown, BPlusTree.Valid, BPlusTree.Contents, BPlusTree.StallsAt, BPlusTree.StraysAt, BPlusTree.Capacities, StillHeld,
           HeapOk, Indexed, Head, Matched, IsRow, RowAt, Stored, IsChain, DataOf, RecordsOf, Written, Lost, EndRoom, Room, HasId, HeapState, DataBlocksMap.Valid, BlanksOf, Joined, Usable,
           RowsLess, Leaves, Leavable, Sieve;
      Parts();
      ghost var m, pages, l, records, path := index.Contents(), heap.Pages(), heap.list, heap.Records(), Rows(id);
      var ok; ghost var gone;
      ok, gone := heap.Remove(r, path);
      label Removed:
      Heads();
      IndexShrunk(m, pages, l, heap.Pages(), heap.list, path, id);
      JoinedDrop(m, records, id);
      res := index.Delete(id);
      assert unchanged@Removed(heap, heap.Arrays(), heap.blocksMap, heap.blocksMap.low.vals, heap.blocksMap.high.vals);
    }

    /** A free block goes to the index. */
    method Lend() returns (b: nat)
      requires Valid() && Space() > NEW_SPACE
      modifies heap.Arrays(), heap.blocksMap`held, heap.blocksMap.low.vals, heap.blocksMap.high.vals
      ensures Valid() && b !in old(heap.blocksMap.held) && b in Usable() && b > 2 && b !in heap.list && heap.blocksMap.held == old(heap.blocksMap.held) + {b}
      ensures Contents() == old(Contents()) && Space() + NEW_SPACE == old(Space()) && (old(Clean()) ==> Clean()) && LostPages() == old(LostPages())
    {
      hide RecordHeap.Holds, RecordHeap.Apart, RecordHeap.Pages, RecordHeap.Records, RecordHeap.Fine, BPlusTree.Valid, BPlusTree.Contents, BPlusTree.Capacities,
           HeapOk, Indexed, Head, Matched, IsRow, RowAt, RecordsOf, Lost, EndRoom, HeapState, DataBlocksMap.Valid, BlanksOf, Joined, Usable, SameBut, Blank;
      Parts();
      ghost var m, pages, l := index.Contents(), heap.Pages(), heap.list;
      FreeBlock(pages, l, heap.blocksMap.held);
      b := heap.Lend();
      Heads();
      IndexOff(m, pages, heap.Pages(), l, b);
    }

    /** A block of the index is given back; where it is not cleared nothing is promised about the database. */
    method TakeBack(b: nat)
      requires heap.Apart() && heap.blocksMap.Valid() && b in heap.blocksMap.held && b !in heap.list && b > 2
      modifies heap.Arrays(), heap.blocksMap`held, heap.blocksMap.low.vals, heap.blocksMap.high.vals
      ensures heap.Apart() && heap.blocksMap.Valid() && heap.blocksMap.held == old(heap.blocksMap.held) - {b}
      ensures heap.clearsNodes && old(Valid()) ==>
                Valid() && Contents() == old(Contents()) && Space() == old(Space()) + NEW_SPACE && (old(Clean()) ==> Clean()) && LostPages() == old(LostPages())
    {
      hide RecordHeap.Holds, RecordHeap.Apart, RecordHeap.Pages, RecordHeap.Records, RecordHeap.Fine, BPlusTree.Valid, BPlusTree.Contents, BPlusTree.Capacities,
           HeapOk, Indexed, Head, Matched, IsRow, RowAt, RecordsOf, Lost, EndRoom, HeapState, DataBlocksMap.Valid, BlanksOf, Joined, Usable, SameBut, Blank;
      ghost var valid := Valid();
      if valid { Parts(); }
      ghost var m, pages, l := index.Contents(), heap.Pages(), heap.list;
      heap.TakeBack(b);
      if valid && heap.clearsNodes {
        Heads();
        IndexOff(m, pages, heap.Pages(), l, b);
      }
    }

    /** The index takes one node, and two for every half leaf of ids. */
    lemma {:induction false} NodesFit()
      requires Valid()
      ensures |index.adapter.nodes| <= NodesFor(|Contents()|) && forall id :: id in index.adapter.nodes ==> id < index.adapter.nextNodeID
    {
      hide HeapOk, Indexed, Matched, Joined, RecordsOf, Head, RecordHeap.Apart, RecordHeap.Pages, RecordHeap.Records, RecordHeap.Valid, RecordHeap.Fine, DataBlocksMap.Valid,
           BPlusTree.Contents, BPlusTree.Valid, BPlusTree.Capacities, Contents, IsRow, RowAt, MaxNodes;
      Parts();
      index.NodeLimit();
      SameSize(Contents(), index.Contents());
    }

    lemma {:induction false} CleanClears()
      requires Valid()
      ensures Clean() ==> heap.clearsNodes
    {
      hide Valid, Lost;
    }

    lemma {:induction false} CleanBlanks()
      requires Valid()
      ensures Clean() ==> heap.Blanks()
    {
      hide BPlusTree.Valid, RecordHeap.Valid, Lost, Indexed, RecordHeap.Blanks;
    }

    /** Where no pointer back is lost, every record can be removed. */
    lemma {:induction false} CleanRemovable(id: int)
      requires Valid() && Clean() && id in Contents()
      ensures Removable(id)
    {
      hide Lost, Contents, RecordHeap.Valid, BPlusTree.Valid, Indexed, IsChain;
    }

    /** There is room for new data of a record, once its old data has gone. */
    ghost predicate Fits(id: int, size: nat)
      requires Valid() && id in Contents()
      reads index, index.adapter, heap, heap.Arrays(), heap.blocksMap, heap.blocksMap.low.vals, heap.blocksMap.high.vals
    {
      heap.NewDataFits(index.Contents()[id], Rows(id), size)
    }

    /** A record can be rewritten in place: free blocks are blank and stay so, pages that are emptied point
        back exactly, the row in front of its first one has an id below 2^16, and the new data fits in. */
    ghost predicate Replaceable(id: int, size: nat)
      requires Valid() && id in Contents()
      reads index, index.adapter, heap, heap.Arrays(), heap.blocksMap, heap.blocksMap.low.vals, heap.blocksMap.high.vals
    {
      var r, path, pages := index.Contents()[id], Rows(id), heap.Pages();
      && heap.Blanks() && Leavable(pages, heap.list, path[1..], heap.nextAvailable)
      && (heap.clearsNext || Crowded(pages, path, heap.nextAvailable))
      && (r.local == 0 || IdOf(pages[r.block].rows[r.local - 1]) < 0x1_0000)
      && Fits(id, size)
    }

    /** Where nothing is left behind and all ids are below 2^16, new data need only fit in. */
    lemma {:induction false} CleanReplaceable(id: int, size: nat)
      requires Valid() && Clean() && id in Contents() && (forall k :: k in Contents() ==> k < 0x1_0000)
      ensures Replaceable(id, size) <==> Fits(id, size)
    {
      hide Lost, Contents, BPlusTree.Valid, BPlusTree.Contents, Indexed, IsChain, HeapOk, RecordHeap.NewDataFits, RecordHeap.Pages, RecordHeap.Apart, RecordHeap.Records, HeapState,
           DataBlocksMap.Valid, Head, Matched, RecordsOf, BlanksOf;
      Parts();
      var r := index.Contents()[id];
      Nonempty(heap.Pages(), Rows(id));
      if r.local > 0 {
        RowIsSmall(index.Contents(), heap.Pages(), heap.list, RowID(r.block, r.local - 1), 0x1_0000);
      }
    }

    /** The record of an id gets new data, in its place. */
    method Update(id: int, data: seq<Byte>) returns (res: Outcome)
      requires Valid() && 0 < id < 0x1_0000_0000 && data != [] && (id in Contents() ==> Replaceable(id, |data|))
      modifies heap`first, heap`nextAvailable, heap`list, heap.Arrays(), heap.blocksMap`held, heap.blocksMap.low.vals, heap.blocksMap.high.vals
      ensures StillHeld(old(heap.list), old(heap.blocksMap.held), heap.list, heap.blocksMap.held)
      ensures Valid() && res == (if id in old(Contents()) then Outcome.Done else KeyNotFound)
      ensures Contents() == if id in old(Contents()) then old(Contents())[id := data] else old(Contents())
      ensures old(Clean()) ==> (Clean() <==> old(if id in Contents() then Spoilt(index.Contents()[id], heap.first) else {}) == {})
      ensures LostPages() <= old(LostPages() + (if id in Contents() then Spoilt(index.Contents()[id], heap.first) else {}))
    {
      hide RecordHeap.Holds, RecordHeap.Apart, RecordHeap.Pages, RecordHeap.Records, RecordHeap.Fine, RecordHeap.Grown, BPlusTree.Valid, BPlusTree.Contents, BPlusTree.StallsAt, BPlusTree.StraysAt, BPlusTree.Capacities, StillHeld,
           HeapOk, Indexed, Head, Matched, IsRow, RowAt, Stored, IsChain, DataOf, RecordsOf, Written, Lost, EndRoom, Room, HasId, HeapState, DataBlocksMap.Valid, BlanksOf, Joined, Usable,
           RowsLess, Leaves, Leavable, Sieve, Crowded, OnlyRecord, RowsSwapped, RecordHeap.NewDataFits, Spoilt, IdOf;
      HeldSame(heap.list, heap.blocksMap.held);
      Parts();
      var found := index.Find(id);
      assert unchanged(heap, heap.Arrays(), heap.blocksMap, heap.blocksMap.low.vals, heap.blocksMap.high.vals);
      assert Valid() && Contents() == old(Contents());
      if found == None {
        return KeyNotFound;
      }
      Replace(id, found.value, data);
      return Outcome.Done;
    }

    /** Rewrites a record; the index stays. */
    method Replace(id: int, r: RowID, data: seq<Byte>)
      requires Valid() && 0 < id < 0x1_0000_0000 && data != [] && id in Contents() && r == index.Contents()[id] && Replaceable(id, |data|)
      modifies heap`first, heap`nextAvailable, heap`list, heap.Arrays(), heap.blocksMap`held, heap.blocksMap.low.vals, heap.blocksMap.high.vals
      ensures StillHeld(old(heap.list), old(heap.blocksMap.held), heap.list, heap.blocksMap.held)
      ensures Valid() && Contents() == old(Contents())[id := data]
      ensures old(Clean()) ==> (Clean() <==> Spoilt(r, old(heap.first)) == {})
      ensures LostPages() <= old(LostPages()) + Spoilt(r, old(heap.first))
    {
      hide RecordHeap.Holds, RecordHeap.Apart, RecordHeap.Pages, RecordHeap.Records, RecordHeap.Fine, RecordHeap.Grown, BPlusTree.Valid, BPlusTree.Contents, BPlusTree.StallsAt, BPlusTree.StraysAt, BPlusTree.Capacities, StillHeld,
           HeapOk, Indexed, Head, Matched, IsRow, RowAt, Stored, IsChain, DataOf, RecordsOf, Written, Lost, EndRoom, Room, HasId, HeapState, DataBlocksMap.Valid, BlanksOf, Joined, Usable,
           RowsLess, Leaves, Leavable, Sieve, Crowded, OnlyRecord, RowsSwapped, RecordHeap.NewDataFits, Spoilt, IdOf;
      Parts();
      ghost var m, pages, l, records, path := index.Contents(), heap.Pages(), heap.list, heap.Records(), Rows(id);
      OwnRows(m, pages, l, id, path);
      var ok, localID;
      ghost var path';
      Nonempty(pages, path);
      ok, localID, path' := heap.Update(r, id, data, path);
      Heads();
      IndexKept(m, pages, l, heap.Pages(), heap.list, path, path', id);
      JoinedSet(m, records, id, data);
    }

    lemma {:induction false} NoRoot()
      ensures index.adapter.rootID !in index.adapter.nodes ==> index.Contents() == map[]
    {
    }

    /** What the index holds, in order; nothing before the first insertion. */
    method Entries() returns (all: seq<LeafEntry>)
      requires Valid()
      ensures Valid() && forall i, j :: 0 <= i < j < |all| ==> all[i].key < all[j].key
      ensures forall i :: 0 <= i < |all| ==> all[i].key in Contents() && all[i].item == index.Contents()[all[i].key]
      ensures forall k :: k in Contents() ==> exists i :: 0 <= i < |all| && all[i].key == k
    {
      hide RecordHeap.Valid, RecordHeap.Holds, RecordHeap.Apart, RecordHeap.Pages, RecordHeap.Records, RecordHeap.Fine, BTreeSearch.MapOf, BPlusTree.Configured, BPlusTree.Holds, BPlusTree.StallsAt, BPlusTree.StraysAt, BPlusTree.Capacities, StillHeld,
           HeapOk, Indexed, Head, Matched, IsRow, RowAt, Stored, IsChain, DataOf, RecordsOf, RecordHeap.Blanks, Joined;
      Parts();
      NoRoot();
      all := [];
      if index.adapter.rootID in index.adapter.nodes {
        all := index.All();
        assert unchanged(heap, heap.Arrays(), heap.blocksMap, heap.blocksMap.low.vals, heap.blocksMap.high.vals);
        assert Valid();
      }
    }

    /** The data of one entry; the panic is not reached. */
    method DataFor(entry: LeafEntry) returns (data: seq<Byte>)
      requires Valid() && entry.key in Contents() && entry.item == index.Contents()[entry.key]
      ensures Valid() && data == Contents()[entry.key]
    {
      hide RecordHeap.Valid, RecordHeap.Holds, RecordHeap.Apart, RecordHeap.Pages, RecordHeap.Records, RecordHeap.Fine, BPlusTree.Valid, BPlusTree.Contents, BPlusTree.StallsAt, BPlusTree.StraysAt, BPlusTree.Capacities, StillHeld,
           HeapOk, Indexed, Head, Matched, IsRow, RowAt, Stored, IsChain, DataOf, RecordsOf, RecordHeap.Blanks, Joined;
      Parts();
      var loaded := heap.Load(entry.item);
      assert unchanged(heap, heap.Arrays(), heap.blocksMap, heap.blocksMap.low.vals, heap.blocksMap.high.vals);
      assert Valid();
      data := loaded.value;
    }

    /** The records that match, by rising ids. */
    method Search(matches: seq<Byte> -> bool) returns (found: seq<Record>)
      requires Valid()
      ensures Valid() && forall i, j :: 0 <= i < j < |found| ==> found[i].id < found[j].id
      ensures forall rec :: rec in found <==> rec.id in Contents() && rec.data == Contents()[rec.id] && matches(rec.data)
    {
      hide Valid, Contents, Sought;
      ghost var c, m := Contents(), index.Contents();
      ghost var seen: set<int> := {};
      var all := Entries();
      assert unchanged(index, index.adapter, heap, heap.Arrays(), heap.blocksMap, heap.blocksMap.low.vals, heap.blocksMap.high.vals);
      found := [];
      NoneSought(c, matches);
      for i := 0 to |all|
        invariant Valid() && Contents() == c && index.Contents() == m
        invariant seen == (set j | 0 <= j < i :: all[j].key) && Sought(found, seen, c, matches)
      {
        var data := DataFor(all[i]);
        assert unchanged(index, index.adapter, heap, heap.Arrays(), heap.blocksMap, heap.blocksMap.low.vals, heap.blocksMap.high.vals);
        SoughtNext(found, seen, c, matches, all[i].key);
        if matches(data) {
          found := found + [Record(all[i].key, data)];
        }
        seen := seen + {all[i].key};
      }
      AllSought(found, seen, c, matches);
    }
  }
}
