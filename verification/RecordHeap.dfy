/** The record heap: records of any length split over pages, chained, loaded, removed, updated. */
module RecordHeaps {
  import opened Results
  import opened RowIDs
  import opened DataBlocks
  import opened RecordPages
  import opened PageViews
  import opened RecordBlocks
  import opened HeapModel
  import opened HeapWrites
  import opened HeapRemovals
  import opened HeapRecords
  import opened BlockMaps

  class RecordHeap {
    const blocks: seq<RecordBlock>
    const blocksMap: DataBlocksMap
    /** Two fields of the control block: where the list starts, and its last block. */
    var first: nat
    var nextAvailable: nat
    /** The original keeps the pointer to the next page when it clears a page (false); with true the
        pointer is cleared too. */
    const clearsNext: bool
    /** The original leaves the bytes of an index node in the block it gives back (false); with true it is left as a blank page. */
    const clearsNodes: bool
    ghost var list: seq<nat>

    ghost function Arrays(): set<array<Byte>> {
      set i | 0 <= i < |blocks| :: blocks[i].block.data
    }

    /** Every block has its own bytes. */
    ghost predicate Apart() {
      && |blocks| == TOTAL && (forall i :: 0 <= i < |blocks| ==> blocks[i].block.data.Length == BLOCK_SIZE)
      && (forall i, j :: 0 <= i < j < |blocks| ==> blocks[i].block.data != blocks[j].block.data)
      && (forall i :: 0 <= i < |blocks| ==> blocks[i].block.data as object != blocksMap.low.vals as object
                                            && blocks[i].block.data as object != blocksMap.high.vals as object)
    }

    ghost function PageAt(b: nat): PageView
      requires Apart() && b < |blocks|
      reads blocks[b].block.data
    {
      if blocks[b].Readable() then blocks[b].Page() else PageView([], 0, 0)
    }

    ghost function PagesUpto(n: nat): (pages: Pages)
      requires Apart() && n <= |blocks|
      reads Arrays()
      ensures |pages| == n && forall b :: 0 <= b < n ==> pages[b] == PageAt(b)
    {
      if n == 0 then [] else PagesUpto(n - 1) + [PageAt(n - 1)]
    }

    /** What all blocks hold, seen as record pages. */
    ghost function Pages(): (pages: Pages)
      requires Apart()
      reads Arrays()
      ensures |pages| == TOTAL
    {
      PagesUpto(|blocks|)
    }

    /** The blocks that are pages as they should be. */
    ghost function Fine(): set<nat>
      requires Apart()
      reads Arrays()
    {
      set b: nat | b < |blocks| && blocks[b].Valid()
    }

    lemma {:induction false} PagesAre()
      requires Apart()
      ensures forall b :: 0 <= b < |blocks| ==> Pages()[b] == PageAt(b)
    {
    }

    lemma {:induction false} FineIs(b: nat)
      requires Apart()
      ensures b in Fine() <==> b < |blocks| && blocks[b].Valid()
    {
    }

    /** Blocks nobody holds. */
    ghost function Unheld(): set<nat>
      reads blocksMap
    {
      Usable() - blocksMap.held
    }

    ghost predicate Blanks()
      requires Apart()
      reads this, Arrays(), blocksMap
    {
      BlanksOf(Pages(), blocksMap.held)
    }

    /** The heap, but for the inside of page `x`. */
    ghost predicate Holds(x: int)
      reads this, Arrays(), blocksMap, blocksMap.low.vals, blocksMap.high.vals
    {
      && Apart() && blocksMap.Valid()
      && HeapState(Pages(), list, first, nextAvailable, blocksMap.held, Fine(), x, clearsNext)
    }

    ghost predicate Valid()
      reads this, Arrays(), blocksMap, blocksMap.low.vals, blocksMap.high.vals
    {
      Holds(-1)
    }

    /** The records by the row they start at. */
    ghost function Records(): map<RowID, seq<Byte>>
      requires Valid()
      reads this, Arrays(), blocksMap, blocksMap.low.vals, blocksMap.high.vals
    {
      RecordsOf(Pages(), list)
    }

    /** A freshly formatted data file: the list holds the one empty page 3. */
    constructor (clearsNext: bool, clearsNodes: bool)
      ensures Valid() && this.clearsNext == clearsNext && this.clearsNodes == clearsNodes && list == [3] && Unheld() == Usable() - {0, 1, 2, 3} && Records() == map[]
      ensures Blanks() && Lost(Pages(), list) == {} && EndRoom(Pages(), list, blocksMap.held) == 7166 * NEW_SPACE
      ensures forall r :: !IsRow(Pages(), r)
      ensures fresh(Arrays()) && fresh(blocksMap) && fresh(blocksMap.low.vals) && fresh(blocksMap.high.vals)
    {
      var bs := FormatBlocks();
      blocks := bs;
      blocksMap := new DataBlocksMap();
      first, nextAvailable, list := 3, 3, [3];
      this.clearsNext := clearsNext;
      this.clearsNodes := clearsNodes;
      new;
      hide PageOk, Viewed, View, HeapOk, RecordsOf, EndRoom, Usable;
      AllZero();
      EmptyHeap();
      EmptyRoom();
      NoRecords();
    }

    lemma {:induction false} NoRecords()
      requires Valid() && forall r :: !IsRow(Pages(), r)
      ensures Records() == map[]
    {
      hide RecordsOf, IsRow, Pages, Fine, HeapState, DataBlocksMap.Valid;
      StateFacts(Pages(), list, first, nextAvailable, blocksMap.held, Fine(), -1, clearsNext);
      RecordsKeys(Pages(), list);
      assert forall r :: r !in Records();
    }

    lemma {:induction false} AllZero()
      requires Apart() && forall b :: 0 <= b < |blocks| ==> forall p :: 0 <= p < BLOCK_SIZE ==> blocks[b].block.data[p] == 0
      ensures forall b :: 0 <= b < |blocks| ==> blocks[b].Valid() && PageAt(b) == PageView([], 0, 0)
    {
      hide PageOk, Viewed, View;
      forall b | 0 <= b < |blocks| ensures blocks[b].Valid() && PageAt(b) == PageView([], 0, 0) {
        ZeroPage(blocks[b].block.data[..]);
      }
    }

    lemma {:induction false} EmptyHeap()
      requires Apart() && blocksMap.Valid() && blocksMap.held == {0, 1, 2, 3} && list == [3] && first == nextAvailable == 3
      requires forall b :: 0 <= b < |blocks| ==> blocks[b].Valid() && PageAt(b) == PageView([], 0, 0)
      ensures Valid() && Unheld() == Usable() - {0, 1, 2, 3} && Blanks() && Lost(Pages(), list) == {} && forall r :: !IsRow(Pages(), r)
    {
      hide PageOk, Viewed, View;
      assert LinkAt(Pages(), list, 0);
    }

    lemma {:induction false} EmptyRoom()
      requires Apart() && blocksMap.held == {0, 1, 2, 3} && list == [3] && PageAt(3) == PageView([], 0, 0)
      ensures EndRoom(Pages(), list, blocksMap.held) == 7166 * NEW_SPACE
    {
      hide PageAt, Usable, EndRoom;
      PagesAre();
      UsableCount();
      EndRoomIs(Pages(), list, blocksMap.held);
    }

    static method FormatBlocks() returns (bs: seq<RecordBlock>)
      ensures |bs| == TOTAL
      ensures forall i :: 0 <= i < TOTAL ==> fresh(bs[i].block.data) && bs[i].block.data.Length == BLOCK_SIZE
      ensures forall i :: 0 <= i < TOTAL ==> forall p :: 0 <= p < BLOCK_SIZE ==> bs[i].block.data[p] == 0
      ensures forall i, j :: 0 <= i < j < TOTAL ==> bs[i].block.data != bs[j].block.data
    {
      bs := [];
      for n := 0 to TOTAL
        invariant |bs| == n
        invariant forall i :: 0 <= i < n ==> fresh(bs[i].block.data) && bs[i].block.data.Length == BLOCK_SIZE
        invariant forall i :: 0 <= i < n ==> forall p :: 0 <= p < BLOCK_SIZE ==> bs[i].block.data[p] == 0
        invariant forall i, j :: 0 <= i < j < n ==> bs[i].block.data != bs[j].block.data
      {
        var block := new DataBlock(n);
        var rb := new RecordBlock(block);
        bs := bs + [rb];
      }
    }

    static lemma {:induction false} ZeroPage(d: seq<Byte>)
      requires |d| == BLOCK_SIZE && forall p :: 0 <= p < BLOCK_SIZE ==> d[p] == 0
      ensures PageOk(d, 0, 0) && Viewed(d) && View(d) == PageView([], 0, 0)
    {
      assert Headers(d) == [];
    }

    // ---------- One block at a time ----------

    /** When the bytes of one block have changed, nothing else looks different. */
    twostate lemma {:induction false} OnlyBlock(b: nat)
      requires Apart() && b < |blocks|
      requires forall i :: 0 <= i < |blocks| && i != b ==> unchanged(blocks[i].block.data)
      ensures Pages() == old(Pages())[b := PageAt(b)]
      ensures Fine() == if blocks[b].Valid() then old(Fine()) + {b} else old(Fine()) - {b}
    {
      hide PageAt, PageOk, RecordBlock.Valid;
      forall i | 0 <= i < |blocks| && i != b ensures PageAt(i) == old(PageAt(i)) && blocks[i].Valid() == old(blocks[i].Valid()) { }
      assert Pages() == old(Pages())[b := PageAt(b)];
    }

    method AddRow(b: nat, id: nat, data: seq<Byte>, ghost q: nat, ghost g: nat) returns (k: nat)
      requires Apart() && b < |blocks| && blocks[b].Sound(q, g) && 0 < id < 0x1_0000_0000
      requires 0 < |data| <= FreeSpace(Pages()[b].rows)
      requires if g > 0 then IsRow(Pages(), RowID(b, q)) && RowAt(Pages(), RowID(b, q)).id == id else !HasId(Pages()[b].rows, id)
      modifies blocks[b].block.data
      ensures k <= |old(Pages())[b].rows| && TakesSlot(old(Pages())[b].rows, id, k)
      ensures FirstDead(old(Headers(blocks[b].block.data[..])), id, k)
      ensures Pages() == WithRow(old(Pages()), b, k, id, data) && Fine() == old(Fine()) + {b}
    {
      hide PageOk, Viewed, View, UtilizationOf, Used, Headers, FirstDead, RowPut;
      PagesAre();
      FineIs(b);
      OkView(blocks[b].block.data[..], q, g);
      k := blocks[b].Add(id, data, q, g);
      ApartFrom(b);
      OnlyBlock(b);
      PagesAre();
    }

    method RemoveRow(r: RowID)
      requires Apart() && IsRow(Pages(), r) && r.block in Fine()
      modifies blocks[r.block].block.data
      ensures Pages() == Without(old(Pages()), r) && Fine() == old(Fine())
    {
      hide PageOk, Viewed, View, UtilizationOf, Used;
      PagesAre();
      FineIs(r.block);
      OkView(blocks[r.block].block.data[..], 0, 0);
      blocks[r.block].NothingLeft(r.local);
      var ok := blocks[r.block].Remove(r.local);
      ApartFrom(r.block);
      OnlyBlock(r.block);
      PagesAre();
    }

    /** After a soft removal the page is not as it should be until the row is added again. */
    method SoftRemoveRow(r: RowID)
      requires Apart() && IsRow(Pages(), r) && r.block in Fine()
      modifies blocks[r.block].block.data
      ensures Pages() == old(Pages())[r.block := SoftView(old(Pages())[r.block], r.local)] && Fine() >= old(Fine()) - {r.block}
      ensures r.local == 0 || IdOf(old(Pages())[r.block].rows[r.local - 1]) < 0x1_0000 ==>
                blocks[r.block].Sound(r.local, |RowAt(old(Pages()), r).data|)
    {
      hide PageOk, Viewed, View, UtilizationOf, Used;
      PagesAre();
      FineIs(r.block);
      OkView(blocks[r.block].block.data[..], 0, 0);
      var ok := blocks[r.block].SoftRemove(r.local);
      ApartFrom(r.block);
      OnlyBlock(r.block);
      PagesAre();
    }

    method ChainRow(r: RowID, t: RowID)
      requires Apart() && IsRow(Pages(), r) && r.block in Fine() && t.block < 0x1_0000 && t.local < 0x1_0000
      modifies blocks[r.block].block.data
      ensures Pages() == WithChain(old(Pages()), r, t) && Fine() == old(Fine())
    {
      hide PageOk, Viewed, View, UtilizationOf, Used;
      PagesAre();
      FineIs(r.block);
      OkView(blocks[r.block].block.data[..], 0, 0);
      var ok := blocks[r.block].SetChainedRowID(r.local, t);
      ApartFrom(r.block);
      OnlyBlock(r.block);
      PagesAre();
    }

    method PointNext(b: nat, next: nat)
      requires Apart() && b in Fine() && next < 0x1_0000
      modifies blocks[b].block.data
      ensures Pages() == old(Pages())[b := old(Pages())[b].(next := next)] && Fine() == old(Fine())
    {
      hide PageOk, Viewed, View, UtilizationOf, Used;
      PagesAre();
      FineIs(b);
      OkView(blocks[b].block.data[..], 0, 0);
      blocks[b].SetNextBlockID(next);
      ApartFrom(b);
      OnlyBlock(b);
      PagesAre();
    }

    method PointPrev(b: nat, prev: nat)
      requires Apart() && b in Fine() && prev < 0x1_0000
      modifies blocks[b].block.data
      ensures Pages() == old(Pages())[b := old(Pages())[b].(prev := prev)] && Fine() == old(Fine())
    {
      hide PageOk, Viewed, View, UtilizationOf, Used;
      PagesAre();
      FineIs(b);
      OkView(blocks[b].block.data[..], 0, 0);
      blocks[b].SetPrevBlockID(prev);
      ApartFrom(b);
      OnlyBlock(b);
      PagesAre();
    }

    method ClearPage(b: nat)
      requires Apart() && b in Fine()
      modifies blocks[b].block.data
      ensures Pages() == old(Pages())[b := PageView([], old(Pages())[b].prev, if clearsNext then 0 else old(Pages())[b].next)]
      ensures Fine() == old(Fine())
    {
      hide PageOk, Viewed, View, UtilizationOf, Used;
      PagesAre();
      FineIs(b);
      OkView(blocks[b].block.data[..], 0, 0);
      ghost var v := blocks[b].Page();
      ViewPointers(blocks[b].block.data[..]);
      blocks[b].Clear();
      if clearsNext {
        blocks[b].SetNextBlockID(0);
      }
      ApartFrom(b);
      OnlyBlock(b);
      PagesAre();
    }

    static lemma {:induction false} ViewPointers(d: seq<Byte>)
      requires Viewed(d)
      ensures View(d).prev == Get16(d, POS_PREV_BLOCK) && View(d).next == Get16(d, POS_NEXT_BLOCK)
    {
    }

    lemma {:induction false} ApartFrom(b: nat)
      requires Apart() && b < |blocks|
      ensures forall i :: 0 <= i < |blocks| && i != b ==> blocks[i].block.data != blocks[b].block.data
    {
    }

    // ---------- Loading ----------

    /** The data of a row and the row it is chained to. */
    method ReadRow(r: RowID) returns (ok: bool, data: seq<Byte>, chain: RowID)
      requires Valid() && r.block in list
      ensures ok <==> IsRow(Pages(), r)
      ensures ok ==> data == RowAt(Pages(), r).data && chain == RowAt(Pages(), r).chain
    {
      hide PageOk, View, Viewed, HeapOk, Fine, Holds, UtilizationOf;
      FineReadable(r.block);
      ok, data, chain := false, [], NO_ROW;
      var chunk := blocks[r.block].ReadRecordData(r.local);
      if chunk.Refused? {
        return;
      }
      var chained := blocks[r.block].ChainedRowID(r.local);
      ok, data, chain := true, chunk.value, chained.value;
    }

    /** Follows the chain of a row and puts its pieces together. */
    method Load(r: RowID) returns (res: Result<seq<Byte>>)
      requires Valid() && r.block in list
      ensures res.Done? <==> IsRow(Pages(), r)
      ensures res.Done? ==> Stored(Pages(), r, res.value)
      ensures Valid() && (r in Records() ==> res == Done(Records()[r]))
    {
      hide PageOk, View, Viewed, HeapState, IsRow, RowAt, DataOf, IsChain, Onward, RecordBlock.Valid, RecordsOf, HeapOk;
      ghost var pages := Pages();
      ghost var path := LoadPath(r);
      ghost var f0 := Fine();
      var ok, data, chain := ReadRow(r);
      assert Pages() == pages;
      assert Fine() == f0;
      if !ok {
        NoRecord(r);
        return Refused;
      }
      LoadFirst(pages, list, path);
      ghost var i := 1;
      while chain.block != 0
        invariant 0 < i <= |path| && IsRow(pages, path[i - 1]) && chain == RowAt(pages, path[i - 1]).chain
        invariant LoadedSoFar(pages, path, i, data) && Pages() == pages && Fine() == f0 && Valid()
        decreases |path| - i
      {
        LoadStep(pages, list, path, i);
        var piece;
        ok, piece, chain := ReadRow(chain);
        assert Pages() == pages && Fine() == f0;
        data := data + piece;
        i := i + 1;
      }
      LoadLast(pages, path, i);
      res := Done(data);
      LoadedRecord(r, data);
    }

    lemma {:induction false} LoadedRecord(r: RowID, data: seq<Byte>)
      requires Valid() && Stored(Pages(), r, data)
      ensures r in Records() ==> Records()[r] == data
    {
      hide Stored, HeapOk, RecordsOf, Fine, Pages, HeapState, DataBlocksMap.Valid;
      StateFacts(Pages(), list, first, nextAvailable, blocksMap.held, Fine(), -1, clearsNext);
      RecordsKeys(Pages(), list);
      if r in Records() { StoredUnique(Pages(), r, Records()[r], data); }
    }

    static ghost predicate LoadedSoFar(pages: Pages, path: seq<RowID>, i: nat, data: seq<Byte>) {
      i <= |path| && (forall j :: 0 <= j < i ==> IsRow(pages, path[j])) && data == DataOf(pages, path[..i])
    }

    lemma {:induction false} LoadPath(r: RowID) returns (path: seq<RowID>)
      requires Valid() && r.block in list
      ensures IsRow(Pages(), r) ==> IsChain(Pages(), path) && Onward(Pages(), list, path) && path != [] && path[0] == r
    {
      hide PageOk, View, Viewed, IsRow, RowAt, Linked, Injective, IsChain, Onward, Fine;
      path := [];
      if IsRow(Pages(), r) {
        path := ChainExists(Pages(), list, r);
        PathIn(Pages(), list, path);
      }
    }

    static lemma {:induction false} LoadFirst(pages: Pages, list: seq<nat>, path: seq<RowID>)
      requires IsChain(pages, path) && Onward(pages, list, path)
      ensures path != [] && IsRow(pages, path[0]) && LoadedSoFar(pages, path, 1, RowAt(pages, path[0]).data)
    {
      DataOne(pages, path[0]);
      assert path[..1] == [path[0]];
    }

    static lemma {:induction false} LoadStep(pages: Pages, list: seq<nat>, path: seq<RowID>, i: nat)
      requires IsChain(pages, path) && Onward(pages, list, path) && 0 < i <= |path| && RowAt(pages, path[i - 1]).chain.block != 0
      ensures i < |path| && RowAt(pages, path[i - 1]).chain == path[i] && path[i].block in list && IsRow(pages, path[i])
      ensures forall data :: LoadedSoFar(pages, path, i, data) ==> LoadedSoFar(pages, path, i + 1, data + RowAt(pages, path[i]).data)
    {
      assert i < |path|;
      assert ChainedTo(pages, path[i - 1], path[i]);
      assert path[..i + 1] == path[..i] + [path[i]];
      DataSnoc(pages, path[..i], path[i]);
    }

    static lemma {:induction false} LoadLast(pages: Pages, path: seq<RowID>, i: nat)
      requires IsChain(pages, path) && 0 < i <= |path| && RowAt(pages, path[i - 1]).chain.block == 0
      ensures forall data :: LoadedSoFar(pages, path, i, data) ==> Stored(pages, path[0], data)
    {
      if i < |path| { ChainGoesOn(pages, path, i); }
      assert path[..|path|] == path;
    }

    lemma {:induction false} FinePage(b: nat)
      requires Apart() && b in Fine()
      ensures b < |blocks| && blocks[b].Readable() && Pages()[b] == blocks[b].Page() && blocks[b].Valid()
      ensures Used(Pages()[b].rows) <= BLOCK_SIZE
    {
      hide PageOk, View, Viewed;
      PagesAre();
      FineIs(b);
      OkView(blocks[b].block.data[..], 0, 0);
    }

    lemma {:induction false} FineReadable(b: nat)
      requires Holds(-1) && b in list
      ensures b < |blocks| && blocks[b].Readable() && Pages()[b] == blocks[b].Page()
      ensures UtilizationOf(blocks[b].block.data[..]) == Used(Pages()[b].rows) <= BLOCK_SIZE && blocks[b].Valid()
    {
      PagesAre();
      FineIs(b);
      OkView(blocks[b].block.data[..], 0, 0);
    }

    // ---------- Allocation ----------

    /** Takes a free block as the new last page of the list. */
    method AllocateNewBlock(tail: nat) returns (b: nat)
      requires Valid() && tail == list[|list| - 1] && Unheld() != {} && Blanks()
      modifies this`nextAvailable, this`list, Arrays(), blocksMap`held, blocksMap.low.vals, blocksMap.high.vals
      ensures Valid() && Blanks() && list == old(list) + [b] && Unheld() == old(Unheld()) - {b} && b in old(Unheld())
      ensures b != tail && SameSlots(old(Pages()), Pages()) && Pages()[b].rows == [] && b !in old(list) && blocksMap.held == old(blocksMap.held) + {b}
      ensures Lost(Pages(), list) == old(Lost(Pages(), list)) && forall j :: j in old(Unheld()) ==> b <= j
    {
      hide HeapState, Fine, Pages, PageAt, Appended, Usable, RowsLess, BlanksOf, SameSlots, Lost, DataBlocksMap.Valid;
      ghost var pages := Pages();
      ghost var l, held, fine := list, blocksMap.held, Fine();
      StateFacts(pages, l, first, nextAvailable, held, fine, -1, clearsNext);
      b := blocksMap.Allocate();
      assert Pages() == pages && Fine() == fine;
      AllocatedState(pages, l, first, nextAvailable, held, fine, clearsNext, b);
      LinkNew(tail, b);
      nextAvailable := b;
      list := list + [b];
      assert Pages() == Appended(pages, tail, b) && Fine() == fine;
    }

    method LinkNew(tail: nat, b: nat)
      requires Apart() && tail in Fine() && b in Fine() && tail != b
      modifies blocks[b].block.data, blocks[tail].block.data
      ensures Pages() == Appended(old(Pages()), tail, b) && Fine() == old(Fine())
    {
      hide PageAt, Appended;
      ghost var pages := Pages();
      PointPrev(b, tail);
      ghost var p := Pages();
      PointNext(tail, b);
      assert Pages() == p[tail := p[tail].(next := b)];
      AppendedIs(pages, tail, b);
    }

    static lemma {:induction false} AppendedIs(pages: Pages, tail: nat, b: nat)
      requires tail < |pages| && b < |pages| && tail != b
      ensures var p := pages[b := pages[b].(prev := tail)];
              p[tail := p[tail].(next := b)] == Appended(pages, tail, b)
    {
    }

    /** The list has grown at its end, by blocks out of a given set. */
    static ghost predicate Grown(list0: seq<nat>, list: seq<nat>, from: set<nat>) {
      && list0 <= list && (forall x :: x in list0 ==> Pos(list, x) == Pos(list0, x))
      && (forall x :: x in list && x !in list0 ==> x in from)
    }

    static lemma {:induction false} GrownTrans(a: seq<nat>, b: seq<nat>, c: seq<nat>, from: set<nat>, then': set<nat>)
      requires Grown(a, b, from) && Grown(b, c, then') && then' <= from
      ensures Grown(a, c, from)
    {
    }

    static lemma {:induction false} GrownSelf(a: seq<nat>, from: set<nat>)
      ensures Grown(a, a, from)
    {
    }

    // ---------- Blocks for others ----------

    /** Whoever holds a block that is no page writes to it as they like. */
    method Scribble(b: nat)
      requires Apart() && b < |blocks|
      modifies blocks[b].block.data
      ensures SameBut(old(Pages()), Pages(), b) && Fine() - {b} == old(Fine()) - {b}
    {
      hide PageAt, RecordBlock.Valid;
      var data := blocks[b].block.data;
      for i := 0 to BLOCK_SIZE
      {
        var x: Byte := *;
        data[i] := x;
      }
      ApartFrom(b);
      OnlyBlock(b);
    }

    /** The least free block goes to the index. */
    method Lend() returns (b: nat)
      requires Valid() && Unheld() != {}
      modifies Arrays(), blocksMap`held, blocksMap.low.vals, blocksMap.high.vals
      ensures Valid() && b in old(Unheld()) && b > 2 && b in Usable() && blocksMap.held == old(blocksMap.held) + {b} && b !in list
      ensures forall j :: j in old(Unheld()) ==> b <= j
      ensures SameBut(old(Pages()), Pages(), b) && Records() == old(Records()) && (old(Blanks()) ==> Blanks())
      ensures Lost(Pages(), list) == old(Lost(Pages(), list))
      ensures EndRoom(Pages(), list, blocksMap.held) + NEW_SPACE == old(EndRoom(Pages(), list, blocksMap.held))
    {
      hide HeapState, Fine, Pages, PageAt, Usable, BlanksOf, Lost, DataBlocksMap.Valid, SameBut, EndRoom, RecordsOf;
      ghost var pages, l, held, fine := Pages(), list, blocksMap.held, Fine();
      StateFacts(pages, l, first, nextAvailable, held, fine, -1, clearsNext);
      b := blocksMap.Allocate();
      assert Pages() == pages && Fine() == fine;
      Scribble(b);
      LentState(pages, Pages(), l, first, nextAvailable, held, fine, Fine(), clearsNext, b);
    }

    /** A block of the index is free again. It is as a free block should be if and only if it is cleared, or what the index has left
        in it happens to look like a page, and a blank one where free blocks have to be blank. */
    method TakeBack(b: nat)
      requires Apart() && blocksMap.Valid() && b in blocksMap.held && b !in list && b > 2
      modifies Arrays(), blocksMap`held, blocksMap.low.vals, blocksMap.high.vals
      ensures Apart() && blocksMap.Valid() && blocksMap.held == old(blocksMap.held) - {b} && SameBut(old(Pages()), Pages(), b)
      ensures old(Valid()) ==> (Valid() <==> clearsNodes || (b in old(Fine()) && (clearsNext ==> Blank(old(Pages())[b]))))
      ensures old(Valid()) && Valid() ==> Records() == old(Records())
      ensures clearsNodes && old(Blanks()) ==> Blanks()
      ensures old(Valid()) ==> Lost(Pages(), list) == old(Lost(Pages(), list))
      ensures old(Valid()) ==> EndRoom(Pages(), list, blocksMap.held) == old(EndRoom(Pages(), list, blocksMap.held)) + NEW_SPACE
    {
      hide HeapState, Fine, Pages, PageAt, Usable, BlanksOf, Lost, DataBlocksMap.Valid, EndRoom, RecordsOf;
      ghost var pages, l, held, fine := Pages(), list, blocksMap.held, Fine();
      HeldUsable(b);
      if clearsNodes {
        MakeBlank(b);
      }
      ghost var pages', fine' := Pages(), Fine();
      blocksMap.Release(b);
      assert Pages() == pages' && Fine() == fine';
      BlankAgain(pages, Pages(), held, b);
      if old(Valid()) {
        StateFacts(pages, l, first, nextAvailable, held, fine, -1, clearsNext);
        ReturnedState(pages, Pages(), l, first, nextAvailable, held, fine, Fine(), clearsNext, b);
      }
    }

    /** A block becomes a blank page, whatever it held. */
    method MakeBlank(b: nat)
      requires Apart() && b < |blocks|
      modifies blocks[b].block.data
      ensures SameBut(old(Pages()), Pages(), b) && Fine() == old(Fine()) + {b} && Blank(Pages()[b])
    {
      hide PageOk, Viewed, View, UtilizationOf, Used;
      blocks[b].Clear();
      blocks[b].SetNextBlockID(0);
      ApartFrom(b);
      OnlyBlock(b);
      PagesAre();
    }

    /** The first page behind `from` with room, a new one if need be. */
    method FindSpace(from: nat, ghost id: nat, ghost need: nat) returns (b: nat)
      requires Valid() && Blanks() && from in list && SpaceAt(Pages(), from) == 0
      requires 0 < need <= Room(Pages(), list, blocksMap.held, Pos(list, from)) && NoIdAfter(Pages(), list, id, Pos(list, from))
      modifies this`nextAvailable, this`list, Arrays(), blocksMap`held, blocksMap.low.vals, blocksMap.high.vals
      ensures Valid() && Blanks() && b in list && from in list && SpaceAt(Pages(), b) > 0 && Pos(list, from) < Pos(list, b)
      ensures SameSlots(old(Pages()), Pages()) && Grown(old(list), list, old(Unheld())) && Unheld() <= old(Unheld())
      ensures Lost(Pages(), list) == old(Lost(Pages(), list)) && EndRoom(Pages(), list, blocksMap.held) == old(EndRoom(Pages(), list, blocksMap.held))
      ensures Pos(list, from) == Pos(old(list), from)
      ensures need <= Room(Pages(), list, blocksMap.held, Pos(list, b)) && NoIdAfter(Pages(), list, id, Pos(list, from))
      ensures FullFrom(Pages(), list, Pos(list, from), Pos(list, b)) && (b !in old(list) ==> NoRows(Pages(), b))
    {
      hide FullFrom, NoRows, HeapState, Fine, Pages, PageAt, BlanksOf, Usable, SameSlots, Lost, NoIdAfter, Room, EndRoom, SpaceFrom, SpaceAt, Pos, PageOk, Viewed, View, UtilizationOf, DataBlocksMap.Valid;
      ghost var pages0, list0, free0 := Pages(), list, Unheld();
      SameSlotsSelf(pages0);
      GrownSelf(list0, free0);
      ghost var room := EndRoom(Pages(), list, blocksMap.held);
      b := from;
      FullNone(Pages(), list, Pos(list, b));
      var freeSpace := SpaceOf(b);
      while freeSpace == 0
        invariant Valid() && Blanks() && b in list && from in list && freeSpace == SpaceAt(Pages(), b)
        invariant SameSlots(pages0, Pages()) && Grown(list0, list, free0) && Unheld() <= free0
        invariant Lost(Pages(), list) == Lost(pages0, list0) && EndRoom(Pages(), list, blocksMap.held) == room
        invariant Pos(list, from) == Pos(list0, from)
        invariant if b == from then freeSpace == 0 else Pos(list, from) < Pos(list, b)
        invariant need <= Room(Pages(), list, blocksMap.held, Pos(list, b)) && NoIdAfter(Pages(), list, id, Pos(list, from))
        invariant FullFrom(Pages(), list, Pos(list, from), Pos(list, b)) && if b in list0 then list == list0 else NoRows(Pages(), b)
        decreases |Unheld()|, |list| - Pos(list, b)
      {
        NotFull(Pages(), b);
        b := StepOn(b, pages0, list0, free0, from, id, need);
        freeSpace := SpaceOf(b);
      }
    }

    method SpaceOf(b: nat) returns (freeSpace: nat)
      requires Valid() && b in list
      ensures freeSpace == SpaceAt(Pages(), b)
    {
      hide HeapState, Fine, PageOk, Viewed, View, UtilizationOf;
      FineReadable(b);
      freeSpace := blocks[b].FreeSpaceForInsert();
    }

    static lemma {:induction false} SameSlotsSelf(pages: Pages)
      ensures SameSlots(pages, pages)
    {
    }

    /** From a full page to the next one of the list, or to a new one. */
    method StepOn(b: nat, ghost pages0: Pages, ghost list0: seq<nat>, ghost free0: set<nat>, ghost from: nat, ghost id: nat, ghost need: nat) returns (next: nat)
      requires Valid() && Blanks() && b in list && from in list && SpaceAt(Pages(), b) == 0
      requires SameSlots(pages0, Pages()) && Grown(list0, list, free0) && Unheld() <= free0
      requires b == from || Pos(list, from) < Pos(list, b)
      requires 0 < need <= Room(Pages(), list, blocksMap.held, Pos(list, b)) && NoIdAfter(Pages(), list, id, Pos(list, from))
      requires FullFrom(Pages(), list, Pos(list, from), Pos(list, b))
      modifies this`nextAvailable, this`list, Arrays(), blocksMap`held, blocksMap.low.vals, blocksMap.high.vals
      ensures Valid() && Blanks() && next in list && from in list && next != from && Pos(list, from) < Pos(list, next)
      ensures SameSlots(pages0, Pages()) && Grown(list0, list, free0) && Unheld() <= free0 && Pos(list, from) == Pos(old(list), from)
      ensures Lost(Pages(), list) == old(Lost(Pages(), list)) && EndRoom(Pages(), list, blocksMap.held) == old(EndRoom(Pages(), list, blocksMap.held))
      ensures need <= Room(Pages(), list, blocksMap.held, Pos(list, next)) && NoIdAfter(Pages(), list, id, Pos(list, from))
      ensures |Unheld()| < |old(Unheld())| || (Unheld() == old(Unheld()) && list == old(list) && Pos(list, next) == 1 + Pos(list, b) <= |list| - 1)
      ensures FullFrom(Pages(), list, Pos(list, from), Pos(list, next)) && if next in old(list) then list == old(list) else NoRows(Pages(), next)
    {
      hide Grown, HeapOk, Linked, FullFrom, HeapState, Fine, Pages, PageAt, BlanksOf, Usable, SameSlots, Lost, NoIdAfter, Room, EndRoom, SpaceFrom, SpaceAt, Pos, PageOk, Viewed, View, UtilizationOf, DataBlocksMap.Valid;
      ghost var pages, l, held := Pages(), list, blocksMap.held;
      StateFacts(pages, l, first, nextAvailable, held, Fine(), -1, clearsNext);
      NextPage(pages, l, b);
      RoomStep(pages, l, held, b);
      FullOne(pages, l, Pos(l, from), Pos(l, b));
      FineReadable(b);
      next := blocks[b].NextBlockID();
      if next == 0 {
        next := AllocateNewBlock(b);
        EndRoomKept(pages, Pages(), l, held, next);
        LastPos(l, next);
        FullKept(pages, Pages(), l, list, Pos(l, from), Pos(l, b) + 1);
        AfterAppend(pages0, pages, Pages(), list0, l, free0, held, next, id, need, b, from);
        assert Unheld() < old(Unheld());
        Smaller(Unheld(), old(Unheld()));
      }
    }

    static ghost predicate NoRows(pages: Pages, b: nat) {
      b < |pages| && pages[b].rows == []
    }

    static lemma {:induction false} NotFull(pages: Pages, b: nat)
      requires SpaceAt(pages, b) == 0
      ensures !NoRows(pages, b)
    {
      if NoRows(pages, b) { NewSpace(pages[b].rows); }
    }

    /** Whatever comes behind the last page was not in the list before. */
    static lemma {:induction false} BehindAll(list0: seq<nat>, list: seq<nat>, from: set<nat>, tail: nat, b: nat)
      requires Grown(list0, list, from) && tail in list0 && Pos(list0, tail) == |list0| - 1 && Pos(list, tail) < Pos(list, b)
      ensures b !in list0
    {
      hide Pos;
    }

    static lemma {:induction false} FullNone(pages: Pages, list: seq<nat>, i: nat)
      ensures FullFrom(pages, list, i, i)
    {
    }

    static lemma {:induction false} Smaller<T>(a: set<T>, b: set<T>)
      requires a < b
      ensures |a| < |b|
    {
      assert b == a + (b - a);
    }

    static lemma {:induction false} RoomStep(pages: Pages, list: seq<nat>, held: set<nat>, b: nat)
      requires b in list && SpaceAt(pages, b) == 0
      ensures Room(pages, list, held, Pos(list, b)) == Room(pages, list, held, Pos(list, b) + 1)
      ensures Pos(list, b) + 1 == |list| && Room(pages, list, held, Pos(list, b)) > 0 ==> Usable() - held != {}
    {
      hide Usable;
    }

    static lemma {:induction false} AfterAppend(pages0: Pages, pages: Pages, pages': Pages, list0: seq<nat>, l: seq<nat>, free0: set<nat>, held: set<nat>, n: nat,
                                                id: nat, need: nat, b: nat, from: nat)
      requires SameSlots(pages0, pages) && SameSlots(pages, pages') && n < |pages| && pages'[n].rows == [] && n !in l && n in Usable() - held
      requires Grown(list0, l, free0) && n in free0 && b in l && from in l && (b == from || Pos(l, from) < Pos(l, b))
      requires need <= Room(pages, l, held, Pos(l, b)) == Room(pages, l, held, Pos(l, b) + 1) && Pos(l, b) + 1 == |l| && NoIdAfter(pages, l, id, Pos(l, from))
      ensures var l' := l + [n];
              && SameSlots(pages0, pages') && Grown(list0, l', free0) && Pos(l', from) == Pos(l, from)
              && n in l' && from in l' && n != from && Pos(l', from) < Pos(l', n)
              && need <= Room(pages', l', held + {n}, Pos(l', n)) && NoIdAfter(pages', l', id, Pos(l', from))
    {
      hide Usable, Room, NoIdAfter, Pos;
      LastPos(l, n);
      RoomKept(pages, pages', l, held, n, |l|);
      NoIdKept(pages, pages', l, n, id, Pos(l, from));
      PosSnoc(l, n, from);
      forall x | x in list0 ensures Pos(l + [n], x) == Pos(list0, x) { assert x in l; PosSnoc(l, n, x); }
    }

    /** One more piece of a record, on page `b`, and the row before chained to it. */
    method WritePiece(b: nat, prev: RowID, id: nat, rest: seq<Byte>, ghost pages0: Pages, ghost path: seq<RowID>, ghost written: seq<Byte>, ghost soft: RowID,
                      ghost from: nat)
      returns (k: nat, n: nat)
      requires Valid() && Blanks() && b in list && 0 < id < 0x1_0000_0000 && rest != []
      requires Written(pages0, Pages(), list, path, id, written, soft) && path != [] && prev == path[|path| - 1]
      requires prev.block in list && Pos(list, prev.block) < Pos(list, b) && SpaceAt(Pages(), b) > 0
      requires |rest| <= Room(Pages(), list, blocksMap.held, Pos(list, b)) && NoIdAfter(Pages(), list, id, Pos(list, prev.block))
      requires FullFrom(Pages(), list, from, Pos(list, b))
      modifies Arrays()
      ensures Valid() && Blanks() && 0 < n <= |rest| && NoIdAfter(Pages(), list, id, Pos(list, b))
      ensures Written(pages0, Pages(), list, path + [RowID(b, k)], id, written + rest[..n], soft)
      ensures Lost(Pages(), list) == old(Lost(Pages(), list))
      ensures EndRoom(Pages(), list, blocksMap.held) + n + (if n == |rest| then HEADER_SIZE else 0) >= old(EndRoom(Pages(), list, blocksMap.held))
      ensures n < |rest| ==> SpaceAt(Pages(), b) == 0 && |rest| - n <= Room(Pages(), list, blocksMap.held, Pos(list, b))
      ensures FullFrom(Pages(), list, from, Pos(list, b))
    {
      hide FullFrom, FirstDead, HeapState, Fine, Pages, PageAt, BlanksOf, Usable, NoIdAfter, Room, EndRoom, SpaceFrom, Pos, PageOk, Viewed, View, UtilizationOf, DataBlocksMap.Valid, Written, WithRow, WithChain, PutRow, Used, FreeSpace, Lost;
      ghost var pages, l, held, fine := Pages(), list, blocksMap.held, Fine();
      StateFacts(pages, l, first, nextAvailable, held, fine, -1, clearsNext);
      FineReadable(b);
      var freeSpace := SpaceOf(b);
      n := if |rest| > freeSpace then freeSpace else |rest|;
      NoIdHere(pages, l, id, Pos(l, prev.block), b);
      LastOnPath(pages0, pages, l, path, id, written, soft);
      k := AddRow(b, id, rest[..n], 0, 0);
      NotTaken(pages, b, id, k);
      PieceDone(pages0, pages, l, first, nextAvailable, held, fine, clearsNext, path, id, written, soft, b, k, rest[..n]);
      FewRows(pages[b].rows);
      ChainRow(prev, RowID(b, k));
      PieceFull(pages, l, b, k, id, rest[..n], prev, from);
      PieceRoom(pages, Pages(), l, held, id, b, k, rest[..n], prev);
      PieceEnd(pages, Pages(), l, held, id, b, k, rest[..n], prev);
      PiecePrev(pages, b, k, id, rest[..n], prev);
      BackFrame(pages, Pages(), l);
    }

    static lemma {:induction false} PieceFull(pages: Pages, list: seq<nat>, b: nat, k: nat, id: nat, data: seq<Byte>, prev: RowID, from: nat)
      requires HeapOk(pages, list) && b in list && b < |pages| && k <= |pages[b].rows| && IsRow(WithRow(pages, b, k, id, data), prev)
      requires FullFrom(pages, list, from, Pos(list, b))
      ensures FullFrom(WithChain(WithRow(pages, b, k, id, data), prev, RowID(b, k)), list, from, Pos(list, b))
    {
      hide FullFrom;
      OkParts(pages, list);
      FullPut(pages, list, b, k, id, data, prev, from);
    }

    static lemma {:induction false} PiecePrev(pages: Pages, b: nat, k: nat, id: nat, data: seq<Byte>, prev: RowID)
      requires b < |pages| && k <= |pages[b].rows| && IsRow(WithRow(pages, b, k, id, data), prev)
      ensures var pages' := WithChain(WithRow(pages, b, k, id, data), prev, RowID(b, k));
              |pages'| == |pages| && forall c :: 0 <= c < |pages| ==> pages'[c].prev == pages[c].prev
    {
    }

    static lemma {:induction false} PieceRoom(pages: Pages, pages': Pages, list: seq<nat>, held: set<nat>, id: nat, b: nat, k: nat, piece: seq<Byte>, prev: RowID)
      requires HeapOk(pages, list) && |pages'| == |pages| == TOTAL && b in list && b < |pages| && prev.block in list && Pos(list, prev.block) < Pos(list, b)
      requires k <= |pages[b].rows| && TakesSlot(pages[b].rows, id, k) && Used(pages[b].rows) <= BLOCK_SIZE
      requires k < |pages[b].rows| ==> pages[b].rows[k].Free?
      requires pages'[b] == PutRow(pages[b], k, id, piece) && forall c :: 0 <= c < |pages| && c != b && c != prev.block ==> pages'[c] == pages[c]
      requires NoIdAfter(pages, list, id, Pos(list, prev.block))
      ensures NoIdAfter(pages', list, id, Pos(list, b))
      ensures |piece| == SpaceAt(pages, b) > 0 ==>
                (SpaceAt(pages', b) == 0 && Room(pages', list, held, Pos(list, b)) == Room(pages, list, held, Pos(list, b)) - |piece|)
    {
      hide Usable, Room, NoIdAfter, Used, FreeSpace, TakesSlot, PutRow;
      OkParts(pages, list);
      InList(pages, list);
      forall j | Pos(list, b) < j < |list| ensures list[j] < |pages| && pages'[list[j]] == pages[list[j]] {
        PosIs(list, j);
      }
      NoIdFrame(pages, pages', list, id, Pos(list, prev.block), Pos(list, b));
      if |piece| == SpaceAt(pages, b) > 0 {
        FilledUp(pages[b], id, k, piece);
        RoomTaken(pages, pages', list, held, b);
      }
    }

    static lemma {:induction false} PieceEnd(pages: Pages, pages': Pages, list: seq<nat>, held: set<nat>, id: nat, b: nat, k: nat, piece: seq<Byte>, prev: RowID)
      requires HeapOk(pages, list) && |pages'| == |pages| == TOTAL && b in list && b < |pages| && prev.block in list && Pos(list, prev.block) < Pos(list, b)
      requires k <= |pages[b].rows| && TakesSlot(pages[b].rows, id, k) && Used(pages[b].rows) <= BLOCK_SIZE
      requires k < |pages[b].rows| ==> pages[b].rows[k].Free?
      requires pages'[b] == PutRow(pages[b], k, id, piece) && forall c :: 0 <= c < |pages| && c != b && c != prev.block ==> pages'[c] == pages[c]
      requires |piece| <= SpaceAt(pages, b) && SpaceAt(pages, b) > 0
      ensures EndRoom(pages', list, held) + |piece| + HEADER_SIZE >= EndRoom(pages, list, held)
      ensures |piece| == SpaceAt(pages, b) ==> EndRoom(pages', list, held) + |piece| >= EndRoom(pages, list, held)
    {
      hide Usable, EndRoom, Room, Used, FreeSpace, TakesSlot, PutRow;
      OkParts(pages, list);
      LastPosition(pages, list);
      EndRoomPut(pages, pages', list, held, b, id, k, piece);
    }

    static lemma {:induction false} FirstEnd(pages: Pages, pages': Pages, list: seq<nat>, held: set<nat>, id: nat, b: nat, k: nat, piece: seq<Byte>)
      requires HeapOk(pages, list) && |pages'| == |pages| == TOTAL && b in list && b < |pages|
      requires k <= |pages[b].rows| && TakesSlot(pages[b].rows, id, k) && Used(pages[b].rows) <= BLOCK_SIZE
      requires k < |pages[b].rows| && pages[b].rows[k].Row? ==> pages[b].rows[k].data == []
      requires pages'[b] == PutRow(pages[b], k, id, piece) && forall c :: 0 <= c < |pages| && c != b ==> pages'[c] == pages[c]
      requires |piece| <= SpaceAt(pages, b) && SpaceAt(pages, b) > 0
      ensures EndRoom(pages', list, held) + |piece| + HEADER_SIZE >= EndRoom(pages, list, held)
      ensures |piece| == SpaceAt(pages, b) ==> EndRoom(pages', list, held) + |piece| >= EndRoom(pages, list, held)
    {
      hide Usable, EndRoom, Room, Used, FreeSpace, TakesSlot, PutRow;
      EndRoomPut(pages, pages', list, held, b, id, k, piece);
    }

    /** The row to be overwritten, if the page has one that was softly removed. */
    static function SoftRow(b: nat, q: nat, g: nat): RowID {
      if g > 0 then RowID(b, q) else NO_ROW
    }

    /** The first piece of a record goes to page `b`, which may have a row softly removed. */
    method WriteFirst(freeSpace: nat, b: nat, id: nat, data: seq<Byte>, ghost q: nat, ghost g: nat) returns (k: nat, n: nat)
      requires Holds(b) && Blanks() && b in list && blocks[b].Sound(q, g) && 0 < id < 0x1_0000_0000 && data != []
      requires freeSpace == SpaceAt(Pages(), b) > 0 && NoIdAfter(Pages(), list, id, Pos(list, b))
      requires if g > 0 then IsRow(Pages(), RowID(b, q)) && RowAt(Pages(), RowID(b, q)) == Row(id, [], NO_ROW) else !HasId(Pages()[b].rows, id)
      requires |data| <= Room(Pages(), list, blocksMap.held, Pos(list, b))
      modifies Arrays()
      ensures Valid() && Blanks() && 0 < n <= |data| && NoIdAfter(Pages(), list, id, Pos(list, b)) && (g > 0 ==> k == q)
      ensures Written(old(Pages()), Pages(), list, [RowID(b, k)], id, data[..n], SoftRow(b, q, g))
      ensures Lost(Pages(), list) == old(Lost(Pages(), list))
      ensures EndRoom(Pages(), list, blocksMap.held) + n + (if n == |data| then HEADER_SIZE else 0) >= old(EndRoom(Pages(), list, blocksMap.held))
      ensures n < |data| ==> SpaceAt(Pages(), b) == 0 && |data| - n <= Room(Pages(), list, blocksMap.held, Pos(list, b))
      ensures FirstDead(old(Headers(blocks[b].block.data[..])), id, k) && k <= |old(Pages())[b].rows|
    {
      hide FirstDead, HeapState, Fine, Pages, PageAt, BlanksOf, Usable, NoIdAfter, Room, EndRoom, SpaceFrom, Pos, PageOk, Viewed, View, UtilizationOf, DataBlocksMap.Valid, Written, WithRow, PutRow, Used, FreeSpace, HasId, TakesSlot, Lost;
      ghost var pages, l, held, fine := Pages(), list, blocksMap.held, Fine();
      StateFacts(pages, l, first, nextAvailable, held, fine, b, clearsNext);
      n := if |data| > freeSpace then freeSpace else |data|;
      PageIds(b, q, g);
      k := AddRow(b, id, data[..n], q, g);
      SpaceUsed(pages, b);
      FirstSlot(pages, b, id, k, q, g);
      PutState(pages, l, first, nextAvailable, held, fine, b, clearsNext, b, k, id, data[..n]);
      WrittenFirst(pages, Pages(), l, RowID(b, k), id, data[..n], SoftRow(b, q, g));
      WithRowPages(pages, b, k, id, data[..n]);
      FirstRoom(pages, Pages(), l, held, id, b, k, data[..n]);
      FirstEnd(pages, Pages(), l, held, id, b, k, data[..n]);
      PutPrev(pages[b], k, id, data[..n]);
      BackFrame(pages, Pages(), l);
    }

    static lemma {:induction false} PutPrev(v: PageView, k: nat, id: nat, data: seq<Byte>)
      requires k <= |v.rows|
      ensures PutRow(v, k, id, data).prev == v.prev
    {
    }

    lemma {:induction false} PageIds(b: nat, q: nat, g: nat)
      requires Apart() && b < |blocks| && blocks[b].Sound(q, g)
      ensures var rows := Pages()[b].rows;
              forall i, j :: 0 <= i < j < |rows| && rows[i].Row? && rows[j].Row? ==> rows[i].id != rows[j].id
    {
      hide PageOk, Viewed, View, UtilizationOf, Used;
      PagesAre();
      OkView(blocks[b].block.data[..], q, g);
      ViewIds(blocks[b].block.data[..], q, g);
    }

    static lemma {:induction false} SpaceUsed(pages: Pages, b: nat)
      requires b < |pages| && SpaceAt(pages, b) > 0
      ensures Used(pages[b].rows) <= BLOCK_SIZE && SpaceAt(pages, b) == FreeSpace(pages[b].rows)
    {
    }

    static lemma {:induction false} WithRowPages(pages: Pages, b: nat, k: nat, id: nat, data: seq<Byte>)
      requires b < |pages| && k <= |pages[b].rows|
      ensures var pages' := WithRow(pages, b, k, id, data);
              |pages'| == |pages| && pages'[b] == PutRow(pages[b], k, id, data) && forall c :: 0 <= c < |pages| && c != b ==> pages'[c] == pages[c]
    {
    }

    static lemma {:induction false} FirstSlot(pages: Pages, b: nat, id: nat, k: nat, q: nat, g: nat)
      requires b < |pages| && k <= |pages[b].rows| && TakesSlot(pages[b].rows, id, k)
      requires if g > 0 then IsRow(pages, RowID(b, q)) && RowAt(pages, RowID(b, q)) == Row(id, [], NO_ROW) else !HasId(pages[b].rows, id)
      requires forall i, j :: 0 <= i < j < |pages[b].rows| && pages[b].rows[i].Row? && pages[b].rows[j].Row? ==> pages[b].rows[i].id != pages[b].rows[j].id
      ensures g > 0 ==> k == q
      ensures IsRow(pages, RowID(b, k)) ==> RowID(b, k) == SoftRow(b, q, g) && RowAt(pages, RowID(b, k)) == Row(id, [], NO_ROW)
      ensures k < |pages[b].rows| && pages[b].rows[k].Row? ==> pages[b].rows[k].data == []
    {
      if g > 0 { assert HasId(pages[b].rows, id) by { assert pages[b].rows[q].id == id; } }
    }

    static lemma {:induction false} FirstRoom(pages: Pages, pages': Pages, list: seq<nat>, held: set<nat>, id: nat, b: nat, k: nat, piece: seq<Byte>)
      requires HeapOk(pages, list) && |pages'| == |pages| == TOTAL && b in list && b < |pages|
      requires k <= |pages[b].rows| && TakesSlot(pages[b].rows, id, k) && Used(pages[b].rows) <= BLOCK_SIZE
      requires k < |pages[b].rows| && pages[b].rows[k].Row? ==> pages[b].rows[k].data == []
      requires pages'[b] == PutRow(pages[b], k, id, piece) && forall c :: 0 <= c < |pages| && c != b ==> pages'[c] == pages[c]
      requires NoIdAfter(pages, list, id, Pos(list, b))
      ensures NoIdAfter(pages', list, id, Pos(list, b))
      ensures |piece| == SpaceAt(pages, b) > 0 ==>
                (SpaceAt(pages', b) == 0 && Room(pages', list, held, Pos(list, b)) == Room(pages, list, held, Pos(list, b)) - |piece|)
    {
      hide Usable, Room, NoIdAfter, Used, FreeSpace, TakesSlot, PutRow;
      OkParts(pages, list);
      InList(pages, list);
      forall j | Pos(list, b) < j < |list| ensures list[j] < |pages| && pages'[list[j]] == pages[list[j]] {
        PosIs(list, j);
      }
      NoIdFrame(pages, pages', list, id, Pos(list, b), Pos(list, b));
      if |piece| == SpaceAt(pages, b) > 0 {
        FilledUp(pages[b], id, k, piece);
        RoomTaken(pages, pages', list, held, b);
      }
    }

    /** Writes a record from page `b` on: as much as fits, the rest on later pages and new ones. */
    method AllocateRecord(freeSpace: nat, b: nat, id: nat, data: seq<Byte>, ghost q: nat, ghost g: nat) returns (localID: nat, ghost path: seq<RowID>)
      requires Holds(b) && Blanks() && b in list && blocks[b].Sound(q, g) && 0 < id < 0x1_0000_0000 && data != []
      requires freeSpace == SpaceAt(Pages(), b) > 0 && NoIdAfter(Pages(), list, id, Pos(list, b))
      requires if g > 0 then IsRow(Pages(), RowID(b, q)) && RowAt(Pages(), RowID(b, q)) == Row(id, [], NO_ROW) else !HasId(Pages()[b].rows, id)
      requires |data| <= Room(Pages(), list, blocksMap.held, Pos(list, b))
      modifies this`nextAvailable, this`list, Arrays(), blocksMap`held, blocksMap.low.vals, blocksMap.high.vals
      ensures Valid() && Blanks() && path != [] && path[0] == RowID(b, localID) && (g > 0 ==> localID == q)
      ensures Written(old(Pages()), Pages(), list, path, id, data, SoftRow(b, q, g)) && Grown(old(list), list, old(Unheld())) && Unheld() <= old(Unheld())
      ensures Lost(Pages(), list) == old(Lost(Pages(), list)) && EndRoom(Pages(), list, blocksMap.held) + |data| + HEADER_SIZE >= old(EndRoom(Pages(), list, blocksMap.held))
      ensures FirstDead(old(Headers(blocks[b].block.data[..])), id, localID) && localID <= |old(Pages())[b].rows| && FullFrom(Pages(), list, Pos(list, b), Pos(list, path[|path| - 1].block))
    {
      hide FullFrom, FirstDead, HeapState, Fine, Pages, PageAt, BlanksOf, Usable, NoIdAfter, Room, EndRoom, SpaceFrom, SpaceAt, Pos, PageOk, Viewed, View, UtilizationOf, DataBlocksMap.Valid, Written, HasId, SameSlots, IsRow, RowAt, Grown, Lost;
      ghost var pages0, list0, free0, soft, lost := Pages(), list, Unheld(), SoftRow(b, q, g), Lost(Pages(), list);
      ghost var room := EndRoom(Pages(), list, blocksMap.held);
      GrownSelf(list0, free0);
      var n;
      localID, n := WriteFirst(freeSpace, b, id, data, q, g);
      path := [RowID(b, localID)];
      FullNone(Pages(), list, Pos(list, b));
      var rest := data[n..];
      var prev := RowID(b, localID);
      ghost var written := data[..n];
      while rest != []
        invariant path != [] && prev == path[|path| - 1] && path[0] == RowID(b, localID) && written + rest == data
        invariant Underway(pages0, list0, free0, path, id, written, |rest|, soft, lost, room)
        decreases |rest|
      {
        prev, n := NextPiece(prev, id, rest, pages0, list0, free0, path, written, soft, lost, room);
        path := path + [prev];
        written := written + rest[..n];
        rest := rest[n..];
      }
      assert written == data;
    }

    /** A record has been written up to the last row of `path`, and `left` bytes are still to come. */
    ghost predicate Underway(pages0: Pages, list0: seq<nat>, free0: set<nat>, path: seq<RowID>, id: nat, written: seq<Byte>, left: nat, soft: RowID, lost: set<nat>, room: nat)
      reads this, Arrays(), blocksMap, blocksMap.low.vals, blocksMap.high.vals
    {
      && Valid() && Blanks() && Lost(Pages(), list) == lost && room <= EndRoom(Pages(), list, blocksMap.held) + |written| + (if left == 0 then HEADER_SIZE else 0) && path != [] && path[|path| - 1].block in list && Written(pages0, Pages(), list, path, id, written, soft)
      && var block := path[|path| - 1].block;
         && (left > 0 ==> SpaceAt(Pages(), block) == 0 && left <= Room(Pages(), list, blocksMap.held, Pos(list, block)))
         && NoIdAfter(Pages(), list, id, Pos(list, block)) && Grown(list0, list, free0) && Unheld() <= free0
         && path[0].block in list && FullFrom(Pages(), list, Pos(list, path[0].block), Pos(list, block))
    }

    method NextPiece(prev: RowID, id: nat, rest: seq<Byte>, ghost pages0: Pages, ghost list0: seq<nat>, ghost free0: set<nat>,
                     ghost path: seq<RowID>, ghost written: seq<Byte>, ghost soft: RowID, ghost lost: set<nat>, ghost room: nat) returns (r: RowID, n: nat)
      requires Underway(pages0, list0, free0, path, id, written, |rest|, soft, lost, room) && rest != [] && prev == path[|path| - 1] && 0 < id < 0x1_0000_0000
      modifies this`nextAvailable, this`list, Arrays(), blocksMap`held, blocksMap.low.vals, blocksMap.high.vals
      ensures 0 < n <= |rest| && Underway(pages0, list0, free0, path + [r], id, written + rest[..n], |rest| - n, soft, lost, room)
    {
      hide FullFrom, HeapState, Fine, Pages, PageAt, BlanksOf, Usable, NoIdAfter, Room, EndRoom, SpaceFrom, SpaceAt, Pos, PageOk, Viewed, View, UtilizationOf, DataBlocksMap.Valid, Written, HasId, SameSlots, IsRow, RowAt, Grown, Lost;
      ghost var pages, l, free := Pages(), list, Unheld();
      var block := FindSpace(prev.block, id, |rest|);
      GrownTrans(list0, l, list, free0, free);
      GrownKeeps(l, list, free);
      WrittenGrow(pages0, pages, Pages(), l, list, path, id, written, soft);
      ghost var from := Pos(list, path[0].block);
      FullKept(pages, Pages(), l, list, Pos(l, path[0].block), Pos(l, prev.block));
      FullJoin(Pages(), list, from, Pos(list, prev.block), Pos(list, block));
      var k;
      k, n := WritePiece(block, prev, id, rest, pages0, path, written, soft, from);
      r := RowID(block, k);
      assert (path + [r])[|path + [r]| - 1] == r;
    }

    static lemma {:induction false} FullJoin(pages: Pages, list: seq<nat>, i: nat, j: nat, k: nat)
      requires FullFrom(pages, list, i, j) && FullFrom(pages, list, j, k)
      ensures FullFrom(pages, list, i, k)
    {
    }

    static lemma {:induction false} GrownParts(a: seq<nat>, b: seq<nat>, from: set<nat>)
      requires Grown(a, b, from)
      ensures a <= b && forall x :: x in b && x !in a ==> x in from
    {
    }

    static lemma {:induction false} GrownKeeps(a: seq<nat>, b: seq<nat>, from: set<nat>)
      requires Grown(a, b, from)
      ensures a <= b && forall x :: x in a ==> Pos(b, x) == Pos(a, x) && x in b
    {
    }

    // ---------- Adding ----------

    /** Stores a record; it starts on the last page of the list or, if that is full, on a new one. */
    method Add(id: nat, data: seq<Byte>) returns (r: RowID, ghost path: seq<RowID>)
      requires Valid() && Blanks() && 0 < id < 0x1_0000_0000 && data != [] && !HasId(Pages()[nextAvailable].rows, id)
      requires |data| <= EndRoom(Pages(), list, blocksMap.held)
      modifies this`nextAvailable, this`list, Arrays(), blocksMap`held, blocksMap.low.vals, blocksMap.high.vals
      ensures Valid() && Blanks() && r.block in list && Stored(Pages(), r, data) && Head(Pages(), list, r)
      ensures path != [] && path[0] == r && Written(old(Pages()), Pages(), list, path, id, data, NO_ROW)
      ensures Grown(old(list), list, old(Unheld())) && Lost(Pages(), list) == old(Lost(Pages(), list))
      ensures EndRoom(Pages(), list, blocksMap.held) + |data| + HEADER_SIZE >= old(EndRoom(Pages(), list, blocksMap.held))
      ensures StillHeld(old(list), old(blocksMap.held), list, blocksMap.held)
      ensures r !in old(Records()) && Records() == old(Records())[r := data]
      ensures if old(SpaceAt(Pages(), nextAvailable)) > 0
                then r.block == old(nextAvailable) && FirstDead(old(Headers(blocks[nextAvailable].block.data[..])), id, r.local)
                else r.block !in old(list) && r.local == 0
      ensures FullFrom(Pages(), list, Pos(list, r.block), Pos(list, path[|path| - 1].block))
    {
      hide FullFrom, FirstDead, StillHeld, HeapState, Fine, Pages, PageAt, BlanksOf, Usable, NoIdAfter, Room, EndRoom, SpaceFrom, SpaceAt, Pos, PageOk, Viewed, View, UtilizationOf, DataBlocksMap.Valid, Written, HasId, SameSlots, IsRow, RowAt, Grown, IsChain, DataOf, Onward, Forward, Injective, Linked, Head, Stored, Lost;
      ghost var pages0, list0, free0, held0 := Pages(), list, Unheld(), blocksMap.held;
      StateFacts(pages0, list0, first, nextAvailable, blocksMap.held, Fine(), -1, clearsNext);
      BlankRows(pages0, blocksMap.held);
      OkParts(pages0, list0);
      var b, freeSpace := FindStart(id, |data|);
      ghost var pages1, list1, free1 := Pages(), list, Unheld();
      StateFacts(pages1, list1, first, nextAvailable, blocksMap.held, Fine(), -1, clearsNext);
      OkParts(pages1, list1);
      BlankRows(pages1, blocksMap.held);
      FineReadable(b);
      StateBut(pages1, list1, first, nextAvailable, blocksMap.held, Fine(), b, clearsNext);
      var localID;
      localID, path := AllocateRecord(freeSpace, b, id, data, 0, 0);
      r := RowID(b, localID);
      GrownTrans(list0, list1, list, free0, free1);
      GrownParts(list1, list, free1);
      StateFacts(Pages(), list, first, nextAvailable, blocksMap.held, Fine(), -1, clearsNext);
      GrownParts(list0, list1, free0);
      GrownParts(list0, list, free0);
      HeldGrown(list0, held0, list, blocksMap.held);
      AddDone(pages0, pages1, Pages(), list0, list1, list, free0, free1, path, id, data);
    }

    /** Where a new record starts: the last page of the list if it has room, else a new one. */
    method FindStart(id: nat, ghost need: nat) returns (b: nat, freeSpace: nat)
      requires Valid() && Blanks() && !HasId(Pages()[nextAvailable].rows, id) && 0 < need <= EndRoom(Pages(), list, blocksMap.held)
      modifies this`nextAvailable, this`list, Arrays(), blocksMap`held, blocksMap.low.vals, blocksMap.high.vals
      ensures Valid() && Blanks() && b in list && freeSpace == SpaceAt(Pages(), b) > 0 && !HasId(Pages()[b].rows, id)
      ensures SameSlots(old(Pages()), Pages()) && Grown(old(list), list, old(Unheld())) && Unheld() <= old(Unheld())
      ensures Lost(Pages(), list) == old(Lost(Pages(), list)) && EndRoom(Pages(), list, blocksMap.held) == old(EndRoom(Pages(), list, blocksMap.held))
      ensures need <= Room(Pages(), list, blocksMap.held, Pos(list, b)) && NoIdAfter(Pages(), list, id, Pos(list, b))
      ensures if old(SpaceAt(Pages(), nextAvailable)) > 0 then b == old(nextAvailable) && blocks[b].block.data[..] == old(blocks[b].block.data[..])
              else b !in old(list) && NoRows(Pages(), b)
    {
      hide NoRows, FullFrom, HeapState, Fine, Pages, PageAt, BlanksOf, Usable, NoIdAfter, Room, EndRoom, SpaceFrom, SpaceAt, Pos, PageOk, Viewed, View, UtilizationOf, DataBlocksMap.Valid, HasId, SameSlots, Grown, Linked, Lost;
      ghost var pages0, list0 := Pages(), list;
      StateFacts(pages0, list0, first, nextAvailable, blocksMap.held, Fine(), -1, clearsNext);
      OkParts(pages0, list0);
      LastPosition(pages0, list0);
      EndRoomIs(pages0, list0, blocksMap.held);
      NothingAfter(pages0, list0, id);
      GrownSelf(list0, Unheld());
      SameSlotsSelf(pages0);
      ghost var tail, free0 := nextAvailable, Unheld();
      b := nextAvailable;
      freeSpace := SpaceOf(b);
      if freeSpace == 0 {
        b := FindSpace(b, id, need);
        BehindAll(list0, list, free0, tail, b);
        StateFacts(Pages(), list, first, nextAvailable, blocksMap.held, Fine(), -1, clearsNext);
        NoIdHere(Pages(), list, id, Pos(list, tail), b);
        NoIdLater(Pages(), list, id, Pos(list, tail), Pos(list, b));
        freeSpace := SpaceOf(b);
      }
    }

    // ---------- Removing ----------

    /** A sound heap but for rows chained to `t`, which may be gone. */
    ghost predicate RemovingNow(t: RowID)
      reads this, Arrays(), blocksMap, blocksMap.low.vals, blocksMap.high.vals
    {
      Apart() && blocksMap.Valid() && Removing(Pages(), list, first, nextAvailable, blocksMap.held, Fine(), clearsNext, t)
    }

    /** Takes an emptied page out of the list and gives its block back, unless it is the last page. */
    method RemoveFromList(b: nat, ghost t: RowID)
      requires RemovingNow(t) && b in list && Emptied(Pages()[b].rows) && (b == nextAvailable || b !in Lost(Pages(), list))
      modifies this`first, this`list, Arrays(), blocksMap`held, blocksMap.low.vals, blocksMap.high.vals
      ensures RemovingNow(t) && RowsLess(old(Pages()), Pages(), []) && list == Sieve(old(list), if b == nextAvailable then {} else {b})
      ensures Undisturbed(old(Pages()), old(list), old(blocksMap.held), Pages(), list, blocksMap.held, Pos(old(list), b), 0)
      ensures forall c :: 0 <= c < TOTAL ==> (Emptied(Pages()[c].rows) <==> Emptied(old(Pages())[c].rows))
      ensures Lost(Pages(), list) <= old(Lost(Pages(), list))
      ensures blocksMap.held == old(blocksMap.held) - (if b == nextAvailable then {} else {b}) && (b == nextAvailable ==> Pages() == old(Pages()))
    {
      hide Removing, Fine, Pages, PageAt, Usable, Undisturbed, Emptied, Sieve, Cut, Unlinked, RowsLess, PageOk, Viewed, View, DataBlocksMap.Valid, UtilizationOf, Linked, Lost;
      ghost var pages, l, held, fine := Pages(), list, blocksMap.held, Fine();
      RemovingFacts(pages, l, first, nextAvailable, held, fine, clearsNext, t);
      LessSelf(pages);
      UndisturbedSelf(pages, l, held, Pos(l, b));
      SieveNone(l);
      FinePage(b);
      HereInList(pages, l, b);
      var prev, next := blocks[b].PrevBlockID(), blocks[b].NextBlockID();
      ghost var first0 := first;
      if prev == 0 {
        if next == 0 {
          return;
        }
        first := next;
      }
      if next == 0 {
        return;
      }
      CutOut(b, prev, next, first0, t);
    }

    /** A page between two others, or the first one, is passed by, cleared and given back. */
    method CutOut(b: nat, prev: nat, next: nat, ghost first0: nat, ghost t: RowID)
      requires Apart() && blocksMap.Valid() && Removing(Pages(), list, first0, nextAvailable, blocksMap.held, Fine(), clearsNext, t)
      requires b in list && b != nextAvailable && b !in Lost(Pages(), list) && Emptied(Pages()[b].rows) && prev == Pages()[b].prev && next == Pages()[b].next
      requires first == if prev == 0 then next else first0
      modifies this`list, Arrays(), blocksMap`held, blocksMap.low.vals, blocksMap.high.vals
      ensures RemovingNow(t) && RowsLess(old(Pages()), Pages(), []) && list == Sieve(old(list), {b}) && blocksMap.held == old(blocksMap.held) - {b}
      ensures Lost(Pages(), list) <= old(Lost(Pages(), list))
      ensures Undisturbed(old(Pages()), old(list), old(blocksMap.held), Pages(), list, blocksMap.held, Pos(old(list), b), 0)
      ensures forall c :: 0 <= c < TOTAL ==> (Emptied(Pages()[c].rows) <==> Emptied(old(Pages())[c].rows))
    {
      hide Removing, Fine, Pages, PageAt, Usable, Undisturbed, Emptied, Sieve, Cut, Unlinked, RowsLess, PageOk, Viewed, View, DataBlocksMap.Valid, UtilizationOf, Linked, Lost;
      ghost var pages, l, held, fine := Pages(), list, blocksMap.held, Fine();
      RemovingFacts(pages, l, first0, nextAvailable, held, fine, clearsNext, t);
      HereInList(pages, l, b);
      ghost var i := Pos(l, b);
      PageGone(pages, l, first0, nextAvailable, held, fine, clearsNext, i, t);
      HeldUsable(b);
      PageUndisturbed(pages, l, held, clearsNext, i);
      UnlinkPage(b, prev, next);
      blocksMap.Release(b);
      list := Cut(l, i);
      CutSieve(l, i);
      UnlinkedEmpty(pages, b, clearsNext);
    }

    lemma {:induction false} HeldUsable(b: nat)
      requires blocksMap.Valid() && b in blocksMap.held && b > 2
      ensures b in Usable() && b < TOTAL
    {
    }

    static lemma {:induction false} LessSelf(pages: Pages)
      ensures RowsLess(pages, pages, [])
    {
    }

    /** A page of the list points to its neighbours; the last one is known by its pointer. */
    static lemma {:induction false} HereInList(pages: Pages, list: seq<nat>, b: nat)
      requires Linked(pages, list) && b in list
      ensures b < |pages| && var i := Pos(list, b);
              && i < |list| && list[i] == b && (pages[b].next == 0 <==> i + 1 == |list|) && (i + 1 == |list| <==> b == list[|list| - 1])
              && (b !in Lost(pages, list) ==> (pages[b].prev == 0 <==> i == 0)) && (i + 1 < |list| ==> pages[b].next == list[i + 1])
    {
      NextPage(pages, list, b);
      DistinctList(pages, list);
      LostAt(pages, list, Pos(list, b));
      if Pos(list, b) + 1 < |list| { assert list[Pos(list, b)] != list[|list| - 1]; }
    }

    static lemma {:induction false} UnlinkedEmpty(pages: Pages, b: nat, repaired: bool)
      requires b < |pages| && pages[b].prev < |pages| && pages[b].next < |pages| && pages[b].next != b && pages[b].prev != b && pages[b].prev != pages[b].next
      requires Emptied(pages[b].rows)
      ensures forall c :: 0 <= c < |pages| ==> (Emptied(Unlinked(pages, b, repaired)[c].rows) <==> Emptied(pages[c].rows))
    {
      hide Unlinked;
      UnlinkedPages(pages, b, repaired);
    }

    /** The pointer writes of a page leaving the list, the clearing included. */
    method UnlinkPage(b: nat, prev: nat, next: nat)
      requires Apart() && b in Fine() && prev in Fine() && next in Fine() && b != prev && b != next && prev != next
      requires prev == Pages()[b].prev && next == Pages()[b].next && b < TOTAL && prev < TOTAL && next < TOTAL
      modifies Arrays()
      ensures Pages() == Unlinked(old(Pages()), b, clearsNext) && Fine() == old(Fine())
    {
      hide PageAt, Fine, Pages, Unlinked;
      ghost var pages := Pages();
      PointNext(prev, next);
      ghost var p := Pages();
      PointPrev(next, prev);
      ghost var q := Pages();
      ClearPage(b);
      assert Pages() == q[b := PageView([], q[b].prev, if clearsNext then 0 else q[b].next)];
      UnlinkedIs(pages, p, q, b, clearsNext);
    }

    static lemma {:induction false} UnlinkedIs(pages: Pages, p: Pages, q: Pages, b: nat, repaired: bool)
      requires b < |pages| && pages[b].prev < |pages| && pages[b].next < |pages| && pages[b].next != b && pages[b].prev != b && pages[b].prev != pages[b].next
      requires p == pages[pages[b].prev := pages[pages[b].prev].(next := pages[b].next)]
      requires q == p[pages[b].next := p[pages[b].next].(prev := pages[b].prev)]
      ensures q[b := PageView([], q[b].prev, if repaired then 0 else q[b].next)] == Unlinked(pages, b, repaired)
    {
    }

    /** Removes the rows of a chain, the last one first; pages left empty leave the list. */
    method RemoveChain(r: RowID, ghost path: seq<RowID>) returns (ghost gone: set<nat>)
      requires Valid() && IsChain(Pages(), path) && Onward(Pages(), list, path) && path != [] && path[0] == r
      requires Leavable(Pages(), list, path, nextAvailable)
      modifies this`first, this`list, Arrays(), blocksMap`held, blocksMap.low.vals, blocksMap.high.vals
      ensures RemovingNow(r)
      ensures GoneSoFar(old(Pages()), old(list), old(blocksMap.held), path, path, gone, Pos(old(list), r.block), old(Blanks()))
      decreases |path|
    {
      hide BlanksOf, HeapState, Removing, Fine, Pages, PageAt, Usable, Undisturbed, Emptied, Sieve, RowsLess, PageOk, Viewed, View, DataBlocksMap.Valid, UtilizationOf, Linked, Lost, IsChain, Onward, DataOf, Leaves, IsRow, RowAt, Pos;
      ghost var pages, l, held := Pages(), list, blocksMap.held;
      ChainRest(pages, l, path);
      LeavableRest(pages, l, path, nextAvailable);
      StateFacts(pages, l, first, nextAvailable, held, Fine(), -1, clearsNext);
      var ok, _, chained := ReadRow(r);
      ghost var t, rest := NO_ROW, path[1..];
      if chained.block != 0 {
        gone := RemoveChain(chained, rest);
        PathIn(pages, l, rest);
        RestGone(pages, l, held, path, Pages(), list, blocksMap.held, |DataOf(pages, rest)|);
        t := chained;
      } else {
        gone := {};
        RemovingStart(pages, l, first, nextAvailable, held, Fine(), clearsNext);
        NoRest(pages, l, held, path, nextAvailable);
      }
      PathIn(pages, l, path);
      gone := RemoveLast(r, t, pages, l, held, path, gone, if chained.block != 0 then Pos(l, chained.block) else |l|, old(Blanks()));
    }

    /** The rows of `path` have gone, and with those of `left` the pages `gone` of the list; pages up to position `i` are
        as they were, but for the room. Free blocks are still blank if none has been freed. */
    ghost predicate GoneSoFar(pages0: Pages, list0: seq<nat>, held0: set<nat>, path: seq<RowID>, left: seq<RowID>,
                              gone: set<nat>, i: nat, was: bool)
      reads this, Arrays(), blocksMap
    {
      && Apart() && (forall i :: 0 <= i < |path| ==> IsRow(pages0, path[i])) && RowsLess(pages0, Pages(), path)
      && list == Sieve(list0, gone) && Leaves(Pages(), left, nextAvailable, gone)
      && Undisturbed(pages0, list0, held0, Pages(), list, blocksMap.held, i, |DataOf(pages0, path)|)
      && blocksMap.held == held0 - gone && (gone == {} && was ==> Blanks()) && Lost(Pages(), list) <= Lost(pages0, list0)
    }

    /** The first row of a record goes, after all the others. */
    method RemoveLast(r: RowID, ghost t: RowID, ghost pages0: Pages, ghost list0: seq<nat>, ghost held0: set<nat>, ghost path: seq<RowID>,
                      ghost gone0: set<nat>, ghost i1: nat, ghost was: bool) returns (ghost gone: set<nat>)
      requires RemovingNow(t) && IsRow(Pages(), r) && r.block in list && (t.block != 0 ==> ChainedTo(Pages(), r, t))
      requires path != [] && path[0] == r && IsRow(pages0, r) && path[0].block !in BlocksOf(path[1..]) && MayLeave(pages0, list0, r, nextAvailable)
      requires RowAt(Pages(), r) == RowAt(pages0, r) && Pos(list, r.block) == Pos(list0, r.block) <= i1
      requires GoneSoFar(pages0, list0, held0, path[1..], path[1..], gone0, i1, was)
      modifies this`first, this`list, Arrays(), blocksMap`held, blocksMap.low.vals, blocksMap.high.vals
      ensures RemovingNow(r) && GoneSoFar(pages0, list0, held0, path, path, gone, Pos(list0, r.block), was)
    {
      hide BlanksOf, Removing, Fine, Pages, PageAt, Usable, Undisturbed, Emptied, Sieve, RowsLess, PageOk, Viewed, View, DataBlocksMap.Valid, UtilizationOf, Linked, Lost, DataOf, Leaves, IsRow, RowAt, Pos, Without, RowCount, Fits, MayLeave;
      RowOff(r, t, pages0, list0, held0, path, gone0, i1, was);
      ghost var pages, l, held, i := Pages(), list, blocksMap.held, Pos(list0, r.block);
      RemovingFacts(pages, l, first, nextAvailable, held, Fine(), clearsNext, r);
      FinePage(r.block);
      var total := blocks[r.block].TotalRecords();
      CountZero(pages[r.block].rows);
      ghost var more := if r.block == nextAvailable then {} else {r.block};
      gone := gone0;
      if total == 0 {
        LeavesExactly(pages0, list0, path, nextAvailable, pages, l);
        RemoveFromList(r.block, r);
        gone := gone0 + more;
        Both(list0, held0, gone0, more);
        UndisturbedTrans(pages0, list0, held0, pages, l, held, Pages(), list, blocksMap.held, i, i, i, |DataOf(pages0, path)|, 0);
        LessTrans(pages0, pages, Pages(), path, []);
        assert path + [] == path;
      }
      assert gone0 + {} == gone0;
      LeavesMore(pages, Pages(), path, nextAvailable, gone0);
    }

    /** Its row is taken off its page. */
    method RowOff(r: RowID, ghost t: RowID, ghost pages0: Pages, ghost list0: seq<nat>, ghost held0: set<nat>, ghost path: seq<RowID>,
                  ghost gone0: set<nat>, ghost i1: nat, ghost was: bool)
      requires RemovingNow(t) && IsRow(Pages(), r) && r.block in list && (t.block != 0 ==> ChainedTo(Pages(), r, t))
      requires path != [] && path[0] == r && IsRow(pages0, r) && path[0].block !in BlocksOf(path[1..])
      requires RowAt(Pages(), r) == RowAt(pages0, r) && Pos(list, r.block) == Pos(list0, r.block) <= i1
      requires GoneSoFar(pages0, list0, held0, path[1..], path[1..], gone0, i1, was)
      modifies Arrays()
      ensures RemovingNow(r) && r.block in list && GoneSoFar(pages0, list0, held0, path, path[1..], gone0, Pos(list0, r.block), was)
    {
      hide BlanksOf, Removing, Fine, Pages, PageAt, Usable, Undisturbed, Emptied, Sieve, RowsLess, PageOk, Viewed, View, DataBlocksMap.Valid, UtilizationOf, Linked, Lost, DataOf, Leaves, IsRow, RowAt, Pos, Without, RowCount, Fits, MayLeave;
      ghost var p1, l1, h1, fine := Pages(), list, blocksMap.held, Fine();
      RemovingFacts(p1, l1, first, nextAvailable, h1, fine, clearsNext, t);
      RowGone(p1, l1, first, nextAvailable, h1, fine, clearsNext, r, t);
      AllFit();
      WithoutPages(p1, r);
      FirstGoes(pages0, list0, held0, p1, l1, h1, path, i1);
      RemoveRow(r);
      LeavesSame(p1, Pages(), path, nextAvailable, gone0);
    }

    static lemma {:induction false} Both(list: seq<nat>, held: set<nat>, a: set<nat>, b: set<nat>)
      ensures Sieve(Sieve(list, a), b) == Sieve(list, a + b) && (held - a) - b == held - (a + b)
      ensures a + b == {} ==> a == {} && b == {}
    {
      SieveTwice(list, a, b);
      assert forall x :: x in a ==> x in a + b;
      assert forall x :: x in b ==> x in a + b;
    }

    lemma {:induction false} AllFit()
      requires Apart() && forall b :: b in list ==> b in Fine()
      ensures Fits(Pages(), list)
    {
      hide PageOk, View, Viewed, Fine, Pages;
      forall b | b in list && b < TOTAL ensures Used(Pages()[b].rows) <= BLOCK_SIZE { FinePage(b); }
    }

    static lemma {:induction false} NoRest(pages: Pages, list: seq<nat>, held: set<nat>, path: seq<RowID>, last: nat)
      requires |path| == 1 && IsRow(pages, path[0]) && path[0].block in list
      ensures path[1..] == [] && RowsLess(pages, pages, path[1..]) && Sieve(list, {}) == list && Leaves(pages, path[1..], last, {})
      ensures DataOf(pages, path[1..]) == []
      ensures Undisturbed(pages, list, held, pages, list, held, |list|, 0)
    {
      SieveNone(list);
    }

    /** Removes a record; `path` are its rows, and `gone` the pages that left the list with it. */
    method Remove(r: RowID, ghost path: seq<RowID>) returns (ok: bool, ghost gone: set<nat>)
      requires Valid() && r.block in list
      requires IsRow(Pages(), r) ==> r in Records() && IsChain(Pages(), path) && path[0] == r && Leavable(Pages(), list, path, nextAvailable)
      modifies this`first, this`list, Arrays(), blocksMap`held, blocksMap.low.vals, blocksMap.high.vals
      ensures Valid() && ok == (r in old(Records())) && Records() == old(Records()) - {r} && Lost(Pages(), list) <= old(Lost(Pages(), list))
      ensures !ok ==> Pages() == old(Pages()) && list == old(list) && gone == {}
      ensures ok ==> RowsLess(old(Pages()), Pages(), path)
      ensures ok ==> list == Sieve(old(list), gone) && blocksMap.held == old(blocksMap.held) - gone && Leaves(Pages(), path, nextAvailable, gone)
      ensures ok ==> forall b :: b in gone <==> b != nextAvailable && Deserted(old(Pages()), path, b)
      ensures EndRoom(Pages(), list, blocksMap.held) >= old(EndRoom(Pages(), list, blocksMap.held))
      ensures StillHeld(old(list), old(blocksMap.held), list, blocksMap.held)
      ensures old(Blanks()) && (clearsNext || gone == {}) ==> Blanks()
    {
      hide Deserted, StillHeld, HeapState, BlanksOf, Removing, Fine, Pages, PageAt, Usable, EndRoom, Undisturbed, Emptied, Sieve, RowsLess, PageOk, Viewed, View, DataBlocksMap.Valid, UtilizationOf, Linked, Lost, Leavable, IsChain, Onward, DataOf, Leaves, IsRow, RowAt, Pos, HeapOk, Stored, Head;
      ghost var pages, l, held, fine := Pages(), list, blocksMap.held, Fine();
      StateFacts(pages, l, first, nextAvailable, held, fine, -1, clearsNext);
      gone := {};
      RecordsKeys(pages, l);
      var data, chain;
      ok, data, chain := ReadRow(r);
      if !ok {
        NoRecord(r);
        HeldSame(l, held);
      } else {
        OkParts(pages, l);
        ChainForward(pages, l, path);
        gone := RemoveChain(r, path);
        UndisturbedEnd(pages, l, held, Pages(), list, blocksMap.held, Pos(l, r.block), |DataOf(pages, path)|);
        PathIn(pages, l, path);
        GoneListed(pages, l, Pages(), path, nextAvailable, gone, held);
        LeavesIs(pages, Pages(), path, nextAvailable, gone);
        RowsInList(Pages(), l, path, nextAvailable, gone);
        NoneLeads(pages, Pages(), l, list, path);
        RemovingEnd(Pages(), list, first, nextAvailable, blocksMap.held, Fine(), clearsNext, r);
        StateFacts(Pages(), list, first, nextAvailable, blocksMap.held, Fine(), -1, clearsNext);
        BlankState(Pages(), list, first, nextAvailable, blocksMap.held, Fine(), clearsNext);
        LessShortened(pages, Pages(), path);
        RemovedRow(pages, Pages(), path);
        ShorterRecords(pages, Pages(), l, list, path, []);
      }
    }

    static lemma {:induction false} BlankState(pages: Pages, list: seq<nat>, first: nat, last: nat, held: set<nat>, fine: set<nat>, blank: bool)
      requires HeapState(pages, list, first, last, held, fine, -1, blank)
      ensures blank ==> BlanksOf(pages, held)
    {
    }

    lemma {:induction false} NoRecord(r: RowID)
      requires Valid() && !IsRow(Pages(), r)
      ensures r !in Records() && Records() == Records() - {r}
    {
      hide RecordsOf, IsRow, Pages, Fine, HeapState, HeapOk, DataBlocksMap.Valid;
      StateFacts(Pages(), list, first, nextAvailable, blocksMap.held, Fine(), -1, clearsNext);
      RecordsKeys(Pages(), list);
    }

    static lemma {:induction false} RemovedRow(pages: Pages, pages': Pages, path: seq<RowID>)
      requires path != [] && RowsLess(pages, pages', path)
      ensures !IsRow(pages', path[0])
    {
      hide IsRow;
      assert path[0] in path;
    }

    // ---------- Updating ----------

    /** When a record can be rewritten in place: its rows are `path`, all with its id and no others with it;
        pages that may be emptied point back exactly; free blocks are blank and stay so, because clearing is
        repaired or no page will be freed; and the row
        in front of its first one has an id below 2^16, so that soft removal spares it. */
    ghost predicate Updatable(r: RowID, path: seq<RowID>)
      reads this, Arrays(), blocksMap, blocksMap.low.vals, blocksMap.high.vals
    {
      && Valid() && Blanks() && r.block in list && IsChain(Pages(), path) && path != [] && path[0] == r && r in Records()
      && Leavable(Pages(), list, path[1..], nextAvailable) && (clearsNext || Crowded(Pages(), path, nextAvailable)) && OnlyRecord(Pages(), list, path, RowAt(Pages(), r).id)
      && (r.local == 0 || IdOf(Pages()[r.block].rows[r.local - 1]) < 0x1_0000)
    }

    /** All rows of a record but the first go. */
    method RemoveTail(r: RowID, chained: RowID, ghost path: seq<RowID>) returns (ghost gone: set<nat>, ghost t: RowID)
      requires Updatable(r, path) && chained == RowAt(Pages(), r).chain
      modifies this`first, this`list, Arrays(), blocksMap`held, blocksMap.low.vals, blocksMap.high.vals
      ensures RemovingNow(t) && Blanks() && r.block in list && (t.block != 0 ==> ChainedTo(Pages(), r, t))
      ensures IsRow(Pages(), r) && RowAt(Pages(), r) == RowAt(old(Pages()), r) && Pos(list, r.block) == Pos(old(list), r.block)
      ensures Pages()[r.block].rows == old(Pages())[r.block].rows && |path| > 0 && RowsLess(old(Pages()), Pages(), path[1..])
      ensures list == Sieve(old(list), gone) && Leaves(Pages(), path[1..], nextAvailable, gone) && blocksMap.held == old(blocksMap.held) - gone
      ensures (forall i :: 0 <= i < |path| ==> IsRow(old(Pages()), path[i])) && Lost(Pages(), list) <= old(Lost(Pages(), list))
      ensures Room(Pages(), list, blocksMap.held, Pos(list, r.block)) >=
                Room(old(Pages()), old(list), old(blocksMap.held), Pos(old(list), r.block)) + |DataOf(old(Pages()), path[1..])|
    {
      hide BlanksOf, HeapState, Removing, Fine, Pages, PageAt, Usable, Emptied, Sieve, RowsLess, PageOk, Viewed, View, DataBlocksMap.Valid, UtilizationOf, Linked, Lost, IsChain, Onward, DataOf, Leaves, IsRow, RowAt, Pos, RecordsOf, Head, Forward, Injective, OnlyRecord, Crowded, Room;
      ghost var pages, l, held := Pages(), list, blocksMap.held;
      StateFacts(pages, l, first, nextAvailable, held, Fine(), -1, clearsNext);
      OkParts(pages, l);
      ChainForward(pages, l, path);
      ChainRest(pages, l, path);
      PathIn(pages, l, path);
      t, gone := NO_ROW, {};
      if chained.block != 0 {
        t := chained;
        gone := RemoveChain(chained, path[1..]);
        RestGone(pages, l, held, path, Pages(), list, blocksMap.held, |DataOf(pages, path[1..])|);
        TailBlank(gone, pages, l, path);
      } else {
        RemovingStart(pages, l, first, nextAvailable, held, Fine(), clearsNext);
        NoRest(pages, l, held, path, nextAvailable);
      }
    }

    lemma {:induction false} TailBlank(gone: set<nat>, pages: Pages, l: seq<nat>, path: seq<RowID>)
      requires RemovingNow(if |path| > 1 then path[1] else NO_ROW) && (gone == {} ==> Blanks()) && path != []
      requires Onward(pages, l, path) && RowsLess(pages, Pages(), path[1..]) && Leaves(Pages(), path[1..], nextAvailable, gone)
      requires clearsNext || Crowded(pages, path, nextAvailable)
      ensures Blanks()
    {
      hide BlanksOf, Onward, RowsLess, Leaves, Crowded, Fine, Pages, DataBlocksMap.Valid, Linked, Lost, Injective, ForwardBut;
      if !clearsNext { NothingLeaves(pages, Pages(), l, path, nextAvailable, gone); }
    }

    /** The first row of a record is softly removed, once the others are gone. */
    method SoftHead(r: RowID, id: nat, ghost t: RowID)
      requires RemovingNow(t) && Blanks() && r.block in list && (t.block != 0 ==> ChainedTo(Pages(), r, t))
      requires IsRow(Pages(), r) && RowAt(Pages(), r).id == id && (r.local == 0 || IdOf(Pages()[r.block].rows[r.local - 1]) < 0x1_0000)
      modifies Arrays()
      ensures Holds(r.block) && Blanks() && RowAt(old(Pages()), r).data != [] && blocks[r.block].Sound(r.local, |RowAt(old(Pages()), r).data|)
      ensures RowsBut(old(Pages()), Pages(), r) && IsRow(Pages(), r) && RowAt(Pages(), r) == Row(id, [], NO_ROW)
      ensures Pages()[r.block].rows == old(Pages())[r.block].rows[r.local := Row(id, [], NO_ROW)]
      ensures Lost(Pages(), list) == old(Lost(Pages(), list)) + Spoilt(r, first)
      ensures Room(Pages(), list, blocksMap.held, Pos(list, r.block)) + SpaceAt(old(Pages()), r.block) ==
                Room(old(Pages()), list, blocksMap.held, Pos(list, r.block)) + SpaceAt(Pages(), r.block)
    {
      hide BlanksOf, HeapState, Removing, Fine, Pages, PageAt, Usable, PageOk, Viewed, View, DataBlocksMap.Valid, UtilizationOf, Linked, Lost, IsRow, RowAt, Pos, RowsBut, SoftView, Room, Used, RecordBlock.Valid, RecordBlock.Sound;
      ghost var pages, l, held, fine := Pages(), list, blocksMap.held, Fine();
      RemovingFacts(pages, l, first, nextAvailable, held, fine, clearsNext, t);
      FinePage(r.block);
      FineRows(r.block);
      RowHere(pages, r);
      SoftRows(pages, r);
      SoftRemoveRow(r);
      SoftPrev(pages, r);
      SoftState(pages, Pages(), l, first, nextAvailable, held, fine, Fine(), clearsNext, r, t);
      SoftRoom(pages, Pages(), l, held, r);
    }

    static lemma {:induction false} RowHere(pages: Pages, r: RowID)
      requires IsRow(pages, r)
      ensures r.block < |pages| && r.local < |pages[r.block].rows| && RowAt(pages, r) == pages[r.block].rows[r.local]
    {
    }

    static lemma {:induction false} SoftPrev(pages: Pages, r: RowID)
      requires IsRow(pages, r)
      ensures var pages' := pages[r.block := SoftView(pages[r.block], r.local)];
              && |pages'| == |pages| && (forall b :: 0 <= b < |pages| && b != r.block ==> pages'[b] == pages[b])
              && forall b :: 0 <= b < |pages| ==> pages'[b].prev == if b == r.block && r.local == 0 then 0 else pages[b].prev
    {
    }

    /** On a page as it should be, rows have ids and data. */
    lemma {:induction false} FineRows(b: nat)
      requires Apart() && b in Fine()
      ensures var rows := Pages()[b].rows; forall k :: 0 <= k < |rows| && rows[k].Row? ==> rows[k].id != 0 && rows[k].data != []
    {
      hide PageOk, View, Viewed;
      PagesAre();
      FineIs(b);
      OkView(blocks[b].block.data[..], 0, 0);
      ViewRows(blocks[b].block.data[..]);
    }

    lemma {:induction false} SoundPage(b: nat, q: nat, g: nat)
      requires Apart() && b < |blocks| && blocks[b].Sound(q, g)
      ensures blocks[b].Readable() && Pages()[b] == blocks[b].Page()
      ensures UtilizationOf(blocks[b].block.data[..]) == Used(Pages()[b].rows) <= BLOCK_SIZE
    {
      hide PageOk, View, Viewed;
      PagesAre();
      OkView(blocks[b].block.data[..], q, g);
    }

    /** What the first page has room for once the first row is softly removed. */
    ghost function SoftSpace(r: RowID): nat
      requires Apart() && IsRow(Pages(), r)
      reads Arrays()
    {
      FreeSpace(Pages()[r.block].rows[r.local := Row(RowAt(Pages(), r).id, [], NO_ROW)])
    }

    /** The new data fits in: some of it on the first page, the rest on later pages, where the old record
        makes room, and on free blocks. */
    ghost predicate NewDataFits(r: RowID, path: seq<RowID>, size: nat)
      requires Apart() && IsChain(Pages(), path) && IsRow(Pages(), r)
      reads this, Arrays(), blocksMap
    {
      && SoftSpace(r) > 0
      && size + SpaceAt(Pages(), r.block) <= SoftSpace(r) + Room(Pages(), list, blocksMap.held, Pos(list, r.block)) + |DataOf(Pages(), path[1..])|
    }

    /** Makes way for new data: all rows of a record go but the first, which keeps its id and its place. */
    method Retract(r: RowID, id: nat, chained: RowID, ghost path: seq<RowID>) returns (ghost pages1: Pages, ghost g: nat, ghost gone: set<nat>)
      requires Updatable(r, path) && chained == RowAt(Pages(), r).chain && RowAt(Pages(), r).id == id
      modifies this`first, this`list, Arrays(), blocksMap`held, blocksMap.low.vals, blocksMap.high.vals
      ensures Holds(r.block) && Blanks() && r.block in list && g > 0 && blocks[r.block].Sound(r.local, g)
      ensures path != [] && RowsLess(old(Pages()), pages1, path[1..]) && RowsBut(pages1, Pages(), r)
      ensures IsRow(Pages(), r) && RowAt(Pages(), r) == Row(id, [], NO_ROW) && NoIdAfter(Pages(), list, id, Pos(list, r.block))
      ensures (forall s :: IsRow(pages1, s) && s.block in old(list) ==> s.block in list) && forall b :: b in list ==> b in old(list)
      ensures list == Sieve(old(list), gone) && forall b :: b in gone <==> b != old(nextAvailable) && Deserted(old(Pages()), path[1..], b)
      ensures Pages()[r.block].rows == old(Pages())[r.block].rows[r.local := Row(id, [], NO_ROW)]
      ensures StillHeld(old(list), old(blocksMap.held), list, blocksMap.held)
      ensures Spoilt(r, old(first)) <= Lost(Pages(), list) <= old(Lost(Pages(), list)) + Spoilt(r, old(first))
      ensures forall i :: 0 <= i < |path| ==> IsRow(old(Pages()), path[i])
      ensures Room(Pages(), list, blocksMap.held, Pos(list, r.block)) + SpaceAt(old(Pages()), r.block) >=
                Room(old(Pages()), old(list), old(blocksMap.held), Pos(old(list), r.block)) + |DataOf(old(Pages()), path[1..])| + SpaceAt(Pages(), r.block)
    {
      hide Deserted, StillHeld, BlanksOf, HeapState, Removing, Fine, Pages, PageAt, Usable, Emptied, Sieve, RowsLess, RowsBut, PageOk, Viewed, View, DataBlocksMap.Valid, UtilizationOf, Linked, Lost, IsChain, DataOf, Leaves, IsRow, RowAt, Pos, RecordsOf, Head, Forward, Injective, HeapOk, OnlyRecord, Crowded, Room, Used, RecordBlock.Sound, NoIdAfter;
      ghost var pages, l, held := Pages(), list, blocksMap.held;
      StateFacts(pages, l, first, nextAvailable, blocksMap.held, Fine(), -1, clearsNext);
      ghost var t;
      gone, t := RemoveTail(r, chained, path);
      pages1 := Pages();
      LeavesIs(pages, pages1, path[1..], nextAvailable, gone);
      g := |RowAt(pages1, r).data|;
      SoftHead(r, id, t);
      StateFacts(Pages(), list, first, nextAvailable, blocksMap.held, Fine(), r.block, clearsNext);
      OkParts(Pages(), list);
      ChainForward(pages, l, path);
      PathIn(pages, l, path);
      GoneListed(pages, l, pages1, path[1..], nextAvailable, gone, held);
      RowsInList(pages1, l, path[1..], nextAvailable, gone);
      NoneLeft(pages, l, path, id, pages1, Pages(), list, r);
      FirstPos(l, r.block);
      FirstPos(list, r.block);
    }

    static lemma {:induction false} FirstPos(list: seq<nat>, b: nat)
      requires list != [] && b in list
      ensures b == list[0] <==> Pos(list, b) == 0
    {
    }

    /** Writes the new data, from the row on that was softly removed. */
    method Rewrite(r: RowID, id: nat, data: seq<Byte>, ghost g: nat) returns (localID: nat, ghost path: seq<RowID>)
      requires Holds(r.block) && Blanks() && r.block in list && g > 0 && blocks[r.block].Sound(r.local, g) && 0 < id < 0x1_0000_0000 && data != []
      requires IsRow(Pages(), r) && RowAt(Pages(), r) == Row(id, [], NO_ROW) && NoIdAfter(Pages(), list, id, Pos(list, r.block))
      requires FreeSpace(Pages()[r.block].rows) > 0 && |data| <= Room(Pages(), list, blocksMap.held, Pos(list, r.block))
      modifies this`nextAvailable, this`list, Arrays(), blocksMap`held, blocksMap.low.vals, blocksMap.high.vals
      ensures Valid() && Blanks() && localID == r.local && path != [] && path[0] == r && Written(old(Pages()), Pages(), list, path, id, data, r)
      ensures (forall s :: IsRow(old(Pages()), s) ==> (s.block in old(list) <==> s.block in list)) && old(list) <= list
      ensures StillHeld(old(list), old(blocksMap.held), list, blocksMap.held)
      ensures Lost(Pages(), list) == old(Lost(Pages(), list))
      ensures FullFrom(Pages(), list, Pos(list, r.block), Pos(list, path[|path| - 1].block))
    {
      hide FullFrom, FirstDead, StillHeld, BlanksOf, HeapState, Fine, Pages, PageAt, Usable, PageOk, Viewed, View, DataBlocksMap.Valid, UtilizationOf, Linked, Lost, IsChain, DataOf, IsRow, RowAt, Pos, HeapOk, Room, Written, Grown, Used, FreeSpace, RecordBlock.Sound, NoIdAfter;
      ghost var pages, l, free, held := Pages(), list, Unheld(), blocksMap.held;
      StateFacts(pages, l, first, nextAvailable, blocksMap.held, Fine(), r.block, clearsNext);
      BlankRows(pages, blocksMap.held);
      RowsElsewhere(pages, free);
      SoundPage(r.block, r.local, g);
      var freeSpace := blocks[r.block].FreeSpaceForInsert();
      localID, path := AllocateRecord(freeSpace, r.block, id, data, r.local, g);
      GrownParts(l, list, free);
      HeldGrown(l, held, list, blocksMap.held);
    }

    /** Replaces what a record holds, in place: the original panics when `localID` is not `r.local`. */
    method Update(r: RowID, id: nat, data: seq<Byte>, ghost path: seq<RowID>) returns (ok: bool, localID: nat, ghost path': seq<RowID>)
      requires Valid() && r.block in list && 0 < id < 0x1_0000_0000 && data != []
      requires IsRow(Pages(), r) ==> Updatable(r, path) && RowAt(Pages(), r).id == id && NewDataFits(r, path, |data|)
      modifies this`first, this`nextAvailable, this`list, Arrays(), blocksMap`held, blocksMap.low.vals, blocksMap.high.vals
      ensures Valid() && ok == IsRow(old(Pages()), r)
      ensures !ok ==> Pages() == old(Pages()) && list == old(list)
      ensures ok ==> localID == r.local && r in old(Records()) && Records() == old(Records())[r := data] && Blanks()
      ensures ok ==> IsChain(Pages(), path') && path' != [] && path'[0] == r && RowsSwapped(old(Pages()), Pages(), path, path')
      ensures ok ==> IsRow(Pages(), r) && RowAt(Pages(), r).id == id
      ensures StillHeld(old(list), old(blocksMap.held), list, blocksMap.held)
      ensures ok ==> Spoilt(r, old(first)) <= Lost(Pages(), list) <= old(Lost(Pages(), list)) + Spoilt(r, old(first))
      ensures ok ==> FullFrom(Pages(), list, Pos(list, r.block), Pos(list, path'[|path'| - 1].block))
      ensures ok ==> exists gone :: Sieve(old(list), gone) <= list && forall b :: b in gone <==> b != old(nextAvailable) && Deserted(old(Pages()), path[1..], b)
    {
      hide Deserted, FullFrom, StillHeld, BlanksOf, HeapState, Removing, Fine, Pages, PageAt, Usable, Emptied, Sieve, RowsLess, RowsBut, PageOk, Viewed, View, DataBlocksMap.Valid, UtilizationOf, Linked, Lost, IsChain, DataOf, Leaves, IsRow, RowAt, Pos, RecordsOf, Head, Forward, Injective, HeapOk, OnlyRecord, Crowded, Room, Written, Grown, RowsSwapped, Used, FreeSpace, RecordBlock.Sound, NoIdAfter;
      ghost var pages, l, held := Pages(), list, blocksMap.held;
      ghost var fine := Fine();
      var data', chained;
      ok, data', chained := ReadRow(r);
      localID, path' := 0, [];
      if !ok {
        HeldSame(l, held);
        return;
      }
      StateFacts(pages, l, first, nextAvailable, blocksMap.held, fine, -1, clearsNext);
      ghost var pages1, g, gone := Retract(r, id, chained, path);
      ghost var pages2, list1, held1 := Pages(), list, blocksMap.held;
      StateFacts(pages2, list1, first, nextAvailable, blocksMap.held, Fine(), r.block, clearsNext);
      localID, path' := Rewrite(r, id, data, g);
      StateFacts(Pages(), list, first, nextAvailable, blocksMap.held, Fine(), -1, clearsNext);
      HeldTrans(l, held, list1, held1, list, blocksMap.held);
      RecordsKeys(pages, l);
      UpdateDone(pages, pages1, pages2, Pages(), l, list1, list, path, path', id, data);
    }
  }
}
