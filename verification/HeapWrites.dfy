/** Writing a record piece by piece: what is there after every piece, and that the room suffices. */
module HeapWrites {
  import opened RowIDs
  import opened DataBlocks
  import opened RecordPages
  import opened PageViews
  import opened HeapModel
  import opened BlockMaps

  /** Room for data on a blank page. */
  const NEW_SPACE: nat := BLOCK_SIZE - MIN_UTILIZATION - HEADER_SIZE

  // ---------- Room ----------

  function SpaceAt(pages: Pages, b: nat): nat {
    if b < |pages| then FreeSpace(pages[b].rows) else 0
  }

  /** Room on the pages of the list from position `i` on. */
  function SpaceFrom(pages: Pages, list: seq<nat>, i: nat): nat
    decreases |list| - i
  {
    if i >= |list| then 0 else SpaceAt(pages, list[i]) + SpaceFrom(pages, list, i + 1)
  }

  lemma {:induction false} SpaceFrame(pages: Pages, pages': Pages, list: seq<nat>, i: nat)
    requires forall j :: i <= j < |list| ==> SpaceAt(pages', list[j]) == SpaceAt(pages, list[j])
    ensures SpaceFrom(pages', list, i) == SpaceFrom(pages, list, i)
    decreases |list| - i
  {
    if i < |list| { SpaceFrame(pages, pages', list, i + 1); }
  }

  lemma {:induction false} SpaceSnoc(pages: Pages, list: seq<nat>, b: nat, i: nat)
    requires i <= |list|
    ensures SpaceFrom(pages, list + [b], i) == SpaceFrom(pages, list, i) + SpaceAt(pages, b)
    decreases |list| - i
  {
    if i < |list| {
      SpaceSnoc(pages, list, b, i + 1);
    } else {
      assert SpaceFrom(pages, list + [b], i + 1) == 0;
    }
  }

  /** Pages that differ in pointers only. */
  ghost predicate SameSlots(pages: Pages, pages': Pages) {
    |pages'| == |pages| && forall b :: 0 <= b < |pages| ==> pages'[b].rows == pages[b].rows
  }

  /** The pages from position `i` up to, but not at, position `j` have no room left. */
  ghost predicate FullFrom(pages: Pages, list: seq<nat>, i: nat, j: nat) {
    forall k :: i <= k < j && k < |list| ==> SpaceAt(pages, list[k]) == 0
  }

  lemma {:induction false} FullKept(pages: Pages, pages': Pages, list: seq<nat>, list': seq<nat>, i: nat, j: nat)
    requires SameSlots(pages, pages') && list <= list' && j <= |list| && FullFrom(pages, list, i, j)
    ensures FullFrom(pages', list', i, j)
  {
    hide SpaceAt;
    SlotsSame(pages, pages');
  }

  lemma {:induction false} FullOne(pages: Pages, list: seq<nat>, i: nat, j: nat)
    requires FullFrom(pages, list, i, j) && j < |list| && SpaceAt(pages, list[j]) == 0
    ensures FullFrom(pages, list, i, j + 1)
  {
    hide SpaceAt;
  }

  /** A row put behind, and one chained to it, leave the pages in front as full as they were. */
  lemma {:induction false} FullPut(pages: Pages, list: seq<nat>, b: nat, k: nat, id: nat, data: seq<Byte>, prev: RowID, i: nat)
    requires b in list && b < |pages| && k <= |pages[b].rows| && (forall x, y :: 0 <= x < y < |list| ==> list[x] != list[y])
    requires IsRow(WithRow(pages, b, k, id, data), prev) && FullFrom(pages, list, i, Pos(list, b))
    ensures FullFrom(WithChain(WithRow(pages, b, k, id, data), prev, RowID(b, k)), list, i, Pos(list, b))
  {
    hide FreeSpace;
    var pages1 := WithRow(pages, b, k, id, data);
    var pages2 := WithChain(pages1, prev, RowID(b, k));
    ChainSpace(pages1[prev.block].rows, prev.local, RowID(b, k));
    forall m | i <= m < Pos(list, b) && m < |list| ensures SpaceAt(pages2, list[m]) == 0 {
      assert list[m] != list[Pos(list, b)];
      assert SpaceAt(pages2, list[m]) == SpaceAt(pages1, list[m]) == SpaceAt(pages, list[m]);
    }
  }

  lemma {:induction false} ChainSpace(rows: seq<Slot>, k: nat, t: RowID)
    requires k < |rows| && rows[k].Row?
    ensures FreeSpace(rows[k := rows[k].(chain := t)]) == FreeSpace(rows)
  {
    hide DataSize;
    var rows' := rows[k := rows[k].(chain := t)];
    DataSizePut(rows, k, rows[k].(chain := t));
    if HasFree(rows) { var j :| 0 <= j < |rows| && rows[j].Free?; assert rows'[j].Free?; }
    if HasFree(rows') { var j :| 0 <= j < |rows| && rows'[j].Free?; assert rows[j].Free?; }
  }

  lemma {:induction false} SlotsSame(pages: Pages, pages': Pages)
    requires SameSlots(pages, pages')
    ensures RowsLess(pages, pages', []) && (forall b :: SpaceAt(pages', b) == SpaceAt(pages, b))
  {
  }

  lemma {:induction false} AppendedSlots(pages: Pages, tail: nat, b: nat)
    requires tail < |pages| && b < |pages|
    ensures SameSlots(pages, Appended(pages, tail, b))
  {
  }

  /** The next page of the list, if there is one. */
  lemma {:induction false} NextPage(pages: Pages, list: seq<nat>, b: nat)
    requires Linked(pages, list) && b in list
    ensures b < |pages| && var i := Pos(list, b);
            && (pages[b].next == 0 <==> i + 1 == |list|) && (i + 1 == |list| ==> b == list[|list| - 1])
            && (i + 1 < |list| ==> pages[b].next == list[i + 1] && pages[b].next in list && Pos(list, pages[b].next) == i + 1)
  {
    var i := Pos(list, b);
    assert LinkAt(pages, list, i);
    if i + 1 < |list| { PosIs(list, i + 1); }
  }

  lemma {:induction false} LastPos(list: seq<nat>, b: nat)
    requires b !in list
    ensures Pos(list + [b], b) == |list| && b in list + [b]
  {
    if list != [] {
      assert (list + [b])[1..] == list[1..] + [b];
      LastPos(list[1..], b);
    }
    assert (list + [b])[|list|] == b;
  }

  lemma {:induction false} NewSpace(rows: seq<Slot>)
    requires rows == []
    ensures FreeSpace(rows) == NEW_SPACE
  {
  }

  lemma {:induction false} DataSizePut(rows: seq<Slot>, k: nat, s: Slot)
    requires k < |rows|
    ensures DataSize(rows[k := s]) == DataSize(rows) - (if rows[k].Free? then 0 else |rows[k].data|) + (if s.Free? then 0 else |s.data|)
    ensures DataSize(rows) >= if rows[k].Free? then 0 else |rows[k].data|
  {
    var l := |rows| - 1;
    assert rows[k := s][..l] == if k < l then rows[..l][k := s] else rows[..l];
    if k < l { DataSizePut(rows[..l], k, s); }
  }

  /** A page filled to the brim has no room left, whichever slot was taken. */
  lemma {:induction false} FilledUp(v: PageView, id: nat, k: nat, data: seq<Byte>)
    requires k <= |v.rows| && TakesSlot(v.rows, id, k) && Used(v.rows) <= BLOCK_SIZE && |data| == FreeSpace(v.rows) > 0
    requires k < |v.rows| && v.rows[k].Row? ==> v.rows[k].data == []
    ensures FreeSpace(PutRow(v, k, id, data).rows) == 0
  {
    var rows, rows' := v.rows, PutRow(v, k, id, data).rows;
    if k < |rows| {
      DataSizePut(rows, k, Row(id, data, NO_ROW));
      if rows[k].Row? {
        assert HasFree(rows') ==> HasFree(rows) by {
          if HasFree(rows') { var j :| 0 <= j < |rows'| && rows'[j].Free?; assert rows[j].Free?; }
        }
        if HasFree(rows) { var j :| 0 <= j < |rows| && rows[j].Free?; assert rows'[j].Free?; }
      }
    } else {
      assert rows'[..|rows|] == rows;
    }
  }

  // ---------- Pieces ----------

  ghost predicate NoIdAfter(pages: Pages, list: seq<nat>, id: nat, i: nat) {
    forall j :: i < j < |list| && list[j] < |pages| ==> !HasId(pages[list[j]].rows, id)
  }

  /** The rows of `path` are new, but perhaps for row `soft`; they hold what was written so far. */
  ghost predicate Written(old': Pages, pages: Pages, list: seq<nat>, path: seq<RowID>, id: nat, written: seq<Byte>, soft: RowID) {
    && |pages| == |old'| && IsChain(pages, path) && Onward(pages, list, path)
    && RowAt(pages, path[0]).id == id && DataOf(pages, path) == written && RowAt(pages, path[|path| - 1]).chain == NO_ROW
    && (forall r :: IsRow(old', r) && r != soft ==> SameRow(old', pages, r))
    && (forall r :: IsRow(pages, r) ==> IsRow(old', r) || r in path)
    && (forall r :: r in path ==> !IsRow(old', r) || r == soft)
  }

  lemma {:induction false} DataOne(pages: Pages, r: RowID)
    requires IsRow(pages, r)
    ensures DataOf(pages, [r]) == RowAt(pages, r).data
  {
    assert [r][..0] == [];
    assert DataOf(pages, [r][..0]) == [];
  }

  lemma {:induction false} WrittenFirst(old': Pages, pages: Pages, list: seq<nat>, x: RowID, id: nat, data: seq<Byte>, soft: RowID)
    requires RowsBut(old', pages, x) && IsRow(pages, x) && RowAt(pages, x) == Row(id, data, NO_ROW) && x.block in list
    requires IsRow(old', x) ==> x == soft
    ensures Written(old', pages, list, [x], id, data, soft)
  {
    hide IsRow, RowAt;
    DataOne(pages, x);
    ChainOne(pages, list, x);
    assert forall r :: r in [x] <==> r == x;
    assert forall r :: IsRow(old', r) && r != soft ==> r != x;
  }

  lemma {:induction false} PathIn(pages: Pages, list: seq<nat>, path: seq<RowID>)
    requires Onward(pages, list, path)
    ensures path != [] && forall i :: 0 <= i < |path| ==> path[i].block in list && IsRow(pages, path[i])
  {
  }

  lemma {:induction false} DataSnoc(pages: Pages, path: seq<RowID>, x: RowID)
    requires (forall i :: 0 <= i < |path| ==> IsRow(pages, path[i])) && IsRow(pages, x)
    ensures DataOf(pages, path + [x]) == DataOf(pages, path) + RowAt(pages, x).data
  {
    assert (path + [x])[..|path|] == path;
  }

  lemma {:induction false} DataChained(pages: Pages, pages': Pages, path: seq<RowID>)
    requires forall i :: 0 <= i < |path| ==> IsRow(pages, path[i])
    requires forall i :: 0 <= i < |path| ==> IsRow(pages', path[i])
    requires forall i {:trigger path[i]} :: 0 <= i < |path| ==> RowAt(pages', path[i]).data == RowAt(pages, path[i]).data
    ensures DataOf(pages', path) == DataOf(pages, path)
  {
    if path != [] { DataChained(pages, pages', path[..|path| - 1]); }
  }

  /** One more piece: a new row `x` behind the path, and the last row chained to it. */
  lemma {:induction false} WrittenNext(old': Pages, pages: Pages, mid: Pages, pages': Pages, list: seq<nat>, path: seq<RowID>, x: RowID,
                                       id: nat, written: seq<Byte>, piece: seq<Byte>, soft: RowID)
    requires Written(old', pages, list, path, id, written, soft)
    requires RowsBut(pages, mid, x) && !IsRow(pages, x) && IsRow(mid, x) && RowAt(mid, x) == Row(id, piece, NO_ROW)
    requires var last := path[|path| - 1];
             && RowsBut(mid, pages', last) && IsRow(pages', last) && RowAt(pages', last) == RowAt(pages, last).(chain := x)
             && Pos(list, last.block) < Pos(list, x.block)
    requires x.block in list && x.block != 0
    ensures Written(old', pages', list, path + [x], id, written + piece, soft)
  {
    hide IsRow, RowAt, DataOf, Pos;
    var last, p := path[|path| - 1], path + [x];
    PathIn(pages, list, path);
    assert x !in path;
    assert IsRow(pages', x) && RowAt(pages', x) == Row(id, piece, NO_ROW);
    NextRows(pages, mid, pages', path, x);
    NextChain(pages, pages', path, x);
    NextOnward(pages, pages', list, path, x);
    DataChained(pages, pages', path);
    DataSnoc(pages', path, x);
    NextFrame(old', pages, mid, pages', list, path, x, id, written, soft);
  }

  lemma {:induction false} NextRows(pages: Pages, mid: Pages, pages': Pages, path: seq<RowID>, x: RowID)
    requires IsChain(pages, path) && x !in path && RowsBut(pages, mid, x)
    requires var last := path[|path| - 1]; RowsBut(mid, pages', last) && IsRow(pages', last) && RowAt(pages', last) == RowAt(pages, last).(chain := x)
    ensures forall i :: 0 <= i < |path| ==> IsRow(pages', path[i])
    ensures forall i {:trigger path[i]} :: 0 <= i < |path| ==>
              RowAt(pages', path[i]).data == RowAt(pages, path[i]).data && RowAt(pages', path[i]).id == RowAt(pages, path[i]).id
    ensures forall i :: 0 < i < |path| ==> ChainedTo(pages', path[i - 1], path[i])
  {
    hide RowAt, IsRow;
    var last := path[|path| - 1];
    forall i | 0 < i < |path| ensures ChainedTo(pages', path[i - 1], path[i]) {
      assert ChainedTo(pages, path[i - 1], path[i]);
      assert path[i - 1] != last;
    }
  }

  lemma {:induction false} NextChain(pages: Pages, pages': Pages, path: seq<RowID>, x: RowID)
    requires path != [] && (forall i :: 0 <= i < |path| ==> IsRow(pages', path[i])) && IsRow(pages', x) && RowAt(pages', x).chain == NO_ROW && x.block != 0
    requires forall i :: 0 < i < |path| ==> ChainedTo(pages', path[i - 1], path[i])
    requires RowAt(pages', path[|path| - 1]).chain == x
    ensures IsChain(pages', path + [x])
  {
    var p := path + [x];
    forall i | 0 < i < |p| ensures ChainedTo(pages', p[i - 1], p[i]) {
      if i < |path| { assert p[i - 1] == path[i - 1] && p[i] == path[i]; }
    }
  }

  lemma {:induction false} NextOnward(pages: Pages, pages': Pages, list: seq<nat>, path: seq<RowID>, x: RowID)
    requires Onward(pages, list, path) && (forall i :: 0 <= i < |path| ==> IsRow(pages', path[i])) && IsRow(pages', x)
    requires forall i {:trigger path[i]} :: 0 <= i < |path| ==> RowAt(pages', path[i]).id == RowAt(pages, path[i]).id
    requires RowAt(pages', x).id == RowAt(pages, path[0]).id && x.block in list && Pos(list, path[|path| - 1].block) < Pos(list, x.block)
    ensures Onward(pages', list, path + [x])
  {
    hide RowAt, IsRow, Pos;
    var p, l := path + [x], |path| - 1;
    forall i, j | 0 <= i < j < |p| ensures Pos(list, p[i].block) < Pos(list, p[j].block) {
      assert p[i] == path[i];
      if j <= l { assert p[j] == path[j]; } else if i < l { assert Pos(list, path[i].block) < Pos(list, path[l].block); }
    }
    forall i | 0 <= i < |p| ensures p[i].block in list && IsRow(pages', p[i]) && RowAt(pages', p[i]).id == RowAt(pages', p[0]).id {
      assert p[0] == path[0];
      if i <= l { assert p[i] == path[i]; }
    }
  }

  lemma {:induction false} NextFrame(old': Pages, pages: Pages, mid: Pages, pages': Pages, list: seq<nat>, path: seq<RowID>, x: RowID,
                                     id: nat, written: seq<Byte>, soft: RowID)
    requires Written(old', pages, list, path, id, written, soft) && RowsBut(pages, mid, x) && path != []
    requires RowsBut(mid, pages', path[|path| - 1]) && !IsRow(pages, x) && IsRow(pages', path[|path| - 1])
    ensures forall r :: IsRow(old', r) && r != soft ==> SameRow(old', pages', r)
    ensures forall r :: IsRow(pages', r) ==> IsRow(old', r) || r in path + [x]
    ensures forall r :: r in path + [x] ==> !IsRow(old', r) || r == soft
  {
    hide RowAt, IsRow, IsChain, Onward, DataOf;
    var last := path[|path| - 1];
    assert last in path;
    forall r | IsRow(old', r) && r != soft ensures SameRow(old', pages', r) {
      assert r !in path && SameRow(old', pages, r);
    }
    assert !IsRow(old', x) || x == soft;
  }

  // ---------- Who may be chained to ----------

  /** Where there is no row yet, no chain leads. */
  lemma {:induction false} NewHead(pages: Pages, pages': Pages, list: seq<nat>, x: RowID)
    requires Forward(pages, list) && RowsBut(pages, pages', x) && !IsRow(pages, x) && x.block in list
    requires IsRow(pages', x) && RowAt(pages', x).chain == NO_ROW && x.block != 0
    ensures Head(pages', list, x)
  {
    hide IsRow, RowAt, Pos, Forward;
    TargetsAreRows(pages, list);
    forall s: RowID | s.block in list ensures !ChainedTo(pages', s, x) {
      assert ChainedTo(pages', s, x) ==> ChainedTo(pages, s, x);
    }
  }

  lemma {:induction false} TargetsAreRows(pages: Pages, list: seq<nat>)
    requires Forward(pages, list)
    ensures forall s: RowID, t: RowID :: s.block in list && ChainedTo(pages, s, t) ==> IsRow(pages, t)
  {
    forall s: RowID, t: RowID | s.block in list && ChainedTo(pages, s, t) ensures IsRow(pages, t) { assert ChainsOn(pages, list, s); }
  }

  /** The first row of a new record, or of an updated one that was a head, is a head. */
  lemma {:induction false} WrittenHead(old': Pages, pages: Pages, list: seq<nat>, list': seq<nat>, path: seq<RowID>, id: nat, written: seq<Byte>, soft: RowID)
    requires Forward(old', list) && Written(old', pages, list', path, id, written, soft) && path != [] && path[0].block in list
    requires forall r :: IsRow(old', r) ==> (r.block in list <==> r.block in list')
    requires if path[0] == soft then Head(old', list, soft) && RowAt(old', soft).chain == NO_ROW else !IsRow(old', path[0])
    requires path[0].block != 0 && (path[0] != soft ==> soft.block !in list')
    ensures Head(pages, list', path[0])
  {
    hide IsRow, RowAt, DataOf, Pos, Forward, IsChain, Onward;
    var x := path[0];
    PathIn(pages, list', path);
    TargetsAreRows(old', list);
    forall s: RowID | s.block in list' ensures !ChainedTo(pages, s, x) {
      if s in path {
        PathNotBack(pages, list', path, s);
      } else {
        assert x in path;
        assert IsRow(pages, s) ==> SameRow(old', pages, s);
        assert ChainedTo(pages, s, x) ==> ChainedTo(old', s, x);
      }
    }
  }

  lemma {:induction false} PathNotBack(pages: Pages, list: seq<nat>, path: seq<RowID>, s: RowID)
    requires IsChain(pages, path) && Onward(pages, list, path) && s in path
    ensures path[0].block != 0 ==> !ChainedTo(pages, s, path[0])
  {
    var i :| 0 <= i < |path| && path[i] == s;
    if i + 1 < |path| {
      assert ChainedTo(pages, path[i], path[i + 1]);
      assert Pos(list, path[0].block) < Pos(list, path[i + 1].block);
    }
  }

  // ---------- The state of a heap ----------

  ghost predicate BlanksOf(pages: Pages, held: set<nat>) {
    forall b :: b in Usable() - held ==> b < |pages| && Blank(pages[b])
  }

  /** Pages, list, the two fields of the control block, who holds which block, and which blocks are
      pages as they should be - all but perhaps page `x`. */
  ghost predicate HeapState(pages: Pages, list: seq<nat>, first: nat, last: nat, held: set<nat>, fine: set<nat>, x: int, blank: bool) {
    && |pages| == TOTAL && HeapOk(pages, list) && first == list[0] && last == list[|list| - 1]
    && (forall b :: b in list ==> b in held && (b != x ==> b in fine))
    && (forall b :: b in Usable() - held ==> b in fine) && 0 in fine && 0 in held
    && (blank ==> BlanksOf(pages, held))
  }

  lemma {:induction false} StateFacts(pages: Pages, list: seq<nat>, first: nat, last: nat, held: set<nat>, fine: set<nat>, x: int, blank: bool)
    requires HeapState(pages, list, first, last, held, fine, x, blank)
    ensures list != [] && |pages| == TOTAL && first == list[0] && last == list[|list| - 1] && HeapOk(pages, list)
    ensures forall b :: b in list ==> 2 < b < TOTAL && b in held && (b != x ==> b in fine)
    ensures forall b :: b in Usable() - held ==> b !in list && b in fine && b < TOTAL
    ensures 0 in fine && 0 in held
  {
    InList(pages, list);
  }

  lemma {:induction false} StateBut(pages: Pages, list: seq<nat>, first: nat, last: nat, held: set<nat>, fine: set<nat>, x: int, blank: bool)
    requires HeapState(pages, list, first, last, held, fine, -1, blank)
    ensures HeapState(pages, list, first, last, held, fine, x, blank)
  {
  }

  /** A free blank block becomes the new end of the list. */
  lemma {:induction false} AllocatedState(pages: Pages, list: seq<nat>, first: nat, last: nat, held: set<nat>, fine: set<nat>, blank: bool, b: nat)
    requires HeapState(pages, list, first, last, held, fine, -1, blank) && BlanksOf(pages, held) && b in Usable() - held && b > 2
    ensures last < |pages| && b < |pages| && last != b
    ensures HeapState(Appended(pages, last, b), list + [b], first, b, held + {b}, fine, -1, blank)
    ensures BlanksOf(Appended(pages, last, b), held + {b}) && RowsLess(pages, Appended(pages, last, b), [])
    ensures Appended(pages, last, b)[b].rows == [] && SameSlots(pages, Appended(pages, last, b))
    ensures Lost(Appended(pages, last, b), list + [b]) == Lost(pages, list)
  {
    hide HeapOk, RowsLess, Appended, Lost, Linked;
    StateFacts(pages, list, first, last, held, fine, -1, blank);
    assert last in list;
    AppendedSlots(pages, last, b);
    AppendOk(pages, list, b);
    OkLinked(pages, list);
    AppendBack(pages, list, b);
    AppendedPages(pages, last, b);
  }

  lemma {:induction false} OkLinked(pages: Pages, list: seq<nat>)
    requires HeapOk(pages, list)
    ensures Linked(pages, list)
  {
  }

  /** Blocks that somebody holds and that are not in the list stay so. */
  ghost predicate StillHeld(list: seq<nat>, held: set<nat>, list': seq<nat>, held': set<nat>) {
    forall b :: b in Usable() && b in held && b !in list ==> b in held' && b !in list'
  }

  /** Room on the pages from position `i` on and on the blocks nobody holds. */
  ghost function Room(pages: Pages, list: seq<nat>, held: set<nat>, i: nat): nat {
    SpaceFrom(pages, list, i) + NEW_SPACE * |Usable() - held|
  }

  /** Room for a new record: on the last page and on the blocks nobody holds. */
  ghost function EndRoom(pages: Pages, list: seq<nat>, held: set<nat>): nat {
    if list == [] then 0 else Room(pages, list, held, |list| - 1)
  }

  lemma {:induction false} EndRoomIs(pages: Pages, list: seq<nat>, held: set<nat>)
    requires list != []
    ensures EndRoom(pages, list, held) == SpaceAt(pages, list[|list| - 1]) + NEW_SPACE * |Usable() - held|
    ensures EndRoom(pages, list, held) == Room(pages, list, held, |list| - 1)
  {
    hide Usable, SpaceAt;
    assert SpaceFrom(pages, list, |list|) == 0;
  }

  lemma {:induction false} SpaceLimit(rows: seq<Slot>)
    ensures FreeSpace(rows) <= NEW_SPACE
  {
    if HasFree(rows) { assert |rows| > 0; }
  }

  /** With more room than one page has there is a free block. */
  lemma {:induction false} FreeBlock(pages: Pages, list: seq<nat>, held: set<nat>)
    requires list != [] && EndRoom(pages, list, held) > NEW_SPACE
    ensures Usable() - held != {}
  {
    hide Usable, EndRoom, FreeSpace;
    EndRoomIs(pages, list, held);
    var last := list[|list| - 1];
    if last < |pages| { SpaceLimit(pages[last].rows); }
  }

  lemma {:induction false} EndRoomKept(pages: Pages, pages': Pages, list: seq<nat>, held: set<nat>, b: nat)
    requires SameSlots(pages, pages') && b in Usable() - held && b < |pages| && pages'[b].rows == [] && list != [] && SpaceAt(pages, list[|list| - 1]) == 0
    ensures EndRoom(pages', list + [b], held + {b}) == EndRoom(pages, list, held)
  {
    hide Usable, EndRoom;
    EndRoomIs(pages, list, held);
    EndRoomIs(pages', list + [b], held + {b});
    NewSpace(pages'[b].rows);
    assert Usable() - (held + {b}) == (Usable() - held) - {b};
  }

  /** A page takes the data of a new row and its header at most; a page filled to the brim takes no more than the data. */
  lemma {:induction false} EndRoomPut(pages: Pages, pages': Pages, list: seq<nat>, held: set<nat>, b: nat, id: nat, k: nat, data: seq<Byte>)
    requires b < |pages| == |pages'| && k <= |pages[b].rows| && TakesSlot(pages[b].rows, id, k) && Used(pages[b].rows) <= BLOCK_SIZE
    requires |data| <= SpaceAt(pages, b) && SpaceAt(pages, b) > 0 && (k < |pages[b].rows| && pages[b].rows[k].Row? ==> pages[b].rows[k].data == [])
    requires pages'[b].rows == PutRow(pages[b], k, id, data).rows && list != []
    requires var last := list[|list| - 1]; last != b ==> SpaceAt(pages', last) == SpaceAt(pages, last)
    ensures EndRoom(pages', list, held) + |data| + HEADER_SIZE >= EndRoom(pages, list, held)
    ensures |data| == SpaceAt(pages, b) ==> EndRoom(pages', list, held) + |data| >= EndRoom(pages, list, held)
  {
    hide Usable, EndRoom, Used, TakesSlot, PutRow, FreeSpace;
    EndRoomIs(pages, list, held);
    EndRoomIs(pages', list, held);
    PutSpace(pages[b], id, k, data);
  }

  lemma {:induction false} PutSpace(v: PageView, id: nat, k: nat, data: seq<Byte>)
    requires k <= |v.rows| && TakesSlot(v.rows, id, k) && Used(v.rows) <= BLOCK_SIZE && |data| <= FreeSpace(v.rows)
    requires k < |v.rows| && v.rows[k].Row? ==> v.rows[k].data == []
    ensures FreeSpace(PutRow(v, k, id, data).rows) + |data| + HEADER_SIZE >= FreeSpace(v.rows)
  {
    var rows, rows' := v.rows, PutRow(v, k, id, data).rows;
    if k < |rows| {
      DataSizePut(rows, k, Row(id, data, NO_ROW));
      if rows[k].Row? && HasFree(rows) { var j :| 0 <= j < |rows| && rows[j].Free?; assert rows'[j].Free?; }
    } else {
      assert rows'[..|rows|] == rows;
    }
  }

  /** Taking a new block does not change the room. */
  lemma {:induction false} RoomKept(pages: Pages, pages': Pages, list: seq<nat>, held: set<nat>, b: nat, i: nat)
    requires SameSlots(pages, pages') && b in Usable() - held && i <= |list| && b < |pages| && pages'[b].rows == []
    ensures Room(pages', list + [b], held + {b}, i) == Room(pages, list, held, i)
  {
    SlotsSame(pages, pages');
    SpaceFrame(pages, pages', list, i);
    SpaceSnoc(pages', list, b, i);
    NewSpace(pages'[b].rows);
    assert Usable() - (held + {b}) == (Usable() - held) - {b};
  }

  lemma {:induction false} NoIdKept(pages: Pages, pages': Pages, list: seq<nat>, b: nat, id: nat, i: nat)
    requires SameSlots(pages, pages') && NoIdAfter(pages, list, id, i) && b < |pages| && pages'[b].rows == []
    ensures NoIdAfter(pages', list + [b], id, i)
  {
    var l := list + [b];
    forall j | i < j < |l| && l[j] < |pages'| ensures !HasId(pages'[l[j]].rows, id) {
      if j < |list| { assert l[j] == list[j]; }
    }
  }

  /** A piece of a record is put on a page of the list. */
  lemma {:induction false} PutState(pages: Pages, list: seq<nat>, first: nat, last: nat, held: set<nat>, fine: set<nat>, x: int, blank: bool,
                                    b: nat, k: nat, id: nat, data: seq<Byte>)
    requires HeapState(pages, list, first, last, held, fine, x, blank) && b in list && (x == -1 || x == b)
    requires b < |pages| && k <= |pages[b].rows|
    requires IsRow(pages, RowID(b, k)) ==> RowAt(pages, RowID(b, k)).id == id && RowAt(pages, RowID(b, k)).chain == NO_ROW
    ensures var pages' := WithRow(pages, b, k, id, data);
            && HeapState(pages', list, first, last, held, fine + {b}, -1, blank)
            && (BlanksOf(pages, held) ==> BlanksOf(pages', held))
            && RowsBut(pages, pages', RowID(b, k)) && IsRow(pages', RowID(b, k)) && RowAt(pages', RowID(b, k)) == Row(id, data, NO_ROW)
  {
    hide HeapOk;
    StateFacts(pages, list, first, last, held, fine, x, blank);
    PutRows(pages, b, k, id, data);
    PutOk(pages, WithRow(pages, b, k, id, data), list, RowID(b, k));
  }

  lemma {:induction false} ChainState(pages: Pages, list: seq<nat>, first: nat, last: nat, held: set<nat>, fine: set<nat>, blank: bool, r: RowID, t: RowID)
    requires HeapState(pages, list, first, last, held, fine, -1, blank)
    requires IsRow(pages, r) && r.block in list && RowAt(pages, r).chain == NO_ROW
    requires Head(pages, list, t) && RowAt(pages, t).id == RowAt(pages, r).id && Pos(list, r.block) < Pos(list, t.block)
    ensures var pages' := WithChain(pages, r, t);
            && HeapState(pages', list, first, last, held, fine, -1, blank)
            && (BlanksOf(pages, held) ==> BlanksOf(pages', held))
            && RowsBut(pages, pages', r) && IsRow(pages', r) && RowAt(pages', r) == RowAt(pages, r).(chain := t)
  {
    hide HeapOk;
    StateFacts(pages, list, first, last, held, fine, -1, blank);
    ChainRows(pages, r, t);
    ChainOk(pages, WithChain(pages, r, t), list, r, t);
  }

  /** A page filled up takes its room out of the whole. */
  lemma {:induction false} RoomTaken(pages: Pages, pages': Pages, list: seq<nat>, held: set<nat>, b: nat)
    requires b in list && (forall i, j :: 0 <= i < j < |list| ==> list[i] != list[j])
    requires |pages'| == |pages| && (forall j :: Pos(list, b) < j < |list| ==> SpaceAt(pages', list[j]) == SpaceAt(pages, list[j])) && SpaceAt(pages', b) == 0
    ensures Room(pages', list, held, Pos(list, b)) == Room(pages, list, held, Pos(list, b)) - SpaceAt(pages, b)
  {
    hide SpaceAt, Usable;
    SpaceFrame(pages, pages', list, Pos(list, b) + 1);
  }

  lemma {:induction false} NotTaken(pages: Pages, b: nat, id: nat, k: nat)
    requires b < |pages| && TakesSlot(pages[b].rows, id, k)
    ensures k <= |pages[b].rows| && (!HasId(pages[b].rows, id) ==> !IsRow(pages, RowID(b, k)))
  {
  }

  lemma {:induction false} NoIdHere(pages: Pages, list: seq<nat>, id: nat, i: nat, b: nat)
    requires NoIdAfter(pages, list, id, i) && b in list && i < Pos(list, b) && b < |pages|
    ensures !HasId(pages[b].rows, id)
  {
  }

  /** Pages from some position on are the same, so nothing about ids there has changed. */
  lemma {:induction false} NoIdFrame(pages: Pages, pages': Pages, list: seq<nat>, id: nat, i: nat, j: nat)
    requires NoIdAfter(pages, list, id, i) && i <= j && |pages'| == |pages|
    requires forall m :: j < m < |list| && list[m] < |pages| ==> pages'[list[m]] == pages[list[m]]
    ensures NoIdAfter(pages', list, id, j)
  {
  }

  /** The effect of one more piece on everything that is tracked while a record is written. */
  lemma {:induction false} PieceDone(old': Pages, pages: Pages, list: seq<nat>, first: nat, last: nat, held: set<nat>, fine: set<nat>, blank: bool,
                                     path: seq<RowID>, id: nat, written: seq<Byte>, soft: RowID, b: nat, k: nat, piece: seq<Byte>)
    requires HeapState(pages, list, first, last, held, fine, -1, blank) && BlanksOf(pages, held) && b in list && b < |pages|
    requires Written(old', pages, list, path, id, written, soft) && path != [] && Pos(list, path[|path| - 1].block) < Pos(list, b)
    requires k <= |pages[b].rows| && !IsRow(pages, RowID(b, k)) && IsRow(pages, path[|path| - 1])
    ensures var mid, prev, x := WithRow(pages, b, k, id, piece), path[|path| - 1], RowID(b, k);
            && IsRow(mid, prev)
            && var pages' := WithChain(mid, prev, x);
               && HeapState(pages', list, first, last, held, fine + {b}, -1, blank) && BlanksOf(pages', held)
               && Written(old', pages', list, path + [x], id, written + piece, soft)
               && pages'[b] == PutRow(pages[b], k, id, piece)
               && forall c :: 0 <= c < |pages| && c != b && c != prev.block ==> pages'[c] == pages[c]
  {
    hide HeapState, BlanksOf, Pos, DataOf;
    var mid, prev, x := WithRow(pages, b, k, id, piece), path[|path| - 1], RowID(b, k);
    StateFacts(pages, list, first, last, held, fine, -1, blank);
    PutState(pages, list, first, last, held, fine, -1, blank, b, k, id, piece);
    OkParts(pages, list);
    NewHead(pages, mid, list, x);
    LastOnPath(old', pages, list, path, id, written, soft);
    ChainState(mid, list, first, last, held, fine + {b}, blank, prev, x);
    WrittenNext(old', pages, mid, WithChain(mid, prev, x), list, path, x, id, written, piece, soft);
  }

  lemma {:induction false} OkParts(pages: Pages, list: seq<nat>)
    requires HeapOk(pages, list)
    ensures Linked(pages, list) && Forward(pages, list) && Injective(pages, list)
    ensures forall i, j :: 0 <= i < j < |list| ==> list[i] != list[j]
  {
  }

  lemma {:induction false} LastOnPath(old': Pages, pages: Pages, list: seq<nat>, path: seq<RowID>, id: nat, written: seq<Byte>, soft: RowID)
    requires Written(old', pages, list, path, id, written, soft)
    ensures path != [] && var last := path[|path| - 1]; IsRow(pages, last) && last.block in list && RowAt(pages, last).id == id && RowAt(pages, last).chain == NO_ROW
  {
  }

  /** The list has grown by blank pages. */
  lemma {:induction false} WrittenGrow(old': Pages, pages: Pages, pages': Pages, list: seq<nat>, list': seq<nat>, path: seq<RowID>, id: nat, written: seq<Byte>, soft: RowID)
    requires Written(old', pages, list, path, id, written, soft) && SameSlots(pages, pages')
    requires list <= list' && forall x :: x in list ==> Pos(list', x) == Pos(list, x)
    ensures Written(old', pages', list', path, id, written, soft)
  {
    hide IsRow, RowAt, DataOf, Pos;
    SlotsSame(pages, pages');
    PathIn(pages, list, path);
    assert forall i :: 0 <= i < |path| ==> SameRow(pages, pages', path[i]);
    ChainFrame(pages, pages', path);
  }

  lemma {:induction false} FewRows(rows: seq<Slot>)
    requires Used(rows) <= BLOCK_SIZE
    ensures |rows| < 341
  {
  }
}
