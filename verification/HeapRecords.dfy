/** The heap seen as a map from row ids to what is stored there. */
module HeapRecords {
  import opened RowIDs
  import opened DataBlocks
  import opened RecordPages
  import opened PageViews
  import opened HeapModel
  import opened HeapWrites
  import opened HeapRemovals
  import opened BlockMaps

  ghost function RowIDsOf(pages: Pages): set<RowID> {
    set b: nat, k: nat | b < |pages| && k < |pages[b].rows| :: RowID(b, k)
  }

  lemma {:induction false} RowsListed(pages: Pages, r: RowID)
    requires IsRow(pages, r)
    ensures r in RowIDsOf(pages)
  {
    assert r == RowID(r.block, r.local);
  }

  lemma {:induction false} StoredSome(pages: Pages, list: seq<nat>, r: RowID)
    requires HeapOk(pages, list) && Head(pages, list, r)
    ensures exists x :: Stored(pages, r, x)
  {
    hide Linked, Injective, DataOf, Onward;
    var path := ChainExists(pages, list, r);
    assert Stored(pages, r, DataOf(pages, path));
  }

  /** What a record holds; there is only one answer (`StoredUnique`). */
  ghost function Content(pages: Pages, list: seq<nat>, r: RowID): seq<Byte>
    requires HeapOk(pages, list) && Head(pages, list, r)
  {
    StoredSome(pages, list, r);
    var x :| Stored(pages, r, x);
    x
  }

  /** The records of a heap by the row they start at. */
  ghost function RecordsOf(pages: Pages, list: seq<nat>): map<RowID, seq<Byte>>
    requires HeapOk(pages, list)
  {
    map r | r in RowIDsOf(pages) && Head(pages, list, r) :: Content(pages, list, r)
  }

  lemma {:induction false} RecordsKeys(pages: Pages, list: seq<nat>)
    requires HeapOk(pages, list)
    ensures forall r :: r in RecordsOf(pages, list) <==> Head(pages, list, r)
    ensures forall r :: r in RecordsOf(pages, list) ==> Stored(pages, r, RecordsOf(pages, list)[r])
  {
    hide HeapOk, RowIDsOf, Stored;
    forall r | Head(pages, list, r) ensures r in RowIDsOf(pages) { RowsListed(pages, r); }
    forall r | r in RecordsOf(pages, list) ensures Stored(pages, r, RecordsOf(pages, list)[r]) {
      StoredSome(pages, list, r);
    }
  }

  lemma {:induction false} RecordsAre(pages: Pages, list: seq<nat>, m: map<RowID, seq<Byte>>)
    requires HeapOk(pages, list) && forall r :: r in m <==> Head(pages, list, r)
    requires forall r :: r in m ==> Stored(pages, r, m[r])
    ensures RecordsOf(pages, list) == m
  {
    hide HeapOk, Head, RecordsOf, Stored;
    RecordsKeys(pages, list);
    forall r | r in m ensures RecordsOf(pages, list)[r] == m[r] {
      StoredUnique(pages, r, RecordsOf(pages, list)[r], m[r]);
    }
  }

  // ---------- Where records start ----------

  /** The one row that may be overwritten is the head of its record and ends it. */
  ghost predicate Overwritten(pages: Pages, list: seq<nat>, list': seq<nat>, path: seq<RowID>, soft: RowID)
    requires path != []
  {
    if path[0] == soft then Head(pages, list, soft) && RowAt(pages, soft).chain == NO_ROW else !IsRow(pages, path[0]) && soft.block !in list'
  }

  /** Writing a record adds its first row to the heads, and no other. */
  lemma {:induction false} WrittenHeads(old': Pages, pages: Pages, list: seq<nat>, list': seq<nat>, path: seq<RowID>, id: nat, written: seq<Byte>, soft: RowID)
    requires Forward(old', list) && Written(old', pages, list', path, id, written, soft) && path != [] && path[0].block in list && path[0].block != 0
    requires forall r :: IsRow(old', r) ==> (r.block in list <==> r.block in list')
    requires Overwritten(old', list, list', path, soft)
    ensures forall s :: Head(pages, list', s) <==> s == path[0] || Head(old', list, s)
  {
    hide IsRow, RowAt, Forward, Head, Written;
    WrittenHead(old', pages, list, list', path, id, written, soft);
    forall s ensures Head(pages, list', s) <==> s == path[0] || Head(old', list, s) {
      if s != path[0] {
        if Head(old', list, s) { HeadStays(old', pages, list, list', path, id, written, soft, s); }
        if Head(pages, list', s) { HeadWas(old', pages, list, list', path, id, written, soft, s); }
      }
    }
  }

  lemma {:induction false} HeadStays(old': Pages, pages: Pages, list: seq<nat>, list': seq<nat>, path: seq<RowID>, id: nat, written: seq<Byte>, soft: RowID, s: RowID)
    requires Written(old', pages, list', path, id, written, soft) && path != [] && Head(old', list, s) && s != path[0]
    requires forall r :: IsRow(old', r) ==> (r.block in list <==> r.block in list')
    requires Overwritten(old', list, list', path, soft)
    ensures Head(pages, list', s)
  {
    hide IsRow, RowAt, DataOf, Pos;
    assert s !in path && s != soft;
    forall q: RowID | q.block in list' ensures !ChainedTo(pages, q, s) {
      if q in path {
        OnwardFrom(pages, list', path, q, s);
      } else {
        assert IsRow(pages, q) ==> SameRow(old', pages, q);
        assert ChainedTo(pages, q, s) ==> ChainedTo(old', q, s);
      }
    }
  }

  lemma {:induction false} OnwardFrom(pages: Pages, list: seq<nat>, path: seq<RowID>, q: RowID, s: RowID)
    requires IsChain(pages, path) && q in path && s !in path
    ensures !ChainedTo(pages, q, s)
  {
    var i :| 0 <= i < |path| && path[i] == q;
    if i + 1 < |path| { assert ChainedTo(pages, path[i], path[i + 1]); }
  }

  lemma {:induction false} HeadWas(old': Pages, pages: Pages, list: seq<nat>, list': seq<nat>, path: seq<RowID>, id: nat, written: seq<Byte>, soft: RowID, s: RowID)
    requires Written(old', pages, list', path, id, written, soft) && path != [] && Head(pages, list', s) && s != path[0]
    requires forall r :: IsRow(old', r) ==> (r.block in list <==> r.block in list')
    requires Overwritten(old', list, list', path, soft)
    ensures Head(old', list, s)
  {
    hide RowAt, DataOf, Pos, IsRow;
    if s in path {
      var i :| 0 <= i < |path| && path[i] == s;
      HeadNotInside(pages, list', path, i, s);
    }
    assert IsRow(old', s);
    forall q: RowID | q.block in list ensures !ChainedTo(old', q, s) {
      if IsRow(old', q) && q != soft {
        assert SameRow(old', pages, q);
        assert ChainedTo(old', q, s) ==> ChainedTo(pages, q, s);
      }
    }
  }

  /** Rows of one record have gone, or lost their chain; no other row has changed. */
  ghost predicate Shortened(pages: Pages, pages': Pages, path: seq<RowID>) {
    && (forall s :: s !in path ==> (IsRow(pages', s) <==> IsRow(pages, s)))
    && (forall s :: s !in path && IsRow(pages, s) ==> SameRow(pages, pages', s))
    && (forall s :: s in path && IsRow(pages', s) ==> RowAt(pages', s).chain.block == 0 && path != [] && s == path[0])
  }

  lemma {:induction false} ShorterHeads(pages: Pages, pages': Pages, list: seq<nat>, list': seq<nat>, path: seq<RowID>)
    requires HeapOk(pages, list) && IsChain(pages, path) && path != [] && Head(pages, list, path[0]) && Shortened(pages, pages', path)
    requires (forall r :: IsRow(pages', r) && r.block in list ==> r.block in list') && forall b :: b in list' ==> b in list
    ensures forall s :: Head(pages', list', s) <==> Head(pages, list, s) && IsRow(pages', s)
  {
    hide Shortened, Head, IsChain, HeapOk, IsRow;
    forall s ensures Head(pages', list', s) <==> Head(pages, list, s) && IsRow(pages', s) {
      if Head(pages', list', s) { HeadBefore(pages, pages', list, list', path, s); }
      if Head(pages, list, s) && IsRow(pages', s) { HeadAfter(pages, pages', list, list', path, s); }
    }
  }

  lemma {:induction false} HeadAfter(pages: Pages, pages': Pages, list: seq<nat>, list': seq<nat>, path: seq<RowID>, s: RowID)
    requires Shortened(pages, pages', path) && Head(pages, list, s) && IsRow(pages', s)
    requires (forall r :: IsRow(pages', r) && r.block in list ==> r.block in list') && forall b :: b in list' ==> b in list
    ensures Head(pages', list', s)
  {
    hide IsRow, RowAt;
    forall q: RowID | q.block in list' ensures !ChainedTo(pages', q, s) {
      if q !in path {
        assert IsRow(pages', q) ==> SameRow(pages, pages', q);
        assert ChainedTo(pages', q, s) ==> ChainedTo(pages, q, s);
      }
    }
  }

  lemma {:induction false} HeadBefore(pages: Pages, pages': Pages, list: seq<nat>, list': seq<nat>, path: seq<RowID>, s: RowID)
    requires HeapOk(pages, list) && IsChain(pages, path) && path != [] && Head(pages, list, path[0]) && Shortened(pages, pages', path)
    requires (forall r :: IsRow(pages', r) && r.block in list ==> r.block in list') && forall b :: b in list' ==> b in list
    requires Head(pages', list', s)
    ensures Head(pages, list, s) && IsRow(pages', s)
  {
    hide IsRow, RowAt, HeapOk;
    if s !in path {
      assert IsRow(pages, s);
      forall q: RowID | q.block in list ensures !ChainedTo(pages, q, s) {
        if q in path {
          OnwardFrom(pages, list, path, q, s);
        } else if IsRow(pages, q) {
          assert SameRow(pages, pages', q);
          assert ChainedTo(pages, q, s) ==> ChainedTo(pages', q, s);
        }
      }
    }
  }

  // ---------- Operations on the records ----------

  lemma {:induction false} WrittenRecords(old': Pages, pages: Pages, list: seq<nat>, list': seq<nat>, path: seq<RowID>, id: nat, data: seq<Byte>, soft: RowID)
    requires HeapOk(old', list) && HeapOk(pages, list') && Written(old', pages, list', path, id, data, soft)
    requires path != [] && path[0].block in list && path[0].block != 0
    requires forall r :: IsRow(old', r) ==> (r.block in list <==> r.block in list')
    requires Overwritten(old', list, list', path, soft)
    ensures RecordsOf(pages, list') == RecordsOf(old', list)[path[0] := data]
    ensures path[0] != soft ==> path[0] !in RecordsOf(old', list)
  {
    hide HeapOk, Head, Written, Stored, RecordsOf, IsChain, IsRow, Forward, SameRow;
    OkParts(old', list);
    RecordsKeys(old', list);
    WrittenHeads(old', pages, list, list', path, id, data, soft);
    WrittenStored(old', pages, list', path, id, data, soft);
    var m := RecordsOf(old', list)[path[0] := data];
    forall s | s in m ensures Stored(pages, s, m[s]) {
      if s != path[0] { OtherWritten(old', pages, list, list', path, id, data, soft, s, m[s]); }
    }
    RecordsAre(pages, list', m);
    NoRowNoHead(old', list, path[0]);
  }

  lemma {:induction false} NoRowNoHead(pages: Pages, list: seq<nat>, r: RowID)
    ensures !IsRow(pages, r) ==> !Head(pages, list, r)
  {
  }

  lemma {:induction false} OtherWritten(old': Pages, pages: Pages, list: seq<nat>, list': seq<nat>, path: seq<RowID>, id: nat, data: seq<Byte>, soft: RowID,
                                        s: RowID, x: seq<Byte>)
    requires HeapOk(old', list) && Written(old', pages, list', path, id, data, soft) && path != [] && Overwritten(old', list, list', path, soft)
    requires forall r :: IsRow(old', r) ==> (r.block in list <==> r.block in list')
    requires Head(old', list, s) && s != path[0] && Stored(old', s, x)
    ensures Stored(pages, s, x)
  {
    hide HeapOk, Stored, IsChain, Onward, DataOf, IsRow, RowAt;
    if path[0] == soft {
      SoftChain(old', list, soft);
      OtherKept(old', pages, list, [soft], s, x);
    } else {
      OkParts(old', list);
      StoredKept(old', pages, list, s, x);
    }
  }

  lemma {:induction false} SoftChain(pages: Pages, list: seq<nat>, r: RowID)
    requires Head(pages, list, r) && RowAt(pages, r).chain == NO_ROW
    ensures IsChain(pages, [r])
  {
  }

  /** Records other than the one removed or updated are still there, and still the same. */
  lemma {:induction false} ShorterRecords(pages: Pages, pages': Pages, list: seq<nat>, list': seq<nat>, path: seq<RowID>, x: seq<Byte>)
    requires HeapOk(pages, list) && HeapOk(pages', list') && IsChain(pages, path) && path != [] && Head(pages, list, path[0]) && Shortened(pages, pages', path)
    requires (forall r :: IsRow(pages', r) && r.block in list ==> r.block in list') && forall b :: b in list' ==> b in list
    requires IsRow(pages', path[0]) ==> Stored(pages', path[0], x)
    ensures path[0] in RecordsOf(pages, list)
    ensures RecordsOf(pages', list') == if IsRow(pages', path[0]) then RecordsOf(pages, list)[path[0] := x] else RecordsOf(pages, list) - {path[0]}
  {
    hide HeapOk, Head, Stored, RecordsOf, IsChain, IsRow, Shortened;
    RecordsKeys(pages, list);
    ShorterHeads(pages, pages', list, list', path);
    var m := if IsRow(pages', path[0]) then RecordsOf(pages, list)[path[0] := x] else RecordsOf(pages, list) - {path[0]};
    forall s | s in m && s != path[0] ensures Stored(pages', s, m[s]) && IsRow(pages', s) {
      KeptRecord(pages, pages', list, path, s, m[s]);
    }
    RecordsAre(pages', list', m);
  }

  lemma {:induction false} KeptRecord(pages: Pages, pages': Pages, list: seq<nat>, path: seq<RowID>, s: RowID, x: seq<Byte>)
    requires HeapOk(pages, list) && IsChain(pages, path) && path != [] && Head(pages, list, path[0]) && Shortened(pages, pages', path)
    requires Head(pages, list, s) && s != path[0] && Stored(pages, s, x)
    ensures Stored(pages', s, x) && IsRow(pages', s)
  {
    hide HeapOk, IsChain, Stored, RowAt;
    OtherKept(pages, pages', list, path, s, x);
  }

  /** Pointers and pages without rows do not matter. */
  lemma {:induction false} SameRecords(pages: Pages, pages': Pages, list: seq<nat>, list': seq<nat>)
    requires HeapOk(pages, list) && HeapOk(pages', list') && SameSlots(pages, pages')
    requires forall r :: IsRow(pages, r) ==> (r.block in list <==> r.block in list')
    ensures RecordsOf(pages', list') == RecordsOf(pages, list)
  {
    hide HeapOk, Stored, RecordsOf, IsRow, RowAt, Head, SameSlots;
    SlotsSame(pages, pages');
    RecordsKeys(pages, list);
    OkParts(pages, list);
    SameHeads(pages, pages', list, list');
    var m := RecordsOf(pages, list);
    forall s | s in m ensures Stored(pages', s, m[s]) {
      HeadIn(pages, list, s);
      StoredKept(pages, pages', list, s, m[s]);
    }
    RecordsAre(pages', list', m);
  }

  lemma {:induction false} HeadIn(pages: Pages, list: seq<nat>, r: RowID)
    requires Head(pages, list, r)
    ensures IsRow(pages, r) && r.block in list
  {
  }

  lemma {:induction false} SameHeads(pages: Pages, pages': Pages, list: seq<nat>, list': seq<nat>)
    requires RowsLess(pages, pages', []) && forall r :: IsRow(pages, r) ==> (r.block in list <==> r.block in list')
    ensures forall s :: Head(pages', list', s) <==> Head(pages, list, s)
  {
    hide IsRow, RowAt;
    assert forall q, s :: ChainedTo(pages', q, s) <==> ChainedTo(pages, q, s);
  }

  lemma {:induction false} InPrefix(a: seq<nat>, b: seq<nat>, x: nat)
    requires a <= b && x in a
    ensures x in b
  {
    var i :| 0 <= i < |a| && a[i] == x;
    assert b[i] == x;
  }

  /** What adding a record means for it and for all others. */
  lemma {:induction false} AddDone(pages0: Pages, pages1: Pages, pages: Pages, list0: seq<nat>, list1: seq<nat>, list: seq<nat>, free0: set<nat>, free: set<nat>,
                                   path: seq<RowID>, id: nat, data: seq<Byte>)
    requires HeapOk(pages0, list0) && HeapOk(pages1, list1) && HeapOk(pages, list) && SameSlots(pages0, pages1)
    requires Written(pages1, pages, list, path, id, data, NO_ROW) && path != [] && path[0].block in list1
    requires list0 <= list1 && (forall b :: b in list1 && b !in list0 ==> b in free0) && forall b :: b in free0 ==> b < |pages0| && pages0[b].rows == []
    requires list1 <= list && (forall b :: b in list && b !in list1 ==> b in free) && forall b :: b in free ==> b < |pages1| && pages1[b].rows == []
    requires forall b :: b in list ==> b > 2
    ensures Stored(pages, path[0], data) && Head(pages, list, path[0]) && Written(pages0, pages, list, path, id, data, NO_ROW)
    ensures path[0] !in RecordsOf(pages0, list0) && RecordsOf(pages, list) == RecordsOf(pages0, list0)[path[0] := data]
  {
    hide IsRow, RowAt, DataOf, IsChain, Onward, HeapOk, Stored, Pos, RecordsOf, Head;
    WrittenStored(pages1, pages, list, path, id, data, NO_ROW);
    WrittenFrom(pages0, pages1, pages, list, path, id, data, NO_ROW);
    RowsElsewhere(pages0, free0);
    RowsElsewhere(pages1, free);
    SameRecords(pages0, pages1, list0, list1);
    InPrefix(list1, list, path[0].block);
    assert path[0] in path;
    assert path[0] != NO_ROW && !IsRow(pages1, path[0]);
    WrittenRecords(pages1, pages, list1, list, path, id, data, NO_ROW);
    RecordsKeys(pages, list);
  }

  /** What updating a record means for it and for all others. */
  lemma {:induction false} UpdateDone(pages0: Pages, pages1: Pages, pages2: Pages, pages: Pages, list0: seq<nat>, list1: seq<nat>, list: seq<nat>,
                                      path: seq<RowID>, path': seq<RowID>, id: nat, data: seq<Byte>)
    requires HeapOk(pages0, list0) && HeapOk(pages2, list1) && HeapOk(pages, list)
    requires IsChain(pages0, path) && path != [] && Head(pages0, list0, path[0])
    requires RowsLess(pages0, pages1, path[1..]) && RowsBut(pages1, pages2, path[0]) && IsRow(pages2, path[0]) && RowAt(pages2, path[0]) == Row(id, [], NO_ROW)
    requires (forall r :: IsRow(pages1, r) && r.block in list0 ==> r.block in list1) && (forall b :: b in list1 ==> b in list0)
    requires Written(pages2, pages, list, path', id, data, path[0]) && path' != [] && path'[0] == path[0]
    requires forall r :: IsRow(pages2, r) ==> (r.block in list1 <==> r.block in list)
    requires forall b :: b in list0 ==> b > 2
    ensures IsChain(pages, path') && DataOf(pages, path') == data && path[0] in RecordsOf(pages0, list0)
    ensures RecordsOf(pages, list) == RecordsOf(pages0, list0)[path[0] := data] && RowsSwapped(pages0, pages, path, path')
    ensures IsRow(pages, path[0]) && RowAt(pages, path[0]).id == id
  {
    hide IsRow, RowAt, DataOf, IsChain, Onward, HeapOk, Stored, Pos, RecordsOf, Written, RowsBut, RowsLess;
    var r := path[0];
    CutShortened(pages0, pages1, pages2, path);
    FirstOnly(pages0, list0, path);
    HeadIn(pages0, list0, r);
    ButRow(pages0, pages1, pages2, path, list0, list1);
    ShorterHeads(pages0, pages2, list0, list1, path);
    SoftStored(pages2, r, id);
    ShorterRecords(pages0, pages2, list0, list1, path, []);
    WrittenRecords(pages2, pages, list1, list, path', id, data, r);
    WrittenStored(pages2, pages, list, path', id, data, r);
    SwappedRows(pages0, pages2, pages, list, path, path', id, data);
    FirstWritten(pages2, pages, list, path', id, data, r);
  }

  lemma {:induction false} FirstWritten(old': Pages, pages: Pages, list: seq<nat>, path: seq<RowID>, id: nat, data: seq<Byte>, soft: RowID)
    requires Written(old', pages, list, path, id, data, soft)
    ensures path != [] && IsRow(pages, path[0]) && RowAt(pages, path[0]).id == id
  {
  }

  lemma {:induction false} ButRow(pages0: Pages, pages1: Pages, pages2: Pages, path: seq<RowID>, list0: seq<nat>, list1: seq<nat>)
    requires path != [] && RowsBut(pages1, pages2, path[0]) && IsRow(pages0, path[0]) && path[0] !in path[1..] && RowsLess(pages0, pages1, path[1..])
    requires forall r :: IsRow(pages1, r) && r.block in list0 ==> r.block in list1
    ensures forall r :: IsRow(pages2, r) && r.block in list0 ==> r.block in list1
  {
    hide IsRow, RowAt;
    assert IsRow(pages1, path[0]);
  }

  lemma {:induction false} FirstOnly(pages: Pages, list: seq<nat>, path: seq<RowID>)
    requires HeapOk(pages, list) && IsChain(pages, path) && path != [] && Head(pages, list, path[0])
    ensures path[0] !in path[1..]
  {
    hide Linked, Injective, IsChain, Onward;
    ChainForward(pages, list, path);
    if |path| > 1 { RestOnward(pages, list, path); }
  }

  lemma {:induction false} SoftStored(pages: Pages, r: RowID, id: nat)
    requires IsRow(pages, r) && RowAt(pages, r) == Row(id, [], NO_ROW)
    ensures Stored(pages, r, [])
  {
    DataOne(pages, r);
    assert IsChain(pages, [r]) && [r][0] == r;
  }

  /** The rows of one record have been replaced by other rows; no row of another record has changed. */
  ghost predicate RowsSwapped(pages: Pages, pages': Pages, path: seq<RowID>, path': seq<RowID>) {
    && (forall s :: IsRow(pages', s) <==> (IsRow(pages, s) && s !in path) || s in path')
    && (forall s :: IsRow(pages, s) && s !in path ==> SameRow(pages, pages', s))
  }

  lemma {:induction false} SwappedRows(pages0: Pages, pages2: Pages, pages: Pages, list: seq<nat>, path: seq<RowID>, path': seq<RowID>, id: nat, data: seq<Byte>)
    requires path != [] && Shortened(pages0, pages2, path) && IsRow(pages2, path[0]) && IsChain(pages0, path)
    requires Written(pages2, pages, list, path', id, data, path[0]) && path' != [] && path'[0] == path[0]
    ensures RowsSwapped(pages0, pages, path, path')
  {
    hide RowAt, IsRow, DataOf, Pos;
    assert path[0] in path && path[0] in path';
    forall s ensures IsRow(pages, s) <==> (IsRow(pages0, s) && s !in path) || s in path' {
      if s in path' { var i :| 0 <= i < |path'| && path'[i] == s; }
    }
  }

  lemma {:induction false} LessShortened(pages: Pages, pages': Pages, path: seq<RowID>)
    requires RowsLess(pages, pages', path)
    ensures Shortened(pages, pages', path)
  {
    hide IsRow, RowAt;
  }

  /** The first row stays, without its chain. */
  lemma {:induction false} CutShortened(pages: Pages, mid: Pages, pages': Pages, path: seq<RowID>)
    requires path != [] && RowsLess(pages, mid, path[1..]) && RowsBut(mid, pages', path[0]) && IsRow(pages', path[0]) && RowAt(pages', path[0]).chain == NO_ROW
    ensures Shortened(pages, pages', path)
  {
    hide IsRow, RowAt;
    forall s ensures s in path <==> s == path[0] || s in path[1..] { NotInPath(path, s); }
  }

  // ---------- Blocks that are not in the list ----------

  /** Pages that differ in page `b` at most. */
  ghost predicate SameBut(pages: Pages, pages': Pages, b: nat) {
    |pages'| == |pages| && forall c :: 0 <= c < |pages| && c != b ==> pages'[c] == pages[c]
  }

  lemma {:induction false} OffListRows(pages: Pages, pages': Pages, list: seq<nat>, b: nat)
    requires SameBut(pages, pages', b) && b !in list
    ensures forall r: RowID :: r.block in list ==> (IsRow(pages', r) <==> IsRow(pages, r)) && (IsRow(pages, r) ==> RowAt(pages', r) == RowAt(pages, r))
    ensures forall r: RowID, s: RowID :: r.block in list ==> (ChainedTo(pages', r, s) <==> ChainedTo(pages, r, s))
  {
  }

  lemma {:induction false} OffListLinks(pages: Pages, pages': Pages, list: seq<nat>, b: nat)
    requires SameBut(pages, pages', b) && b !in list && Linked(pages, list)
    ensures Linked(pages', list) && Lost(pages', list) == Lost(pages, list)
  {
    forall i | 0 <= i < |list| ensures LinkAt(pages', list, i) { assert LinkAt(pages, list, i); }
    BackFrame(pages, pages', list);
  }

  /** What is not in the list matters neither for it nor for the records. */
  lemma {:induction false} OffList(pages: Pages, pages': Pages, list: seq<nat>, b: nat)
    requires SameBut(pages, pages', b) && b !in list && HeapOk(pages, list)
    ensures HeapOk(pages', list) && Lost(pages', list) == Lost(pages, list)
    ensures forall r :: Head(pages', list, r) <==> Head(pages, list, r)
    ensures RecordsOf(pages', list) == RecordsOf(pages, list)
  {
    hide IsRow, RowAt, Pos, Linked, Lost, SameBut, RecordsOf, Stored, ChainedTo;
    OffListRows(pages, pages', list, b);
    OffListLinks(pages, pages', list, b);
    forall r | IsRow(pages', r) && r.block in list ensures ChainsOn(pages', list, r) { assert ChainsOn(pages, list, r); }
    assert HeapOk(pages', list);
    RecordsKeys(pages, list);
    var m := RecordsOf(pages, list);
    forall s | s in m ensures Stored(pages', s, m[s]) {
      StoredThere(pages, pages', list, s, m[s]);
    }
    RecordsAre(pages', list, m);
  }

  lemma {:induction false} StoredThere(pages: Pages, pages': Pages, list: seq<nat>, s: RowID, x: seq<Byte>)
    requires Forward(pages, list) && s.block in list && Stored(pages, s, x)
    requires forall r: RowID :: r.block in list ==> (IsRow(pages', r) <==> IsRow(pages, r)) && (IsRow(pages, r) ==> RowAt(pages', r) == RowAt(pages, r))
    ensures Stored(pages', s, x)
  {
    hide IsRow, RowAt, Stored, Forward;
    StoredKept(pages, pages', list, s, x);
  }

  /** A block is lent, whatever is written to it. */
  lemma {:induction false} LentState(pages: Pages, pages': Pages, list: seq<nat>, first: nat, last: nat, held: set<nat>, fine: set<nat>, fine': set<nat>, blank: bool, b: nat)
    requires HeapState(pages, list, first, last, held, fine, -1, blank) && SameBut(pages, pages', b) && b in Usable() - held && fine' >= fine - {b}
    ensures HeapState(pages', list, first, last, held + {b}, fine', -1, blank) && Lost(pages', list) == Lost(pages, list)
    ensures RecordsOf(pages', list) == RecordsOf(pages, list) && (BlanksOf(pages, held) ==> BlanksOf(pages', held + {b}))
    ensures EndRoom(pages', list, held + {b}) + NEW_SPACE == EndRoom(pages, list, held)
  {
    hide HeapOk, Lost, RecordsOf, EndRoom, Usable, Blank;
    StateFacts(pages, list, first, last, held, fine, -1, blank);
    OffList(pages, pages', list, b);
    OkParts(pages, list);
    assert list != [];
    EndRoomIs(pages, list, held);
    EndRoomIs(pages', list, held + {b});
    assert list[|list| - 1] in list;
    assert Usable() - (held + {b}) == (Usable() - held) - {b};
  }

  lemma {:induction false} BlankAgain(pages: Pages, pages': Pages, held: set<nat>, b: nat)
    requires SameBut(pages, pages', b) && b < |pages|
    ensures BlanksOf(pages, held) && Blank(pages'[b]) ==> BlanksOf(pages', held - {b})
  {
    hide Usable, Blank;
    if BlanksOf(pages, held) && Blank(pages'[b]) {
      forall x | x in Usable() - (held - {b}) ensures x < |pages'| && Blank(pages'[x]) { if x != b { assert x in Usable() - held; } }
    }
  }

  /** A block that is lent is written to, or given back. */
  lemma {:induction false} ReturnedState(pages: Pages, pages': Pages, list: seq<nat>, first: nat, last: nat, held: set<nat>, fine: set<nat>, fine': set<nat>, blank: bool, b: nat)
    requires HeapState(pages, list, first, last, held, fine, -1, blank) && SameBut(pages, pages', b) && fine' - {b} == fine - {b}
    requires b in held && b in Usable() && b !in list && b > 0 && b < |pages|
    ensures HeapState(pages', list, first, last, held - {b}, fine', -1, blank) <==> b in fine' && (blank ==> Blank(pages'[b]))
    ensures HeapOk(pages', list) && Lost(pages', list) == Lost(pages, list) && RecordsOf(pages', list) == RecordsOf(pages, list)
    ensures BlanksOf(pages, held) && Blank(pages'[b]) ==> BlanksOf(pages', held - {b})
    ensures EndRoom(pages', list, held - {b}) == EndRoom(pages, list, held) + NEW_SPACE
  {
    hide HeapOk, Lost, RecordsOf, EndRoom, Usable, Blank;
    StateFacts(pages, list, first, last, held, fine, -1, blank);
    OffList(pages, pages', list, b);
    assert list != [];
    EndRoomIs(pages, list, held);
    EndRoomIs(pages', list, held - {b});
    assert list[|list| - 1] in list;
    assert Usable() - (held - {b}) == (Usable() - held) + {b};
    assert b in Usable() - (held - {b});
    forall x ensures x in fine && x != b <==> x in fine' && x != b { assert x in fine - {b} <==> x in fine' - {b}; }
    if b in fine' && (blank ==> Blank(pages'[b])) {
      assert forall x :: x in Usable() - (held - {b}) ==> x == b || x in Usable() - held;
    }
  }
}
