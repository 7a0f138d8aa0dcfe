/** Which record a row belongs to, and an index that leads from the id of every record to its first row. */
module HeapOwners {
  import opened RowIDs
  import opened DataBlocks
  import opened PageViews
  import opened HeapModel
  import opened HeapWrites
  import opened HeapRemovals
  import opened HeapRecords

  // ---------- Rows and records ----------

  lemma {:induction false} SomeChain(pages: Pages, list: seq<nat>, r: RowID)
    requires HeapOk(pages, list) && IsRow(pages, r) && r.block in list
    ensures exists path :: IsChain(pages, path) && path[0] == r
  {
    hide IsChain, Onward, Linked, Injective, Forward;
    OkParts(pages, list);
    var path := ChainExists(pages, list, r);
    Nonempty(pages, path);
    assert IsChain(pages, path) && path[0] == r;
  }

  /** The rows from one row on; there is only one answer (`ChainUnique`). */
  ghost function RowsFrom(pages: Pages, list: seq<nat>, r: RowID): (path: seq<RowID>)
    requires HeapOk(pages, list) && IsRow(pages, r) && r.block in list
    ensures IsChain(pages, path) && path[0] == r
  {
    SomeChain(pages, list, r);
    var path :| IsChain(pages, path) && path[0] == r;
    path
  }

  /** Every row belongs to a record: going back along the chain leads to a row that starts one. */
  lemma {:induction false} OwnerOf(pages: Pages, list: seq<nat>, s: RowID) returns (path: seq<RowID>)
    requires HeapOk(pages, list) && IsRow(pages, s) && s.block in list
    ensures IsChain(pages, path) && Onward(pages, list, path) && Head(pages, list, path[0]) && s in path
    decreases Pos(list, s.block)
  {
    hide IsRow, RowAt, Onward, IsChain, Pos, Linked, Injective;
    if Head(pages, list, s) {
      path := ChainExists(pages, list, s);
      assert path != [] by { Nonempty(pages, path); }
      assert path[0] in path;
    } else {
      var p: RowID :| p.block in list && ChainedTo(pages, p, s);
      assert ChainsOn(pages, list, p);
      path := OwnerOf(pages, list, p);
      GoesOn(pages, path, p, s);
    }
  }

  lemma {:induction false} Nonempty(pages: Pages, path: seq<RowID>)
    requires IsChain(pages, path)
    ensures path != []
  {
  }

  lemma {:induction false} GoesOn(pages: Pages, path: seq<RowID>, p: RowID, s: RowID)
    requires IsChain(pages, path) && p in path && ChainedTo(pages, p, s)
    ensures s in path
  {
    var i :| 0 <= i < |path| && path[i] == p;
    if i + 1 < |path| { assert ChainedTo(pages, path[i], path[i + 1]); }
  }

  /** All rows of a record have the id of the first one. */
  lemma {:induction false} OneId(pages: Pages, list: seq<nat>, path: seq<RowID>, s: RowID)
    requires Onward(pages, list, path) && s in path
    ensures path != [] && IsRow(pages, s) && RowAt(pages, s).id == RowAt(pages, path[0]).id
  {
  }

  // ---------- The index ----------

  /** Every id leads to the first row of a record of that id, and every record is found by its id. */
  ghost predicate Indexed(index: map<int, RowID>, pages: Pages, list: seq<nat>) {
    && (forall k :: k in index ==> Head(pages, list, index[k]) && RowAt(pages, index[k]).id == k)
    && (forall r :: Head(pages, list, r) ==> RowAt(pages, r).id in index && index[RowAt(pages, r).id] == r)
  }

  lemma {:induction false} NothingIndexed(pages: Pages, list: seq<nat>)
    requires HeapOk(pages, list) && RecordsOf(pages, list) == map[]
    ensures Indexed(map[], pages, list) && Joined(map[], RecordsOf(pages, list)) == map[]
  {
    hide HeapOk, RecordsOf, Head;
    RecordsKeys(pages, list);
  }

  /** So a row with the id of a record is one of its rows: the ids of records keep them apart. */
  lemma {:induction false} OwnRows(index: map<int, RowID>, pages: Pages, list: seq<nat>, id: nat, path: seq<RowID>)
    requires HeapOk(pages, list) && Indexed(index, pages, list) && id in index && IsChain(pages, path) && path[0] == index[id]
    ensures OnlyRecord(pages, list, path, id)
  {
    hide IsRow, RowAt, Onward, IsChain, Pos, Linked, Injective, Forward, Head;
    forall s | IsRow(pages, s) && s.block in list && RowAt(pages, s).id == id ensures s in path {
      var own := OwnerOf(pages, list, s);
      OneId(pages, list, own, s);
      assert own[0] == index[id];
      ChainUnique(pages, own, path);
    }
  }

  /** No row has an id that is not in the index. */
  lemma {:induction false} NewId(index: map<int, RowID>, pages: Pages, list: seq<nat>, id: nat, b: nat)
    requires HeapOk(pages, list) && Indexed(index, pages, list) && id !in index && b in list && b < |pages|
    ensures !HasId(pages[b].rows, id)
  {
    hide Onward, IsChain, Pos, Linked, Injective, Forward, Head, HeapOk;
    if HasId(pages[b].rows, id) {
      var k :| 0 <= k < |pages[b].rows| && pages[b].rows[k].Row? && pages[b].rows[k].id == id;
      var own := OwnerOf(pages, list, RowID(b, k));
      OneId(pages, list, own, RowID(b, k));
      assert false;
    }
  }

  /** Where all ids are small, so are the ids of all rows. */
  lemma {:induction false} RowIsSmall(index: map<int, RowID>, pages: Pages, list: seq<nat>, s: RowID, limit: nat)
    requires HeapOk(pages, list) && Indexed(index, pages, list) && s.block in list && s.block < |pages| && s.local < |pages[s.block].rows|
    requires limit > 0 && forall k :: k in index ==> k < limit
    ensures IdOf(pages[s.block].rows[s.local]) < limit
  {
    hide Onward, IsChain, Pos, Linked, Injective, Forward, Head, HeapOk;
    if IsRow(pages, s) {
      var own := OwnerOf(pages, list, s);
      OneId(pages, list, own, s);
    }
  }

  lemma {:induction false} IndexOff(index: map<int, RowID>, pages: Pages, pages': Pages, list: seq<nat>, b: nat)
    requires HeapOk(pages, list) && Indexed(index, pages, list) && SameBut(pages, pages', b) && b !in list
    ensures Indexed(index, pages', list)
  {
    hide IsRow, RowAt, HeapOk, SameBut, RecordsOf;
    OffList(pages, pages', list, b);
    OffListRows(pages, pages', list, b);
  }

  lemma {:induction false} IndexGrown(index: map<int, RowID>, pages: Pages, list: seq<nat>, pages': Pages, list': seq<nat>, path: seq<RowID>, id: nat, data: seq<Byte>)
    requires Indexed(index, pages, list) && id !in index && Written(pages, pages', list', path, id, data, NO_ROW) && path != []
    requires !Head(pages, list, path[0]) && forall s :: Head(pages', list', s) <==> s == path[0] || Head(pages, list, s)
    requires !Head(pages, list, NO_ROW)
    ensures Indexed(index[id := path[0]], pages', list')
  {
    hide RowAt, Onward, IsChain, DataOf, IsRow;
    forall s | Head(pages, list, s) ensures RowAt(pages', s) == RowAt(pages, s) { assert SameRow(pages, pages', s); }
  }

  lemma {:induction false} IndexShrunk(index: map<int, RowID>, pages: Pages, list: seq<nat>, pages': Pages, list': seq<nat>, path: seq<RowID>, id: nat)
    requires Indexed(index, pages, list) && id in index && RowsLess(pages, pages', path)
    requires forall s :: Head(pages', list', s) <==> s != index[id] && Head(pages, list, s)
    ensures Indexed(index - {id}, pages', list')
  {
    hide RowAt, IsRow;
    forall s | Head(pages', list', s) ensures RowAt(pages', s) == RowAt(pages, s) { assert IsRow(pages', s); }
  }

  lemma {:induction false} IndexKept(index: map<int, RowID>, pages: Pages, list: seq<nat>, pages': Pages, list': seq<nat>, path: seq<RowID>, path': seq<RowID>, id: nat)
    requires HeapOk(pages, list) && Indexed(index, pages, list) && id in index && IsChain(pages, path) && path[0] == index[id] && RowsSwapped(pages, pages', path, path')
    requires forall s :: Head(pages', list', s) <==> Head(pages, list, s)
    requires IsRow(pages', index[id]) ==> RowAt(pages', index[id]).id == id
    ensures Indexed(index, pages', list')
  {
    hide RowAt, IsRow, IsChain, Onward, Linked, Injective, Forward;
    assert IsRow(pages', index[id]);
    forall s | Head(pages, list, s) ensures RowAt(pages', s).id == RowAt(pages, s).id {
      if s != index[id] {
        HeadOutside(pages, list, path, s);
        assert SameRow(pages, pages', s);
      }
    }
  }

  lemma {:induction false} HeadOutside(pages: Pages, list: seq<nat>, path: seq<RowID>, s: RowID)
    requires HeapOk(pages, list) && IsChain(pages, path) && path[0].block in list && Head(pages, list, s) && s != path[0]
    ensures s !in path
  {
    hide IsChain, Onward, Linked, Injective, Head;
    ChainForward(pages, list, path);
    if s in path {
      var i :| 0 <= i < |path| && path[i] == s;
      HeadNotInside(pages, list, path, i, s);
    }
  }

  // ---------- Index and records joined ----------

  lemma {:induction false} SameSize<V, W>(a: map<int, V>, b: map<int, W>)
    requires forall k :: k in a <==> k in b
    ensures |a| == |b|
  {
    assert |a| == |a.Keys| && |b| == |b.Keys|;
    forall k ensures k in a.Keys <==> k in b.Keys { assert k in a <==> k in b; }
    assert a.Keys == b.Keys;
  }

  /** What the ids lead to. */
  function Joined(index: map<int, RowID>, records: map<RowID, seq<Byte>>): (m: map<int, seq<Byte>>)
    ensures forall k :: k in m <==> k in index && index[k] in records
    ensures forall k :: k in m ==> m[k] == records[index[k]]
  {
    map k | k in index && index[k] in records :: records[index[k]]
  }

  /** Ids and records correspond one to one. */
  ghost predicate Matched(index: map<int, RowID>, records: map<RowID, seq<Byte>>) {
    && (forall k :: k in index ==> index[k] in records)
    && (forall j, k :: j in index && k in index && index[j] == index[k] ==> j == k)
  }

  lemma {:induction false} IndexedMatched(index: map<int, RowID>, pages: Pages, list: seq<nat>)
    requires HeapOk(pages, list) && Indexed(index, pages, list)
    ensures Matched(index, RecordsOf(pages, list)) && forall k :: k in Joined(index, RecordsOf(pages, list)) <==> k in index
    ensures !Head(pages, list, NO_ROW) && forall r :: r in RecordsOf(pages, list) <==> Head(pages, list, r)
    ensures forall k :: k in index ==> IsRow(pages, index[k]) && index[k].block in list && index[k].block > 2 && RowAt(pages, index[k]).id == k
  {
    hide Forward, Injective, RecordsOf;
    RecordsKeys(pages, list);
    OkParts(pages, list);
    InList(pages, list);
  }

  lemma {:induction false} JoinedPut(index: map<int, RowID>, records: map<RowID, seq<Byte>>, k: int, r: RowID, data: seq<Byte>)
    requires Matched(index, records) && k !in index && r !in records
    ensures Joined(index[k := r], records[r := data]) == Joined(index, records)[k := data]
  {
    var a, b := Joined(index[k := r], records[r := data]), Joined(index, records)[k := data];
    assert forall x :: x in a ==> x in b;
    assert forall x :: x in b ==> x in a;
    forall x | x in a ensures a[x] == b[x] { }
  }

  lemma {:induction false} JoinedDrop(index: map<int, RowID>, records: map<RowID, seq<Byte>>, k: int)
    requires Matched(index, records) && k in index
    ensures Joined(index - {k}, records - {index[k]}) == Joined(index, records) - {k}
  {
    var a, b := Joined(index - {k}, records - {index[k]}), Joined(index, records) - {k};
    assert forall x :: x in a ==> x in b;
    assert forall x :: x in b ==> x in a;
    forall x | x in a ensures a[x] == b[x] { }
  }

  lemma {:induction false} JoinedSet(index: map<int, RowID>, records: map<RowID, seq<Byte>>, k: int, data: seq<Byte>)
    requires Matched(index, records) && k in index
    ensures Joined(index, records[index[k] := data]) == Joined(index, records)[k := data]
  {
    var a, b := Joined(index, records[index[k] := data]), Joined(index, records)[k := data];
    assert forall x :: x in a ==> x in b;
    assert forall x :: x in b ==> x in a;
    forall x | x in a ensures a[x] == b[x] { }
  }
}
