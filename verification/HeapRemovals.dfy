/** Removing a record row by row, last row first, and taking emptied pages out of the list. */
module HeapRemovals {
  import opened RowIDs
  import opened DataBlocks
  import opened RecordPages
  import opened PageViews
  import opened HeapModel
  import opened HeapWrites
  import opened BlockMaps

  // ---------- State while a record is removed ----------

  /** Row `t` may be gone already while the row chained to it is still there. */
  ghost predicate Removing(pages: Pages, list: seq<nat>, first: nat, last: nat, held: set<nat>, fine: set<nat>, blank: bool, t: RowID) {
    && |pages| == TOTAL && Linked(pages, list) && Injective(pages, list) && ForwardBut(pages, list, t)
    && first == list[0] && last == list[|list| - 1]
    && (forall b :: b in list ==> b in held && b in fine)
    && (forall b :: b in Usable() - held ==> b in fine) && 0 in fine && 0 in held
    && (blank ==> BlanksOf(pages, held))
  }

  lemma {:induction false} RemovingStart(pages: Pages, list: seq<nat>, first: nat, last: nat, held: set<nat>, fine: set<nat>, blank: bool)
    requires HeapState(pages, list, first, last, held, fine, -1, blank)
    ensures Removing(pages, list, first, last, held, fine, blank, NO_ROW)
  {
    hide Linked, Lost, Injective;
    ButForward(pages, list);
  }

  lemma {:induction false} RemovingEnd(pages: Pages, list: seq<nat>, first: nat, last: nat, held: set<nat>, fine: set<nat>, blank: bool, t: RowID)
    requires Removing(pages, list, first, last, held, fine, blank, t)
    requires forall s: RowID :: s.block in list ==> !ChainedTo(pages, s, t)
    ensures HeapState(pages, list, first, last, held, fine, -1, blank)
  {
    hide Linked, Lost, Injective;
  }

  lemma {:induction false} RemovingFacts(pages: Pages, list: seq<nat>, first: nat, last: nat, held: set<nat>, fine: set<nat>, blank: bool, t: RowID)
    requires Removing(pages, list, first, last, held, fine, blank, t)
    ensures list != [] && |pages| == TOTAL && first == list[0] && last == list[|list| - 1] && Linked(pages, list)
    ensures forall b :: b in list ==> 2 < b < TOTAL && b in held && b in fine
    ensures 0 in fine && 0 in held && forall i, j :: 0 <= i < j < |list| ==> list[i] != list[j]
  {
    InList(pages, list);
    DistinctList(pages, list);
  }

  lemma {:induction false} RowGone(pages: Pages, list: seq<nat>, first: nat, last: nat, held: set<nat>, fine: set<nat>, blank: bool, r: RowID, t: RowID)
    requires Removing(pages, list, first, last, held, fine, blank, t) && IsRow(pages, r) && r.block in list
    requires t.block != 0 ==> ChainedTo(pages, r, t)
    ensures Removing(Without(pages, r), list, first, last, held, fine, blank, r) && RowsLess(pages, Without(pages, r), [r])
    ensures Lost(Without(pages, r), list) == Lost(pages, list)
  {
    hide Linked, Lost, Injective, ForwardBut, RowsBut, RowsLess, IsRow;
    RemovingFacts(pages, list, first, last, held, fine, blank, t);
    WithoutRows(pages, r);
    WithoutOk(pages, Without(pages, r), list, r, t);
    WithoutPages(pages, r);
    BackFrame(pages, Without(pages, r), list);
  }

  lemma {:induction false} WithoutPages(pages: Pages, r: RowID)
    requires IsRow(pages, r)
    ensures r.block < |pages| && r.local < |pages[r.block].rows|
    ensures var pages' := Without(pages, r);
            && |pages'| == |pages| && pages'[r.block] == pages[r.block].(rows := pages[r.block].rows[r.local := Free])
            && forall b :: 0 <= b < |pages| && b != r.block ==> pages'[b] == pages[b]
  {
  }

  /** No row is left on a page. */
  predicate Emptied(rows: seq<Slot>) {
    forall k :: 0 <= k < |rows| ==> rows[k].Free?
  }

  lemma {:induction false} CountZero(rows: seq<Slot>)
    ensures RowCount(rows) == 0 <==> Emptied(rows)
  {
    if rows != [] {
      var l := |rows| - 1;
      CountZero(rows[..l]);
      assert forall k :: 0 <= k < l ==> rows[..l][k] == rows[k];
    }
  }

  /** An emptied page other than the last one leaves the list. */
  lemma {:induction false} PageGone(pages: Pages, list: seq<nat>, first: nat, last: nat, held: set<nat>, fine: set<nat>, blank: bool, i: nat, t: RowID)
    requires Removing(pages, list, first, last, held, fine, blank, t) && i + 1 < |list| && list[i] < |pages| && Emptied(pages[list[i]].rows)
    requires list[i] !in Lost(pages, list)
    ensures var v := pages[list[i]];
            && v.next == list[i + 1] && v.prev == (if i > 0 then list[i - 1] else 0) && v.next != list[i] && v.prev != list[i] && v.prev != v.next
            && v.next < |pages| && v.prev < |pages|
    ensures var pages', list' := Unlinked(pages, list[i], blank), Cut(list, i);
            && Removing(pages', list', if i == 0 then list[1] else first, last, held - {list[i]}, fine, blank, t)
            && RowsLess(pages, pages', []) && Lost(pages', list') <= Lost(pages, list)
  {
    hide Linked, Lost, Injective, ForwardBut, RowsLess, Unlinked, Cut;
    RemovingFacts(pages, list, first, last, held, fine, blank, t);
    LostAt(pages, list, i);
    UnlinkNeighbours(pages, list, i);
    UnlinkOk(pages, list, i, blank, t);
    UnlinkedPages(pages, list[i], blank);
    CutIs(list, i);
    var pages' := Unlinked(pages, list[i], blank);
    if blank {
      forall b | b in Usable() - (held - {list[i]}) ensures b < |pages'| && Blank(pages'[b]) {
        if b != list[i] { assert b in Usable() - held && b !in list; }
      }
    }
  }

  lemma {:induction false} UnlinkedPages(pages: Pages, b: nat, repaired: bool)
    requires b < |pages| && pages[b].prev < |pages| && pages[b].next < |pages| && pages[b].next != b && pages[b].prev != b && pages[b].prev != pages[b].next
    ensures var pages', v := Unlinked(pages, b, repaired), pages[b];
            && |pages'| == |pages| && pages'[b] == PageView([], v.prev, if repaired then 0 else v.next)
            && pages'[v.prev] == pages[v.prev].(next := v.next) && pages'[v.next] == pages[v.next].(prev := v.prev)
            && forall c :: 0 <= c < |pages| && c != b && c != v.prev && c != v.next ==> pages'[c] == pages[c]
  {
  }

  lemma {:induction false} CutIs(list: seq<nat>, i: nat)
    requires i + 1 < |list| && forall a, b :: 0 <= a < b < |list| ==> list[a] != list[b]
    ensures var l := Cut(list, i);
            && l != [] && l[|l| - 1] == list[|list| - 1] && l[0] == (if i == 0 then list[1] else list[0])
            && forall b :: b in l <==> b in list && b != list[i]
  {
    var l := Cut(list, i);
    assert forall j :: 0 <= j < |l| ==> l[j] == list[if j < i then j else j + 1];
    forall b | b in list && b != list[i] ensures b in l {
      var j :| 0 <= j < |list| && list[j] == b;
      assert l[if j < i then j else j - 1] == b;
    }
    forall b | b in l ensures b in list && b != list[i] {
      var j :| 0 <= j < |l| && l[j] == b;
    }
  }

  lemma {:induction false} LessTrans(a: Pages, b: Pages, c: Pages, p: seq<RowID>, q: seq<RowID>)
    requires RowsLess(a, b, p) && RowsLess(b, c, q)
    ensures RowsLess(a, c, p + q) && RowsLess(a, c, q + p)
  {
    hide IsRow, RowAt;
  }

  // ---------- What is left of the list ----------

  /** The list without the pages of a set. */
  ghost function Sieve(list: seq<nat>, gone: set<nat>): seq<nat> {
    if list == [] then [] else (if list[0] in gone then [] else [list[0]]) + Sieve(list[1..], gone)
  }

  lemma {:induction false} SieveNone(list: seq<nat>)
    ensures Sieve(list, {}) == list
  {
    if list != [] { SieveNone(list[1..]); }
  }

  lemma {:induction false} SieveCons(x: nat, s: seq<nat>, gone: set<nat>)
    ensures Sieve([x] + s, gone) == (if x in gone then [] else [x]) + Sieve(s, gone)
  {
    assert ([x] + s)[1..] == s;
  }

  lemma {:induction false} SieveConcat(a: seq<nat>, b: seq<nat>, gone: set<nat>)
    ensures Sieve(a + b, gone) == Sieve(a, gone) + Sieve(b, gone)
  {
    if a == [] {
      assert a + b == b;
    } else {
      assert a + b == [a[0]] + (a[1..] + b);
      SieveCons(a[0], a[1..] + b, gone);
      SieveConcat(a[1..], b, gone);
    }
  }

  lemma {:induction false} SieveSame(list: seq<nat>, a: set<nat>, b: set<nat>)
    requires forall x :: x in list ==> (x in a <==> x in b)
    ensures Sieve(list, a) == Sieve(list, b)
  {
    if list != [] { SieveSame(list[1..], a, b); }
  }

  lemma {:induction false} SieveTwice(list: seq<nat>, a: set<nat>, b: set<nat>)
    ensures Sieve(Sieve(list, a), b) == Sieve(list, a + b)
  {
    if list != [] {
      SieveTwice(list[1..], a, b);
      if list[0] in a {
        assert [] + Sieve(list[1..], a) == Sieve(list[1..], a);
      } else {
        SieveCons(list[0], Sieve(list[1..], a), b);
      }
    }
  }

  lemma {:induction false} CutSieve(list: seq<nat>, i: nat)
    requires i < |list| && forall a, b :: 0 <= a < b < |list| ==> list[a] != list[b]
    ensures Cut(list, i) == Sieve(list, {list[i]})
  {
    hide Sieve;
    var a, b := list[..i], list[i + 1..];
    assert list == a + ([list[i]] + b);
    SieveConcat(a, [list[i]] + b, {list[i]});
    SieveCons(list[i], b, {list[i]});
    SieveSame(a, {list[i]}, {});
    SieveSame(b, {list[i]}, {});
    SieveNone(a);
    SieveNone(b);
  }

  // ---------- Room ----------

  ghost predicate Fits(pages: Pages, list: seq<nat>) {
    forall b :: b in list && b < |pages| ==> Used(pages[b].rows) <= BLOCK_SIZE
  }

  /** A removed row gives its room back. */
  lemma {:induction false} FreeGain(rows: seq<Slot>, k: nat)
    requires k < |rows| && rows[k].Row? && Used(rows) <= BLOCK_SIZE
    ensures FreeSpace(rows[k := Free]) >= FreeSpace(rows) + |rows[k].data|
  {
    DataSizePut(rows, k, Free);
    assert HasFree(rows[k := Free]) by { assert rows[k := Free][k].Free?; }
  }

  lemma {:induction false} SpaceGain(pages: Pages, pages': Pages, list: seq<nat>, i: nat, b: nat, gain: nat)
    requires b in list && i <= Pos(list, b) && (forall i, j :: 0 <= i < j < |list| ==> list[i] != list[j])
    requires SpaceAt(pages', b) >= SpaceAt(pages, b) + gain && forall c :: c in list && c != b ==> SpaceAt(pages', c) == SpaceAt(pages, c)
    ensures SpaceFrom(pages', list, i) >= SpaceFrom(pages, list, i) + gain
    decreases |list| - i
  {
    if i == Pos(list, b) {
      assert list[i] == b;
      SpaceFrame(pages, pages', list, i + 1);
    } else {
      SpaceGain(pages, pages', list, i + 1, b, gain);
      PosIs(list, i);
    }
  }

  lemma {:induction false} RowRoom(pages: Pages, list: seq<nat>, held: set<nat>, r: RowID, i: nat)
    requires IsRow(pages, r) && r.block in list && (forall i, j :: 0 <= i < j < |list| ==> list[i] != list[j]) && Fits(pages, list) && i <= Pos(list, r.block)
    ensures Room(Without(pages, r), list, held, i) >= Room(pages, list, held, i) + |RowAt(pages, r).data|
  {
    hide Used, FreeSpace, SpaceFrom, Usable;
    FreeGain(pages[r.block].rows, r.local);
    SpaceGain(pages, Without(pages, r), list, i, r.block, |RowAt(pages, r).data|);
  }

  /** An emptied page in the list is worth no more than a free block. */
  lemma {:induction false} EmptySpace(rows: seq<Slot>)
    requires Emptied(rows)
    ensures FreeSpace(rows) <= NEW_SPACE
  {
    EmptyData(rows);
    if rows != [] { assert rows[0].Free?; }
  }

  lemma {:induction false} EmptyData(rows: seq<Slot>)
    requires Emptied(rows)
    ensures DataSize(rows) == 0
  {
    if rows != [] {
      assert forall k :: 0 <= k < |rows| - 1 ==> rows[..|rows| - 1][k] == rows[k];
      EmptyData(rows[..|rows| - 1]);
    }
  }

  lemma {:induction false} SpaceCut(pages: Pages, pages': Pages, list: seq<nat>, i: nat, j: nat)
    requires i < |list| && j <= i && (forall a, b :: 0 <= a < b < |list| ==> list[a] != list[b])
    requires forall c :: c in list && c != list[i] ==> SpaceAt(pages', c) == SpaceAt(pages, c)
    ensures SpaceFrom(pages', Cut(list, i), j) == SpaceFrom(pages, list, j) - SpaceAt(pages, list[i])
    decreases i - j
  {
    var l := Cut(list, i);
    if j < i {
      SpaceCut(pages, pages', list, i, j + 1);
      assert l[j] == list[j];
    } else {
      SpaceTail(pages, pages', list, l, i);
    }
  }

  lemma {:induction false} SpaceTail(pages: Pages, pages': Pages, list: seq<nat>, l: seq<nat>, i: nat)
    requires i < |list| && |l| == |list| - 1 && (forall m :: i <= m < |l| ==> l[m] == list[m + 1])
    requires forall m :: i < m < |list| ==> SpaceAt(pages', list[m]) == SpaceAt(pages, list[m])
    ensures SpaceFrom(pages', l, i) == SpaceFrom(pages, list, i + 1)
    decreases |list| - i
  {
    if i < |l| { SpaceTail(pages, pages', list, l, i + 1); }
  }

  lemma {:induction false} PageRoom(pages: Pages, list: seq<nat>, held: set<nat>, repaired: bool, i: nat, j: nat)
    requires i + 1 < |list| && j <= i && (forall a, b :: 0 <= a < b < |list| ==> list[a] != list[b])
    requires list[i] < |pages| && Emptied(pages[list[i]].rows) && list[i] in Usable() && list[i] in held
    requires pages[list[i]].prev < |pages| && pages[list[i]].next < |pages| && pages[list[i]].next != list[i] && pages[list[i]].prev != list[i]
    requires pages[list[i]].prev != pages[list[i]].next
    ensures Room(Unlinked(pages, list[i], repaired), Cut(list, i), held - {list[i]}, j) >= Room(pages, list, held, j)
  {
    hide Used, FreeSpace, SpaceFrom, Usable, Unlinked, Cut;
    UnlinkedPages(pages, list[i], repaired);
    SpaceCut(pages, Unlinked(pages, list[i], repaired), list, i, j);
    EmptySpace(pages[list[i]].rows);
    assert Usable() - (held - {list[i]}) == (Usable() - held) + {list[i]};
  }

  // ---------- Records that are not touched ----------

  /** A record all of whose rows are unchanged is stored as before. */
  lemma {:induction false} StoredKept(pages: Pages, pages': Pages, list: seq<nat>, s: RowID, x: seq<Byte>)
    requires Forward(pages, list) && s.block in list && Stored(pages, s, x)
    requires forall r :: IsRow(pages, r) && r.block in list ==> SameRow(pages, pages', r)
    ensures Stored(pages', s, x)
  {
    hide IsRow, RowAt, DataOf;
    var path :| IsChain(pages, path) && path[0] == s && DataOf(pages, path) == x;
    ChainForward(pages, list, path);
    PathIn(pages, list, path);
    ChainFrame(pages, pages', path);
  }

  /** Another record, when the rows of one record change or go. */
  lemma {:induction false} OtherKept(pages: Pages, pages': Pages, list: seq<nat>, path: seq<RowID>, s: RowID, x: seq<Byte>)
    requires HeapOk(pages, list) && IsChain(pages, path) && Head(pages, list, path[0]) && Head(pages, list, s) && s != path[0] && Stored(pages, s, x)
    requires forall r :: IsRow(pages, r) && r.block in list && r !in path ==> SameRow(pages, pages', r)
    ensures Stored(pages', s, x) && s !in path
  {
    hide IsRow, RowAt, DataOf, Linked, Injective;
    var other :| IsChain(pages, other) && other[0] == s && DataOf(pages, other) == x;
    ChainForward(pages, list, other);
    PathIn(pages, list, other);
    forall i | 0 <= i < |other| ensures other[i] !in path {
      if other[i] in path {
        var j :| 0 <= j < |path| && path[j] == other[i];
        ChainsMeet(pages, list, other, path, i, j);
      }
    }
    ChainFrame(pages, pages', other);
  }

  lemma {:induction false} WrittenStored(pages0: Pages, pages: Pages, list: seq<nat>, path: seq<RowID>, id: nat, data: seq<Byte>, soft: RowID)
    requires Written(pages0, pages, list, path, id, data, soft)
    ensures path != [] && Stored(pages, path[0], data) && IsChain(pages, path) && DataOf(pages, path) == data
  {
  }

  /** What was written over pages that differ from others in pointers only. */
  lemma {:induction false} WrittenFrom(pages0: Pages, pages1: Pages, pages: Pages, list: seq<nat>, path: seq<RowID>, id: nat, data: seq<Byte>, soft: RowID)
    requires SameSlots(pages0, pages1) && Written(pages1, pages, list, path, id, data, soft)
    ensures Written(pages0, pages, list, path, id, data, soft)
  {
    hide IsRow, RowAt, DataOf, IsChain, Onward;
    SlotsSame(pages0, pages1);
  }

  lemma {:induction false} LastPosition(pages: Pages, list: seq<nat>)
    requires Linked(pages, list)
    ensures list != [] && Pos(list, list[|list| - 1]) == |list| - 1
  {
    PosIs(list, |list| - 1);
  }

  lemma {:induction false} NothingAfter(pages: Pages, list: seq<nat>, id: nat)
    requires list != []
    ensures NoIdAfter(pages, list, id, |list| - 1)
  {
  }

  lemma {:induction false} NoIdLater(pages: Pages, list: seq<nat>, id: nat, i: nat, j: nat)
    requires NoIdAfter(pages, list, id, i) && i <= j
    ensures NoIdAfter(pages, list, id, j)
  {
  }

  lemma {:induction false} BlankRows(pages: Pages, held: set<nat>)
    requires BlanksOf(pages, held)
    ensures forall b :: b in Usable() - held ==> b < |pages| && pages[b].rows == []
  {
    hide Usable;
  }

  lemma {:induction false} RowsElsewhere(pages: Pages, free: set<nat>)
    requires forall b :: b in free ==> b < |pages| && pages[b].rows == []
    ensures forall r :: IsRow(pages, r) ==> r.block !in free
  {
  }

  lemma {:induction false} HeldGrown(list: seq<nat>, held: set<nat>, list': seq<nat>, held': set<nat>)
    requires (forall x :: x in list' && x !in list ==> x in Usable() - held) && Usable() - held' <= Usable() - held
    ensures StillHeld(list, held, list', held')
  {
    hide Usable;
    forall b | b in Usable() && b in held && b !in list ensures b in held' { assert b !in Usable() - held; assert b !in Usable() - held'; }
  }

  lemma {:induction false} HeldSieved(list: seq<nat>, held: set<nat>, gone: set<nat>)
    requires forall b :: b in gone ==> b in list
    ensures StillHeld(list, held, Sieve(list, gone), held - gone)
  {
    hide Usable, Sieve;
    forall b ensures b in Sieve(list, gone) <==> b in list && b !in gone { InSieve(list, gone, b); }
  }

  lemma {:induction false} HeldSame(list: seq<nat>, held: set<nat>)
    ensures StillHeld(list, held, list, held)
  {
  }

  /** Pages that leave the list were in it. */
  lemma {:induction false} GoneListed(pages0: Pages, list0: seq<nat>, pages: Pages, path: seq<RowID>, last: nat, gone: set<nat>, held: set<nat>)
    requires Leaves(pages, path, last, gone) && forall i :: 0 <= i < |path| ==> path[i].block in list0
    ensures StillHeld(list0, held, Sieve(list0, gone), held - gone)
  {
    hide StillHeld, Sieve, BlocksOf;
    InBlocks'(path);
    HeldSieved(list0, held, gone);
  }

  lemma {:induction false} HeldTrans(l0: seq<nat>, h0: set<nat>, l1: seq<nat>, h1: set<nat>, l2: seq<nat>, h2: set<nat>)
    requires StillHeld(l0, h0, l1, h1) && StillHeld(l1, h1, l2, h2)
    ensures StillHeld(l0, h0, l2, h2)
  {
    hide Usable;
  }

  // ---------- Pages in front of the record ----------

  /** Pages of the list before position `i` keep their place and their slots, and from each of them on
      there is at least `gain` more room than before. At the end of the list there is no less. */
  ghost predicate Undisturbed(pages: Pages, list: seq<nat>, held: set<nat>, pages': Pages, list': seq<nat>, held': set<nat>, i: nat, gain: nat) {
    |pages'| == |pages| && EndRoom(pages', list', held') >= EndRoom(pages, list, held) &&
    forall a :: a in list && Pos(list, a) < i && a < |pages| ==>
      && a in list' && Pos(list', a) == Pos(list, a) && pages'[a].rows == pages[a].rows
      && Room(pages', list', held', Pos(list, a)) >= Room(pages, list, held, Pos(list, a)) + gain
  }

  lemma {:induction false} UndisturbedSelf(pages: Pages, list: seq<nat>, held: set<nat>, i: nat)
    ensures Undisturbed(pages, list, held, pages, list, held, i, 0)
  {
  }

  lemma {:induction false} UndisturbedTrans(p0: Pages, l0: seq<nat>, h0: set<nat>, p1: Pages, l1: seq<nat>, h1: set<nat>, p2: Pages, l2: seq<nat>, h2: set<nat>,
                                            i: nat, i1: nat, i2: nat, g1: nat, g2: nat)
    requires Undisturbed(p0, l0, h0, p1, l1, h1, i1, g1) && Undisturbed(p1, l1, h1, p2, l2, h2, i2, g2) && i <= i1 && i <= i2
    ensures Undisturbed(p0, l0, h0, p2, l2, h2, i, g1 + g2)
  {
    hide Room, EndRoom, Pos;
  }

  lemma {:induction false} UndisturbedEnd(p: Pages, l: seq<nat>, h: set<nat>, p': Pages, l': seq<nat>, h': set<nat>, i: nat, gain: nat)
    requires Undisturbed(p, l, h, p', l', h', i, gain)
    ensures EndRoom(p', l', h') >= EndRoom(p, l, h)
  {
    hide EndRoom, Room, Pos;
  }

  lemma {:induction false} RowEnd(pages: Pages, list: seq<nat>, held: set<nat>, r: RowID)
    requires IsRow(pages, r) && r.block in list && Fits(pages, list)
    ensures EndRoom(Without(pages, r), list, held) >= EndRoom(pages, list, held)
  {
    hide Used, FreeSpace, SpaceFrom, Usable, EndRoom;
    EndRoomIs(pages, list, held);
    EndRoomIs(Without(pages, r), list, held);
    FreeGain(pages[r.block].rows, r.local);
  }

  lemma {:induction false} PageEnd(pages: Pages, list: seq<nat>, held: set<nat>, repaired: bool, i: nat)
    requires i + 1 < |list| && (forall a, b :: 0 <= a < b < |list| ==> list[a] != list[b])
    requires list[i] < |pages| && list[i] in Usable() && list[i] in held
    requires pages[list[i]].prev < |pages| && pages[list[i]].next < |pages| && pages[list[i]].next != list[i] && pages[list[i]].prev != list[i]
    requires pages[list[i]].prev != pages[list[i]].next
    ensures EndRoom(Unlinked(pages, list[i], repaired), Cut(list, i), held - {list[i]}) >= EndRoom(pages, list, held)
  {
    hide Used, FreeSpace, SpaceFrom, Usable, Unlinked, EndRoom, Cut;
    CutIs(list, i);
    UnlinkedPages(pages, list[i], repaired);
    EndRoomIs(pages, list, held);
    EndRoomIs(Unlinked(pages, list[i], repaired), Cut(list, i), held - {list[i]});
    assert Usable() - (held - {list[i]}) == (Usable() - held) + {list[i]};
  }

  lemma {:induction false} RowUndisturbed(pages: Pages, list: seq<nat>, held: set<nat>, r: RowID)
    requires IsRow(pages, r) && r.block in list && (forall i, j :: 0 <= i < j < |list| ==> list[i] != list[j]) && Fits(pages, list)
    ensures Undisturbed(pages, list, held, Without(pages, r), list, held, Pos(list, r.block), |RowAt(pages, r).data|)
  {
    hide Room, EndRoom, Fits, IsRow, RowAt, Pos;
    WithoutPages(pages, r);
    RowEnd(pages, list, held, r);
    forall a | a in list && Pos(list, a) < Pos(list, r.block)
      ensures Room(Without(pages, r), list, held, Pos(list, a)) >= Room(pages, list, held, Pos(list, a)) + |RowAt(pages, r).data|
    {
      RowRoom(pages, list, held, r, Pos(list, a));
    }
  }

  lemma {:induction false} PageUndisturbed(pages: Pages, list: seq<nat>, held: set<nat>, repaired: bool, i: nat)
    requires i + 1 < |list| && (forall a, b :: 0 <= a < b < |list| ==> list[a] != list[b])
    requires list[i] < |pages| && Emptied(pages[list[i]].rows) && list[i] in Usable() && list[i] in held
    requires pages[list[i]].prev < |pages| && pages[list[i]].next < |pages| && pages[list[i]].next != list[i] && pages[list[i]].prev != list[i]
    requires pages[list[i]].prev != pages[list[i]].next
    ensures Undisturbed(pages, list, held, Unlinked(pages, list[i], repaired), Cut(list, i), held - {list[i]}, i, 0)
  {
    hide Room, EndRoom, Emptied, Usable, Cut, Unlinked, Pos;
    UnlinkedPages(pages, list[i], repaired);
    PageEnd(pages, list, held, repaired, i);
    var pages', list' := Unlinked(pages, list[i], repaired), Cut(list, i);
    PosIs(list, i);
    forall a | a in list && Pos(list, a) < i && a < |pages|
      ensures a in list' && Pos(list', a) == Pos(list, a) && pages'[a].rows == pages[a].rows
      ensures Room(pages', list', held - {list[i]}, Pos(list, a)) >= Room(pages, list, held, Pos(list, a))
    {
      PosCut(list, i, a);
      PageRoom(pages, list, held, repaired, i, Pos(list, a));
    }
  }

  // ---------- The rows of a record ----------

  ghost function BlocksOf(path: seq<RowID>): set<nat> {
    if path == [] then {} else {path[0].block} + BlocksOf(path[1..])
  }

  lemma {:induction false} InBlocks'(path: seq<RowID>)
    ensures forall i :: 0 <= i < |path| ==> path[i].block in BlocksOf(path)
    ensures forall b :: b in BlocksOf(path) ==> exists i :: 0 <= i < |path| && path[i].block == b
  {
    if path != [] {
      var rest := path[1..];
      InBlocks'(rest);
      forall i | 0 <= i < |path| ensures path[i].block in BlocksOf(path) { if i > 0 { assert rest[i - 1].block in BlocksOf(rest); } }
      forall b | b in BlocksOf(path) ensures exists i :: 0 <= i < |path| && path[i].block == b {
        if b == path[0].block {
          assert path[0].block == b;
        } else {
          var j :| 0 <= j < |rest| && rest[j].block == b;
          assert path[j + 1].block == b;
        }
      }
    }
  }

  /** A chain without its first row. */
  lemma {:induction false} ChainRest(pages: Pages, list: seq<nat>, path: seq<RowID>)
    requires IsChain(pages, path) && Onward(pages, list, path)
    ensures path != [] && IsRow(pages, path[0]) && path[0].block in list && path[0].block in BlocksOf(path)
    ensures RowAt(pages, path[0]).chain.block == 0 ==> path == [path[0]]
    ensures RowAt(pages, path[0]).chain.block != 0 ==>
              && |path| > 1 && RowAt(pages, path[0]).chain == path[1] && IsChain(pages, path[1..]) && Onward(pages, list, path[1..])
              && path[0] !in path[1..] && path[0].block !in BlocksOf(path[1..]) && Pos(list, path[0].block) < Pos(list, path[1].block)
              && path == [path[0]] + path[1..] && path[1..][0] == path[1]
  {
    hide IsChain, Onward, IsRow, RowAt, Pos;
    ChainHead(pages, list, path);
    InBlocks'(path);
    if |path| > 1 {
      RestChain(pages, path);
      RestOnward(pages, list, path);
    }
  }

  lemma {:induction false} ChainHead(pages: Pages, list: seq<nat>, path: seq<RowID>)
    requires IsChain(pages, path) && Onward(pages, list, path)
    ensures path != [] && IsRow(pages, path[0]) && path[0].block in list
    ensures |path| > 1 <==> RowAt(pages, path[0]).chain.block != 0
    ensures |path| > 1 ==> RowAt(pages, path[0]).chain == path[1] && Pos(list, path[0].block) < Pos(list, path[1].block)
  {
    if |path| > 1 { assert ChainedTo(pages, path[0], path[1]); }
  }

  lemma {:induction false} RestChain(pages: Pages, path: seq<RowID>)
    requires IsChain(pages, path) && |path| > 1
    ensures IsChain(pages, path[1..])
  {
    var rest := path[1..];
    forall i | 0 < i < |rest| ensures ChainedTo(pages, rest[i - 1], rest[i]) { assert ChainedTo(pages, path[i], path[i + 1]); }
  }

  lemma {:induction false} RestOnward(pages: Pages, list: seq<nat>, path: seq<RowID>)
    requires Onward(pages, list, path) && |path| > 1
    ensures Onward(pages, list, path[1..]) && path[0] !in path[1..] && path[0].block !in BlocksOf(path[1..])
    ensures path == [path[0]] + path[1..] && path[1..][0] == path[1]
  {
    hide Pos, BlocksOf, IsRow, RowAt;
    var rest := path[1..];
    assert forall i :: 0 <= i < |rest| ==> rest[i] == path[i + 1];
    InBlocks'(rest);
    assert forall i :: 0 <= i < |rest| ==> rest[i].block != path[0].block;
  }

  lemma {:induction false} DataCons(pages: Pages, r: RowID, rest: seq<RowID>)
    requires IsRow(pages, r) && forall i :: 0 <= i < |rest| ==> IsRow(pages, rest[i])
    ensures DataOf(pages, [r] + rest) == RowAt(pages, r).data + DataOf(pages, rest)
  {
    hide IsRow, RowAt;
    if rest == [] {
      DataOne(pages, r);
      assert [r] + rest == [r];
    } else {
      var l := |rest| - 1;
      var front, x := rest[..l], rest[l];
      assert rest == front + [x];
      DataCons(pages, r, front);
      DataSnoc(pages, front, x);
      assert forall i :: 0 <= i < |[r] + front| ==> IsRow(pages, ([r] + front)[i]);
      DataSnoc(pages, [r] + front, x);
      assert [r] + rest == ([r] + front) + [x];
      Concat(RowAt(pages, r).data, DataOf(pages, front), RowAt(pages, x).data);
    }
  }

  lemma {:induction false} Concat<T>(a: seq<T>, b: seq<T>, c: seq<T>)
    ensures a + b + c == a + (b + c)
  {
  }

  lemma {:induction false} InSieve(list: seq<nat>, gone: set<nat>, b: nat)
    ensures b in Sieve(list, gone) <==> b in list && b !in gone
  {
    if list != [] { InSieve(list[1..], gone, b); }
  }

  /** Which pages leave the list with a record: those of its rows that are empty now, but never the last page. */
  ghost predicate Leaves(pages: Pages, path: seq<RowID>, last: nat, gone: set<nat>) {
    forall b :: b in gone <==> b in BlocksOf(path) && b != last && b < |pages| && Emptied(pages[b].rows)
  }

  /** The page holds rows of `path` and no others. */
  ghost predicate Deserted(pages: Pages, path: seq<RowID>, b: nat) {
    (exists i :: 0 <= i < |path| && path[i].block == b) && forall k: nat :: IsRow(pages, RowID(b, k)) ==> RowID(b, k) in path
  }

  /** In terms of the pages before, the pages that leave are those that only held rows of the record. */
  lemma {:induction false} LeavesIs(pages: Pages, pages': Pages, path: seq<RowID>, last: nat, gone: set<nat>)
    requires RowsLess(pages, pages', path) && Leaves(pages', path, last, gone) && forall i :: 0 <= i < |path| ==> IsRow(pages, path[i])
    ensures forall b :: b in gone <==> b != last && Deserted(pages, path, b)
  {
    hide BlocksOf, RowAt;
    InBlocks'(path);
    forall b: nat ensures b in gone <==> b != last && Deserted(pages, path, b) {
      if b in BlocksOf(path) {
        assert Emptied(pages'[b].rows) <==> forall k: nat :: !IsRow(pages', RowID(b, k)) by {
          assert forall k: nat :: IsRow(pages', RowID(b, k)) <==> k < |pages'[b].rows| && pages'[b].rows[k].Row?;
        }
      }
    }
  }

  predicate HasOther(pages: Pages, r: RowID) {
    r.block < |pages| && exists k :: 0 <= k < |pages[r.block].rows| && k != r.local && pages[r.block].rows[k].Row?
  }

  /** Where a removal may empty a page other than the last, the pointer back of that page is exact. */
  ghost predicate Leavable(pages: Pages, list: seq<nat>, path: seq<RowID>, last: nat) {
    forall i :: 0 <= i < |path| ==> MayLeave(pages, list, path[i], last)
  }

  ghost predicate MayLeave(pages: Pages, list: seq<nat>, r: RowID, last: nat) {
    r.block !in Lost(pages, list) || r.block == last || HasOther(pages, r)
  }

  lemma {:induction false} LeavableRest(pages: Pages, list: seq<nat>, path: seq<RowID>, last: nat)
    requires Leavable(pages, list, path, last) && path != []
    ensures Leavable(pages, list, path[1..], last) && MayLeave(pages, list, path[0], last)
  {
    hide MayLeave;
    assert forall i :: 0 <= i < |path| - 1 ==> path[1..][i] == path[i + 1];
  }

  /** A page with a row of another record is not emptied. */
  lemma {:induction false} OtherStays(pages: Pages, pages': Pages, path: seq<RowID>)
    requires path != [] && HasOther(pages, path[0]) && RowsLess(pages, pages', path) && path[0].block !in BlocksOf(path[1..])
    ensures path[0].block < |pages'| && !Emptied(pages'[path[0].block].rows)
  {
    var r := path[0];
    var k :| 0 <= k < |pages[r.block].rows| && k != r.local && pages[r.block].rows[k].Row?;
    var s := RowID(r.block, k);
    InBlocks'(path[1..]);
    NotInPath(path, s);
    assert IsRow(pages, s) && s !in path;
    assert IsRow(pages', s);
  }

  lemma {:induction false} LeavesExactly(pages: Pages, list: seq<nat>, path: seq<RowID>, last: nat, pages': Pages, list': seq<nat>)
    requires path != [] && MayLeave(pages, list, path[0], last) && RowsLess(pages, pages', path) && path[0].block !in BlocksOf(path[1..])
    requires path[0].block < |pages'| && Emptied(pages'[path[0].block].rows) && Lost(pages', list') <= Lost(pages, list)
    ensures path[0].block == last || path[0].block !in Lost(pages', list')
  {
    hide Lost, HasOther, RowsLess, Emptied;
    if HasOther(pages, path[0]) { OtherStays(pages, pages', path); }
  }

  lemma {:induction false} BlanksKept(pages: Pages, pages': Pages, held: set<nat>, b: nat)
    requires b in held && |pages'| == |pages| && forall c :: 0 <= c < |pages| && c != b ==> pages'[c] == pages[c]
    ensures BlanksOf(pages, held) ==> BlanksOf(pages', held)
  {
    hide Usable, Blank;
  }

  /** The first row goes after the rest: what holds of the rest holds of the whole record. */
  lemma {:induction false} FirstGoes(pages0: Pages, list0: seq<nat>, held0: set<nat>, p1: Pages, l1: seq<nat>, h1: set<nat>, path: seq<RowID>, i1: nat)
    requires path != [] && (forall i :: 0 <= i < |path| ==> IsRow(pages0, path[i])) && IsRow(p1, path[0]) && path[0].block in l1 && path[0].block in h1
    requires RowAt(p1, path[0]) == RowAt(pages0, path[0]) && Pos(l1, path[0].block) == Pos(list0, path[0].block) <= i1
    requires RowsLess(pages0, p1, path[1..]) && Undisturbed(pages0, list0, held0, p1, l1, h1, i1, |DataOf(pages0, path[1..])|)
    requires Fits(p1, l1) && (forall i, j :: 0 <= i < j < |l1| ==> l1[i] != l1[j])
    ensures var p2 := Without(p1, path[0]);
            && RowsLess(pages0, p2, path) && Undisturbed(pages0, list0, held0, p2, l1, h1, Pos(list0, path[0].block), |DataOf(pages0, path)|)
            && |p2| == |p1| && (BlanksOf(p1, h1) ==> BlanksOf(p2, h1)) && forall c :: 0 <= c < |p1| && c != path[0].block ==> p2[c] == p1[c]
  {
    hide RowsLess, Undisturbed, BlanksOf, IsRow, RowAt, DataOf, Pos, Fits, Without;
    var r, p2, i, rest := path[0], Without(p1, path[0]), Pos(list0, path[0].block), path[1..];
    RowUndisturbed(p1, l1, h1, r);
    WithoutPages(p1, r);
    WithoutRows(p1, r);
    UndisturbedTrans(pages0, list0, held0, p1, l1, h1, p2, l1, h1, i, i1, i, |DataOf(pages0, rest)|, |RowAt(p1, r).data|);
    LessTrans(pages0, p1, p2, rest, [r]);
    assert path == [r] + rest;
    DataCons(pages0, r, rest);
    BlanksKept(p1, p2, h1, r.block);
  }

  /** After the rest of the record is gone, its first row is still where it was. */
  lemma {:induction false} RestGone(pages: Pages, list: seq<nat>, held: set<nat>, path: seq<RowID>, pages1: Pages, list1: seq<nat>, held1: set<nat>, gain: nat)
    requires |path| > 1 && IsRow(pages, path[0]) && path[0].block in list && path[0] !in path[1..] && RowsLess(pages, pages1, path[1..])
    requires Undisturbed(pages, list, held, pages1, list1, held1, Pos(list, path[1].block), gain) && Pos(list, path[0].block) < Pos(list, path[1].block)
    ensures IsRow(pages1, path[0]) && RowAt(pages1, path[0]) == RowAt(pages, path[0]) && path[0].block in list1
    ensures Pos(list1, path[0].block) == Pos(list, path[0].block)
  {
    hide Room, EndRoom, Pos;
  }

  lemma {:induction false} LeavesSame(pages: Pages, pages': Pages, path: seq<RowID>, last: nat, gone: set<nat>)
    requires path != [] && Leaves(pages, path[1..], last, gone) && path[0].block !in BlocksOf(path[1..])
    requires |pages'| == |pages| && forall c :: 0 <= c < |pages| && c != path[0].block ==> pages'[c] == pages[c]
    ensures Leaves(pages', path[1..], last, gone)
  {
    hide Emptied;
  }

  lemma {:induction false} LeavesMore(pages: Pages, pages': Pages, path: seq<RowID>, last: nat, gone: set<nat>)
    requires path != [] && Leaves(pages, path[1..], last, gone) && |pages'| == |pages| && path[0].block < |pages|
    requires forall c :: 0 <= c < |pages| ==> (Emptied(pages'[c].rows) <==> Emptied(pages[c].rows))
    ensures Leaves(pages', path, last, gone + if Emptied(pages[path[0].block].rows) && path[0].block != last then {path[0].block} else {})
  {
    hide Emptied;
  }

  /** A freed page can be used again, as `AppendExact` says, only where clearing also drops its
      pointer to the next page: the original leaves it, and it is never zero. */
  lemma {:induction false} FreedBlank(pages: Pages, list: seq<nat>, i: nat, repaired: bool)
    requires Linked(pages, list) && i + 1 < |list| && list[i] < |pages| && BackAt(pages, list, i)
    ensures list[i] < |pages| && pages[list[i]].prev < |pages| && pages[list[i]].next < |pages| && pages[list[i]].next != list[i] && pages[list[i]].prev != list[i]
    ensures Blank(Unlinked(pages, list[i], repaired)[list[i]]) <==> repaired
  {
    hide Linked;
    UnlinkNeighbours(pages, list, i);
    UnlinkedPages(pages, list[i], repaired);
    InList(pages, list);
  }

  /** Nothing is left that leads to a removed record. */
  lemma {:induction false} NoneLeads(pages: Pages, pages': Pages, list: seq<nat>, list': seq<nat>, path: seq<RowID>)
    requires path != [] && Head(pages, list, path[0]) && RowsLess(pages, pages', path) && forall b :: b in list' ==> b in list
    ensures forall s: RowID :: s.block in list' ==> !ChainedTo(pages', s, path[0])
  {
    hide IsRow, RowAt;
    var r := path[0];
    forall s: RowID | s.block in list' ensures !ChainedTo(pages', s, r) {
      assert ChainedTo(pages', s, r) ==> ChainedTo(pages, s, r);
    }
  }

  /** Rows are left only on pages that are still in the list. */
  lemma {:induction false} RowsInList(pages: Pages, list: seq<nat>, path: seq<RowID>, last: nat, gone: set<nat>)
    requires Leaves(pages, path, last, gone)
    ensures forall r :: IsRow(pages, r) && r.block in list ==> r.block in Sieve(list, gone)
    ensures forall b :: b in Sieve(list, gone) ==> b in list
  {
    hide Sieve;
    forall b ensures b in Sieve(list, gone) <==> b in list && b !in gone { InSieve(list, gone, b); }
  }

  // ---------- Updating ----------

  /** The page with row `k` softly removed, where the row before it has a small id. */
  lemma {:induction false} SoftRows(pages: Pages, r: RowID)
    requires IsRow(pages, r) && (r.local == 0 || IdOf(pages[r.block].rows[r.local - 1]) < 0x1_0000)
    requires forall k :: 0 <= k < |pages[r.block].rows| && pages[r.block].rows[k].Row? ==> pages[r.block].rows[k].id != 0
    ensures var v := SoftView(pages[r.block], r.local);
            var pages' := pages[r.block := v];
            && v.rows == pages[r.block].rows[r.local := Row(RowAt(pages, r).id, [], NO_ROW)]
            && RowsBut(pages, pages', r) && IsRow(pages', r) && RowAt(pages', r) == Row(RowAt(pages, r).id, [], NO_ROW)
            && pages'[r.block].prev == if r.local == 0 then 0 else pages[r.block].prev
  {
    SoftExact(pages[r.block], r.local);
  }

  /** Each later row of a record shares its page with a row of another record, or lies on the last page. */
  ghost predicate Crowded(pages: Pages, path: seq<RowID>, last: nat) {
    forall i :: 0 < i < |path| ==> path[i].block == last || HasOther(pages, path[i])
  }

  /** Then no page leaves the list with the rows. */
  lemma {:induction false} NothingLeaves(pages: Pages, pages': Pages, list: seq<nat>, path: seq<RowID>, last: nat, gone: set<nat>)
    requires Onward(pages, list, path) && path != [] && RowsLess(pages, pages', path[1..]) && Leaves(pages', path[1..], last, gone) && Crowded(pages, path, last)
    ensures gone == {}
  {
    hide Pos, RowAt;
    var rest := path[1..];
    InBlocks'(rest);
    forall b | b in BlocksOf(rest) && b != last && b < |pages'| ensures !Emptied(pages'[b].rows) {
      var i :| 0 <= i < |rest| && rest[i].block == b;
      assert rest[i] == path[i + 1];
      var k :| 0 <= k < |pages[b].rows| && k != rest[i].local && pages[b].rows[k].Row?;
      OtherRow(pages, list, path, i + 1, RowID(b, k));
      assert IsRow(pages', RowID(b, k));
    }
  }

  lemma {:induction false} OtherRow(pages: Pages, list: seq<nat>, path: seq<RowID>, i: nat, s: RowID)
    requires Onward(pages, list, path) && 0 < i < |path| && s.block == path[i].block && s != path[i]
    ensures s !in path[1..]
  {
    var rest := path[1..];
    forall j | 0 <= j < |rest| ensures rest[j] != s { assert rest[j] == path[j + 1]; }
  }

  /** Soft removal of the first row of a record, after the rest of it is gone. */
  lemma {:induction false} SoftOk(pages: Pages, pages': Pages, list: seq<nat>, r: RowID, t: RowID)
    requires Linked(pages, list) && Injective(pages, list) && ForwardBut(pages, list, t) && (t.block != 0 ==> ChainedTo(pages, r, t)) && r.block in list
    requires IsRow(pages, r) && RowsBut(pages, pages', r) && IsRow(pages', r) && RowAt(pages', r) == Row(RowAt(pages, r).id, [], NO_ROW)
    ensures HeapOk(pages', list)
  {
    hide IsRow, RowAt, Pos, Linked;
    ButLinked(pages, pages', list, r);
    forall s | IsRow(pages', s) && s.block in list ensures ChainsOn(pages', list, s) {
      if s != r {
        assert ChainedTo(pages, s, t) ==> s == r;
        assert ChainsOn(pages, list, s);
      }
    }
    forall x: RowID, y: RowID, z: RowID | x.block in list && y.block in list && ChainedTo(pages', x, z) && ChainedTo(pages', y, z) ensures x == y {
      assert ChainedTo(pages, x, z) && ChainedTo(pages, y, z);
    }
  }

  /** The pages whose pointer back a soft removal loses: the page itself, for its first row, unless it is the
      first page of the list. */
  function Spoilt(r: RowID, first: nat): set<nat> {
    if r.local == 0 && r.block != first then {r.block} else {}
  }

  lemma {:induction false} SoftBack(pages: Pages, pages': Pages, list: seq<nat>, r: RowID)
    requires Linked(pages, list) && r.block in list && |pages'| == |pages|
    requires forall b :: 0 <= b < |pages| ==> pages'[b].prev == if b == r.block && r.local == 0 then 0 else pages[b].prev
    ensures list != [] && Lost(pages', list) == Lost(pages, list) + Spoilt(r, list[0])
  {
    hide Lost;
    var i := Pos(list, r.block);
    InList(pages, list);
    DistinctList(pages, list);
    if r.block == list[0] { PosIs(list, 0); }
    forall j | 0 <= j < |list| ensures list[j] in Lost(pages', list) <==> list[j] in Lost(pages, list) || (j == i && r.local == 0 && i > 0) {
      LostAt(pages, list, j);
      LostAt(pages', list, j);
      assert LinkAt(pages, list, j);
      if j != i { assert list[j] != list[i]; }
    }
    LostIn(pages, list);
    LostIn(pages', list);
    forall x ensures x in Lost(pages', list) <==> x in Lost(pages, list) + Spoilt(r, list[0]) {
      if x in list { var j :| 0 <= j < |list| && list[j] == x; }
    }
  }

  lemma {:induction false} SoftState(pages: Pages, pages': Pages, list: seq<nat>, first: nat, last: nat, held: set<nat>, fine: set<nat>, fine': set<nat>, blank: bool,
                                     r: RowID, t: RowID)
    requires Removing(pages, list, first, last, held, fine, blank, t) && (t.block != 0 ==> ChainedTo(pages, r, t)) && r.block in list
    requires IsRow(pages, r) && RowsBut(pages, pages', r) && IsRow(pages', r) && RowAt(pages', r) == Row(RowAt(pages, r).id, [], NO_ROW)
    requires |pages'| == |pages| && fine' >= fine - {r.block} && forall b :: 0 <= b < |pages| && b != r.block ==> pages'[b] == pages[b]
    requires forall b :: 0 <= b < |pages| ==> pages'[b].prev == if b == r.block && r.local == 0 then 0 else pages[b].prev
    ensures HeapState(pages', list, first, last, held, fine', r.block, blank)
    ensures BlanksOf(pages, held) ==> BlanksOf(pages', held)
    ensures Lost(pages', list) == Lost(pages, list) + Spoilt(r, first)
  {
    hide Linked, Lost, Injective, ForwardBut, HeapOk, RowsBut, IsRow, RowAt;
    RemovingFacts(pages, list, first, last, held, fine, blank, t);
    SoftOk(pages, pages', list, r, t);
    SoftBack(pages, pages', list, r);
  }

  /** Soft removal changes the room by what it changes on its page. */
  lemma {:induction false} SoftRoom(pages: Pages, pages': Pages, list: seq<nat>, held: set<nat>, r: RowID)
    requires r.block in list && r.block < |pages| && (forall i, j :: 0 <= i < j < |list| ==> list[i] != list[j]) && |pages'| == |pages|
    requires forall b :: 0 <= b < |pages| && b != r.block ==> pages'[b] == pages[b]
    ensures Room(pages', list, held, Pos(list, r.block)) + SpaceAt(pages, r.block) == Room(pages, list, held, Pos(list, r.block)) + SpaceAt(pages', r.block)
  {
    hide Used, FreeSpace, Usable;
    forall j | Pos(list, r.block) < j < |list| ensures SpaceAt(pages', list[j]) == SpaceAt(pages, list[j]) { }
    SpaceFrame(pages, pages', list, Pos(list, r.block) + 1);
  }

  /** All rows with the id of a record belong to it. */
  ghost predicate OnlyRecord(pages: Pages, list: seq<nat>, path: seq<RowID>, id: nat) {
    forall s :: IsRow(pages, s) && s.block in list && RowAt(pages, s).id == id ==> s in path
  }

  lemma {:induction false} NoneLeft(pages: Pages, list: seq<nat>, path: seq<RowID>, id: nat, pages1: Pages, pages2: Pages, list2: seq<nat>, r: RowID)
    requires OnlyRecord(pages, list, path, id) && path != [] && path[0] == r && RowsLess(pages, pages1, path[1..]) && RowsBut(pages1, pages2, r)
    requires (forall b :: b in list2 ==> b in list) && (forall i, j :: 0 <= i < j < |list2| ==> list2[i] != list2[j])
    ensures NoIdAfter(pages2, list2, id, Pos(list2, r.block))
  {
    hide Pos;
    forall j | Pos(list2, r.block) < j < |list2| && list2[j] < |pages2| ensures !HasId(pages2[list2[j]].rows, id) {
      PosIs(list2, j);
      forall k: nat | k < |pages2[list2[j]].rows| && pages2[list2[j]].rows[k].Row? ensures pages2[list2[j]].rows[k].id != id {
        var s := RowID(list2[j], k);
        assert IsRow(pages2, s) && s != r;
        assert IsRow(pages1, s) && RowAt(pages1, s) == RowAt(pages2, s);
        assert IsRow(pages, s) && s !in path[1..];
        NotInPath(path, s);
      }
    }
  }

  lemma {:induction false} NotInPath(path: seq<RowID>, s: RowID)
    requires path != []
    ensures s in path <==> s == path[0] || s in path[1..]
  {
    assert path == [path[0]] + path[1..];
  }
}
