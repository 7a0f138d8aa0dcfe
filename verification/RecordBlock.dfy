/** The record page in place: rows grow up from the start of a block, headers down from its end. */
module RecordBlocks {
  import opened Results
  import opened RowIDs
  import opened DataBlocks
  import opened RecordPages
  import opened PageViews

  // ---------- Effects on the parts of a page ----------

  /** Utilization, number of headers and the pointers to other pages. */
  function Tail(d: seq<Byte>): seq<Byte>
    requires |d| == BLOCK_SIZE
  {
    d[POS_PREV_BLOCK..]
  }

  /** Every row and gap but that of header `x` reads as in `rows`. */
  ghost predicate Kept(zone: seq<Byte>, hs: seq<Header>, rows: seq<seq<Byte>>, x: int) {
    |rows| == |hs| &&
    forall k :: 0 <= k < |hs| && hs[k].size > 0 && k != x ==>
      hs[k].start + hs[k].size <= |zone| && zone[hs[k].start..hs[k].start + hs[k].size] == rows[k]
  }

  lemma {:induction false} KeptSame(zone: seq<Byte>, hs: seq<Header>, zone': seq<Byte>, hs': seq<Header>, rows: seq<seq<Byte>>)
    requires Kept(zone, hs, rows, -1) && Kept(zone', hs', rows, -1) && |hs| == |hs'|
    requires forall k :: 0 <= k < |hs'| && hs'[k].size > 0 ==> hs'[k].size == hs[k].size
    ensures SameRows(zone, hs, zone', hs')
  {
  }

  lemma {:induction false} SlidApart(zone: seq<Byte>, dst: nat, src: nat, count: nat, p: nat, size: nat)
    requires count > 0 ==> dst <= src && src + count <= |zone|
    requires p + size <= |zone| && (count > 0 ==> p + size <= dst || dst + count <= p)
    ensures Slid(zone, dst, src, count)[p..p + size] == zone[p..p + size]
  {
  }

  lemma {:induction false} SlidOnto(zone: seq<Byte>, dst: nat, src: nat, count: nat)
    requires count > 0 && dst <= src && src + count <= |zone|
    ensures Slid(zone, dst, src, count)[dst..dst + count] == zone[src..src + count]
  {
  }

  /** Where the row that moves next goes, nothing else lives any more. */
  lemma {:induction false} MoveApart(hs0: seq<Header>, hs: seq<Header>, order: seq<nat>, i: nat, base: int, k: nat, m: nat)
    requires Orders(order, |hs0|) && i < k < |order| && Layout(hs0, order, i, base) && Shifter(hs0[order[i]])
    requires Moved(hs0, hs, order, i, k) && hs[order[k]].size > 0
    requires m < |order| && m != i && m != k && hs[order[m]].size > 0
    ensures var n, ptr := hs[order[k]], Target(hs0, order, i, k);
            hs[order[m]].start + hs[order[m]].size <= ptr || ptr + n.size <= hs[order[m]].start
  {
    hide Target, OSum, Layout;
    ShiftDown(hs0, order, i, base, k);
    if m < i {
      StayedBelow(hs0, order, i, base, k, m);
    } else if m < k {
      MovedBelow(hs0, order, i, k, m);
    } else {
      LayoutApart(hs0, order, i, base, k, m);
    }
  }

  lemma {:induction false} MoveKept(zone: seq<Byte>, hs0: seq<Header>, hs: seq<Header>, order: seq<nat>, i: nat, k: nat, rows: seq<seq<Byte>>)
    requires Orders(order, |hs0|) && i < k < |order| && Layout(hs0, order, i, |zone|) && Shifter(hs0[order[i]])
    requires Moved(hs0, hs, order, i, k) && Kept(zone, hs, rows, order[i])
    ensures var n, ptr := hs[order[k]], Target(hs0, order, i, k);
            && (n.size > 0 ==> ptr <= n.start && n.start + n.size <= |zone|)
            && Kept(Slid(zone, ptr, n.start, n.size), hs[order[k] := n.(start := ptr)], rows, order[i])
            && Moved(hs0, hs[order[k] := n.(start := ptr)], order, i, k + 1)
            && Target(hs0, order, i, k + 1) == ptr + n.size
  {
    hide Layout, Target, OSum;
    var n, ptr := hs[order[k]], Target(hs0, order, i, k);
    TargetStep(hs0, order, i, k);
    if n.size > 0 {
      MoveBounds(hs0, hs, order, i, |zone|, k);
      SlidOnto(zone, ptr, n.start, n.size);
    }
    var zone', hs' := Slid(zone, ptr, n.start, n.size), hs[order[k] := n.(start := ptr)];
    forall j | 0 <= j < |hs| && hs'[j].size > 0 && j != order[i]
      ensures hs'[j].start + hs'[j].size <= |zone'| && zone'[hs'[j].start..hs'[j].start + hs'[j].size] == rows[j]
    {
      var m := Place(order, |hs0|, j);
      if m != k {
        if n.size > 0 { MoveApart(hs0, hs, order, i, |zone|, k, m); }
        SlidApart(zone, ptr, n.start, n.size, hs[j].start, hs[j].size);
      }
    }
  }

  lemma {:induction false} MoveBounds(hs0: seq<Header>, hs: seq<Header>, order: seq<nat>, i: nat, base: int, k: nat)
    requires Orders(order, |hs0|) && i < k < |order| && Layout(hs0, order, i, base) && Shifter(hs0[order[i]])
    requires Moved(hs0, hs, order, i, k) && hs[order[k]].size > 0
    ensures Target(hs0, order, i, k) <= hs[order[k]].start && hs[order[k]].start + hs[order[k]].size <= base
  {
    ShiftDown(hs0, order, i, base, k);
  }

  lemma {:induction false} TargetStep(hs: seq<Header>, order: seq<nat>, i: nat, k: nat)
    requires Orders(order, |hs|) && i < k < |order|
    ensures Target(hs, order, i, k + 1) == Target(hs, order, i, k) + hs[order[k]].size
  {
  }

  lemma {:induction false} TargetFirst(hs: seq<Header>, order: seq<nat>, i: nat)
    requires Orders(order, |hs|) && i < |order|
    ensures Target(hs, order, i, i + 1) == hs[order[i]].start
  {
  }

  lemma {:induction false} KeptBut(zone: seq<Byte>, hs: seq<Header>, rows: seq<seq<Byte>>, x: nat)
    requires Kept(zone, hs, rows, -1)
    ensures Kept(zone, hs, rows, x)
  {
  }

  lemma {:induction false} KeptZero(zone: seq<Byte>, hs: seq<Header>, rows: seq<seq<Byte>>, x: nat, end: nat)
    requires Kept(zone, hs, rows, x) && x < |hs|
    ensures Kept(zone, hs[x := hs[x].(size := 0, start := end)], rows, -1)
  {
  }

  lemma {:induction false} ClosedIs(hs: seq<Header>, hs': seq<Header>, order: seq<nat>, i: nat)
    requires Orders(order, |hs|) && i < |order| && Closed(hs, hs', order, i)
    requires hs'[order[i]] == hs[order[i]].(size := 0, start := hs'[order[i]].start)
    ensures forall k :: 0 <= k < |hs| ==> hs'[k] == hs[k].(start := hs'[k].start, size := if k == order[i] then 0 else hs[k].size)
  {
    hide Target;
    forall k | 0 <= k < |hs| ensures hs'[k] == hs[k].(start := hs'[k].start, size := if k == order[i] then 0 else hs[k].size) {
      var m := Place(order, |hs|, k);
    }
  }

  class RecordBlock {
    const block: DataBlock

    constructor (block: DataBlock)
      ensures this.block == block
    {
      this.block := block;
    }

    /** A page as it should be, but for row `q` of former size `g` that may be softly removed. */
    ghost predicate Sound(q: nat, g: nat)
      reads block.data
    {
      block.data.Length == BLOCK_SIZE && PageOk(block.data[..], q, g)
    }

    ghost predicate Valid()
      reads block.data
    {
      Sound(0, 0)
    }

    ghost predicate Readable()
      reads block.data
    {
      block.data.Length == BLOCK_SIZE && Viewed(block.data[..])
    }

    ghost function Page(): PageView
      requires Readable()
      reads block.data
    {
      View(block.data[..])
    }

    /** The headers on the page, by local id. */
    method ParseHeaders() returns (hs: seq<Header>)
      requires block.data.Length == BLOCK_SIZE && Paged(block.data[..])
      ensures hs == Headers(block.data[..])
    {
      var totalHeaders := block.ReadUint16(POS_TOTAL_HEADERS);
      hs := [];
      for localID := 0 to totalHeaders
        invariant hs == Headers(block.data[..])[..localID]
      {
        var p := POS_FIRST_HEADER - localID * HEADER_SIZE;
        var h := Header(block.ReadUint32(p), block.ReadUint16(p + 4), block.ReadUint16(p + 6),
                        RowID(block.ReadUint16(p + 8), block.ReadUint16(p + 10)));
        assert h == HeaderAt(block.data[..], localID);
        hs := hs + [h];
      }
    }

    /** The local ids in order of where their rows start; ties may come in any order. */
    static method SortByStart(hs: seq<Header>) returns (order: seq<nat>)
      ensures Orders(order, |hs|) && SortedBy(hs, order)
    {
      hide Orders, SortedSoFar;
      order := [];
      assert Orders(order, 0) && SortedSoFar(hs, order) by { NoOrder(hs); }
      for k := 0 to |hs|
        invariant Orders(order, k) && SortedSoFar(hs, order)
      {
        var p := |order|;
        OrderIn(hs, order, k);
        while p > 0 && hs[order[p - 1]].start > hs[k].start
          invariant 0 <= p <= |order|
          invariant forall a :: p <= a < |order| ==> hs[k].start < hs[order[a]].start
        {
          p := p - 1;
        }
        InsertOrder(hs, order, k, p);
        order := order[..p] + [k] + order[p..];
      }
      SortedAll(hs, order);
    }

    static lemma {:induction false} SortedAll(hs: seq<Header>, order: seq<nat>)
      requires Orders(order, |hs|) && SortedSoFar(hs, order)
      ensures SortedBy(hs, order)
    {
    }

    static lemma {:induction false} NoOrder(hs: seq<Header>)
      ensures Orders([], 0) && SortedSoFar(hs, [])
    {
    }

    static lemma {:induction false} OrderIn(hs: seq<Header>, order: seq<nat>, k: nat)
      requires Orders(order, k)
      ensures |order| == k && forall a :: 0 <= a < |order| ==> order[a] < k
    {
    }

    static predicate SortedSoFar(hs: seq<Header>, order: seq<nat>) {
      (forall a :: 0 <= a < |order| ==> order[a] < |hs|) &&
      forall a, b :: 0 <= a < b < |order| ==> hs[order[a]].start <= hs[order[b]].start
    }

    static lemma {:induction false} InsertOrder(hs: seq<Header>, order: seq<nat>, k: nat, p: nat)
      requires Orders(order, k) && p <= k < |hs| && SortedSoFar(hs, order)
      requires forall a :: p <= a < |order| ==> hs[k].start <= hs[order[a]].start
      requires p > 0 ==> hs[order[p - 1]].start <= hs[k].start
      ensures Orders(order[..p] + [k] + order[p..], k + 1) && SortedSoFar(hs, order[..p] + [k] + order[p..])
    {
      hide Orders, SortedSoFar;
      InsertOrders(order, k, p);
      OrderIn(hs, order, k);
      InsertSorted(hs, order, k, p);
    }

    static lemma {:induction false} InsertOrders(order: seq<nat>, k: nat, p: nat)
      requires Orders(order, k) && p <= k
      ensures Orders(order[..p] + [k] + order[p..], k + 1)
    {
      var r := order[..p] + [k] + order[p..];
      forall x: nat | x < k + 1 ensures x in r {
        if x == k {
          assert r[p] == k;
        } else {
          var a := Place(order, k, x);
          assert r[if a < p then a else a + 1] == x;
        }
      }
      forall a, b | 0 <= a < b < k + 1 ensures r[a] != r[b] {
        assert a != p ==> r[a] == order[if a < p then a else a - 1];
        assert b != p ==> r[b] == order[if b < p then b else b - 1];
      }
    }

    static lemma {:induction false} InsertSorted(hs: seq<Header>, order: seq<nat>, k: nat, p: nat)
      requires p <= |order| && k < |hs| && SortedSoFar(hs, order)
      requires forall a :: p <= a < |order| ==> hs[k].start <= hs[order[a]].start
      requires p > 0 ==> hs[order[p - 1]].start <= hs[k].start
      ensures SortedSoFar(hs, order[..p] + [k] + order[p..])
    {
      var r := order[..p] + [k] + order[p..];
      forall a, b | 0 <= a < b < |r| ensures hs[r[a]].start <= hs[r[b]].start {
        assert a != p ==> r[a] == order[if a < p then a else a - 1];
        assert b != p ==> r[b] == order[if b < p then b else b - 1];
        if b == p && a < p - 1 { assert hs[order[a]].start <= hs[order[p - 1]].start; }
      }
    }

    /** Moves one row down, and its header along. */
    method MoveRow(k: nat, ptr: nat, start: nat, size: nat, ghost hs: seq<Header>)
      requires block.data.Length == BLOCK_SIZE && Paged(block.data[..]) && hs == Headers(block.data[..]) && k < |hs|
      requires start == hs[k].start && size == hs[k].size && ptr < 0x1_0000
      requires size > 0 ==> ptr <= start && start + size <= Base(|hs|)
      modifies block.data
      ensures Paged(block.data[..]) && Headers(block.data[..]) == hs[k := hs[k].(start := ptr)]
      ensures Zone(block.data[..]) == Slid(Zone(old(block.data[..])), ptr, start, size) && Tail(block.data[..]) == Tail(old(block.data[..]))
    {
      hide Headers, Zone, Tail, Paged, Splice, Slid;
      ghost var d := block.data[..];
      CountHeaders(d);
      block.CopyDown(ptr, start, size);
      block.WriteUint16(POS_FIRST_HEADER - k * HEADER_SIZE + 4, ptr);
      MoveRowIs(d, k, ptr);
    }

    static lemma {:induction false} CountHeaders(d: seq<Byte>)
      requires Paged(d)
      ensures |d| == BLOCK_SIZE && |Headers(d)| == Get16(d, POS_TOTAL_HEADERS) && HEADER_SIZE * |Headers(d)| <= POS_PREV_BLOCK
    {
    }

    static lemma {:induction false} MoveRowIs(d: seq<Byte>, k: nat, ptr: nat)
      requires Paged(d) && k < |Headers(d)| && ptr < 0x1_0000
      requires var h := Headers(d)[k]; h.size > 0 ==> ptr <= h.start && h.start + h.size <= Base(|Headers(d)|)
      ensures var h := Headers(d)[k];
              var d' := Splice(Slid(d, ptr, h.start, h.size), Base(k + 1) + 4, Big16(ptr));
              && Paged(d') && Headers(d') == Headers(d)[k := h.(start := ptr)]
              && Zone(d') == Slid(Zone(d), ptr, h.start, h.size) && Tail(d') == Tail(d)
    {
      var h := Headers(d)[k];
      var d1 := Slid(d, ptr, h.start, h.size);
      SlidPage(d, ptr, h.start, h.size);
      SetStart(d1, k, ptr);
      EditedRest(d1, Splice(d1, Base(k + 1) + 4, Big16(ptr)), k);
    }

    static lemma {:induction false} SlidPage(d: seq<Byte>, ptr: nat, start: nat, size: nat)
      requires Paged(d) && (size > 0 ==> ptr <= start && start + size <= Base(|Headers(d)|))
      ensures var d' := Slid(d, ptr, start, size);
              Paged(d') && Headers(d') == Headers(d) && Zone(d') == Slid(Zone(d), ptr, start, size) && Tail(d') == Tail(d)
    {
      var d', n := Slid(d, ptr, start, size), Get16(d, POS_TOTAL_HEADERS);
      forall k | 0 <= k < n ensures HeaderAt(d', k) == HeaderAt(d, k) { }
      assert Headers(d') == Headers(d);
    }

    /** Marks a header as empty and records where its gap ended. */
    method Zero(k: nat, end: nat, ghost hs: seq<Header>)
      requires block.data.Length == BLOCK_SIZE && Paged(block.data[..]) && hs == Headers(block.data[..]) && k < |hs| && end < 0x1_0000
      modifies block.data
      ensures Paged(block.data[..]) && Headers(block.data[..]) == hs[k := hs[k].(size := 0, start := end)]
      ensures Zone(block.data[..]) == Zone(old(block.data[..])) && Tail(block.data[..]) == Tail(old(block.data[..]))
    {
      hide Headers, Zone, Tail, Paged, Splice;
      ghost var d := block.data[..];
      CountHeaders(d);
      block.WriteUint16(POS_FIRST_HEADER - k * HEADER_SIZE + 6, 0);
      block.WriteUint16(POS_FIRST_HEADER - k * HEADER_SIZE + 4, end);
      ZeroIs(d, k, end);
    }

    static lemma {:induction false} ZeroIs(d: seq<Byte>, k: nat, end: nat)
      requires Paged(d) && k < |Headers(d)| && end < 0x1_0000
      ensures var d' := Splice(Splice(d, Base(k + 1) + 6, Big16(0)), Base(k + 1) + 4, Big16(end));
              && Paged(d') && Headers(d') == Headers(d)[k := Headers(d)[k].(size := 0, start := end)]
              && Zone(d') == Zone(d) && Tail(d') == Tail(d)
    {
      var d1 := Splice(d, Base(k + 1) + 6, Big16(0));
      SetSize(d, k, 0);
      EditedRest(d, d1, k);
      SetStart(d1, k, end);
      EditedRest(d1, Splice(d1, Base(k + 1) + 4, Big16(end)), k);
    }

    /** Everything behind shifter `i` moves down over its gap. */
    method CloseGap(hs0: seq<Header>, order: seq<nat>, i: nat, ghost rows: seq<seq<Byte>>) returns (hs: seq<Header>)
      requires block.data.Length == BLOCK_SIZE && Paged(block.data[..]) && hs0 == Headers(block.data[..])
      requires Orders(order, |hs0|) && i < |order| && Shifter(hs0[order[i]])
      requires Layout(hs0, order, i, Base(|hs0|)) && Kept(Zone(block.data[..]), hs0, rows, -1)
      modifies block.data
      ensures Paged(block.data[..]) && Headers(block.data[..]) == hs && Tail(block.data[..]) == Tail(old(block.data[..]))
      ensures Closed(hs0, hs, order, i) && Kept(Zone(block.data[..]), hs, rows, -1)
      ensures |hs| == |hs0| && hs[order[i]].start == Target(hs0, order, i, |order|)
      ensures forall k :: 0 <= k < |hs| ==> hs[k] == hs0[k].(start := hs[k].start, size := if k == order[i] then 0 else hs0[k].size)
    {
      hide Headers, Zone, Tail, Paged, Layout, Target, OSum, Kept, Slid;
      ghost var d := block.data[..];
      hs := hs0;
      var ptr := hs[order[i]].start;
      TargetFirst(hs0, order, i);
      KeptBut(Zone(d), hs, rows, order[i]);
      for k := i + 1 to |order|
        invariant Paged(block.data[..]) && Headers(block.data[..]) == hs && Tail(block.data[..]) == Tail(d) && |hs| == |hs0|
        invariant ptr == Target(hs0, order, i, k) < 0x1_0000
        invariant Moved(hs0, hs, order, i, k) && Kept(Zone(block.data[..]), hs, rows, order[i])
      {
        var n := hs[order[k]];
        MoveKept(Zone(block.data[..]), hs0, hs, order, i, k, rows);
        MoveRow(order[k], ptr, n.start, n.size, hs);
        hs := hs[order[k] := n.(start := ptr)];
        ptr := ptr + n.size;
      }
      Zero(order[i], ptr, hs);
      KeptZero(Zone(block.data[..]), hs, rows, order[i], ptr);
      hs := hs[order[i] := hs[order[i]].(size := 0, start := ptr)];
      ClosedIs(hs0, hs, order, i);
    }

    /** Closes all gaps. Rows keep their bytes, ids and chains; dead headers lose their size. */
    method Defragment(hs0: seq<Header>, ghost q: nat, ghost g: nat) returns (hs: seq<Header>, ghost passed: seq<nat>)
      requires block.data.Length == BLOCK_SIZE && PageOk(block.data[..], q, g) && hs0 == Headers(block.data[..])
      modifies block.data
      ensures Paged(block.data[..]) && Headers(block.data[..]) == hs && Tail(block.data[..]) == Tail(old(block.data[..]))
      ensures Packed(hs0, hs) && SameRows(Zone(old(block.data[..])), hs0, Zone(block.data[..]), hs)
      ensures Orders(passed, |hs0|) && SortedBy(hs0, passed) && Compacted(hs0, hs, passed, |hs0|)
    {
      hide Headers, Zone, Tail, Paged, Layout, Kept, Closed, Tight, SameRows, HeadersOk, Dealt, Compacted, Target, SortedBy;
      ghost var d, base := block.data[..], Base(|hs0|);
      var order := SortByStart(hs0);
      hs := hs0;
      LayoutStart(hs0, q, g, order);
      DealtStart(hs0, order);
      ghost var rows := RowsOf(d, hs0, order);
      for i := 0 to |order|
        invariant Paged(block.data[..]) && Headers(block.data[..]) == hs && Tail(block.data[..]) == Tail(d) && |hs| == |hs0|
        invariant Layout(hs, order, i, base) && Kept(Zone(block.data[..]), hs, rows, -1) && Dealt(hs0, hs, order, i)
        invariant forall k :: 0 <= k < |hs| ==> hs[k] == hs0[k].(start := hs[k].start, size := hs[k].size)
        invariant forall k :: 0 <= k < |hs| && hs0[k].id != 0 ==> hs[k].size == hs0[k].size
      {
        var h := hs[order[i]];
        if (h.id != 0 && h.size != 0) || (h.id == 0 && h.size == 0) {
          LayoutSkip(hs, order, i, base);
          DealtSkip(hs0, hs, order, i);
          continue;
        }
        ghost var was := hs;
        hs := CloseGap(hs, order, i, rows);
        LayoutShift(was, hs, order, i, base);
        DealtShift(hs0, was, hs, order, i, base);
      }
      LayoutEnd(hs, order, base);
      DealtAll(hs0, hs, order);
      passed := order;
      KeptSame(Zone(d), hs0, Zone(block.data[..]), hs, rows);
    }

    /** The bytes of every row and gap. */
    static ghost function RowsOf(d: seq<Byte>, hs: seq<Header>, order: seq<nat>): (rows: seq<seq<Byte>>)
      requires Paged(d) && hs == Headers(d) && Orders(order, |hs|) && Layout(hs, order, 0, Base(|hs|))
      ensures Kept(Zone(d), hs, rows, -1)
    {
      assert forall k :: 0 <= k < |hs| && hs[k].size > 0 ==> hs[k].start + hs[k].size <= Base(|hs|) by {
        forall k | 0 <= k < |hs| && hs[k].size > 0 ensures hs[k].start + hs[k].size <= Base(|hs|) { var a := Place(order, |hs|, k); }
      }
      seq(|hs|, k requires 0 <= k < |hs| => if hs[k].size > 0 then Zone(d)[hs[k].start..hs[k].start + hs[k].size] else [])
    }

    // ---------- Operations ----------

    function Utilization(): (u: nat)
      requires block.data.Length == BLOCK_SIZE
      reads block.data
      ensures u == UtilizationOf(block.data[..])
    {
      var u := block.ReadUint16(POS_UTILIZATION);
      if u == 0 then MIN_UTILIZATION else u
    }

    /** The header with the id, else the dead one that starts first, else none. */
    static method FindHeader(hs: seq<Header>, order: seq<nat>, id: nat) returns (k: nat)
      requires Orders(order, |hs|) && SortedBy(hs, order)
      ensures Chosen(hs, id, k)
      ensures FirstDead(hs, id, k)
    {
      for i := 0 to |order|
        invariant forall a :: 0 <= a < i ==> hs[order[a]].id != id
      {
        if hs[order[i]].id == id {
          return order[i];
        }
      }
      Visited(hs, order, id);
      for i := 0 to |order|
        invariant forall a :: 0 <= a < i ==> hs[order[a]].id != 0
      {
        if hs[order[i]].id == 0 {
          StartsFirst(hs, order, i);
          return order[i];
        }
      }
      Visited(hs, order, 0);
      k := |hs|;
    }

    static lemma {:induction false} StartsFirst(hs: seq<Header>, order: seq<nat>, i: nat)
      requires Orders(order, |hs|) && SortedBy(hs, order) && i < |order| && forall a :: 0 <= a < i ==> hs[order[a]].id != 0
      ensures forall j :: 0 <= j < |hs| && hs[j].id == 0 ==> hs[order[i]].start <= hs[j].start
    {
      forall j | 0 <= j < |hs| && hs[j].id == 0 ensures hs[order[i]].start <= hs[j].start { var a := Place(order, |hs|, j); }
    }

    static lemma {:induction false} Visited(hs: seq<Header>, order: seq<nat>, id: nat)
      requires Orders(order, |hs|) && forall a :: 0 <= a < |order| ==> hs[order[a]].id != id
      ensures forall j :: 0 <= j < |hs| ==> hs[j].id != id
    {
      forall j | 0 <= j < |hs| ensures hs[j].id != id { var a := Place(order, |hs|, j); }
    }

    /** Puts a row on the page, in the slot of the same id, a free one or a new one. */
    method Add(id: nat, data: seq<Byte>, ghost q: nat, ghost g: nat) returns (localID: nat)
      requires Sound(q, g) && Readable() && 0 < id < 0x1_0000_0000
      requires Used(Page().rows) <= BLOCK_SIZE && 0 < |data| <= FreeSpace(Page().rows)
      requires if g > 0 then q < |Page().rows| && Page().rows[q].Row? && Page().rows[q].id == id else !HasId(Page().rows, id)
      modifies block.data
      ensures Valid() && Readable() && TakesSlot(old(Page().rows), id, localID) && localID <= |old(Page().rows)|
      ensures Page() == PutRow(old(Page()), localID, id, data)
      ensures FirstDead(old(Headers(block.data[..])), id, localID)
      ensures var hs := old(Headers(block.data[..])); RowPut(hs, Headers(block.data[..]), localID, Header(id, LiveSizes(hs), |data|, NO_ROW))
    {
      hide Compacted, RowPut, CanPut, FirstDead, PageOk, Viewed, View, Packed, SameRows, Headers, Zone, HeadersOk, Restored, Orders, SortedBy, Chosen, MayTake, TakesSlot, Slots, LiveSizes, Used, FreeSpace, HasId, Splice, Placed, UtilizationOf;
      ghost var d0 := block.data[..];
      AddStart(d0, q, g);
      var headers := ParseHeaders();
      var utilization := Utilization();
      var order := SortByStart(headers);
      localID := FindHeader(headers, order, id);
      ChosenTakes(d0, q, g, id, localID);
      SpaceFor(View(d0).rows, id, localID, |data|);
      var n := |headers|;
      if localID == |headers| {
        n := n + 1;
        utilization := utilization + HEADER_SIZE;
        AlreadyPacked(d0, q, g, localID, id);
        PutBehind(headers);
      } else {
        ghost var hs, passed := headers, order;
        headers, passed := Defragment(headers, q, g);
        PutInside(hs, headers, passed, localID);
      }
      ghost var d := block.data[..];
      PackedCount(d0, d);
      var start := utilization - MIN_UTILIZATION - n * HEADER_SIZE;
      PlaceRow(localID, n, id, start, data, utilization + |data|);
      AddOk(d0, q, g, d, block.data[..], localID, id, data);
      PutDone(Headers(d0), Headers(d), localID, Header(id, LiveSizes(Headers(d0)), |data|, NO_ROW));
    }

    /** Headers `hs1` are `hs` when the row in slot `k` can be written. */
    static ghost predicate CanPut(hs: seq<Header>, hs1: seq<Header>, k: nat) {
      if k >= |hs| then hs1 == hs
      else exists order :: Orders(order, |hs|) && SortedBy(hs, order) && Compacted(hs, hs1, order, |hs|)
    }

    static lemma {:induction false} PutBehind(hs: seq<Header>)
      ensures CanPut(hs, hs, |hs|)
    {
    }

    static lemma {:induction false} PutInside(hs: seq<Header>, hs1: seq<Header>, order: seq<nat>, k: nat)
      requires Orders(order, |hs|) && SortedBy(hs, order) && Compacted(hs, hs1, order, |hs|) && k < |hs|
      ensures CanPut(hs, hs1, k)
    {
      hide Orders, SortedBy, Compacted;
    }

    static lemma {:induction false} PutDone(hs: seq<Header>, hs1: seq<Header>, k: nat, h: Header)
      requires k <= |hs| == |hs1| && CanPut(hs, hs1, k)
      ensures RowPut(hs, Placed(hs1, k, h), k, h)
    {
      if k < |hs| {
        var order :| Orders(order, |hs|) && SortedBy(hs, order) && Compacted(hs, hs1, order, |hs|);
        CompactedBut(hs, hs1, hs1[k := h], order, k);
      }
    }

    static lemma {:induction false} CompactedBut(hs: seq<Header>, hs1: seq<Header>, hs2: seq<Header>, order: seq<nat>, x: nat)
      requires Orders(order, |hs|) && Compacted(hs, hs1, order, |hs|) && x < |hs| == |hs1| == |hs2| && hs2 == hs1[x := hs2[x]]
      ensures Compacted(hs, hs2, order, x)
    {
      hide OSum, LiveSum;
    }

    /** Writes header, data, utilization and the number of headers. */
    method PlaceRow(k: nat, n: nat, id: nat, start: nat, data: seq<Byte>, utilization: nat)
      requires block.data.Length == BLOCK_SIZE && Paged(block.data[..]) && k <= |Headers(block.data[..])|
      requires n == |Headers(block.data[..])| + (if k < |Headers(block.data[..])| then 0 else 1) && HEADER_SIZE * n <= POS_PREV_BLOCK
      requires id < 0x1_0000_0000 && start + |data| <= Base(n) && utilization < 0x1_0000
      modifies block.data
      ensures var d, d', h := old(block.data[..]), block.data[..], Header(id, start, |data|, NO_ROW);
              && Paged(d') && Headers(d') == Placed(Headers(d), k, h)
              && Base(n) <= |Zone(d)| && Zone(d') == Splice(Zone(d)[..Base(n)], start, data) && Get16(d', POS_UTILIZATION) == utilization
              && Get16(d', POS_PREV_BLOCK) == Get16(d, POS_PREV_BLOCK) && Get16(d', POS_NEXT_BLOCK) == Get16(d, POS_NEXT_BLOCK)
    {
      hide Headers, Zone, Splice, Paged, HeaderAt, Edited;
      ghost var d := block.data[..];
      CountHeaders(d);
      WriteHeader(k, Header(id, start, |data|, NO_ROW));
      ghost var d1 := block.data[..];
      block.WriteBytes(start, data);
      block.WriteUint16(POS_UTILIZATION, utilization);
      block.WriteUint16(POS_TOTAL_HEADERS, n);
      PutBytes(d, d1, k, n, Header(id, start, |data|, NO_ROW), data, utilization);
    }

    /** What `Add` knows about the page to begin with. */
    static lemma {:induction false} AddStart(d: seq<Byte>, q: nat, g: nat)
      requires PageOk(d, q, g)
      ensures Paged(d) && Viewed(d) && |Headers(d)| == |View(d).rows| && UtilizationOf(d) == Used(View(d).rows)
      ensures UtilizationOf(d) == MIN_UTILIZATION + HEADER_SIZE * |Headers(d)| + LiveSizes(Headers(d)) <= BLOCK_SIZE
    {
      OkView(d, q, g);
    }

    /** A page without dead headers and without a softly removed row has no gaps. */
    static lemma {:induction false} AlreadyPacked(d: seq<Byte>, q: nat, g: nat, k: nat, id: nat)
      requires PageOk(d, q, g) && MayTake(Headers(d), q, g, k, id) && k == |Headers(d)|
      ensures Packed(Headers(d), Headers(d)) && SameRows(Zone(d), Headers(d), Zone(d), Headers(d))
    {
      hide SumIf, Upto;
      var hs := Headers(d);
      forall j | 0 <= j < |hs| && hs[j].size > 0 ensures hs[j].start + hs[j].size <= |Zone(d)| { TightBound(hs, j); }
    }

    static lemma {:induction false} PackedCount(d0: seq<Byte>, d: seq<Byte>)
      requires Paged(d0) && Paged(d) && Packed(Headers(d0), Headers(d)) && Tail(d) == Tail(d0)
      ensures |d| == BLOCK_SIZE && |Headers(d)| == |Headers(d0)| == Get16(d, POS_TOTAL_HEADERS)
      ensures Get16(d, POS_PREV_BLOCK) == Get16(d0, POS_PREV_BLOCK) && Get16(d, POS_NEXT_BLOCK) == Get16(d0, POS_NEXT_BLOCK)
      ensures |Zone(d)| == Base(|Headers(d)|)
    {
      assert forall i :: POS_PREV_BLOCK <= i < BLOCK_SIZE ==> d[i] == Tail(d)[i - POS_PREV_BLOCK] && d0[i] == Tail(d0)[i - POS_PREV_BLOCK];
      SameTail(d0, d);
    }

    method WriteHeader(k: nat, h: Header)
      requires block.data.Length == BLOCK_SIZE && HEADER_SIZE * (k + 1) <= POS_PREV_BLOCK
      requires h.id < 0x1_0000_0000 && h.start < 0x1_0000 && h.size < 0x1_0000 && h.chain.block < 0x1_0000 && h.chain.local < 0x1_0000
      modifies block.data
      ensures Edited(old(block.data[..]), block.data[..], k) && HeaderAt(block.data[..], k) == h
    {
      hide Splice, HeaderAt, Edited;
      ghost var d := block.data[..];
      var p := POS_FIRST_HEADER - k * HEADER_SIZE;
      block.WriteUint32(p, h.id);
      ghost var d1 := block.data[..];
      SetId(d, k, h.id);
      block.WriteUint16(p + 4, h.start);
      ghost var d2 := block.data[..];
      SetStart(d1, k, h.start);
      EditedTrans(d, d1, d2, k);
      block.WriteUint16(p + 6, h.size);
      ghost var d3 := block.data[..];
      SetSize(d2, k, h.size);
      EditedTrans(d, d2, d3, k);
      block.WriteUint16(p + 8, h.chain.block);
      block.WriteUint16(p + 10, h.chain.local);
      SetChain(d3, k, h.chain);
      EditedTrans(d, d3, block.data[..], k);
    }

    static lemma {:induction false} EditedTrans(d: seq<Byte>, d1: seq<Byte>, d2: seq<Byte>, k: nat)
      requires Edited(d, d1, k) && Edited(d1, d2, k)
      ensures Edited(d, d2, k)
    {
    }

    /** The size in the header of a free slot. */
    ghost function LeftOver(k: nat): nat
      requires Readable()
      reads block.data
    {
      var hs := Headers(block.data[..]);
      if k < |hs| && hs[k].id == 0 then hs[k].size else 0
    }

    lemma {:induction false} NothingLeft(k: nat)
      requires Readable() && k < |Page().rows| && Page().rows[k].Row?
      ensures LeftOver(k) == 0
    {
      hide View, Headers;
      ViewCount(block.data[..], k);
    }

    /** Takes a row off the page; its header stays, with the gap it left. A slot that is free already spoils the
        utilization if there is a size left in it. */
    method Remove(localID: nat) returns (ok: bool)
      requires Valid() && Readable()
      modifies block.data
      ensures Readable() && ok == (localID < |old(Page().rows)|) && (Valid() <==> old(LeftOver(localID)) == 0)
      ensures Page() == if ok then old(Page()).(rows := old(Page().rows)[localID := Free]) else old(Page())
      ensures var hs := old(Headers(block.data[..])); |hs| == |old(Page().rows)| && Headers(block.data[..]) == if ok then hs[localID := hs[localID].(id := 0)] else hs
    {
      hide PageOk, Viewed, View, Headers, HeadersOk, Splice, LiveSizes, RowTaken;
      ghost var d := block.data[..];
      ViewCount(d, localID);
      var totalHeaders := block.ReadUint16(POS_TOTAL_HEADERS);
      if localID >= totalHeaders {
        return false;
      }
      var p := POS_FIRST_HEADER - localID * HEADER_SIZE;
      RowTakes(d, localID);
      block.WriteUint32(p, 0);
      var utilization := Wrapped(Utilization() - block.ReadUint16(p + 6));
      block.WriteUint16(POS_UTILIZATION, utilization);
      TakenIs(d, block.data[..], localID);
      ok := true;
    }

    static ghost predicate RowTaken(d: seq<Byte>, d': seq<Byte>, k: nat) {
      && PageOk(d, 0, 0) && Viewed(d) && k < |Headers(d)| && Viewed(d') && View(d') == View(d).(rows := View(d).rows[k := Free])
      && Headers(d') == Headers(d)[k := Headers(d)[k].(id := 0)]
      && (PageOk(d', 0, 0) <==> Headers(d)[k].id != 0 || Headers(d)[k].size == 0)
    }

    static lemma {:induction false} TakenIs(d: seq<Byte>, d': seq<Byte>, k: nat)
      requires RowTaken(d, d', k)
      ensures Viewed(d) && Viewed(d') && k < |View(d).rows| && View(d') == View(d).(rows := View(d).rows[k := Free])
      ensures k < |Headers(d)| && Headers(d') == Headers(d)[k := Headers(d)[k].(id := 0)] && (PageOk(d', 0, 0) <==> Headers(d)[k].id != 0 || Headers(d)[k].size == 0)
    {
      hide PageOk;
    }

    /** Two writes take a row off. */
    static lemma {:induction false} RowTakes(d: seq<Byte>, k: nat)
      requires PageOk(d, 0, 0) && Viewed(d) && k < |Headers(d)| && HEADER_SIZE * (k + 1) <= POS_PREV_BLOCK
      ensures var d1 := Splice(d, Base(k + 1), Big32(0));
              && UtilizationOf(d1) == UtilizationOf(d) && Get16(d1, Base(k + 1) + 6) == Headers(d)[k].size
              && RowTaken(d, Splice(d1, POS_UTILIZATION, Big16(Wrapped(UtilizationOf(d) - Headers(d)[k].size))), k)
    {
      hide PageOk, Viewed, View, Headers, HeadersOk, Splice, LiveSizes;
      ViewCount(d, k);
      IdWritten(d, k);
      if Headers(d)[k].id != 0 {
        IdCleared(d, k);
        assert Wrapped(UtilizationOf(d) - Headers(d)[k].size) == UtilizationOf(d) - Headers(d)[k].size;
      } else {
        FreeCleared(d, k);
        assert View(d).rows[k := Free] == View(d).rows;
      }
    }

    static lemma {:induction false} IdWritten(d: seq<Byte>, k: nat)
      requires Viewed(d) && k < |Headers(d)| && HEADER_SIZE * (k + 1) <= POS_PREV_BLOCK
      ensures var d1 := Splice(d, Base(k + 1), Big32(0)); UtilizationOf(d1) == UtilizationOf(d) && Get16(d1, Base(k + 1) + 6) == Headers(d)[k].size
    {
      hide HeadersOk, Splice, LiveSizes, View;
      var d1 := Splice(d, Base(k + 1), Big32(0));
      SetId(d, k, 0);
      EditedRest(d, d1, k);
      SameUtil(d, d1);
      assert HeaderAt(d1, k).size == Headers(d1)[k].size;
    }

    static lemma {:induction false} SameUtil(d: seq<Byte>, d1: seq<Byte>)
      requires |d| == |d1| == BLOCK_SIZE && d1[POS_PREV_BLOCK..] == d[POS_PREV_BLOCK..]
      ensures UtilizationOf(d1) == UtilizationOf(d)
    {
      assert forall i :: POS_PREV_BLOCK <= i < BLOCK_SIZE ==> d[i] == d[POS_PREV_BLOCK..][i - POS_PREV_BLOCK];
      assert forall i :: POS_PREV_BLOCK <= i < BLOCK_SIZE ==> d1[i] == d1[POS_PREV_BLOCK..][i - POS_PREV_BLOCK];
      SameTail(d, d1);
    }

    /** What the view and the headers say about a local id. */
    static lemma {:induction false} ViewCount(d: seq<Byte>, k: nat)
      requires Viewed(d)
      ensures Paged(d) && |View(d).rows| == |Headers(d)| == Get16(d, POS_TOTAL_HEADERS) && HEADER_SIZE * |Headers(d)| <= POS_PREV_BLOCK
      ensures k < |Headers(d)| ==> HEADER_SIZE * (k + 1) <= POS_PREV_BLOCK && Headers(d)[k] == HeaderAt(d, k)
      ensures k < |Headers(d)| ==> (View(d).rows[k].Row? <==> Headers(d)[k].id != 0)
    {
    }

    /** Takes the data of a row off the page for an update; see `SoftView` for what else goes. */
    method SoftRemove(localID: nat) returns (ok: bool)
      requires Valid() && Readable()
      modifies block.data
      ensures Readable() && ok == (localID < |old(Page().rows)|)
      ensures Page() == if ok then SoftView(old(Page()), localID) else old(Page())
      ensures var hs := old(Headers(block.data[..])); |hs| == |old(Page().rows)| && Headers(block.data[..]) == if ok then Spilled(hs, localID) else hs
      ensures !ok ==> Valid()
      ensures ok && old(Page().rows)[localID].Row? && (localID == 0 || IdOf(old(Page().rows)[localID - 1]) < 0x1_0000) ==> Sound(localID, |old(Page().rows)[localID].data|)
    {
      hide Spilled, PageOk, Viewed, View, HeadersOk, Splice, LiveSizes, SoftView, Headers, Slots, Big32, Big16;
      ghost var d := block.data[..];
      ViewCount(d, localID);
      var totalHeaders := block.ReadUint16(POS_TOTAL_HEADERS);
      if localID >= totalHeaders {
        return false;
      }
      var p := POS_FIRST_HEADER - localID * HEADER_SIZE;
      var currentRecordSize := block.ReadUint16(p + 6);
      block.WriteUint32(p + 6, 0);
      block.WriteUint32(p + 8, 0);
      block.WriteUint32(p + 10, 0);
      SoftDone(d, localID);
      SlotFacts(d, localID);
      var utilization := Wrapped(Utilization() - currentRecordSize);
      block.WriteUint16(POS_UTILIZATION, utilization);
      ok := true;
    }

    /** The bytes after the three zeros of four bytes each. */
    static function Softened(d: seq<Byte>, k: nat): (r: seq<Byte>)
      requires |d| == BLOCK_SIZE && HEADER_SIZE * (k + 1) <= POS_PREV_BLOCK
      ensures |r| == |d|
    {
      Splice(Splice(Splice(d, Base(k + 1) + 6, Big32(0)), Base(k + 1) + 8, Big32(0)), Base(k + 1) + 10, Big32(0))
    }

    static lemma {:induction false} SoftDone(d: seq<Byte>, k: nat)
      requires PageOk(d, 0, 0) && Viewed(d) && k < |Headers(d)| && HEADER_SIZE * (k + 1) <= POS_PREV_BLOCK
      ensures UtilizationOf(Softened(d, k)) == UtilizationOf(d)
      ensures SoftlyDone(d, k, Splice(Softened(d, k), POS_UTILIZATION, Big16(Wrapped(UtilizationOf(d) - Headers(d)[k].size))))
    {
      hide PageOk, Viewed, View, SoftView, Spilled, Big32, Splice, Headers, Zone;
      ViewCount(d, k);
      ThreeZeros(d, Base(k + 1) + 6);
      SoftBytes(d, Softened(d, k), k);
      SoftRest(d, Softened(d, k), k);
    }

    static ghost predicate SoftlyDone(d: seq<Byte>, k: nat, d': seq<Byte>)
      requires Viewed(d) && k < |Headers(d)|
    {
      && Viewed(d') && View(d') == SoftView(View(d), k) && Headers(d') == Spilled(Headers(d), k)
      && (Headers(d)[k].id != 0 && (k == 0 || Headers(d)[k - 1].id < 0x1_0000) ==> PageOk(d', k, Headers(d)[k].size))
    }

    static lemma {:induction false} SlotFacts(d: seq<Byte>, k: nat)
      requires Viewed(d) && k < |Headers(d)|
      ensures View(d).rows[k].Row? <==> Headers(d)[k].id != 0
      ensures View(d).rows[k].Row? ==> |View(d).rows[k].data| == Headers(d)[k].size
      ensures k > 0 ==> IdOf(View(d).rows[k - 1]) == Headers(d)[k - 1].id
      ensures View(d).rows[k].Row? ==> var h := Headers(d)[k]; h.start + h.size <= |d| && View(d).rows[k].data == d[h.start..h.start + h.size]
    {
    }

    method Clear()
      requires block.data.Length == BLOCK_SIZE
      modifies block.data
      ensures Valid() && Readable()
      ensures Page() == PageView([], Get16(old(block.data[..]), POS_PREV_BLOCK), Get16(old(block.data[..]), POS_NEXT_BLOCK))
    {
      Cleared(block.data[..]);
      block.WriteUint16(POS_TOTAL_HEADERS, 0);
      block.WriteUint16(POS_UTILIZATION, 0);
    }

    method TotalRecords() returns (records: nat)
      requires Readable()
      ensures records == RowCount(Page().rows)
    {
      hide View, Viewed, Headers;
      ViewCount(block.data[..], 0);
      var headers := ParseHeaders();
      records := 0;
      for i := 0 to |headers|
        invariant records == RowCount(Page().rows[..i])
      {
        ViewCount(block.data[..], i);
        assert Page().rows[..i + 1][..i] == Page().rows[..i];
        if headers[i].id != 0 {
          records := records + 1;
        }
      }
      assert Page().rows[..|headers|] == Page().rows;
    }

    method FreeSpaceForInsert() returns (freeSpace: nat)
      requires Readable() && UtilizationOf(block.data[..]) == Used(Page().rows) <= BLOCK_SIZE
      ensures freeSpace == FreeSpace(Page().rows)
    {
      freeSpace := BLOCK_SIZE - Utilization();
      var headers := ParseHeaders();
      var newHeaderNeeded := true;
      for i := 0 to |headers|
        invariant forall j :: 0 <= j < i ==> headers[j].id != 0
      {
        if headers[i].id == 0 {
          assert Page().rows[i].Free?;
          newHeaderNeeded := false;
          break;
        }
      }
      assert newHeaderNeeded <==> !HasFree(Page().rows);
      if newHeaderNeeded {
        if freeSpace > HEADER_SIZE {
          freeSpace := freeSpace - HEADER_SIZE;
        } else {
          freeSpace := 0;
        }
      }
    }

    method ReadRecordData(localID: nat) returns (r: Result<seq<Byte>>)
      requires Readable()
      ensures r == if localID < |Page().rows| && Page().rows[localID].Row? then Done(Page().rows[localID].data) else Refused
    {
      ViewCount(block.data[..], localID);
      if localID >= block.ReadUint16(POS_TOTAL_HEADERS) {
        return Refused;
      }
      var p := POS_FIRST_HEADER - localID * HEADER_SIZE;
      if block.ReadUint32(p) == 0 {
        return Refused;
      }
      SlotFacts(block.data[..], localID);
      var start := block.ReadUint16(p + 4);
      var size := block.ReadUint16(p + 6);
      r := Done(block.data[start..start + size]);
    }

    method ChainedRowID(localID: nat) returns (r: Result<RowID>)
      requires Readable()
      ensures r == if localID < |Page().rows| && Page().rows[localID].Row? then Done(Page().rows[localID].chain) else Refused
    {
      ViewCount(block.data[..], localID);
      if localID >= block.ReadUint16(POS_TOTAL_HEADERS) {
        return Refused;
      }
      var p := POS_FIRST_HEADER - localID * HEADER_SIZE;
      if block.ReadUint32(p) == 0 {
        return Refused;
      }
      r := Done(RowID(block.ReadUint16(p + 8), block.ReadUint16(p + 10)));
    }

    method SetChainedRowID(localID: nat, row: RowID) returns (ok: bool)
      requires Valid() && Readable() && row.block < 0x1_0000 && row.local < 0x1_0000
      modifies block.data
      ensures Valid() && Readable() && ok == (localID < |old(Page().rows)| && old(Page().rows)[localID].Row?)
      ensures Page() == if ok then old(Page()).(rows := old(Page().rows)[localID := old(Page().rows)[localID].(chain := row)]) else old(Page())
      ensures var hs := old(Headers(block.data[..])); |hs| == |old(Page().rows)| && Headers(block.data[..]) == if ok then hs[localID := hs[localID].(chain := row)] else hs
    {
      hide PageOk, Viewed, HeadersOk, Splice, LiveSizes;
      ghost var d := block.data[..];
      ViewCount(d, localID);
      if localID >= block.ReadUint16(POS_TOTAL_HEADERS) {
        return false;
      }
      var p := POS_FIRST_HEADER - localID * HEADER_SIZE;
      if block.ReadUint32(p) == 0 {
        return false;
      }
      ChainSet(d, 0, 0, localID, row);
      block.WriteUint16(p + 8, row.block);
      block.WriteUint16(p + 10, row.local);
      ok := true;
    }

    function NextBlockID(): (b: nat)
      requires Readable()
      reads block.data
      ensures b == Page().next
    {
      block.ReadUint16(POS_NEXT_BLOCK)
    }

    function PrevBlockID(): (b: nat)
      requires Readable()
      reads block.data
      ensures b == Page().prev
    {
      block.ReadUint16(POS_PREV_BLOCK)
    }

    method SetNextBlockID(b: nat)
      requires Readable() && b < 0x1_0000
      modifies block.data
      ensures Readable() && Page() == old(Page()).(next := b)
      ensures old(Valid()) ==> Valid()
    {
      hide PageOk, Viewed, Splice;
      NextSet(block.data[..], b);
      block.WriteUint16(POS_NEXT_BLOCK, b);
    }

    method SetPrevBlockID(b: nat)
      requires Readable() && b < 0x1_0000
      modifies block.data
      ensures Readable() && Page() == old(Page()).(prev := b)
      ensures old(Valid()) ==> Valid()
    {
      hide PageOk, Viewed, Splice;
      PrevSet(block.data[..], b);
      block.WriteUint16(POS_PREV_BLOCK, b);
    }
  }
}
