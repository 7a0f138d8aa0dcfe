/** The slotted record page as a value: headers, rows, and how the rows fill the page. */
module RecordPages {
  import opened RowIDs
  import opened DataBlocks

  const HEADER_SIZE: nat := 12
  const MIN_UTILIZATION: nat := 8
  const POS_UTILIZATION: nat := 4094
  const POS_TOTAL_HEADERS: nat := 4092
  const POS_NEXT_BLOCK: nat := 4090
  const POS_PREV_BLOCK: nat := 4088
  const POS_FIRST_HEADER: nat := 4076

  // ---------- Headers ----------

  /** A header with id 0 is dead; its size is the gap that its row left behind. */
  datatype Header = Header(id: nat, start: nat, size: nat, chain: RowID)

  function HeaderAt(d: seq<Byte>, k: nat): (h: Header)
    requires |d| == BLOCK_SIZE && HEADER_SIZE * (k + 1) <= POS_PREV_BLOCK
    ensures h.id < 0x1_0000_0000 && h.start < 0x1_0000 && h.size < 0x1_0000 && h.chain.block < 0x1_0000 && h.chain.local < 0x1_0000
  {
    var p := POS_FIRST_HEADER - HEADER_SIZE * k;
    Header(Get32(d, p), Get16(d, p + 4), Get16(d, p + 6), RowID(Get16(d, p + 8), Get16(d, p + 10)))
  }

  /** Header `k` takes the twelve bytes up to position 4088 - 12k: the id, where the row starts, its size, and block and local id of the next row. */
  lemma {:induction false} HeaderLayout(d: seq<Byte>, k: nat)
    requires |d| == 4096 && k < 340
    ensures var h, p := HeaderAt(d, k), 4088 - 12 * k - 12;
            && h.id == 0x100_0000 * d[p] as int + 0x1_0000 * d[p + 1] as int + 0x100 * d[p + 2] as int + d[p + 3] as int
            && h.start == 0x100 * d[p + 4] as int + d[p + 5] as int && h.size == 0x100 * d[p + 6] as int + d[p + 7] as int
            && h.chain.block == 0x100 * d[p + 8] as int + d[p + 9] as int && h.chain.local == 0x100 * d[p + 10] as int + d[p + 11] as int
  {
    BigEndian(d, 4088 - 12 * k - 12);
  }

  predicate Paged(d: seq<Byte>) {
    |d| == BLOCK_SIZE && HEADER_SIZE * Get16(d, POS_TOTAL_HEADERS) <= POS_PREV_BLOCK
  }

  function Headers(d: seq<Byte>): (hs: seq<Header>)
    requires Paged(d)
    ensures |hs| == Get16(d, POS_TOTAL_HEADERS) && forall k :: 0 <= k < |hs| ==> hs[k] == HeaderAt(d, k)
  {
    seq(Get16(d, POS_TOTAL_HEADERS), k requires 0 <= k < Get16(d, POS_TOTAL_HEADERS) => HeaderAt(d, k))
  }

  /** Where the headers begin: rows lie below, headers above. */
  function Base(n: nat): int {
    POS_PREV_BLOCK - HEADER_SIZE * n
  }

  /** Only the bytes of header `k` differ. */
  ghost predicate Edited(d: seq<Byte>, d': seq<Byte>, k: nat) {
    |d| == |d'| == BLOCK_SIZE &&
    forall i :: 0 <= i < BLOCK_SIZE && !(Base(k + 1) <= i < Base(k)) ==> d[i] == d'[i]
  }

  lemma {:induction false} EditedRest(d: seq<Byte>, d': seq<Byte>, k: nat)
    requires Paged(d) && Edited(d, d', k) && k < Get16(d, POS_TOTAL_HEADERS)
    ensures Paged(d') && Headers(d') == Headers(d)[k := HeaderAt(d', k)]
    ensures d'[POS_PREV_BLOCK..] == d[POS_PREV_BLOCK..] && d'[..Base(|Headers(d)|)] == d[..Base(|Headers(d)|)]
  {
    forall j | 0 <= j < Get16(d, POS_TOTAL_HEADERS) && j != k ensures HeaderAt(d', j) == HeaderAt(d, j) { }
  }

  lemma {:induction false} SetStart(d: seq<Byte>, k: nat, v: nat)
    requires |d| == BLOCK_SIZE && HEADER_SIZE * (k + 1) <= POS_PREV_BLOCK && v < 0x1_0000
    ensures var d' := Splice(d, Base(k + 1) + 4, Big16(v));
            Edited(d, d', k) && HeaderAt(d', k) == HeaderAt(d, k).(start := v)
  {
  }

  lemma {:induction false} SetSize(d: seq<Byte>, k: nat, v: nat)
    requires |d| == BLOCK_SIZE && HEADER_SIZE * (k + 1) <= POS_PREV_BLOCK && v < 0x1_0000
    ensures var d' := Splice(d, Base(k + 1) + 6, Big16(v));
            Edited(d, d', k) && HeaderAt(d', k) == HeaderAt(d, k).(size := v)
  {
  }

  lemma {:induction false} SetChain(d: seq<Byte>, k: nat, row: RowID)
    requires |d| == BLOCK_SIZE && HEADER_SIZE * (k + 1) <= POS_PREV_BLOCK && row.block < 0x1_0000 && row.local < 0x1_0000
    ensures var d' := Splice(Splice(d, Base(k + 1) + 8, Big16(row.block)), Base(k + 1) + 10, Big16(row.local));
            Edited(d, d', k) && HeaderAt(d', k) == HeaderAt(d, k).(chain := row)
  {
  }

  lemma {:induction false} SetId(d: seq<Byte>, k: nat, v: nat)
    requires |d| == BLOCK_SIZE && HEADER_SIZE * (k + 1) <= POS_PREV_BLOCK && v < 0x1_0000_0000
    ensures var d' := Splice(d, Base(k + 1), Big32(v));
            Edited(d, d', k) && HeaderAt(d', k) == HeaderAt(d, k).(id := v)
  {
    Get32Splice(d, Base(k + 1), v);
  }

  // ---------- Sums of sizes ----------

  function SumIf(hs: seq<Header>, s: set<nat>): nat {
    if hs == [] then 0
    else SumIf(hs[..|hs| - 1], s) + if |hs| - 1 in s then hs[|hs| - 1].size else 0
  }

  /** Sets that agree on the headers of non-zero size give the same sum. */
  lemma {:induction false} SumSame(hs: seq<Header>, hs': seq<Header>, s: set<nat>, t: set<nat>)
    requires |hs| == |hs'|
    requires forall k :: 0 <= k < |hs| ==> (if k in s then hs[k].size else 0) == (if k in t then hs'[k].size else 0)
    ensures SumIf(hs, s) == SumIf(hs', t)
  {
    if hs != [] {
      var l := |hs| - 1;
      assert forall k :: 0 <= k < l ==> hs[..l][k] == hs[k] && hs'[..l][k] == hs'[k];
      SumSame(hs[..l], hs'[..l], s, t);
    }
  }

  lemma {:induction false} SumAdd(hs: seq<Header>, s: set<nat>, k: nat)
    requires k < |hs| && k !in s
    ensures SumIf(hs, s + {k}) == SumIf(hs, s) + hs[k].size
  {
    var l := |hs| - 1;
    if k == l {
      SumSame(hs[..l], hs[..l], s + {k}, s);
    } else {
      SumAdd(hs[..l], s, k);
    }
  }

  lemma {:induction false} SumMono(hs: seq<Header>, s: set<nat>, t: set<nat>)
    requires forall k :: 0 <= k < |hs| && k in s && hs[k].size > 0 ==> k in t
    ensures SumIf(hs, s) <= SumIf(hs, t)
  {
    if hs != [] {
      var l := |hs| - 1;
      assert forall k :: 0 <= k < l ==> hs[..l][k] == hs[k];
      SumMono(hs[..l], s, t);
    }
  }

  function Upto(n: nat): (s: set<nat>)
    ensures forall k: nat :: k in s <==> k < n
  {
    if n == 0 then {} else Upto(n - 1) + {n - 1}
  }

  function LiveOnes(hs: seq<Header>): set<nat> {
    set k: nat | k < |hs| && hs[k].id != 0
  }

  function Before(hs: seq<Header>, p: nat): set<nat> {
    set k: nat | k < |hs| && hs[k].start < p
  }

  function AllSizes(hs: seq<Header>): nat {
    SumIf(hs, Upto(|hs|))
  }

  function LiveSizes(hs: seq<Header>): nat {
    SumIf(hs, LiveOnes(hs))
  }

  // ---------- Packed headers ----------

  /** Rows and gaps of non-zero size lie side by side from position 0 on. */
  ghost predicate Tight(hs: seq<Header>) {
    && (forall j, k :: 0 <= j < k < |hs| && hs[j].size > 0 && hs[k].size > 0 ==> hs[j].start != hs[k].start)
    && (forall k :: 0 <= k < |hs| && hs[k].size > 0 ==> hs[k].start == SumIf(hs, Before(hs, hs[k].start)))
  }

  lemma {:induction false} TightApart(hs: seq<Header>, j: nat, k: nat)
    requires Tight(hs) && j < |hs| && k < |hs| && hs[j].size > 0 && hs[k].size > 0 && hs[j].start < hs[k].start
    ensures hs[j].start + hs[j].size <= hs[k].start
  {
    var s := Before(hs, hs[j].start);
    SumAdd(hs, s, j);
    SumMono(hs, s + {j}, Before(hs, hs[k].start));
  }

  lemma {:induction false} TightBound(hs: seq<Header>, k: nat)
    requires Tight(hs) && k < |hs| && hs[k].size > 0
    ensures hs[k].start + hs[k].size <= AllSizes(hs)
  {
    var s := Before(hs, hs[k].start);
    SumAdd(hs, s, k);
    SumMono(hs, s + {k}, Upto(|hs|));
  }

  // ---------- Page invariant ----------

  function UtilizationOf(d: seq<Byte>): nat
    requires |d| == BLOCK_SIZE
  {
    var u := Get16(d, POS_UTILIZATION);
    if u == 0 then MIN_UTILIZATION else u
  }

  /** The headers as they were before row `q` was softly removed and its size `g` forgotten;
      with `g` 0 no row is in that state. */
  function Restored(hs: seq<Header>, q: nat, g: nat): seq<Header>
    requires g > 0 ==> q < |hs|
  {
    if g == 0 then hs else hs[q := hs[q].(size := g)]
  }

  /** What holds of the headers: live rows are not empty and have different ids, everything is
      packed, and there is room between rows and headers. */
  ghost predicate HeadersOk(hs: seq<Header>) {
    && (forall k :: 0 <= k < |hs| && hs[k].id != 0 ==> hs[k].size > 0)
    && (forall j, k :: 0 <= j < k < |hs| && hs[j].id != 0 ==> hs[j].id != hs[k].id)
    && Tight(hs) && AllSizes(hs) <= Base(|hs|)
  }

  /** A page, possibly with one row softly removed. */
  ghost predicate PageOk(d: seq<Byte>, q: nat, g: nat) {
    && Paged(d)
    && (g > 0 ==> q < |Headers(d)| && Headers(d)[q].id != 0 && Headers(d)[q].size == 0)
    && HeadersOk(Restored(Headers(d), q, g))
    && UtilizationOf(d) == MIN_UTILIZATION + HEADER_SIZE * |Headers(d)| + LiveSizes(Headers(d)) <= BLOCK_SIZE
  }

  // ---------- Headers in order of position ----------

  predicate Orders(order: seq<nat>, n: nat) {
    && |order| == n && (forall a :: 0 <= a < n ==> order[a] < n)
    && (forall a, b :: 0 <= a < b < n ==> order[a] != order[b])
    && (forall k: nat :: k < n ==> k in order)
  }

  predicate SortedBy(hs: seq<Header>, order: seq<nat>)
    requires Orders(order, |hs|)
  {
    forall a, b :: 0 <= a < b < |order| ==> hs[order[a]].start <= hs[order[b]].start
  }

  /** The sizes of the first `p` headers in order. */
  function OSum(hs: seq<Header>, order: seq<nat>, p: nat): nat
    requires Orders(order, |hs|) && p <= |order|
  {
    if p == 0 then 0 else OSum(hs, order, p - 1) + hs[order[p - 1]].size
  }

  function First(order: seq<nat>, p: nat): set<nat>
    requires p <= |order|
  {
    set k | k in order[..p]
  }

  lemma {:induction false} OSumIs(hs: seq<Header>, order: seq<nat>, p: nat)
    requires Orders(order, |hs|) && p <= |order|
    ensures OSum(hs, order, p) == SumIf(hs, First(order, p))
  {
    if p == 0 {
      SumNone(hs);
      assert First(order, 0) == {};
    } else {
      OSumIs(hs, order, p - 1);
      assert order[..p] == order[..p - 1] + [order[p - 1]];
      assert First(order, p) == First(order, p - 1) + {order[p - 1]};
      SumAdd(hs, First(order, p - 1), order[p - 1]);
    }
  }

  lemma {:induction false} SumNone(hs: seq<Header>)
    ensures SumIf(hs, {}) == 0
  {
    if hs != [] { SumNone(hs[..|hs| - 1]); }
  }

  /** A header that makes compaction move what follows it: a gap, or a row softly removed. */
  predicate Shifter(h: Header) {
    (h.id == 0) != (h.size == 0)
  }

  ghost predicate NoShifter(hs: seq<Header>, order: seq<nat>, a: nat, b: nat)
    requires Orders(order, |hs|) && b <= |order|
  {
    forall j :: a <= j < b ==> !Shifter(hs[order[j]])
  }

  /** The headers while compaction has dealt with the first `i` in order: rows do not overlap and
      everything up to the next shifter is packed. */
  ghost predicate Layout(hs: seq<Header>, order: seq<nat>, i: nat, base: int)
    requires Orders(order, |hs|) && i <= |order|
  {
    && (forall a, b :: 0 <= a < b < |order| && hs[order[b]].size > 0 && (a >= i || hs[order[a]].size > 0)
          ==> hs[order[a]].start + hs[order[a]].size <= hs[order[b]].start)
    && (forall b :: 0 <= b < |order| && (hs[order[b]].size > 0 || (b >= i && Shifter(hs[order[b]]))) && NoShifter(hs, order, i, b)
          ==> hs[order[b]].start == OSum(hs, order, b))
    && (forall a :: 0 <= a < |order| && hs[order[a]].size > 0 ==> hs[order[a]].start + hs[order[a]].size <= base)
    && (forall a :: 0 <= a < i && hs[order[a]].id == 0 ==> hs[order[a]].size == 0)
  }

  lemma {:induction false} LayoutApart(hs: seq<Header>, order: seq<nat>, i: nat, base: int, a: nat, b: nat)
    requires Orders(order, |hs|) && i <= |order| && Layout(hs, order, i, base)
    requires a < b < |order| && hs[order[b]].size > 0 && (a >= i || hs[order[a]].size > 0)
    ensures hs[order[a]].start + hs[order[a]].size <= hs[order[b]].start
  {
  }

  lemma {:induction false} LayoutTight(hs: seq<Header>, order: seq<nat>, i: nat, base: int, b: nat)
    requires Orders(order, |hs|) && i <= |order| && Layout(hs, order, i, base)
    requires b < |order| && b <= i && (hs[order[b]].size > 0 || (b == i && Shifter(hs[order[b]])))
    ensures hs[order[b]].start == OSum(hs, order, b)
  {
    assert NoShifter(hs, order, i, b);
  }

  lemma {:induction false} LayoutBelow(hs: seq<Header>, order: seq<nat>, i: nat, base: int, a: nat)
    requires Orders(order, |hs|) && i <= |order| && Layout(hs, order, i, base) && a < |order| && hs[order[a]].size > 0
    ensures hs[order[a]].start + hs[order[a]].size <= base
  {
  }

  lemma {:induction false} LayoutStart(hs: seq<Header>, q: nat, g: nat, order: seq<nat>)
    requires g > 0 ==> q < |hs| && hs[q].id != 0 && hs[q].size == 0
    requires HeadersOk(Restored(hs, q, g)) && Orders(order, |hs|) && SortedBy(hs, order)
    ensures Layout(hs, order, 0, Base(|hs|))
  {
    hide SumIf, Upto, Before, OSum;
    var fs := Restored(hs, q, g);
    forall a, b | 0 <= a < b < |order| && hs[order[b]].size > 0
      ensures hs[order[a]].start + hs[order[a]].size <= hs[order[b]].start
    {
      assert hs[order[a]].start <= hs[order[b]].start;
      if hs[order[a]].size > 0 {
        assert fs[order[a]] == hs[order[a]] && fs[order[b]] == hs[order[b]];
        assert fs[order[a]].start != fs[order[b]].start;
        TightApart(fs, order[a], order[b]);
      }
    }
    forall b | 0 <= b < |order| && (hs[order[b]].size > 0 || Shifter(hs[order[b]])) && NoShifter(hs, order, 0, b)
      ensures hs[order[b]].start == OSum(hs, order, b)
    {
      StartSum(hs, q, g, order, b);
    }
    forall a | 0 <= a < |order| && hs[order[a]].size > 0 ensures hs[order[a]].start + hs[order[a]].size <= Base(|hs|) {
      TightBound(fs, order[a]);
    }
  }

  lemma {:induction false} StartSum(hs: seq<Header>, q: nat, g: nat, order: seq<nat>, b: nat)
    requires g > 0 ==> q < |hs| && hs[q].id != 0 && hs[q].size == 0
    requires HeadersOk(Restored(hs, q, g)) && Orders(order, |hs|) && SortedBy(hs, order)
    requires b < |order| && (hs[order[b]].size > 0 || Shifter(hs[order[b]])) && NoShifter(hs, order, 0, b)
    ensures hs[order[b]].start == OSum(hs, order, b)
  {
    hide SumIf, Upto;
    var fs, p := Restored(hs, q, g), hs[order[b]].start;
    assert fs[order[b]].size > 0 && fs[order[b]].start == p;
    OSumIs(hs, order, b);
    forall k | 0 <= k < |hs|
      ensures (if k in Before(fs, p) then fs[k].size else 0) == (if k in First(order, b) then hs[k].size else 0)
    {
      var a := Place(order, |hs|, k);
      assert k in First(order, b) <==> a < b by { InFirst(order, |hs|, a, b); }
      if fs[k].size > 0 && a != b { assert fs[k].start != fs[order[b]].start; }
    }
    SumSame(fs, hs, Before(fs, p), First(order, b));
  }

  lemma {:induction false} Place(order: seq<nat>, n: nat, k: nat) returns (a: nat)
    requires Orders(order, n) && k < n
    ensures a < n && order[a] == k
  {
    assert k in order;
    a :| 0 <= a < |order| && order[a] == k;
  }

  lemma {:induction false} InFirst(order: seq<nat>, n: nat, a: nat, b: nat)
    requires Orders(order, n) && a < n && b <= n
    ensures order[a] in First(order, b) <==> a < b
  {
    if a < b { assert order[..b][a] == order[a]; }
    if order[a] in First(order, b) { var c :| 0 <= c < b && order[..b][c] == order[a]; }
  }

  /** When compaction is through, everything is packed and dead headers have no size. */
  lemma {:induction false} LayoutEnd(hs: seq<Header>, order: seq<nat>, base: int)
    requires Orders(order, |hs|) && Layout(hs, order, |order|, base)
    ensures Tight(hs) && forall k :: 0 <= k < |hs| && hs[k].id == 0 ==> hs[k].size == 0
  {
    hide SumIf, Upto;
    forall k | 0 <= k < |hs| && hs[k].id == 0 ensures hs[k].size == 0 {
      var a := Place(order, |hs|, k);
    }
    forall k | 0 <= k < |hs| && hs[k].size > 0 ensures hs[k].start == SumIf(hs, Before(hs, hs[k].start)) {
      var b := Place(order, |hs|, k);
      EndSum(hs, order, b, base);
    }
    forall j, k | 0 <= j < k < |hs| && hs[j].size > 0 && hs[k].size > 0 ensures hs[j].start != hs[k].start {
      var a := Place(order, |hs|, j);
      var b := Place(order, |hs|, k);
    }
  }

  lemma {:induction false} EndSum(hs: seq<Header>, order: seq<nat>, b: nat, base: int)
    requires Orders(order, |hs|) && Layout(hs, order, |order|, base) && b < |order| && hs[order[b]].size > 0
    ensures hs[order[b]].start == SumIf(hs, Before(hs, hs[order[b]].start))
  {
    hide SumIf, Upto;
    var p := hs[order[b]].start;
    OSumIs(hs, order, b);
    forall k | 0 <= k < |hs|
      ensures (if k in Before(hs, p) then hs[k].size else 0) == (if k in First(order, b) then hs[k].size else 0)
    {
      var a := Place(order, |hs|, k);
      InFirst(order, |hs|, a, b);
    }
    SumSame(hs, hs, Before(hs, p), First(order, b));
  }

  lemma {:induction false} LayoutSkip(hs: seq<Header>, order: seq<nat>, i: nat, base: int)
    requires Orders(order, |hs|) && i < |order| && Layout(hs, order, i, base) && !Shifter(hs[order[i]])
    ensures Layout(hs, order, i + 1, base)
  {
    forall b | 0 <= b < |order| && NoShifter(hs, order, i + 1, b) ensures NoShifter(hs, order, i, b) { }
  }

  lemma {:induction false} OSumLe(hs: seq<Header>, order: seq<nat>, i: nat, base: int, m: nat, t: nat)
    requires Orders(order, |hs|) && i < |order| && Layout(hs, order, i, base) && Shifter(hs[order[i]])
    requires i <= m <= t < |order| && i < t && hs[order[t]].size > 0
    ensures OSum(hs, order, m) <= hs[order[t]].start
    decreases m
  {
    hide Layout;
    LayoutTight(hs, order, i, base, i);
    if m == i {
      LayoutApart(hs, order, i, base, i, t);
    } else {
      OSumLe(hs, order, i, base, m - 1, t);
      LayoutApart(hs, order, i, base, m - 1, t);
      if hs[order[m - 1]].size > 0 && m - 1 > i { OSumLe(hs, order, i, base, m - 1, m - 1); }
    }
  }

  lemma {:induction false} OSumMono(hs: seq<Header>, order: seq<nat>, a: nat, b: nat)
    requires Orders(order, |hs|) && a <= b <= |order|
    ensures OSum(hs, order, a) <= OSum(hs, order, b)
  {
    if a < b { OSumMono(hs, order, a, b - 1); }
  }

  /** Where header `m` in order goes when the gap of header `i` is closed. */
  function Target(hs: seq<Header>, order: seq<nat>, i: nat, m: nat): nat
    requires Orders(order, |hs|) && i < m <= |order|
  {
    OSumMono(hs, order, i + 1, m);
    hs[order[i]].start + OSum(hs, order, m) - OSum(hs, order, i + 1)
  }

  /** Header `i` in order has lost its size; headers up to `k` after it have moved down. */
  ghost predicate Moved(hs: seq<Header>, hs': seq<Header>, order: seq<nat>, i: nat, k: nat)
    requires Orders(order, |hs|) && i < k <= |order|
  {
    |hs'| == |hs| && forall m :: 0 <= m < |order| ==>
      hs'[order[m]] == if i < m < k then hs[order[m]].(start := Target(hs, order, i, m))
                       else hs[order[m]]
  }

  lemma {:induction false} MovedSum(hs: seq<Header>, hs': seq<Header>, order: seq<nat>, i: nat, p: nat)
    requires Orders(order, |hs|) && i < |order| && |hs'| == |hs| && p <= |order|
    requires forall m :: 0 <= m < |order| ==> hs'[order[m]].size == if m == i then 0 else hs[order[m]].size
    ensures OSum(hs', order, p) == OSum(hs, order, p) - if p > i then hs[order[i]].size else 0
  {
    if p > 0 { MovedSum(hs, hs', order, i, p - 1); }
    if p > i { OSumMono(hs, order, i + 1, p); }
  }

  /** The headers once everything behind shifter `i` has moved down and the shifter is empty. */
  ghost predicate Closed(hs: seq<Header>, hs': seq<Header>, order: seq<nat>, i: nat)
    requires Orders(order, |hs|) && i < |order|
  {
    && |hs'| == |hs| && hs'[order[i]].size == 0
    && forall m :: 0 <= m < |order| && m != i ==>
         hs'[order[m]] == if i < m then hs[order[m]].(start := Target(hs, order, i, m)) else hs[order[m]]
  }

  /** Rows only ever move down. */
  lemma {:induction false} ShiftDown(hs: seq<Header>, order: seq<nat>, i: nat, base: int, b: nat)
    requires Orders(order, |hs|) && i < b < |order| && Layout(hs, order, i, base) && Shifter(hs[order[i]]) && hs[order[b]].size > 0
    ensures Target(hs, order, i, b) <= hs[order[b]].start
    ensures hs[order[b]].start + hs[order[b]].size <= base
  {
    hide Layout;
    LayoutTight(hs, order, i, base, i);
    LayoutBelow(hs, order, i, base, b);
    OSumLe(hs, order, i, base, b, b);
  }

  /** Rows in front of the shifter end where the others go, or lower. */
  lemma {:induction false} StayedBelow(hs: seq<Header>, order: seq<nat>, i: nat, base: int, k: nat, m: nat)
    requires Orders(order, |hs|) && i < k <= |order| && Layout(hs, order, i, base) && Shifter(hs[order[i]])
    requires m < i && hs[order[m]].size > 0
    ensures hs[order[m]].start + hs[order[m]].size <= Target(hs, order, i, k)
  {
    hide Layout;
    LayoutTight(hs, order, i, base, i);
    LayoutTight(hs, order, i, base, m);
    OSumMono(hs, order, m + 1, i);
    OSumMono(hs, order, i + 1, k);
  }

  lemma {:induction false} MovedBelow(hs: seq<Header>, order: seq<nat>, i: nat, k: nat, m: nat)
    requires Orders(order, |hs|) && i < m < k <= |order|
    ensures Target(hs, order, i, m) + hs[order[m]].size <= Target(hs, order, i, k)
  {
    OSumMono(hs, order, m + 1, k);
  }

  lemma {:induction false} ShiftApart(hs: seq<Header>, hs': seq<Header>, order: seq<nat>, i: nat, base: int, a: nat, b: nat)
    requires Orders(order, |hs|) && i < |order| && Layout(hs, order, i, base) && Shifter(hs[order[i]]) && Closed(hs, hs', order, i)
    requires a < b < |order| && hs'[order[b]].size > 0 && (a >= i + 1 || hs'[order[a]].size > 0)
    ensures hs'[order[a]].start + hs'[order[a]].size <= hs'[order[b]].start
  {
    hide Layout, Target, OSum;
    if b < i {
      LayoutApart(hs, order, i, base, a, b);
    } else if a < i {
      StayedBelow(hs, order, i, base, b, a);
    } else {
      MovedBelow(hs, order, i, b, a);
    }
  }

  lemma {:induction false} ClosedTight(hs: seq<Header>, hs': seq<Header>, order: seq<nat>, i: nat, base: int, b: nat)
    requires Orders(order, |hs|) && i < |order| && Layout(hs, order, i, base) && Shifter(hs[order[i]]) && Closed(hs, hs', order, i)
    requires b < |order| && b != i && (hs'[order[b]].size > 0 || b > i)
    ensures hs'[order[b]].start == OSum(hs', order, b)
  {
    assert NoShifter(hs, order, i, i);
    if b < i { assert NoShifter(hs, order, i, b); }
    MovedSum(hs, hs', order, i, b);
  }

  /** One shifter dealt with: all headers after it have moved down. */
  lemma {:induction false} LayoutShift(hs: seq<Header>, hs': seq<Header>, order: seq<nat>, i: nat, base: int)
    requires Orders(order, |hs|) && i < |order| && Layout(hs, order, i, base) && Shifter(hs[order[i]]) && Closed(hs, hs', order, i)
    ensures Layout(hs', order, i + 1, base)
  {
    hide OSum, Target;
    forall a, b | 0 <= a < b < |order| && hs'[order[b]].size > 0 && (a >= i + 1 || hs'[order[a]].size > 0)
      ensures hs'[order[a]].start + hs'[order[a]].size <= hs'[order[b]].start
    {
      ShiftApart(hs, hs', order, i, base, a, b);
    }
    forall b | 0 <= b < |order| && hs'[order[b]].size > 0 ensures hs'[order[b]].start + hs'[order[b]].size <= base {
      if b > i { ShiftDown(hs, order, i, base, b); }
    }
    forall b | 0 <= b < |order| && (hs'[order[b]].size > 0 || (b >= i + 1 && Shifter(hs'[order[b]]))) ensures hs'[order[b]].start == OSum(hs', order, b) {
      ClosedTight(hs, hs', order, i, base, b);
    }
  }

  // ---------- Where compaction leaves the headers ----------

  /** The sizes of the live ones among the first `p` headers in order. */
  function LiveSum(hs: seq<Header>, order: seq<nat>, p: nat): nat
    requires Orders(order, |hs|) && p <= |order|
  {
    if p == 0 then 0 else LiveSum(hs, order, p - 1) + if hs[order[p - 1]].id == 0 then 0 else hs[order[p - 1]].size
  }

  /** Where header `a` in order starts when all is done: a shifter at the end that everything had when it was closed, anything else
      behind a shifter where the live ones in front of it end. */
  ghost function CompactStart(hs: seq<Header>, order: seq<nat>, a: nat): int
    requires Orders(order, |hs|) && a < |order|
  {
    if Shifter(hs[order[a]]) then LiveSum(hs, order, a) + OSum(hs, order, |order|) - OSum(hs, order, a + 1)
    else if NoShifter(hs, order, 0, a) then hs[order[a]].start
    else LiveSum(hs, order, a)
  }

  /** Where header `a` starts while the first `i` have been dealt with. */
  ghost function PendingStart(hs: seq<Header>, order: seq<nat>, i: nat, a: nat): int
    requires Orders(order, |hs|) && i <= a < |order|
  {
    if NoShifter(hs, order, 0, i) then hs[order[a]].start else LiveSum(hs, order, i) + OSum(hs, order, a) - OSum(hs, order, i)
  }

  /** Headers `hs0` when the first `i` in order have been dealt with. */
  ghost predicate Dealt(hs0: seq<Header>, hs: seq<Header>, order: seq<nat>, i: nat)
    requires Orders(order, |hs0|) && i <= |order|
  {
    && |hs| == |hs0|
    && (forall a :: 0 <= a < i ==> hs[order[a]].start == CompactStart(hs0, order, a) && hs[order[a]].size == if hs0[order[a]].id == 0 then 0 else hs0[order[a]].size)
    && (forall a :: i <= a < |order| ==> hs[order[a]].size == hs0[order[a]].size && hs[order[a]].start == PendingStart(hs0, order, i, a))
    && (forall a :: 0 <= a < |order| ==> hs[order[a]].id == hs0[order[a]].id)
  }

  lemma {:induction false} DealtStart(hs: seq<Header>, order: seq<nat>)
    requires Orders(order, |hs|)
    ensures Dealt(hs, hs, order, 0)
  {
  }

  lemma {:induction false} DealtSum(hs0: seq<Header>, hs: seq<Header>, order: seq<nat>, i: nat, p: nat)
    requires Orders(order, |hs0|) && i <= |order| && Dealt(hs0, hs, order, i) && p <= |order|
    ensures OSum(hs, order, p) == if p <= i then LiveSum(hs0, order, p) else LiveSum(hs0, order, i) + OSum(hs0, order, p) - OSum(hs0, order, i)
  {
    hide CompactStart, PendingStart;
    if p > 0 { DealtSum(hs0, hs, order, i, p - 1); }
  }

  lemma {:induction false} PendingNow(hs: seq<Header>, order: seq<nat>, i: nat, a: nat)
    requires Orders(order, |hs|) && i <= a < |order| && !Shifter(hs[order[i]])
    ensures PendingStart(hs, order, i, a) == if a == i then CompactStart(hs, order, a) else PendingStart(hs, order, i + 1, a)
  {
    hide Orders;
    assert NoShifter(hs, order, 0, i + 1) <==> NoShifter(hs, order, 0, i);
    assert LiveSum(hs, order, i + 1) - OSum(hs, order, i + 1) == LiveSum(hs, order, i) - OSum(hs, order, i);
  }

  lemma {:induction false} DealtSkip(hs0: seq<Header>, hs: seq<Header>, order: seq<nat>, i: nat)
    requires Orders(order, |hs0|) && i < |order| && Dealt(hs0, hs, order, i) && !Shifter(hs[order[i]])
    ensures Dealt(hs0, hs, order, i + 1)
  {
    hide CompactStart, PendingStart;
    forall a | i <= a < |order| ensures hs[order[a]].start == if a == i then CompactStart(hs0, order, a) else PendingStart(hs0, order, i + 1, a) {
      PendingNow(hs0, order, i, a);
    }
  }

  lemma {:induction false} PendingShift(hs: seq<Header>, order: seq<nat>, i: nat)
    requires Orders(order, |hs|) && i < |order| && Shifter(hs[order[i]])
    ensures CompactStart(hs, order, i) == LiveSum(hs, order, i) + OSum(hs, order, |order|) - OSum(hs, order, i + 1)
    ensures forall a :: i < a < |order| ==> PendingStart(hs, order, i + 1, a) == LiveSum(hs, order, i) + OSum(hs, order, a) - OSum(hs, order, i + 1)
  {
    hide Orders, OSum;
    assert LiveSum(hs, order, i + 1) == LiveSum(hs, order, i);
  }

  /** Where the gap of `i` sends header `a`, in terms of the headers to begin with. */
  lemma {:induction false} DealtTarget(hs0: seq<Header>, hs: seq<Header>, order: seq<nat>, i: nat, base: int, a: nat)
    requires Orders(order, |hs0|) && i < a <= |order| && Dealt(hs0, hs, order, i) && Layout(hs, order, i, base) && Shifter(hs[order[i]])
    ensures Target(hs, order, i, a) == LiveSum(hs0, order, i) + OSum(hs0, order, a) - OSum(hs0, order, i + 1)
  {
    hide Layout, OSum, LiveSum;
    LayoutTight(hs, order, i, base, i);
    DealtSum(hs0, hs, order, i, i);
    DealtSum(hs0, hs, order, i, i + 1);
    DealtSum(hs0, hs, order, i, a);
  }

  lemma {:induction false} DealtShift(hs0: seq<Header>, hs: seq<Header>, hs': seq<Header>, order: seq<nat>, i: nat, base: int)
    requires Orders(order, |hs0|) && i < |order| && Dealt(hs0, hs, order, i) && Layout(hs, order, i, base) && Shifter(hs[order[i]])
    requires Closed(hs, hs', order, i) && hs'[order[i]].start == Target(hs, order, i, |order|) && hs'[order[i]].id == hs[order[i]].id
    ensures Dealt(hs0, hs', order, i + 1)
  {
    hide Layout, CompactStart, PendingStart, Target, OSum, LiveSum;
    PendingShift(hs0, order, i);
    DealtTarget(hs0, hs, order, i, base, |order|);
    forall a | i < a < |order| ensures hs'[order[a]].start == PendingStart(hs0, order, i + 1, a) {
      DealtTarget(hs0, hs, order, i, base, a);
    }
  }

  /** Headers `hs'` are `hs` after compaction in this order, but for header `x`. A gap is left where everything had ended when it was
      closed; behind the first gap, all else begins where the live rows in front of it end. */
  ghost predicate Compacted(hs: seq<Header>, hs': seq<Header>, order: seq<nat>, x: nat)
    requires Orders(order, |hs|)
  {
    && |hs'| == |hs|
    && (forall k :: 0 <= k < |hs| && k != x ==> hs'[k] == hs[k].(start := hs'[k].start, size := if hs[k].id == 0 then 0 else hs[k].size))
    && (forall a :: 0 <= a < |order| && order[a] != x ==>
          hs'[order[a]].start == if Shifter(hs[order[a]]) then LiveSum(hs, order, a) + OSum(hs, order, |order|) - OSum(hs, order, a + 1)
                                 else if NoShifter(hs, order, 0, a) then hs[order[a]].start else LiveSum(hs, order, a))
  }

  lemma {:induction false} DealtAll(hs: seq<Header>, hs': seq<Header>, order: seq<nat>)
    requires Orders(order, |hs|) && Dealt(hs, hs', order, |order|)
    requires forall k :: 0 <= k < |hs| ==> hs'[k] == hs[k].(start := hs'[k].start, size := if hs[k].id == 0 then 0 else hs[k].size)
    ensures Compacted(hs, hs', order, |hs|)
  {
  }

  lemma {:induction false} SumGap(hs: seq<Header>, order: seq<nat>, a: nat, b: nat)
    requires Orders(order, |hs|) && a <= b <= |order|
    ensures LiveSum(hs, order, b) - LiveSum(hs, order, a) <= OSum(hs, order, b) - OSum(hs, order, a)
  {
    if a < b { SumGap(hs, order, a, b - 1); }
  }

  lemma {:induction false} SumStep(hs: seq<Header>, order: seq<nat>, a: nat)
    requires Orders(order, |hs|) && a < |order| && hs[order[a]].id == 0
    ensures LiveSum(hs, order, a + 1) == LiveSum(hs, order, a) && OSum(hs, order, a + 1) == OSum(hs, order, a) + hs[order[a]].size
  {
  }

  /** Compaction turns the order of the gaps round: the slot of the last one is the first to be taken after it. */
  lemma {:induction false} GapsTurn(hs: seq<Header>, hs': seq<Header>, order: seq<nat>, x: nat, a: nat, b: nat)
    requires Orders(order, |hs|) && Compacted(hs, hs', order, x) && a < b < |order| && order[a] != x && order[b] != x
    requires hs[order[a]].id == 0 && hs[order[a]].size > 0 && hs[order[b]].id == 0 && hs[order[b]].size > 0
    ensures hs'[order[b]].start < hs'[order[a]].start
  {
    hide OSum, LiveSum;
    SumStep(hs, order, a);
    SumStep(hs, order, b);
    SumGap(hs, order, a + 1, b);
    assert Shifter(hs[order[a]]) && Shifter(hs[order[b]]);
  }
}
