/** What a record page holds for its users: a sequence of slots, free or with a row. */
module PageViews {
  import opened RowIDs
  import opened DataBlocks
  import opened RecordPages

  datatype Slot = Free | Row(id: nat, data: seq<Byte>, chain: RowID)

  datatype PageView = PageView(rows: seq<Slot>, prev: nat, next: nat)

  const NO_ROW := RowID(0, 0)

  function IdOf(s: Slot): nat {
    if s.Free? then 0 else s.id
  }

  function SlotOf(zone: seq<Byte>, h: Header): Slot
    requires h.id != 0 ==> h.start + h.size <= |zone|
  {
    if h.id == 0 then Free else Row(h.id, zone[h.start..h.start + h.size], h.chain)
  }

  ghost predicate Bounded(zone: seq<Byte>, hs: seq<Header>) {
    forall k :: 0 <= k < |hs| && hs[k].id != 0 ==> hs[k].start + hs[k].size <= |zone|
  }

  ghost function Slots(zone: seq<Byte>, hs: seq<Header>): (rows: seq<Slot>)
    requires Bounded(zone, hs)
    ensures |rows| == |hs| && forall k :: 0 <= k < |hs| ==> rows[k] == SlotOf(zone, hs[k])
  {
    seq(|hs|, k requires 0 <= k < |hs| => SlotOf(zone, hs[k]))
  }

  function Zone(d: seq<Byte>): (z: seq<Byte>)
    requires Paged(d)
    ensures |z| == Base(|Headers(d)|)
  {
    d[..Base(|Headers(d)|)]
  }

  ghost predicate Viewed(d: seq<Byte>) {
    Paged(d) && Bounded(Zone(d), Headers(d))
  }

  ghost function View(d: seq<Byte>): PageView
    requires Viewed(d)
  {
    PageView(Slots(Zone(d), Headers(d)), Get16(d, POS_PREV_BLOCK), Get16(d, POS_NEXT_BLOCK))
  }

  /** The last eight bytes of a page: the pages before and after, the number of headers and the bytes in use. */
  lemma {:induction false} PageLayout(d: seq<Byte>)
    requires Viewed(d)
    ensures |d| == 4096 && View(d).prev == 0x100 * d[4088] as int + d[4089] as int && View(d).next == 0x100 * d[4090] as int + d[4091] as int
    ensures |Headers(d)| == |View(d).rows| == 0x100 * d[4092] as int + d[4093] as int
    ensures UtilizationOf(d) == if d[4094] as int == 0 && d[4095] as int == 0 then 8 else 0x100 * d[4094] as int + d[4095] as int
  {
  }

  /** A row is what the header says, from the start of the page on. */
  lemma {:induction false} RowLayout(d: seq<Byte>, k: nat)
    requires Viewed(d) && k < |View(d).rows|
    ensures |Headers(d)| == |View(d).rows| && View(d).rows[k].Free? == (Headers(d)[k].id == 0)
    ensures var row, h := View(d).rows[k], Headers(d)[k];
            row.Row? ==> row.id == h.id && row.chain == h.chain && |row.data| == h.size && h.start + h.size <= |d|
                         && forall i :: 0 <= i < h.size ==> row.data[i] == d[h.start + i]
  {
  }

  // ---------- Space ----------

  function DataSize(rows: seq<Slot>): nat {
    if rows == [] then 0
    else DataSize(rows[..|rows| - 1]) + if rows[|rows| - 1].Free? then 0 else |rows[|rows| - 1].data|
  }

  function RowCount(rows: seq<Slot>): nat {
    if rows == [] then 0 else RowCount(rows[..|rows| - 1]) + if rows[|rows| - 1].Row? then 1 else 0
  }

  predicate HasFree(rows: seq<Slot>) {
    exists k :: 0 <= k < |rows| && rows[k].Free?
  }

  predicate HasId(rows: seq<Slot>, id: nat) {
    exists k :: 0 <= k < |rows| && rows[k].Row? && rows[k].id == id
  }

  function Used(rows: seq<Slot>): nat {
    MIN_UTILIZATION + HEADER_SIZE * |rows| + DataSize(rows)
  }

  /** Room for the data of one more row; without a free slot its header has to fit too. */
  function FreeSpace(rows: seq<Slot>): nat {
    var room := BLOCK_SIZE - Used(rows);
    if room < 0 then 0 else if HasFree(rows) then room else if room > HEADER_SIZE then room - HEADER_SIZE else 0
  }

  lemma {:induction false} LiveIsData(zone: seq<Byte>, hs: seq<Header>, s: set<nat>)
    requires Bounded(zone, hs) && forall k :: 0 <= k < |hs| ==> (k in s <==> hs[k].id != 0)
    ensures SumIf(hs, s) == DataSize(Slots(zone, hs))
  {
    if hs != [] {
      var l := |hs| - 1;
      assert Slots(zone, hs)[..l] == Slots(zone, hs[..l]);
      LiveIsData(zone, hs[..l], s);
    }
  }

  /** A page as it should be can be viewed, and its utilization is what the view says. */
  lemma {:induction false} OkView(d: seq<Byte>, q: nat, g: nat)
    requires PageOk(d, q, g)
    ensures Viewed(d) && UtilizationOf(d) == Used(View(d).rows) <= BLOCK_SIZE
  {
    hide SumIf, Tight, HeaderAt;
    var hs := Headers(d);
    var fs := Restored(hs, q, g);
    forall k | 0 <= k < |hs| && hs[k].id != 0 ensures hs[k].start + hs[k].size <= |Zone(d)| {
      assert fs[k].size > 0 && fs[k].start == hs[k].start && hs[k].size <= fs[k].size;
      TightBound(fs, k);
    }
    LiveIsData(Zone(d), hs, LiveOnes(hs));
  }

  /** Ids of rows differ. */
  lemma {:induction false} ViewIds(d: seq<Byte>, q: nat, g: nat)
    requires PageOk(d, q, g) && Viewed(d)
    ensures var rows := View(d).rows;
            forall j, k :: 0 <= j < k < |rows| && rows[j].Row? && rows[k].Row? ==> rows[j].id != rows[k].id
  {
    hide Tight, AllSizes, LiveSizes, HeaderAt, Headers, Zone;
    var hs := Headers(d);
    var fs := Restored(hs, q, g);
    assert forall k :: 0 <= k < |hs| ==> fs[k].id == hs[k].id;
  }

  // ---------- A row put on a page ----------

  /** The page after a row with this id and data has been put in slot `k`. */
  function PutRow(v: PageView, k: nat, id: nat, data: seq<Byte>): PageView
    requires k <= |v.rows|
  {
    var row := Row(id, data, NO_ROW);
    v.(rows := if k < |v.rows| then v.rows[k := row] else v.rows + [row])
  }

  /** `Add` takes the slot of the same id, else a free one, else a new one. */
  ghost predicate TakesSlot(rows: seq<Slot>, id: nat, k: nat) {
    if HasId(rows, id) then k < |rows| && rows[k].Row? && rows[k].id == id
    else if HasFree(rows) then k < |rows| && rows[k].Free?
    else k == |rows|
  }

  lemma {:induction false} SumSnoc(hs: seq<Header>, h: Header, s: set<nat>)
    ensures SumIf(hs + [h], s) == SumIf(hs, s) + if |hs| in s then h.size else 0
  {
    assert (hs + [h])[..|hs|] == hs;
  }

  lemma {:induction false} TightSnoc(hs: seq<Header>, z: Header)
    requires Tight(hs) && z.size == 0
    ensures Tight(hs + [z]) && AllSizes(hs + [z]) == AllSizes(hs)
  {
    hide SumIf;
    var hs' := hs + [z];
    forall k | 0 <= k < |hs'| && hs'[k].size > 0 ensures hs'[k].start == SumIf(hs', Before(hs', hs'[k].start)) {
      var p := hs[k].start;
      SumSnoc(hs, z, Before(hs', p));
      SumSame(hs, hs, Before(hs', p), Before(hs, p));
    }
    SumSnoc(hs, z, Upto(|hs'|));
    SumSame(hs, hs, Upto(|hs'|), Upto(|hs|));
  }

  /** A row put behind all others. */
  lemma {:induction false} TightPut(hs: seq<Header>, k: nat, h: Header)
    requires Tight(hs) && k < |hs| && hs[k].size == 0 && h.size > 0 && h.start == AllSizes(hs)
    ensures Tight(hs[k := h]) && AllSizes(hs[k := h]) == AllSizes(hs) + h.size
  {
    hide SumIf, Upto;
    var hs' := hs[k := h];
    forall j | 0 <= j < |hs| && hs[j].size > 0 ensures hs[j].start < h.start { TightBound(hs, j); }
    forall j | 0 <= j < |hs'| && hs'[j].size > 0 ensures hs'[j].start == SumIf(hs', Before(hs', hs'[j].start)) {
      var p := hs'[j].start;
      if j == k {
        SumSame(hs', hs, Before(hs', p), Upto(|hs|));
      } else {
        SumSame(hs', hs, Before(hs', p), Before(hs, p));
      }
    }
    var rest := Upto(|hs|) - {k};
    SumAdd(hs', rest, k);
    SumSame(hs', hs, rest, Upto(|hs|));
    assert rest + {k} == Upto(|hs|);
  }

  /** Where no dead header has a size and no live row is missing, all sizes are live sizes. */
  lemma {:induction false} AllLive(hs: seq<Header>)
    requires forall k :: 0 <= k < |hs| && hs[k].id == 0 ==> hs[k].size == 0
    ensures AllSizes(hs) == LiveSizes(hs)
  {
    SumSame(hs, hs, Upto(|hs|), LiveOnes(hs));
  }

  /** The bytes of a page after header `k` of `n` and its data, utilization and count were written. */
  lemma {:induction false} PutBytes(d: seq<Byte>, d1: seq<Byte>, k: nat, n: nat, h: Header, data: seq<Byte>, util: nat)
    requires Paged(d) && HEADER_SIZE * n <= POS_PREV_BLOCK && util < 0x1_0000
    requires var t := Get16(d, POS_TOTAL_HEADERS); k <= t && n == if k < t then t else t + 1
    requires Edited(d, d1, k) && HeaderAt(d1, k) == h && h.start + |data| <= Base(n)
    ensures var d' := Splice(Splice(Splice(d1, h.start, data), POS_UTILIZATION, Big16(util)), POS_TOTAL_HEADERS, Big16(n));
            && Paged(d') && Headers(d') == (if k < |Headers(d)| then Headers(d)[k := h] else Headers(d) + [h])
            && Zone(d') == Splice(Zone(d)[..Base(n)], h.start, data) && Get16(d', POS_UTILIZATION) == util
            && Get16(d', POS_PREV_BLOCK) == Get16(d, POS_PREV_BLOCK) && Get16(d', POS_NEXT_BLOCK) == Get16(d, POS_NEXT_BLOCK)
  {
    hide Get16, Big16, Headers;
    var d2 := Splice(d1, h.start, data);
    var d3 := Splice(d2, POS_UTILIZATION, Big16(util));
    var d' := Splice(d3, POS_TOTAL_HEADERS, Big16(n));
    PutTail(d, d2, util, n);
    HeadersAfter(d, d1, d', k, n, h);
    PutZone(d, d1, d', h.start, data, Base(n));
  }

  lemma {:induction false} PutTail(d: seq<Byte>, d2: seq<Byte>, util: nat, n: nat)
    requires |d| == |d2| == BLOCK_SIZE && util < 0x1_0000 && n < 0x1_0000
    requires forall i :: POS_PREV_BLOCK <= i < BLOCK_SIZE ==> d2[i] == d[i]
    ensures var d' := Splice(Splice(d2, POS_UTILIZATION, Big16(util)), POS_TOTAL_HEADERS, Big16(n));
            && Get16(d', POS_TOTAL_HEADERS) == n && Get16(d', POS_UTILIZATION) == util
            && Get16(d', POS_PREV_BLOCK) == Get16(d, POS_PREV_BLOCK) && Get16(d', POS_NEXT_BLOCK) == Get16(d, POS_NEXT_BLOCK)
            && forall i :: 0 <= i < POS_TOTAL_HEADERS ==> d'[i] == d2[i]
  {
    var d3 := Splice(d2, POS_UTILIZATION, Big16(util));
    Get16Splice(d2, POS_UTILIZATION, util);
    Get16Splice(d3, POS_TOTAL_HEADERS, n);
  }

  lemma {:induction false} PutZone(d: seq<Byte>, d1: seq<Byte>, d': seq<Byte>, start: nat, data: seq<Byte>, base: nat)
    requires |d| == |d1| == |d'| == BLOCK_SIZE && start + |data| <= base <= BLOCK_SIZE
    requires forall i :: 0 <= i < base ==> d1[i] == d[i]
    requires forall i :: 0 <= i < base ==> d'[i] == Splice(d1, start, data)[i]
    ensures d'[..base] == Splice(d[..base], start, data)
  {
  }

  lemma {:induction false} HeadersAfter(d: seq<Byte>, d1: seq<Byte>, d': seq<Byte>, k: nat, n: nat, h: Header)
    requires Paged(d) && Paged(d') && Get16(d', POS_TOTAL_HEADERS) == n && HEADER_SIZE * n <= POS_PREV_BLOCK
    requires var t := Get16(d, POS_TOTAL_HEADERS); k <= t && n == if k < t then t else t + 1
    requires Edited(d, d1, k) && HeaderAt(d1, k) == h
    requires forall i :: Base(n) <= i < POS_PREV_BLOCK ==> d'[i] == d1[i]
    ensures Headers(d') == if k < |Headers(d)| then Headers(d)[k := h] else Headers(d) + [h]
  {
    forall j | 0 <= j < n ensures HeaderAt(d', j) == if j == k then h else HeaderAt(d, j) {
      SameHeader(d1, d', j);
      if j != k { SameHeader(d, d1, j); }
    }
  }

  lemma {:induction false} SameHeader(d: seq<Byte>, d': seq<Byte>, k: nat)
    requires |d| == |d'| == BLOCK_SIZE && HEADER_SIZE * (k + 1) <= POS_PREV_BLOCK
    requires forall i :: Base(k + 1) <= i < Base(k) ==> d[i] == d'[i]
    ensures HeaderAt(d, k) == HeaderAt(d', k)
  {
  }

  /** Headers `hs` packed into `hs'`: same rows, dead headers without a size. */
  ghost predicate Packed(hs: seq<Header>, hs': seq<Header>) {
    && |hs'| == |hs| && Tight(hs')
    && forall k :: 0 <= k < |hs| ==> hs'[k] == hs[k].(start := hs'[k].start, size := if hs[k].id == 0 then 0 else hs[k].size)
  }

  /** Rows of non-zero size read the same through both lists of headers. */
  ghost predicate SameRows(zone: seq<Byte>, hs: seq<Header>, zone': seq<Byte>, hs': seq<Header>) {
    |hs| == |hs'| &&
    forall k :: 0 <= k < |hs'| && hs'[k].size > 0 ==>
      && hs[k].size == hs'[k].size && hs[k].start + hs[k].size <= |zone| && hs'[k].start + hs'[k].size <= |zone'|
      && zone'[hs'[k].start..hs'[k].start + hs'[k].size] == zone[hs[k].start..hs[k].start + hs[k].size]
  }

  lemma {:induction false} PackedSizes(hs: seq<Header>, hs': seq<Header>)
    requires Packed(hs, hs')
    ensures AllSizes(hs') == LiveSizes(hs') == LiveSizes(hs) && |hs'| == |hs|
  {
    hide Tight;
    AllLive(hs');
    SumSame(hs', hs, LiveOnes(hs'), LiveOnes(hs));
  }

  /** The headers once the new row has its place behind all others. */
  function Placed(hs: seq<Header>, k: nat, h: Header): seq<Header>
    requires k <= |hs|
  {
    if k < |hs| then hs[k := h] else hs + [h]
  }

  lemma {:induction false} PlacedTight(hs: seq<Header>, k: nat, h: Header)
    requires Tight(hs) && k <= |hs| && (k < |hs| ==> hs[k].size == 0) && h.size > 0 && h.start == AllSizes(hs)
    ensures Tight(Placed(hs, k, h)) && AllSizes(Placed(hs, k, h)) == AllSizes(hs) + h.size
  {
    hide Tight, SumIf;
    if k < |hs| {
      TightPut(hs, k, h);
    } else {
      var z := Header(0, 0, 0, NO_ROW);
      TightSnoc(hs, z);
      TightPut(hs + [z], k, h);
      assert (hs + [z])[k := h] == hs + [h];
    }
  }

  /** Which headers `Add` may take for a row with this id. */
  ghost predicate MayTake(hs: seq<Header>, q: nat, g: nat, k: nat, id: nat) {
    && k <= |hs| && id != 0 && (forall j :: 0 <= j < |hs| && j != k ==> hs[j].id != id)
    && (if g > 0 then k == q && k < |hs| && hs[k].id == id else k < |hs| ==> hs[k].id == 0)
    && (k == |hs| ==> forall j :: 0 <= j < |hs| ==> hs[j].id != 0)
  }

  lemma {:induction false} LiveNonEmpty(hs: seq<Header>, q: nat, g: nat, k: nat)
    requires g > 0 ==> q < |hs| && k == q
    requires HeadersOk(Restored(hs, q, g))
    ensures forall j :: 0 <= j < |hs| && j != k && hs[j].id != 0 ==> hs[j].size > 0
  {
    var fs := Restored(hs, q, g);
    assert forall j :: 0 <= j < |hs| && j != q ==> fs[j] == hs[j];
  }

  lemma {:induction false} PlacedOk(hs0: seq<Header>, q: nat, g: nat, hs: seq<Header>, k: nat, h: Header)
    requires g > 0 ==> q < |hs0| && hs0[q].id != 0 && hs0[q].size == 0
    requires HeadersOk(Restored(hs0, q, g)) && Packed(hs0, hs) && MayTake(hs0, q, g, k, h.id)
    requires h.size > 0 && h.start == LiveSizes(hs0)
    requires var n := if k < |hs| then |hs| else |hs| + 1; LiveSizes(hs0) + h.size <= Base(n)
    ensures HeadersOk(Placed(hs, k, h)) && LiveSizes(Placed(hs, k, h)) == LiveSizes(hs0) + h.size
  {
    hide Tight, SumIf, Upto;
    PackedSizes(hs0, hs);
    PlacedTight(hs, k, h);
    AllLive(Placed(hs, k, h));
    LiveNonEmpty(hs0, q, g, k);
    var fs, hs' := Restored(hs0, q, g), Placed(hs, k, h);
    assert forall j :: 0 <= j < |hs0| ==> fs[j].id == hs0[j].id == hs[j].id;
    forall i, j | 0 <= i < j < |hs'| && hs'[i].id != 0 ensures hs'[i].id != hs'[j].id {
      if i != k && j != k { assert fs[i].id != fs[j].id; }
    }
  }

  lemma {:induction false} PlacedView(zone0: seq<Byte>, hs0: seq<Header>, zone: seq<Byte>, hs: seq<Header>, k: nat, h: Header, data: seq<Byte>, n: nat)
    requires Bounded(zone0, hs0) && Packed(hs0, hs) && SameRows(zone0, hs0, zone, hs) && k <= |hs|
    requires forall j :: 0 <= j < |hs| && j != k && hs0[j].id != 0 ==> hs0[j].size > 0
    requires h.id != 0 && h.size == |data| && h.start == AllSizes(hs) && h.chain == NO_ROW && h.start + |data| <= n <= |zone|
    ensures var zone', hs' := Splice(zone[..n], h.start, data), Placed(hs, k, h);
            && Bounded(zone', hs')
            && Slots(zone', hs') == (if k < |hs0| then Slots(zone0, hs0)[k := Row(h.id, data, NO_ROW)] else Slots(zone0, hs0) + [Row(h.id, data, NO_ROW)])
  {
    hide SumIf;
    var zone', hs' := Splice(zone[..n], h.start, data), Placed(hs, k, h);
    forall j | 0 <= j < |hs'| && hs'[j].id != 0
      ensures hs'[j].start + hs'[j].size <= |zone'|
      ensures zone'[hs'[j].start..hs'[j].start + hs'[j].size] == if j == k then data else zone0[hs0[j].start..hs0[j].start + hs0[j].size]
    {
      if j != k {
        TightBound(hs, j);
        assert zone'[hs[j].start..hs[j].start + hs[j].size] == zone[hs[j].start..hs[j].start + hs[j].size];
      }
    }
  }

  lemma {:induction false} AddPageOk(hs0: seq<Header>, q: nat, g: nat, hs: seq<Header>, d': seq<Byte>, k: nat, h: Header)
    requires g > 0 ==> q < |hs0| && hs0[q].id != 0 && hs0[q].size == 0
    requires HeadersOk(Restored(hs0, q, g)) && Packed(hs0, hs) && MayTake(hs0, q, g, k, h.id)
    requires Paged(d') && Headers(d') == Placed(hs, k, h) && h.size > 0 && h.start == LiveSizes(hs0)
    requires Get16(d', POS_UTILIZATION) == MIN_UTILIZATION + HEADER_SIZE * |Placed(hs, k, h)| + LiveSizes(hs0) + h.size <= BLOCK_SIZE
    ensures PageOk(d', 0, 0)
  {
    hide Tight, SumIf, Headers, Upto, LiveOnes, HeadersOk;
    PlacedOk(hs0, q, g, hs, k, h);
  }

  /** After `Add` the page is as it should be and shows the new row; no other row has changed. */
  lemma {:induction false} AddOk(d0: seq<Byte>, q: nat, g: nat, d: seq<Byte>, d': seq<Byte>, k: nat, id: nat, data: seq<Byte>)
    requires PageOk(d0, q, g) && Viewed(d0) && Paged(d) && Paged(d') && data != []
    requires Packed(Headers(d0), Headers(d)) && SameRows(Zone(d0), Headers(d0), Zone(d), Headers(d))
    requires MayTake(Headers(d0), q, g, k, id) && k <= |Headers(d0)| && (g > 0 ==> k == q) && id != 0
    requires var n := if k < |Headers(d0)| then |Headers(d0)| else |Headers(d0)| + 1;
             var util := MIN_UTILIZATION + HEADER_SIZE * n + LiveSizes(Headers(d0)) + |data|;
             var h := Header(id, LiveSizes(Headers(d0)), |data|, NO_ROW);
             && util <= BLOCK_SIZE && Headers(d') == Placed(Headers(d), k, h) && h.start + |data| <= Base(n) <= |Zone(d)|
             && Zone(d') == Splice(Zone(d)[..Base(n)], h.start, data) && Get16(d', POS_UTILIZATION) == util
    requires Get16(d', POS_PREV_BLOCK) == Get16(d0, POS_PREV_BLOCK) && Get16(d', POS_NEXT_BLOCK) == Get16(d0, POS_NEXT_BLOCK)
    ensures PageOk(d', 0, 0) && Viewed(d') && View(d') == PutRow(View(d0), k, id, data)
  {
    hide Tight, SumIf, Headers, Zone, Upto, LiveOnes, SameRows, Bounded, HeadersOk, Packed, MayTake, Slots, SlotOf, Splice, Get16, AllSizes, LiveSizes;
    var hs0, hs := Headers(d0), Headers(d);
    var h := Header(id, LiveSizes(hs0), |data|, NO_ROW);
    PackedSizes(hs0, hs);
    AddPageOk(hs0, q, g, hs, d', k, h);
    LiveNonEmpty(hs0, q, g, k);
    PlacedView(Zone(d0), hs0, Zone(d), hs, k, h, data, Base(|hs| + if k < |hs| then 0 else 1));
  }

  // ---------- Choosing a slot ----------

  /** What a search of the headers for an id, then for a dead header, comes back with. */
  ghost predicate Chosen(hs: seq<Header>, id: nat, k: nat) {
    || (k < |hs| && hs[k].id == id)
    || ((forall j :: 0 <= j < |hs| ==> hs[j].id != id) && if k < |hs| then hs[k].id == 0 else k == |hs| && forall j :: 0 <= j < |hs| ==> hs[j].id != 0)
  }

  /** Without a header of this id, no dead header starts below header `k`. */
  ghost predicate FirstDead(hs: seq<Header>, id: nat, k: nat) {
    (forall j :: 0 <= j < |hs| ==> hs[j].id != id) ==> forall j :: 0 <= j < |hs| && hs[j].id == 0 ==> k < |hs| && hs[k].start <= hs[j].start
  }

  /** Headers `hs'` are `hs` after header `h` was put in slot `k`: behind all others, or among them once they were compacted. */
  ghost predicate RowPut(hs: seq<Header>, hs': seq<Header>, k: nat, h: Header) {
    if k >= |hs| then hs' == hs + [h]
    else |hs'| == |hs| && hs'[k] == h && exists order :: Orders(order, |hs|) && SortedBy(hs, order) && Compacted(hs, hs', order, k)
  }

  lemma {:induction false} ChosenTakes(d: seq<Byte>, q: nat, g: nat, id: nat, k: nat)
    requires PageOk(d, q, g) && Viewed(d) && id != 0 && Chosen(Headers(d), id, k)
    requires var rows := View(d).rows; if g > 0 then rows[q].Row? && rows[q].id == id else !HasId(rows, id)
    ensures MayTake(Headers(d), q, g, k, id) && TakesSlot(View(d).rows, id, k) && k <= |Headers(d)| && (g > 0 ==> k == q)
  {
    hide PageOk, Headers, Zone, Restored, Get16;
    var hs, rows := Headers(d), View(d).rows;
    ViewIds(d, q, g);
    ViewKinds(d);
    GapOnly(d, q, g);
    if g > 0 { assert rows[q].Row? && rows[q].id == id; }
  }

  lemma {:induction false} ViewKinds(d: seq<Byte>)
    requires Viewed(d)
    ensures var hs, rows := Headers(d), View(d).rows;
            |rows| == |hs| && forall j :: 0 <= j < |hs| ==> (hs[j].id == 0 <==> rows[j].Free?) && (rows[j].Row? ==> rows[j].id == hs[j].id)
  {
    hide HeaderAt, Zone;
  }

  /** Only the row softly removed is without data. */
  lemma {:induction false} GapOnly(d: seq<Byte>, q: nat, g: nat)
    requires PageOk(d, q, g)
    ensures g > 0 ==> q < |Headers(d)| && Headers(d)[q].id != 0 && Headers(d)[q].size == 0
    ensures forall k :: 0 <= k < |Headers(d)| && Headers(d)[k].id != 0 && (g == 0 || k != q) ==> Headers(d)[k].size > 0
  {
    hide Tight, AllSizes, LiveSizes, Headers;
    var fs := Restored(Headers(d), q, g);
    assert forall k :: 0 <= k < |Headers(d)| && (g == 0 || k != q) ==> fs[k] == Headers(d)[k];
  }

  /** On a page as it should be, rows have ids and data. */
  lemma {:induction false} ViewRows(d: seq<Byte>)
    requires PageOk(d, 0, 0) && Viewed(d)
    ensures forall k :: 0 <= k < |View(d).rows| && View(d).rows[k].Row? ==> View(d).rows[k].id != 0 && View(d).rows[k].data != []
  {
    hide PageOk, Headers, Zone;
    GapOnly(d, 0, 0);
  }

  /** Data within the free space fits, header and all. */
  lemma {:induction false} SpaceFor(rows: seq<Slot>, id: nat, k: nat, size: nat)
    requires Used(rows) <= BLOCK_SIZE && TakesSlot(rows, id, k) && 0 < size <= FreeSpace(rows)
    ensures Used(rows) + (if k < |rows| then 0 else HEADER_SIZE) + size <= BLOCK_SIZE
  {
  }

  // ---------- Pointers, ids and chains ----------

  /** Pages that differ in the two pointers only. */
  ghost predicate Repointed(d: seq<Byte>, d': seq<Byte>) {
    |d| == |d'| == BLOCK_SIZE && forall i :: 0 <= i < BLOCK_SIZE && !(POS_PREV_BLOCK <= i < POS_TOTAL_HEADERS) ==> d[i] == d'[i]
  }

  lemma {:induction false} RepointedOk(d: seq<Byte>, d': seq<Byte>)
    requires Paged(d) && Repointed(d, d')
    ensures Paged(d') && Headers(d') == Headers(d) && Zone(d') == Zone(d) && UtilizationOf(d') == UtilizationOf(d)
  {
    forall k | 0 <= k < |Headers(d)| ensures HeaderAt(d', k) == HeaderAt(d, k) { SameHeader(d, d', k); }
  }

  lemma {:induction false} PrevSet(d: seq<Byte>, v: nat)
    requires Viewed(d) && v < 0x1_0000
    ensures var d' := Splice(d, POS_PREV_BLOCK, Big16(v));
            Viewed(d') && View(d') == View(d).(prev := v) && forall q, g :: PageOk(d, q, g) ==> PageOk(d', q, g)
  {
    var d' := Splice(d, POS_PREV_BLOCK, Big16(v));
    Get16Splice(d, POS_PREV_BLOCK, v);
    RepointedOk(d, d');
  }

  lemma {:induction false} NextSet(d: seq<Byte>, v: nat)
    requires Viewed(d) && v < 0x1_0000
    ensures var d' := Splice(d, POS_NEXT_BLOCK, Big16(v));
            Viewed(d') && View(d') == View(d).(next := v) && forall q, g :: PageOk(d, q, g) ==> PageOk(d', q, g)
  {
    var d' := Splice(d, POS_NEXT_BLOCK, Big16(v));
    Get16Splice(d, POS_NEXT_BLOCK, v);
    RepointedOk(d, d');
  }

  lemma {:induction false} SameTail(d: seq<Byte>, d': seq<Byte>)
    requires |d| == |d'| == BLOCK_SIZE && forall i :: POS_PREV_BLOCK <= i < BLOCK_SIZE ==> d[i] == d'[i]
    ensures Get16(d', POS_PREV_BLOCK) == Get16(d, POS_PREV_BLOCK) && Get16(d', POS_NEXT_BLOCK) == Get16(d, POS_NEXT_BLOCK)
    ensures Get16(d', POS_UTILIZATION) == Get16(d, POS_UTILIZATION) && Get16(d', POS_TOTAL_HEADERS) == Get16(d, POS_TOTAL_HEADERS)
  {
  }

  /** A row gets another chain. */
  lemma {:induction false} ChainSet(d: seq<Byte>, q: nat, g: nat, k: nat, row: RowID)
    requires PageOk(d, q, g) && Viewed(d) && k < |Headers(d)| && Headers(d)[k].id != 0 && row.block < 0x1_0000 && row.local < 0x1_0000
    ensures var d' := Splice(Splice(d, Base(k + 1) + 8, Big16(row.block)), Base(k + 1) + 10, Big16(row.local));
            && PageOk(d', q, g) && Viewed(d')
            && View(d') == View(d).(rows := View(d).rows[k := View(d).rows[k].(chain := row)])
            && Headers(d') == Headers(d)[k := Headers(d)[k].(chain := row)]
  {
    hide SumIf, HeaderAt, Splice, HeadersOk, LiveSizes, Get16;
    var d' := Splice(Splice(d, Base(k + 1) + 8, Big16(row.block)), Base(k + 1) + 10, Big16(row.local));
    var hs, hs' := Headers(d), Headers(d)[k := Headers(d)[k].(chain := row)];
    SetChain(d, k, row);
    EditedRest(d, d', k);
    SameTail(d, d');
    SameHeaders(Restored(hs, q, g), Restored(hs', q, g));
    SameHeaders(hs, hs');
  }

  /** Chains do not matter for the space a page takes. */
  lemma {:induction false} SameHeaders(hs: seq<Header>, hs': seq<Header>)
    requires |hs| == |hs'| && forall k :: 0 <= k < |hs| ==> hs'[k] == hs[k].(chain := hs'[k].chain)
    ensures HeadersOk(hs) ==> HeadersOk(hs')
    ensures LiveSizes(hs') == LiveSizes(hs)
  {
    hide SumIf, Tight;
    SameShape(hs, hs');
    SumSame(hs', hs, LiveOnes(hs'), LiveOnes(hs));
  }

  /** Only positions, sizes and which headers are live and different matter. */
  lemma {:induction false} SameShape(hs: seq<Header>, hs': seq<Header>)
    requires |hs| == |hs'| && forall k :: 0 <= k < |hs| ==> hs'[k].start == hs[k].start && hs'[k].size == hs[k].size
    ensures Tight(hs) ==> Tight(hs')
    ensures AllSizes(hs') == AllSizes(hs)
  {
    hide SumIf, Upto;
    SumSame(hs', hs, Upto(|hs|), Upto(|hs|));
    forall k | 0 <= k < |hs| ensures SumIf(hs', Before(hs', hs'[k].start)) == SumIf(hs, Before(hs, hs[k].start)) {
      SumSame(hs', hs, Before(hs', hs'[k].start), Before(hs, hs[k].start));
    }
  }

  /** Sixteen bits of a difference. */
  function Wrapped(x: int): nat {
    x % 0x1_0000
  }

  /** A row is taken off a page: its id goes, its bytes and header stay. */
  lemma {:induction false} IdCleared(d: seq<Byte>, k: nat)
    requires PageOk(d, 0, 0) && Viewed(d) && k < |Headers(d)| && Headers(d)[k].id != 0
    ensures UtilizationOf(d) >= MIN_UTILIZATION + Headers(d)[k].size
    ensures var d' := Splice(Splice(d, Base(k + 1), Big32(0)), POS_UTILIZATION, Big16(UtilizationOf(d) - Headers(d)[k].size));
            && PageOk(d', 0, 0) && Viewed(d') && View(d') == View(d).(rows := View(d).rows[k := Free])
            && Headers(d') == Headers(d)[k := Headers(d)[k].(id := 0)]
  {
    hide SumIf, HeaderAt, Splice;
    var hs, hs' := Headers(d), Headers(d)[k := Headers(d)[k].(id := 0)];
    var d1 := Splice(d, Base(k + 1), Big32(0));
    SetId(d, k, 0);
    EditedRest(d, d1, k);
    SumAdd(hs, LiveOnes(hs'), k);
    assert LiveOnes(hs') + {k} == LiveOnes(hs);
    SumSame(hs', hs, LiveOnes(hs'), LiveOnes(hs'));
    SameShape(hs, hs');
    SameTail(d, d1);
    UtilSet(d1, UtilizationOf(d) - hs[k].size);
  }

  /** A free slot has no row to take off: its id is zero already, but the size in its header goes off the
      utilization once more, so that the page is as it should be afterwards if and only if that size is zero. */
  lemma {:induction false} FreeCleared(d: seq<Byte>, k: nat)
    requires PageOk(d, 0, 0) && Viewed(d) && k < |Headers(d)| && Headers(d)[k].id == 0
    ensures var d' := Splice(Splice(d, Base(k + 1), Big32(0)), POS_UTILIZATION, Big16(Wrapped(UtilizationOf(d) - Headers(d)[k].size)));
            (PageOk(d', 0, 0) <==> Headers(d)[k].size == 0) && Viewed(d') && View(d') == View(d) && Headers(d') == Headers(d)
  {
    hide SumIf, HeaderAt, Splice, HeadersOk, LiveSizes;
    var hs, d1 := Headers(d), Splice(d, Base(k + 1), Big32(0));
    SetId(d, k, 0);
    assert hs[k := hs[k].(id := 0)] == hs;
    EditedRest(d, d1, k);
    SameTail(d, d1);
    UtilSet(d1, Wrapped(UtilizationOf(d) - hs[k].size));
  }

  lemma {:induction false} UtilSet(d: seq<Byte>, u: nat)
    requires Paged(d) && u < 0x1_0000
    ensures var d' := Splice(d, POS_UTILIZATION, Big16(u));
            && Paged(d') && Headers(d') == Headers(d) && Zone(d') == Zone(d) && UtilizationOf(d') == (if u == 0 then MIN_UTILIZATION else u)
            && Get16(d', POS_PREV_BLOCK) == Get16(d, POS_PREV_BLOCK) && Get16(d', POS_NEXT_BLOCK) == Get16(d, POS_NEXT_BLOCK)
  {
    var d' := Splice(d, POS_UTILIZATION, Big16(u));
    Get16Splice(d, POS_UTILIZATION, u);
    forall k | 0 <= k < |Headers(d)| ensures HeaderAt(d', k) == HeaderAt(d, k) { SameHeader(d, d', k); }
  }

  lemma {:induction false} Cleared(d: seq<Byte>)
    requires |d| == BLOCK_SIZE
    ensures var d' := Splice(Splice(d, POS_TOTAL_HEADERS, Big16(0)), POS_UTILIZATION, Big16(0));
            PageOk(d', 0, 0) && Viewed(d') && View(d') == PageView([], Get16(d, POS_PREV_BLOCK), Get16(d, POS_NEXT_BLOCK))
  {
    var d1 := Splice(d, POS_TOTAL_HEADERS, Big16(0));
    Get16Splice(d, POS_TOTAL_HEADERS, 0);
    Get16Splice(d1, POS_UTILIZATION, 0);
  }

  // ---------- Soft removal ----------

  /** The headers after row `k` was softly removed: zeros run two bytes into header `k - 1`. */
  function Spilled(hs: seq<Header>, k: nat): seq<Header>
    requires k < |hs|
  {
    var a := hs[k := hs[k].(size := 0, chain := NO_ROW)];
    if k > 0 then a[k - 1 := a[k - 1].(id := a[k - 1].id % 0x1_0000)] else a
  }

  /** The same on rows; for the first row the zeros run into the pointer to the previous page. */
  function SoftView(v: PageView, k: nat): PageView
    requires k < |v.rows|
  {
    var a := if v.rows[k].Row? then v.rows[k := Row(v.rows[k].id, [], NO_ROW)] else v.rows;
    if k == 0 then PageView(a, 0, v.next)
    else v.(rows := a[k - 1 := if IdOf(a[k - 1]) % 0x1_0000 == 0 then Free else a[k - 1].(id := a[k - 1].id % 0x1_0000)])
  }

  /** Soft removal leaves all other rows alone exactly when the row before has an id below 2^16. */
  lemma {:induction false} SoftExact(v: PageView, k: nat)
    requires k < |v.rows| && v.rows[k].Row? && forall j :: 0 <= j < |v.rows| && v.rows[j].Row? ==> v.rows[j].id != 0
    ensures SoftView(v, k).rows == v.rows[k := Row(v.rows[k].id, [], NO_ROW)] <==> k == 0 || IdOf(v.rows[k - 1]) < 0x1_0000
    ensures SoftView(v, k).prev == v.prev <==> k != 0 || v.prev == 0
    ensures SoftView(v, k).next == v.next
  {
    if k > 0 {
      var a, r := v.rows[k := Row(v.rows[k].id, [], NO_ROW)], SoftView(v, k).rows;
      assert r == a <==> r[k - 1] == a[k - 1];
    }
  }

  lemma {:induction false} ThreeZeros(d: seq<Byte>, p: nat)
    requires p + 8 <= |d|
    ensures var d' := Splice(Splice(Splice(d, p, Big32(0)), p + 2, Big32(0)), p + 4, Big32(0));
            forall i :: 0 <= i < |d| ==> d'[i] == if p <= i < p + 8 then 0 else d[i]
  {
    assert Big32(0) == [0, 0, 0, 0];
  }

  lemma {:induction false} SoftBytes(d: seq<Byte>, d': seq<Byte>, k: nat)
    requires Paged(d) && k < |Headers(d)| && |d'| == BLOCK_SIZE
    requires var p := Base(k + 1) + 6; forall i :: 0 <= i < BLOCK_SIZE ==> d'[i] == if p <= i < p + 8 then 0 else d[i]
    ensures Paged(d') && Headers(d') == Spilled(Headers(d), k) && Zone(d') == Zone(d)
    ensures Get16(d', POS_PREV_BLOCK) == (if k == 0 then 0 else Get16(d, POS_PREV_BLOCK))
    ensures Get16(d', POS_NEXT_BLOCK) == Get16(d, POS_NEXT_BLOCK) && UtilizationOf(d') == UtilizationOf(d)
  {
    hide HeaderAt;
    forall j | 0 <= j < |Headers(d)| ensures HeaderAt(d', j) == Spilled(Headers(d), k)[j] {
      if j == k {
        SoftSelf(d, d', k);
      } else if j + 1 == k {
        SoftNeighbour(d, d', j);
      } else {
        SameHeader(d, d', j);
      }
    }
  }

  lemma {:induction false} SoftSelf(d: seq<Byte>, d': seq<Byte>, k: nat)
    requires |d| == |d'| == BLOCK_SIZE && HEADER_SIZE * (k + 1) <= POS_PREV_BLOCK
    requires forall i :: Base(k + 1) <= i < Base(k) ==> d'[i] == if i < Base(k + 1) + 6 then d[i] else 0
    ensures HeaderAt(d', k) == HeaderAt(d, k).(size := 0, chain := NO_ROW)
  {
  }

  lemma {:induction false} SoftNeighbour(d: seq<Byte>, d': seq<Byte>, j: nat)
    requires |d| == |d'| == BLOCK_SIZE && HEADER_SIZE * (j + 1) <= POS_PREV_BLOCK
    requires forall i :: Base(j + 1) <= i < Base(j) ==> d'[i] == if i < Base(j + 1) + 2 then 0 else d[i]
    ensures HeaderAt(d', j) == HeaderAt(d, j).(id := HeaderAt(d, j).id % 0x1_0000)
  {
    var p := Base(j + 1);
    assert Get16(d', p) == 0 && Get16(d', p + 2) == Get16(d, p + 2);
    assert Get32(d, p) % 0x1_0000 == Get16(d, p + 2);
  }

  lemma {:induction false} SoftRest(d: seq<Byte>, d1: seq<Byte>, k: nat)
    requires PageOk(d, 0, 0) && Viewed(d) && k < |Headers(d)|
    requires Paged(d1) && Headers(d1) == Spilled(Headers(d), k) && Zone(d1) == Zone(d) && UtilizationOf(d1) == UtilizationOf(d)
    requires Get16(d1, POS_PREV_BLOCK) == (if k == 0 then 0 else Get16(d, POS_PREV_BLOCK)) && Get16(d1, POS_NEXT_BLOCK) == Get16(d, POS_NEXT_BLOCK)
    ensures var d' := Splice(d1, POS_UTILIZATION, Big16(Wrapped(UtilizationOf(d) - Headers(d)[k].size)));
            && Viewed(d') && View(d') == SoftView(View(d), k) && Headers(d') == Spilled(Headers(d), k)
            && (Headers(d)[k].id != 0 && (k == 0 || Headers(d)[k - 1].id < 0x1_0000) ==> PageOk(d', k, Headers(d)[k].size))
  {
    hide SumIf, HeaderAt, Splice, HeadersOk, Get16, LiveOnes, Spilled, SoftView, Big16, PageOk;
    UtilSet(d1, Wrapped(UtilizationOf(d) - Headers(d)[k].size));
    SoftSlots(Zone(d), Headers(d), k, View(d));
    SoftPointers(View(d), k);
    if Headers(d)[k].id != 0 && (k == 0 || Headers(d)[k - 1].id < 0x1_0000) {
      SoftPage(d, Splice(d1, POS_UTILIZATION, Big16(Wrapped(UtilizationOf(d) - Headers(d)[k].size))), k);
    }
  }

  lemma {:induction false} SoftPointers(v: PageView, k: nat)
    requires k < |v.rows|
    ensures SoftView(v, k).prev == (if k == 0 then 0 else v.prev) && SoftView(v, k).next == v.next
  {
  }

  lemma {:induction false} SoftPage(d: seq<Byte>, d': seq<Byte>, k: nat)
    requires PageOk(d, 0, 0) && k < |Headers(d)| && Headers(d)[k].id != 0 && (k == 0 || Headers(d)[k - 1].id < 0x1_0000)
    requires var u := Wrapped(UtilizationOf(d) - Headers(d)[k].size);
             Paged(d') && Headers(d') == Spilled(Headers(d), k) && UtilizationOf(d') == if u == 0 then MIN_UTILIZATION else u
    ensures PageOk(d', k, Headers(d)[k].size)
  {
    hide SumIf, HeaderAt, HeadersOk, Get16, LiveOnes;
    SoftSizes(Headers(d), k);
  }

  lemma {:induction false} SoftSlots(zone: seq<Byte>, hs: seq<Header>, k: nat, v: PageView)
    requires Bounded(zone, hs) && k < |hs| && v.rows == Slots(zone, hs)
    ensures Bounded(zone, Spilled(hs, k)) && Slots(zone, Spilled(hs, k)) == SoftView(v, k).rows
  {
    forall j | 0 <= j < |hs| ensures SlotOf(zone, Spilled(hs, k)[j]) == SoftView(v, k).rows[j] { }
  }

  lemma {:induction false} SoftSizes(hs: seq<Header>, k: nat)
    requires HeadersOk(hs) && k < |hs| && hs[k].id != 0
    ensures hs[k].size > 0 && LiveSizes(hs) >= hs[k].size
    ensures k == 0 || hs[k - 1].id < 0x1_0000 ==>
              HeadersOk(Restored(Spilled(hs, k), k, hs[k].size)) && LiveSizes(Spilled(hs, k)) == LiveSizes(hs) - hs[k].size
  {
    hide SumIf, Tight;
    var hs' := Spilled(hs, k);
    SumAdd(hs, LiveOnes(hs) - {k}, k);
    assert LiveOnes(hs) - {k} + {k} == LiveOnes(hs);
    if k == 0 || hs[k - 1].id < 0x1_0000 {
      assert forall j :: 0 <= j < |hs| ==> hs'[j] == if j == k then hs[j].(size := 0, chain := NO_ROW) else hs[j];
      SumSame(hs', hs, LiveOnes(hs'), LiveOnes(hs) - {k});
      SameHeaders(hs, Restored(hs', k, hs[k].size));
    }
  }
}
