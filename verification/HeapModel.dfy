/** Rows chained over pages, and the doubly linked list of pages. */
module HeapModel {
  import opened RowIDs
  import opened DataBlocks
  import opened RecordPages
  import opened PageViews

  type Pages = seq<PageView>

  // ---------- Rows and chains ----------

  predicate IsRow(pages: Pages, r: RowID) {
    r.block < |pages| && r.local < |pages[r.block].rows| && pages[r.block].rows[r.local].Row?
  }

  function RowAt(pages: Pages, r: RowID): (s: Slot)
    requires IsRow(pages, r)
    ensures s.Row?
  {
    pages[r.block].rows[r.local]
  }

  predicate ChainedTo(pages: Pages, r: RowID, s: RowID) {
    IsRow(pages, r) && RowAt(pages, r).chain == s && s.block != 0
  }

  /** The rows of a path are chained one to the next, and the last one ends the chain. */
  ghost predicate IsChain(pages: Pages, path: seq<RowID>) {
    && path != [] && (forall i :: 0 <= i < |path| ==> IsRow(pages, path[i]))
    && (forall i :: 0 < i < |path| ==> ChainedTo(pages, path[i - 1], path[i]))
    && RowAt(pages, path[|path| - 1]).chain.block == 0
  }

  ghost function DataOf(pages: Pages, path: seq<RowID>): seq<Byte>
    requires forall i :: 0 <= i < |path| ==> IsRow(pages, path[i])
  {
    if path == [] then [] else DataOf(pages, path[..|path| - 1]) + RowAt(pages, path[|path| - 1]).data
  }

  /** What a record that starts at row `r` holds. */
  ghost predicate Stored(pages: Pages, r: RowID, data: seq<Byte>) {
    exists path :: IsChain(pages, path) && path[0] == r && DataOf(pages, path) == data
  }

  ghost predicate SameRow(pages: Pages, pages': Pages, r: RowID) {
    IsRow(pages, r) && IsRow(pages', r) && RowAt(pages, r) == RowAt(pages', r)
  }

  ghost predicate AllSame(pages: Pages, pages': Pages, path: seq<RowID>) {
    forall i {:trigger path[i]} :: 0 <= i < |path| ==> SameRow(pages, pages', path[i])
  }

  lemma {:induction false} DataFrame(pages: Pages, pages': Pages, path: seq<RowID>)
    requires AllSame(pages, pages', path)
    ensures DataOf(pages', path) == DataOf(pages, path)
  {
    if path != [] {
      DataFrame(pages, pages', path[..|path| - 1]);
    }
  }

  /** A record whose rows have not changed is stored as before. */
  lemma {:induction false} ChainFrame(pages: Pages, pages': Pages, path: seq<RowID>)
    requires IsChain(pages, path) && AllSame(pages, pages', path)
    ensures IsChain(pages', path) && DataOf(pages', path) == DataOf(pages, path)
  {
    DataFrame(pages, pages', path);
  }

  /** A row starts only one chain. */
  lemma {:induction false} ChainUnique(pages: Pages, p: seq<RowID>, q: seq<RowID>)
    requires IsChain(pages, p) && IsChain(pages, q) && p[0] == q[0]
    ensures p == q
  {
    var n := if |p| < |q| then |p| else |q|;
    if n < |p| { ChainGoesOn(pages, p, n); }
    if n < |q| { ChainGoesOn(pages, q, n); }
    forall i | 0 <= i < n ensures p[i] == q[i] { ChainAgree(pages, p, q, i); }
  }

  lemma {:induction false} ChainGoesOn(pages: Pages, p: seq<RowID>, n: nat)
    requires IsChain(pages, p) && 0 < n < |p|
    ensures RowAt(pages, p[n - 1]).chain.block != 0
  {
    assert ChainedTo(pages, p[n - 1], p[n]);
  }

  lemma {:induction false} ChainAgree(pages: Pages, p: seq<RowID>, q: seq<RowID>, i: nat)
    requires IsChain(pages, p) && IsChain(pages, q) && p[0] == q[0] && i < |p| && i < |q|
    ensures p[i] == q[i]
  {
    if i > 0 { ChainAgree(pages, p, q, i - 1); }
  }

  /** So a record has only one content. */
  lemma {:induction false} StoredUnique(pages: Pages, r: RowID, x: seq<Byte>, y: seq<Byte>)
    requires Stored(pages, r, x) && Stored(pages, r, y)
    ensures x == y
  {
    var p :| IsChain(pages, p) && p[0] == r && DataOf(pages, p) == x;
    var q :| IsChain(pages, q) && q[0] == r && DataOf(pages, q) == y;
    ChainUnique(pages, p, q);
  }

  // ---------- The list of pages ----------

  ghost predicate Linked(pages: Pages, list: seq<nat>) {
    && list != [] && (forall i :: 0 <= i < |list| ==> 2 < list[i] < |pages|)
    && (forall i, j :: 0 <= i < j < |list| ==> list[i] != list[j])
    && (forall i :: 0 <= i < |list| ==> LinkAt(pages, list, i))
  }

  /** Page `i` of the list points to the next one; its pointer back is exact or lost. */
  predicate LinkAt(pages: Pages, list: seq<nat>, i: nat)
    requires i < |list| && list[i] < |pages|
  {
    && pages[list[i]].next == (if i + 1 < |list| then list[i + 1] else 0)
    && (BackAt(pages, list, i) || pages[list[i]].prev == 0)
  }

  predicate BackAt(pages: Pages, list: seq<nat>, i: nat)
    requires i < |list| && list[i] < |pages|
  {
    pages[list[i]].prev == if i > 0 then list[i - 1] else 0
  }

  /** The pages of the list whose pointer back is not exact. */
  ghost function Lost(pages: Pages, list: seq<nat>): set<nat> {
    set i | 0 <= i < |list| && list[i] < |pages| && !BackAt(pages, list, i) :: list[i]
  }

  lemma {:induction false} LostAt(pages: Pages, list: seq<nat>, i: nat)
    requires i < |list| && list[i] < |pages| && forall a, b :: 0 <= a < b < |list| ==> list[a] != list[b]
    ensures list[i] in Lost(pages, list) <==> !BackAt(pages, list, i)
  {
    if list[i] in Lost(pages, list) {
      var j :| 0 <= j < |list| && list[j] < |pages| && !BackAt(pages, list, j) && list[j] == list[i];
      assert i == j;
    }
  }

  lemma {:induction false} LostIn(pages: Pages, list: seq<nat>)
    ensures forall b :: b in Lost(pages, list) ==> b in list
  {
  }

  /** Where a block stands in the list. */
  ghost function Pos(list: seq<nat>, b: nat): (i: nat)
    ensures b in list ==> i < |list| && list[i] == b
    ensures b !in list ==> i == |list|
  {
    if list == [] then 0 else if list[0] == b then 0 else 1 + Pos(list[1..], b)
  }

  lemma {:induction false} PosIs(list: seq<nat>, i: nat)
    requires i < |list| && forall a, b :: 0 <= a < b < |list| ==> list[a] != list[b]
    ensures Pos(list, list[i]) == i
  {
    var j := Pos(list, list[i]);
    assert list[j] == list[i];
  }

  /** A chained row lies on a later page of the list and has the same id. */
  ghost predicate ChainsOn(pages: Pages, list: seq<nat>, r: RowID)
    requires IsRow(pages, r)
  {
    var c := RowAt(pages, r).chain;
    c.block != 0 ==> c.block in list && Pos(list, r.block) < Pos(list, c.block) && IsRow(pages, c) && RowAt(pages, c).id == RowAt(pages, r).id
  }

  ghost predicate Forward(pages: Pages, list: seq<nat>) {
    forall r :: IsRow(pages, r) && r.block in list ==> ChainsOn(pages, list, r)
  }

  /** No row is chained to by two others. */
  ghost predicate Injective(pages: Pages, list: seq<nat>) {
    forall r: RowID, s: RowID, t: RowID :: r.block in list && s.block in list && ChainedTo(pages, r, t) && ChainedTo(pages, s, t) ==> r == s
  }

  ghost predicate HeapOk(pages: Pages, list: seq<nat>) {
    Linked(pages, list) && Forward(pages, list) && Injective(pages, list)
  }

  /** A row that starts a record. */
  ghost predicate Head(pages: Pages, list: seq<nat>, r: RowID) {
    IsRow(pages, r) && r.block in list &&
    forall s: RowID :: s.block in list ==> !ChainedTo(pages, s, r)
  }

  /** Where the rows of a path lie: on ever later pages of the list, all with the same id. */
  ghost predicate Onward(pages: Pages, list: seq<nat>, path: seq<RowID>) {
    && path != [] && IsRow(pages, path[0])
    && (forall i :: 0 <= i < |path| ==> path[i].block in list && IsRow(pages, path[i]) && RowAt(pages, path[i]).id == RowAt(pages, path[0]).id)
    && (forall i, j :: 0 <= i < j < |path| ==> Pos(list, path[i].block) < Pos(list, path[j].block))
  }

  lemma {:induction false} OnwardCons(pages: Pages, list: seq<nat>, r: RowID, rest: seq<RowID>)
    requires Onward(pages, list, rest) && r.block in list && IsRow(pages, r)
    requires RowAt(pages, r).id == RowAt(pages, rest[0]).id && Pos(list, r.block) < Pos(list, rest[0].block)
    ensures Onward(pages, list, [r] + rest)
  {
    var path := [r] + rest;
    forall i, j | 0 <= i < j < |path| ensures Pos(list, path[i].block) < Pos(list, path[j].block) {
      assert path[j] == rest[j - 1];
      if i > 0 { assert path[i] == rest[i - 1]; }
      if j > 1 { assert Pos(list, rest[0].block) < Pos(list, rest[j - 1].block); }
    }
  }

  lemma {:induction false} ChainCons(pages: Pages, r: RowID, rest: seq<RowID>)
    requires IsChain(pages, rest) && ChainedTo(pages, r, rest[0])
    ensures IsChain(pages, [r] + rest)
  {
    var path := [r] + rest;
    assert forall i :: 0 < i < |path| ==> path[i] == rest[i - 1];
  }

  /** From every row a chain can be followed to its end, and it goes on to later pages only. */
  lemma {:induction false} ChainExists(pages: Pages, list: seq<nat>, r: RowID) returns (path: seq<RowID>)
    requires Forward(pages, list) && IsRow(pages, r) && r.block in list
    ensures IsChain(pages, path) && path[0] == r && Onward(pages, list, path)
    decreases |list| - Pos(list, r.block)
  {
    hide IsChain, Onward;
    assert ChainsOn(pages, list, r);
    var c := RowAt(pages, r).chain;
    path := [r];
    if c.block == 0 {
      ChainOne(pages, list, r);
    } else {
      var rest := ChainExists(pages, list, c);
      ChainCons(pages, r, rest);
      OnwardCons(pages, list, r, rest);
      path := [r] + rest;
    }
  }

  lemma {:induction false} ChainOne(pages: Pages, list: seq<nat>, r: RowID)
    requires IsRow(pages, r) && r.block in list && RowAt(pages, r).chain.block == 0
    ensures IsChain(pages, [r]) && Onward(pages, list, [r])
  {
  }

  /** Chains only go forward, so a chain meets a page at most once. */
  lemma {:induction false} ChainForward(pages: Pages, list: seq<nat>, path: seq<RowID>)
    requires Forward(pages, list) && IsChain(pages, path) && path[0].block in list
    ensures Onward(pages, list, path)
  {
    var p := ChainExists(pages, list, path[0]);
    ChainUnique(pages, p, path);
  }

  lemma {:induction false} HeadNotInside(pages: Pages, list: seq<nat>, p: seq<RowID>, i: nat, r: RowID)
    requires Onward(pages, list, p) && IsChain(pages, p) && Head(pages, list, r) && 0 < i < |p|
    ensures p[i] != r
  {
    assert ChainedTo(pages, p[i - 1], p[i]);
  }

  /** Records that share a row are the same record. */
  lemma {:induction false} ChainsMeet(pages: Pages, list: seq<nat>, p: seq<RowID>, q: seq<RowID>, i: nat, j: nat)
    requires HeapOk(pages, list) && IsChain(pages, p) && IsChain(pages, q) && i < |p| && j < |q|
    requires Head(pages, list, p[0]) && Head(pages, list, q[0]) && p[i] == q[j]
    ensures p[0] == q[0]
  {
    ChainForward(pages, list, p);
    ChainForward(pages, list, q);
    if i > 0 { HeadNotInside(pages, list, p, i, q[0]); }
    if j > 0 { HeadNotInside(pages, list, q, j, p[0]); }
    if i > 0 && j > 0 {
      assert ChainedTo(pages, p[i - 1], p[i]) && ChainedTo(pages, q[j - 1], q[j]);
      ChainsMeet(pages, list, p, q, i - 1, j - 1);
    }
  }

  // ---------- Steps ----------

  /** The rows of `pages'` are those of `pages` without the rows in `gone`. */
  ghost predicate RowsLess(pages: Pages, pages': Pages, gone: seq<RowID>) {
    && |pages'| == |pages|
    && (forall r :: IsRow(pages', r) <==> IsRow(pages, r) && r !in gone)
    && (forall r :: IsRow(pages', r) ==> RowAt(pages', r) == RowAt(pages, r))
  }

  lemma {:induction false} PosSnoc(list: seq<nat>, b: nat, x: nat)
    requires x in list
    ensures Pos(list + [b], x) == Pos(list, x)
  {
    if list[0] != x {
      assert (list + [b])[1..] == list[1..] + [b];
      PosSnoc(list[1..], b, x);
    }
  }

  // ----- A new page at the end of the list

  ghost predicate Blank(v: PageView) {
    v.rows == [] && v.next == 0
  }

  function Appended(pages: Pages, tail: nat, b: nat): Pages
    requires tail < |pages| && b < |pages|
  {
    var p := pages[b := pages[b].(prev := tail)];
    p[tail := p[tail].(next := b)]
  }

  lemma {:induction false} AppendedPages(pages: Pages, tail: nat, b: nat)
    requires tail < |pages| && b < |pages| && tail != b
    ensures var pages' := Appended(pages, tail, b);
            && |pages'| == |pages| && pages'[b].rows == pages[b].rows && pages'[b].next == pages[b].next
            && forall c :: 0 <= c < |pages| && c != b && c != tail ==> pages'[c] == pages[c]
  {
  }

  /** The list stays linked exactly when the new page has no left-over pointer to a next page. */
  lemma {:induction false} AppendExact(pages: Pages, list: seq<nat>, b: nat)
    requires Linked(pages, list) && b !in list && 2 < b < |pages|
    ensures Linked(Appended(pages, list[|list| - 1], b), list + [b]) <==> pages[b].next == 0
  {
    var list', pages' := list + [b], Appended(pages, list[|list| - 1], b);
    assert forall i :: 0 <= i < |list| ==> list'[i] == list[i] != b;
    forall i | 0 <= i < |list'| ensures LinkAt(pages', list', i) <==> i < |list| || pages[b].next == 0 {
      AppendLink(pages, list, b, i);
    }
    assert LinkAt(pages', list', |list|) <==> pages[b].next == 0;
  }

  /** A new last page points back exactly, and all others as before. */
  lemma {:induction false} AppendBack(pages: Pages, list: seq<nat>, b: nat)
    requires Linked(pages, list) && b !in list && 2 < b < |pages|
    ensures Lost(Appended(pages, list[|list| - 1], b), list + [b]) == Lost(pages, list)
  {
    var list', pages' := list + [b], Appended(pages, list[|list| - 1], b);
    forall i | 0 <= i < |list'| ensures list'[i] < |pages'| && (BackAt(pages', list', i) <==> i == |list| || BackAt(pages, list, i)) {
      if i < |list| { assert list'[i] == list[i] != b; }
      if i > 0 { assert list'[i - 1] == list[i - 1]; }
    }
    forall x ensures x in Lost(pages', list') <==> x in Lost(pages, list) {
      if x in Lost(pages, list) {
        var i :| 0 <= i < |list| && list[i] < |pages| && !BackAt(pages, list, i) && list[i] == x;
        assert list'[i] == x && !BackAt(pages', list', i);
      }
      if x in Lost(pages', list') {
        var i :| 0 <= i < |list'| && list'[i] < |pages'| && !BackAt(pages', list', i) && list'[i] == x;
        assert list[i] == x && !BackAt(pages, list, i);
      }
    }
  }

  /** Rows may change as they like. */
  lemma {:induction false} BackFrame(pages: Pages, pages': Pages, list: seq<nat>)
    requires |pages'| == |pages| && forall b :: b in list && b < |pages| ==> pages'[b].prev == pages[b].prev
    ensures Lost(pages', list) == Lost(pages, list)
  {
    forall i | 0 <= i < |list| && list[i] < |pages| ensures BackAt(pages, list, i) <==> BackAt(pages', list, i) { assert list[i] in list; }
  }

  lemma {:induction false} AppendLink(pages: Pages, list: seq<nat>, b: nat, i: nat)
    requires Linked(pages, list) && b !in list && 2 < b < |pages| && i <= |list|
    ensures var list' := list + [b];
            list'[i] < |pages| && (LinkAt(Appended(pages, list[|list| - 1], b), list', i) <==> i < |list| || pages[b].next == 0)
  {
    var list' := list + [b];
    if i < |list| {
      assert LinkAt(pages, list, i) && list'[i] == list[i] != b;
      if i + 1 < |list| { assert list[i] != list[|list| - 1]; }
    }
    if i > 0 { assert list'[i - 1] == list[i - 1]; }
  }

  lemma {:induction false} AppendOk(pages: Pages, list: seq<nat>, b: nat)
    requires HeapOk(pages, list) && b !in list && 2 < b < |pages| && Blank(pages[b])
    ensures list[|list| - 1] < |pages|
    ensures var pages' := Appended(pages, list[|list| - 1], b);
            HeapOk(pages', list + [b]) && RowsLess(pages, pages', [])
  {
    hide Linked, IsRow, RowAt;
    InList(pages, list);
    var pages', list' := Appended(pages, list[|list| - 1], b), list + [b];
    AppendExact(pages, list, b);
    AppendRows(pages, list[|list| - 1], b);
    NoRows(pages, b);
    forall c, d | c in list && d in list && Pos(list, c) < Pos(list, d) ensures Pos(list', c) < Pos(list', d) {
      PosSnoc(list, b, c);
      PosSnoc(list, b, d);
    }
    OrderOk(pages, pages', list, list', NO_ROW);
    ButForward(pages', list');
  }

  lemma {:induction false} AppendRows(pages: Pages, tail: nat, b: nat)
    requires tail < |pages| && b < |pages|
    ensures RowsLess(pages, Appended(pages, tail, b), [])
  {
    var pages' := Appended(pages, tail, b);
    assert forall c :: 0 <= c < |pages| ==> pages'[c].rows == pages[c].rows;
  }

  lemma {:induction false} NoRows(pages: Pages, b: nat)
    requires b < |pages| && forall k :: 0 <= k < |pages[b].rows| ==> pages[b].rows[k].Free?
    ensures forall r :: IsRow(pages, r) ==> r.block != b
  {
  }

  /** The list changes only by pages without rows, and those that stay keep their order. */
  lemma {:induction false} OrderOk(pages: Pages, pages': Pages, list: seq<nat>, list': seq<nat>, t: RowID)
    requires Injective(pages, list) && ForwardBut(pages, list, t) && RowsLess(pages, pages', [])
    requires forall r :: IsRow(pages, r) ==> (r.block in list <==> r.block in list')
    requires forall c, d :: c in list && d in list && c in list' && d in list' && Pos(list, c) < Pos(list, d) ==> Pos(list', c) < Pos(list', d)
    ensures Injective(pages', list') && ForwardBut(pages', list', t)
  {
    hide IsRow, RowAt, Pos;
    forall r | IsRow(pages', r) && r.block in list' && !ChainedTo(pages', r, t) ensures ChainsOn(pages', list', r) {
      assert r.block in list && !ChainedTo(pages, r, t) && ChainsOn(pages, list, r);
    }
    forall x: RowID, y: RowID, z: RowID | x.block in list' && y.block in list' && ChainedTo(pages', x, z) && ChainedTo(pages', y, z) ensures x == y {
      assert ChainedTo(pages, x, z) && ChainedTo(pages, y, z);
    }
  }

  lemma {:induction false} ButForward(pages: Pages, list: seq<nat>)
    ensures Forward(pages, list) <==> ForwardBut(pages, list, NO_ROW)
  {
  }

  lemma {:induction false} InList(pages: Pages, list: seq<nat>)
    requires Linked(pages, list)
    ensures list != [] && forall i :: 0 <= i < |list| ==> 2 < list[i] < |pages|
  {
  }

  // ----- A row put on a page

  function WithRow(pages: Pages, b: nat, k: nat, id: nat, data: seq<Byte>): Pages
    requires b < |pages| && k <= |pages[b].rows|
  {
    pages[b := PutRow(pages[b], k, id, data)]
  }

  /** Pages that differ in row `x` only, and in no pointer. */
  ghost predicate RowsBut(pages: Pages, pages': Pages, x: RowID) {
    && |pages'| == |pages|
    && (forall b :: 0 <= b < |pages| ==> pages'[b].next == pages[b].next && (pages'[b].prev == pages[b].prev || pages'[b].prev == 0))
    && (forall r :: r != x ==> (IsRow(pages', r) <==> IsRow(pages, r)))
    && (forall r :: r != x && IsRow(pages, r) ==> RowAt(pages', r) == RowAt(pages, r))
  }

  lemma {:induction false} ButLinked(pages: Pages, pages': Pages, list: seq<nat>, x: RowID)
    requires Linked(pages, list) && RowsBut(pages, pages', x)
    ensures Linked(pages', list)
  {
    forall i | 0 <= i < |list| ensures LinkAt(pages', list, i) { assert LinkAt(pages, list, i); }
  }

  lemma {:induction false} PutRows(pages: Pages, b: nat, k: nat, id: nat, data: seq<Byte>)
    requires b < |pages| && k <= |pages[b].rows|
    ensures var pages', x := WithRow(pages, b, k, id, data), RowID(b, k);
            RowsBut(pages, pages', x) && IsRow(pages', x) && RowAt(pages', x) == Row(id, data, NO_ROW)
  {
  }

  /** Where the row goes there was none, or one of the same id without a chain. */
  lemma {:induction false} PutOk(pages: Pages, pages': Pages, list: seq<nat>, x: RowID)
    requires HeapOk(pages, list) && RowsBut(pages, pages', x) && IsRow(pages', x) && RowAt(pages', x).chain == NO_ROW
    requires IsRow(pages, x) ==> RowAt(pages, x).id == RowAt(pages', x).id && RowAt(pages, x).chain == NO_ROW
    ensures HeapOk(pages', list)
  {
    hide IsRow, RowAt, Pos, Linked;
    ButLinked(pages, pages', list, x);
    forall r | IsRow(pages', r) && r.block in list ensures ChainsOn(pages', list, r) {
      if r != x { assert ChainsOn(pages, list, r); }
    }
    forall r: RowID, s: RowID, t: RowID | r.block in list && s.block in list && ChainedTo(pages', r, t) && ChainedTo(pages', s, t) ensures r == s {
      assert ChainedTo(pages, r, t) && ChainedTo(pages, s, t);
    }
  }

  // ----- A row chained to the next one

  function WithChain(pages: Pages, r: RowID, t: RowID): Pages
    requires IsRow(pages, r)
  {
    pages[r.block := pages[r.block].(rows := pages[r.block].rows[r.local := RowAt(pages, r).(chain := t)])]
  }

  lemma {:induction false} ChainRows(pages: Pages, r: RowID, t: RowID)
    requires IsRow(pages, r)
    ensures var pages' := WithChain(pages, r, t);
            RowsBut(pages, pages', r) && IsRow(pages', r) && RowAt(pages', r) == RowAt(pages, r).(chain := t)
  {
  }

  lemma {:induction false} ChainOk(pages: Pages, pages': Pages, list: seq<nat>, r: RowID, t: RowID)
    requires HeapOk(pages, list) && IsRow(pages, r) && r.block in list && RowAt(pages, r).chain == NO_ROW
    requires Head(pages, list, t) && RowAt(pages, t).id == RowAt(pages, r).id && Pos(list, r.block) < Pos(list, t.block)
    requires RowsBut(pages, pages', r) && IsRow(pages', r) && RowAt(pages', r) == RowAt(pages, r).(chain := t)
    ensures HeapOk(pages', list)
  {
    hide IsRow, RowAt, Pos, Linked;
    ButLinked(pages, pages', list, r);
    forall s | IsRow(pages', s) && s.block in list ensures ChainsOn(pages', list, s) {
      if s != r { assert ChainsOn(pages, list, s); }
    }
    forall x: RowID, y: RowID, z: RowID | x.block in list && y.block in list && ChainedTo(pages', x, z) && ChainedTo(pages', y, z) ensures x == y {
      if x != r { assert ChainedTo(pages, x, z); }
      if y != r { assert ChainedTo(pages, y, z); }
    }
  }

  // ----- A row taken away

  /** Every row but those chained to `t` has a proper chain; nothing is said about row `t` itself. */
  ghost predicate ForwardBut(pages: Pages, list: seq<nat>, t: RowID) {
    forall r :: IsRow(pages, r) && r.block in list && !ChainedTo(pages, r, t) ==> ChainsOn(pages, list, r)
  }

  function Without(pages: Pages, r: RowID): Pages
    requires IsRow(pages, r)
  {
    pages[r.block := pages[r.block].(rows := pages[r.block].rows[r.local := Free])]
  }

  lemma {:induction false} WithoutRows(pages: Pages, r: RowID)
    requires IsRow(pages, r)
    ensures var pages' := Without(pages, r);
            RowsBut(pages, pages', r) && !IsRow(pages', r) && RowsLess(pages, pages', [r])
  {
  }

  lemma {:induction false} WithoutOk(pages: Pages, pages': Pages, list: seq<nat>, r: RowID, t: RowID)
    requires Linked(pages, list) && Injective(pages, list) && IsRow(pages, r) && r.block in list
    requires ForwardBut(pages, list, t) && (t.block != 0 ==> ChainedTo(pages, r, t))
    requires RowsBut(pages, pages', r) && !IsRow(pages', r)
    ensures Linked(pages', list) && Injective(pages', list) && ForwardBut(pages', list, r)
  {
    hide IsRow, RowAt, Pos, Linked;
    ButLinked(pages, pages', list, r);
    forall s | IsRow(pages', s) && s.block in list && !ChainedTo(pages', s, r) ensures ChainsOn(pages', list, s) {
      assert ChainedTo(pages, s, t) ==> s == r;
      assert ChainsOn(pages, list, s);
    }
    forall x: RowID, y: RowID, z: RowID | x.block in list && y.block in list && ChainedTo(pages', x, z) && ChainedTo(pages', y, z) ensures x == y {
      assert ChainedTo(pages, x, z) && ChainedTo(pages, y, z);
    }
  }

  // ----- A page taken out of the list

  /** Neighbours point past page `b`, which is cleared; without the repair its pointer to the next page stays.
      For the first page the "neighbour" is block 0, where the pointer written means nothing. */
  function Unlinked(pages: Pages, b: nat, repaired: bool): Pages
    requires b < |pages| && pages[b].prev < |pages| && pages[b].next < |pages| && pages[b].next != b && pages[b].prev != b
  {
    var v := pages[b];
    var p := pages[v.prev := pages[v.prev].(next := v.next)];
    var q := p[v.next := p[v.next].(prev := v.prev)];
    q[b := PageView([], v.prev, if repaired then 0 else v.next)]
  }

  function Cut(list: seq<nat>, i: nat): seq<nat>
    requires i < |list|
  {
    list[..i] + list[i + 1..]
  }

  lemma {:induction false} UnlinkNeighbours(pages: Pages, list: seq<nat>, i: nat)
    requires Linked(pages, list) && i + 1 < |list| && BackAt(pages, list, i)
    ensures list[i] < |pages|
    ensures var v := pages[list[i]];
            && v.next == list[i + 1] && v.prev == (if i > 0 then list[i - 1] else 0) && v.prev < |pages| && v.next < |pages|
            && v.next != list[i] && v.prev != list[i] && v.next != v.prev
  {
    assert LinkAt(pages, list, i);
  }

  lemma {:induction false} UnlinkLinked(pages: Pages, list: seq<nat>, i: nat, repaired: bool)
    requires Linked(pages, list) && i + 1 < |list| && BackAt(pages, list, i)
    requires pages[list[i]].prev < |pages| && pages[list[i]].next < |pages| && pages[list[i]].next != list[i] && pages[list[i]].prev != list[i]
    ensures Linked(Unlinked(pages, list[i], repaired), Cut(list, i))
    ensures Lost(Unlinked(pages, list[i], repaired), Cut(list, i)) <= Lost(pages, list)
  {
    var list', pages' := Cut(list, i), Unlinked(pages, list[i], repaired);
    assert |list'| > 0 && |pages'| == |pages|;
    assert forall j :: 0 <= j < |list'| ==> list'[j] == list[if j < i then j else j + 1];
    assert forall a, b :: 0 <= a < b < |list'| ==> list'[a] != list'[b];
    forall j | 0 <= j < |list'| ensures LinkAt(pages', list', j) && (BackAt(pages, list, if j < i then j else j + 1) ==> BackAt(pages', list', j)) {
      UnlinkLink(pages, list, i, repaired, j);
    }
    LostLess(pages, pages', list, i);
  }

  lemma {:induction false} LostLess(pages: Pages, pages': Pages, list: seq<nat>, i: nat)
    requires i < |list| && (forall j :: 0 <= j < |list| ==> list[j] < |pages|) && |pages'| == |pages|
    requires var l := Cut(list, i);
             forall j :: 0 <= j < |l| ==> l[j] == list[if j < i then j else j + 1] && (BackAt(pages, list, if j < i then j else j + 1) ==> BackAt(pages', l, j))
    ensures Lost(pages', Cut(list, i)) <= Lost(pages, list)
  {
    hide BackAt, Cut;
    var l := Cut(list, i);
    assert |l| == |list| - 1 by { CutLength(list, i); }
    forall x | x in Lost(pages', l) ensures x in Lost(pages, list) {
      var j :| 0 <= j < |l| && l[j] < |pages'| && !BackAt(pages', l, j) && l[j] == x;
      var m := if j < i then j else j + 1;
      assert list[m] == x && !BackAt(pages, list, m);
    }
  }

  lemma {:induction false} CutLength(list: seq<nat>, i: nat)
    requires i < |list|
    ensures |Cut(list, i)| == |list| - 1
  {
  }

  /** Passing a page by, as the original does, takes it out of the list if and only if its pointer back is exact:
      with a lost one the page in front of it still leads to it. */
  lemma {:induction false} UnlinkExact(pages: Pages, list: seq<nat>, i: nat, repaired: bool)
    requires Linked(pages, list) && i + 1 < |list|
    ensures list[i] < |pages| && pages[list[i]].prev < |pages| && pages[list[i]].next < |pages| && pages[list[i]].next != list[i] && pages[list[i]].prev != list[i]
    ensures Linked(Unlinked(pages, list[i], repaired), Cut(list, i)) <==> BackAt(pages, list, i)
  {
    assert LinkAt(pages, list, i) && LinkAt(pages, list, i + 1);
    if BackAt(pages, list, i) {
      UnlinkNeighbours(pages, list, i);
      UnlinkLinked(pages, list, i, repaired);
    } else {
      var list', pages' := Cut(list, i), Unlinked(pages, list[i], repaired);
      assert LinkAt(pages, list, i - 1) && list'[i - 1] == list[i - 1] && list'[i] == list[i + 1];
      assert pages'[list[i - 1]].next == list[i];
      assert !LinkAt(pages', list', i - 1);
    }
  }

  lemma {:induction false} UnlinkLink(pages: Pages, list: seq<nat>, i: nat, repaired: bool, j: nat)
    requires Linked(pages, list) && i + 1 < |list| && j < |list| - 1 && BackAt(pages, list, i)
    requires pages[list[i]].prev < |pages| && pages[list[i]].next < |pages| && pages[list[i]].next != list[i] && pages[list[i]].prev != list[i]
    ensures var list', m := Cut(list, i), if j < i then j else j + 1;
            && list'[j] < |pages| && LinkAt(Unlinked(pages, list[i], repaired), list', j)
            && (BackAt(pages, list, m) ==> BackAt(Unlinked(pages, list[i], repaired), list', j))
  {
    UnlinkNeighbours(pages, list, i);
    var list', m := Cut(list, i), if j < i then j else j + 1;
    assert list'[j] == list[m] && list[m] != list[i] && LinkAt(pages, list, m);
    if j + 1 < |list'| { assert list'[j + 1] == list[if j + 1 < i then j + 1 else j + 2]; }
    if j > 0 { assert list'[j - 1] == list[if j - 1 < i then j - 1 else j]; }
    if m + 1 != i && i > 0 { assert list[m] != list[i - 1]; }
    if m != i + 1 { assert list[m] != list[i + 1]; }
  }

  lemma {:induction false} PosCut(list: seq<nat>, i: nat, x: nat)
    requires i < |list| && x in list && x != list[i] && forall a, b :: 0 <= a < b < |list| ==> list[a] != list[b]
    ensures x in Cut(list, i) && Pos(Cut(list, i), x) == if Pos(list, x) < i then Pos(list, x) else Pos(list, x) - 1
  {
    var p := Pos(list, x);
    var q := if p < i then p else p - 1;
    var l := Cut(list, i);
    assert forall j :: 0 <= j < |l| ==> l[j] == list[if j < i then j else j + 1];
    assert l[q] == x;
    PosIs(l, q);
  }

  lemma {:induction false} UnlinkRows(pages: Pages, b: nat, repaired: bool)
    requires b < |pages| && pages[b].prev < |pages| && pages[b].next < |pages| && pages[b].next != b && pages[b].prev != b
    requires forall k :: 0 <= k < |pages[b].rows| ==> pages[b].rows[k].Free?
    ensures RowsLess(pages, Unlinked(pages, b, repaired), [])
  {
    var pages' := Unlinked(pages, b, repaired);
    assert forall c :: 0 <= c < |pages| && c != b ==> pages'[c].rows == pages[c].rows;
  }

  lemma {:induction false} UnlinkOk(pages: Pages, list: seq<nat>, i: nat, repaired: bool, t: RowID)
    requires Linked(pages, list) && i + 1 < |list| && Injective(pages, list) && ForwardBut(pages, list, t) && BackAt(pages, list, i)
    requires forall k :: 0 <= k < |pages[list[i]].rows| ==> pages[list[i]].rows[k].Free?
    ensures pages[list[i]].prev < |pages| && pages[list[i]].next < |pages| && pages[list[i]].next != list[i] && pages[list[i]].prev != list[i]
    ensures var pages', list' := Unlinked(pages, list[i], repaired), Cut(list, i);
            Linked(pages', list') && Injective(pages', list') && ForwardBut(pages', list', t) && RowsLess(pages, pages', [])
            && Lost(pages', list') <= Lost(pages, list)
  {
    hide IsRow, RowAt, Linked, Unlinked, Lost;
    UnlinkNeighbours(pages, list, i);
    UnlinkLinked(pages, list, i, repaired);
    var b := list[i];
    var pages', list' := Unlinked(pages, b, repaired), Cut(list, i);
    UnlinkRows(pages, b, repaired);
    NoRows(pages, b);
    DistinctList(pages, list);
    forall c | c in list && c != b ensures c in list' { PosCut(list, i, c); }
    forall c, d | c in list && d in list && c in list' && d in list' && Pos(list, c) < Pos(list, d) ensures Pos(list', c) < Pos(list', d) {
      NotCut(list, i, c);
      NotCut(list, i, d);
      PosCut(list, i, c);
      PosCut(list, i, d);
    }
    OrderOk(pages, pages', list, list', t);
  }

  lemma {:induction false} DistinctList(pages: Pages, list: seq<nat>)
    requires Linked(pages, list)
    ensures forall a, b :: 0 <= a < b < |list| ==> list[a] != list[b]
  {
  }

  lemma {:induction false} NotCut(list: seq<nat>, i: nat, c: nat)
    requires i < |list| && c in Cut(list, i) && forall a, b :: 0 <= a < b < |list| ==> list[a] != list[b]
    ensures c != list[i] && c in list
  {
    var l := Cut(list, i);
    var j :| 0 <= j < |l| && l[j] == c;
    assert l[j] == list[if j < i then j else j + 1];
  }
}
