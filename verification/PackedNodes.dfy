/** Index nodes packed into the bytes of a block: what the bytes stand for, and that every operation on
    them does what the same operation does to a node kept as a list of entries. */
module PackedNodes {
  import opened Results
  import opened RowIDs
  import opened BTreeNodes
  import opened BTreeStore
  import opened DataBlocks

  const TYPE_BRANCH: Byte := 1
  const TYPE_LEAF: Byte := 2

  const POS_TYPE: nat := 0
  const POS_TOTAL_KEYS: nat := POS_TYPE + 1
  const POS_PARENT_ID: nat := POS_TOTAL_KEYS + 2
  const POS_LEFT_SIBLING: nat := POS_PARENT_ID + 2
  const POS_RIGHT_SIBLING: nat := POS_LEFT_SIBLING + 2
  const POS_ENTRIES_OFFSET: nat := POS_RIGHT_SIBLING + 2

  const LEAF_ENTRY_SIZE: nat := 8
  const BRANCH_ENTRY_JUMP: nat := 6
  const BRANCH_OFFSET_KEY: nat := 2
  const BRANCH_OFFSET_RIGHT_BLOCK_ID: nat := 6

  /** The capacities the database gives its index. */
  const LEAF_MAX_ENTRIES: nat := 510
  const BRANCH_MAX_ENTRIES: nat := 680

  function LeafPos(i: nat): nat {
    POS_ENTRIES_OFFSET + i * LEAF_ENTRY_SIZE
  }

  function BranchPos(i: nat): nat {
    POS_ENTRIES_OFFSET + i * BRANCH_ENTRY_JUMP
  }

  /** They are the most that fit into a block; a branch ends with a child. */
  lemma {:induction false} MostThatFit(n: nat)
    ensures LeafPos(n) <= BLOCK_SIZE <==> n <= LEAF_MAX_ENTRIES
    ensures BranchPos(n) + BRANCH_OFFSET_KEY <= BLOCK_SIZE <==> n <= BRANCH_MAX_ENTRIES
  {
  }

  // ---------- What the bytes stand for ----------

  predicate FitsLeaf(e: LeafEntry) {
    0 <= e.key < 0x1_0000_0000 && e.item.block < 0x1_0000 && e.item.local < 0x1_0000
  }

  function LeafBytes(e: LeafEntry): (bs: seq<Byte>)
    requires FitsLeaf(e)
    ensures |bs| == LEAF_ENTRY_SIZE
  {
    Big32(e.key) + Big16(e.item.block) + Big16(e.item.local)
  }

  function LeafAt(d: seq<Byte>, p: nat): (e: LeafEntry)
    requires p + LEAF_ENTRY_SIZE <= |d|
    ensures FitsLeaf(e)
  {
    LeafEntry(Get32(d, p), RowID(Get16(d, p + 4), Get16(d, p + 6)))
  }

  /** An entry is read back as it was written. */
  lemma {:induction false} LeafRoundTrip(d: seq<Byte>, p: nat, e: LeafEntry)
    requires FitsLeaf(e) && p + LEAF_ENTRY_SIZE <= |d| && d[p..p + LEAF_ENTRY_SIZE] == LeafBytes(e)
    ensures LeafAt(d, p) == e
  {
    var bs := LeafBytes(e);
    assert forall k :: 0 <= k < 8 ==> d[p + k] == d[p..p + LEAF_ENTRY_SIZE][k] == bs[k];
    assert bs[0] == (e.key / 0x1_0000) / 256 && bs[1] == (e.key / 0x1_0000) % 256;
    assert bs[2] == (e.key % 0x1_0000) / 256 && bs[3] == (e.key % 0x1_0000) % 256;
    assert bs[4] == e.item.block / 256 && bs[5] == e.item.block % 256;
    assert bs[6] == e.item.local / 256 && bs[7] == e.item.local % 256;
  }

  ghost predicate SameBytes(d: seq<Byte>, p: nat, d': seq<Byte>, p': nat, count: nat) {
    p + count <= |d| && p' + count <= |d'| && d'[p'..p' + count] == d[p..p + count]
  }

  lemma {:induction false} SameLeafAt(d: seq<Byte>, p: nat, d': seq<Byte>, p': nat)
    requires SameBytes(d, p, d', p', LEAF_ENTRY_SIZE)
    ensures LeafAt(d', p') == LeafAt(d, p)
  {
    var a, b := d[p..p + 8], d'[p'..p' + 8];
    assert forall k :: 0 <= k < 8 ==> a[k] == d[p + k] && b[k] == d'[p' + k];
  }

  ghost predicate PackedLeaf(d: seq<Byte>) {
    |d| == BLOCK_SIZE && d[POS_TYPE] == TYPE_LEAF && Get16(d, POS_TOTAL_KEYS) <= LEAF_MAX_ENTRIES
  }

  ghost predicate PackedBranch(d: seq<Byte>) {
    |d| == BLOCK_SIZE && d[POS_TYPE] == TYPE_BRANCH && Get16(d, POS_TOTAL_KEYS) <= BRANCH_MAX_ENTRIES
  }

  ghost function Entries(d: seq<Byte>, n: nat): (es: seq<LeafEntry>)
    requires LeafPos(n) <= |d|
    ensures |es| == n && forall i :: 0 <= i < n ==> es[i] == LeafAt(d, LeafPos(i))
  {
    seq(n, i requires 0 <= i < n => LeafAt(d, LeafPos(i)))
  }

  ghost function Keys(d: seq<Byte>, n: nat): (keys: seq<Key>)
    requires BranchPos(n) <= |d|
    ensures |keys| == n && forall i :: 0 <= i < n ==> keys[i] == Get32(d, BranchPos(i) + BRANCH_OFFSET_KEY)
  {
    seq(n, i requires 0 <= i < n => Get32(d, BranchPos(i) + BRANCH_OFFSET_KEY))
  }

  ghost function Kids(d: seq<Byte>, n: nat): (kids: seq<Id>)
    requires BranchPos(n) + 2 <= |d|
    ensures |kids| == n + 1 && forall i :: 0 <= i <= n ==> kids[i] == Get16(d, BranchPos(i))
  {
    seq(n + 1, i requires 0 <= i <= n => Get16(d, BranchPos(i)))
  }

  ghost function LeafOf(d: seq<Byte>): (node: Node)
    requires PackedLeaf(d)
    ensures node.LeafNode?
  {
    LeafNode(Get16(d, POS_PARENT_ID), Get16(d, POS_LEFT_SIBLING), Get16(d, POS_RIGHT_SIBLING), Entries(d, Get16(d, POS_TOTAL_KEYS)))
  }

  ghost function BranchOf(d: seq<Byte>): (node: Node)
    requires PackedBranch(d)
    ensures node.BranchNode?
  {
    var n := Get16(d, POS_TOTAL_KEYS);
    BranchNode(Get16(d, POS_PARENT_ID), Get16(d, POS_LEFT_SIBLING), Get16(d, POS_RIGHT_SIBLING), Slots(Keys(d, n), Kids(d, n)))
  }

  /** Type, number of keys, parent, left and right sibling, and then the entries of eight bytes: key, block and local id. */
  lemma {:induction false} LeafLayout(d: seq<Byte>, i: nat)
    requires PackedLeaf(d) && i < |LeafOf(d).entries|
    ensures |d| == 4096 && d[0] as int == 2 && |LeafOf(d).entries| == 0x100 * d[1] as int + d[2] as int && LeafOf(d).parent == 0x100 * d[3] as int + d[4] as int
    ensures LeafOf(d).left == 0x100 * d[5] as int + d[6] as int && LeafOf(d).right == 0x100 * d[7] as int + d[8] as int
    ensures i < 510 && var e, p := LeafOf(d).entries[i], 9 + 8 * i;
            && e.key == 0x100_0000 * d[p] as int + 0x1_0000 * d[p + 1] as int + 0x100 * d[p + 2] as int + d[p + 3] as int
            && e.item.block == 0x100 * d[p + 4] as int + d[p + 5] as int && e.item.local == 0x100 * d[p + 6] as int + d[p + 7] as int
  {
    BigEndian(d, 9 + 8 * i);
  }

  /** The entries of a branch take six bytes, its left child and its key; the right child is the left one of the next entry. */
  lemma {:induction false} BranchLayout(d: seq<Byte>, i: nat)
    requires PackedBranch(d) && i < |BranchOf(d).slots|
    ensures |d| == 4096 && d[0] as int == 1 && |BranchOf(d).slots| == 0x100 * d[1] as int + d[2] as int && BranchOf(d).parent == 0x100 * d[3] as int + d[4] as int
    ensures BranchOf(d).left == 0x100 * d[5] as int + d[6] as int && BranchOf(d).right == 0x100 * d[7] as int + d[8] as int
    ensures i < 680 && var e, p := BranchOf(d).slots[i], 9 + 6 * i;
            && e.lt == 0x100 * d[p] as int + d[p + 1] as int && e.gte == 0x100 * d[p + 6] as int + d[p + 7] as int
            && e.key == 0x100_0000 * d[p + 2] as int + 0x1_0000 * d[p + 3] as int + 0x100 * d[p + 4] as int + d[p + 5] as int
  {
    BigEndian(d, 9 + 6 * i + 2);
  }

  // ---------- Leaf entries in bytes ----------

  /** The bytes of the two blocks differ in the number of keys and from `p` on only. */
  ghost predicate SameFront(d: seq<Byte>, d': seq<Byte>, p: nat) {
    |d| == |d'| == BLOCK_SIZE && POS_ENTRIES_OFFSET <= p <= BLOCK_SIZE
    && forall i :: 0 <= i < p && !(POS_TOTAL_KEYS <= i < POS_PARENT_ID) ==> d'[i] == d[i]
  }

  lemma {:induction false} SameHead(d: seq<Byte>, d': seq<Byte>, p: nat)
    requires SameFront(d, d', p)
    ensures d'[POS_TYPE] == d[POS_TYPE] && Get16(d', POS_PARENT_ID) == Get16(d, POS_PARENT_ID)
    ensures Get16(d', POS_LEFT_SIBLING) == Get16(d, POS_LEFT_SIBLING) && Get16(d', POS_RIGHT_SIBLING) == Get16(d, POS_RIGHT_SIBLING)
  {
  }

  lemma {:induction false} LeafInserted(d: seq<Byte>, d': seq<Byte>, n: nat, position: nat, e: LeafEntry)
    requires PackedLeaf(d) && n == Get16(d, POS_TOTAL_KEYS) < LEAF_MAX_ENTRIES && position <= n && FitsLeaf(e)
    requires SameFront(d, d', LeafPos(position)) && Get16(d', POS_TOTAL_KEYS) == n + 1
    requires d'[LeafPos(position)..LeafPos(position) + LEAF_ENTRY_SIZE] == LeafBytes(e)
    requires position < n ==> forall i :: LeafPos(position) + LEAF_ENTRY_SIZE <= i < BLOCK_SIZE ==> d'[i] == d[i - LEAF_ENTRY_SIZE]
    ensures PackedLeaf(d') && LeafOf(d).LeafNode? && LeafOf(d') == LeafOf(d).(entries := PutAt(LeafOf(d).entries, position, e))
  {
    hide LeafAt, LeafBytes;
    SameHead(d, d', LeafPos(position));
    var es, es' := Entries(d, n), Entries(d', n + 1);
    forall k | 0 <= k < n + 1 ensures es'[k] == PutAt(es, position, e)[k] {
      if k < position {
        SameLeafAt(d, LeafPos(k), d', LeafPos(k));
      } else if k == position {
        LeafRoundTrip(d', LeafPos(k), e);
      } else {
        SameLeafAt(d, LeafPos(k - 1), d', LeafPos(k));
      }
    }
    assert es' == PutAt(es, position, e);
  }

  lemma {:induction false} LeafDeleted(d: seq<Byte>, d': seq<Byte>, n: nat, position: nat)
    requires PackedLeaf(d) && n == Get16(d, POS_TOTAL_KEYS) && position < n
    requires SameFront(d, d', LeafPos(position)) && Get16(d', POS_TOTAL_KEYS) == n - 1
    requires forall i :: LeafPos(position) <= i < BLOCK_SIZE - LEAF_ENTRY_SIZE ==> d'[i] == d[i + LEAF_ENTRY_SIZE]
    ensures PackedLeaf(d') && LeafOf(d).LeafNode? && LeafOf(d') == LeafOf(d).(entries := DropAt(LeafOf(d).entries, position))
  {
    hide LeafAt, LeafBytes;
    SameHead(d, d', LeafPos(position));
    var es, es' := Entries(d, n), Entries(d', n - 1);
    forall k | 0 <= k < n - 1 ensures es'[k] == DropAt(es, position)[k] {
      if k < position {
        SameLeafAt(d, LeafPos(k), d', LeafPos(k));
      } else {
        SameLeafAt(d, LeafPos(k + 1), d', LeafPos(k));
      }
    }
    assert es' == DropAt(es, position);
  }

  lemma {:induction false} LeafCut(d: seq<Byte>, d': seq<Byte>, n: nat, start: nat)
    requires PackedLeaf(d) && n == Get16(d, POS_TOTAL_KEYS) && start <= n
    requires SameFront(d, d', BLOCK_SIZE) && Get16(d', POS_TOTAL_KEYS) == start
    ensures PackedLeaf(d') && LeafOf(d).LeafNode? && LeafOf(d') == LeafOf(d).(entries := LeafOf(d).entries[..start])
  {
    hide LeafAt;
    SameHead(d, d', BLOCK_SIZE);
    var es, es' := Entries(d, n), Entries(d', start);
    forall k | 0 <= k < start ensures es'[k] == es[k] { SameLeafAt(d, LeafPos(k), d', LeafPos(k)); }
    assert es' == es[..start];
  }

  /** Up to the number of keys, the bytes after an insertion. */
  function LeafPut(d: seq<Byte>, w: nat, n: nat, e: LeafEntry): (d': seq<Byte>)
    requires |d| == BLOCK_SIZE && w + LEAF_ENTRY_SIZE <= BLOCK_SIZE && FitsLeaf(e) && n < LEAF_MAX_ENTRIES
    ensures |d'| == BLOCK_SIZE
  {
    var d1 := Splice(d, w, Big32(e.key));
    var d2 := Splice(d1, w + 4, Big16(e.item.block));
    var d3 := Splice(d2, w + 6, Big16(e.item.local));
    Splice(d3, POS_TOTAL_KEYS, Big16(n + 1))
  }

  /** The bytes from `w` on moved up by the size of an entry. */
  function Opened(d: seq<Byte>, w: nat, size: nat): (d': seq<Byte>)
    requires |d| == BLOCK_SIZE && w + size <= BLOCK_SIZE
    ensures |d'| == BLOCK_SIZE
  {
    d[..w + size] + d[w..BLOCK_SIZE - size]
  }

  lemma {:induction false} OpenedIs(d: seq<Byte>, w: nat, size: nat)
    requires |d| == BLOCK_SIZE && w + size <= BLOCK_SIZE
    ensures Opened(d, w, size) == d[..w + size] + d[w..BLOCK_SIZE - size]
  {
  }

  lemma {:induction false} LeafPutBytes(d: seq<Byte>, w: nat, n: nat, e: LeafEntry)
    requires |d| == BLOCK_SIZE && POS_ENTRIES_OFFSET <= w && w + LEAF_ENTRY_SIZE <= BLOCK_SIZE && FitsLeaf(e) && n < LEAF_MAX_ENTRIES
    ensures var d' := LeafPut(d, w, n, e);
            && Get16(d', POS_TOTAL_KEYS) == n + 1 && d'[w..w + LEAF_ENTRY_SIZE] == LeafBytes(e)
            && forall i :: 0 <= i < BLOCK_SIZE && !(w <= i < w + LEAF_ENTRY_SIZE) && !(POS_TOTAL_KEYS <= i < POS_PARENT_ID) ==> d'[i] == d[i]
  {
    hide Big32;
    var d' := LeafPut(d, w, n, e);
    forall k | 0 <= k < LEAF_ENTRY_SIZE ensures d'[w + k] == LeafBytes(e)[k] { }
    assert d'[w..w + LEAF_ENTRY_SIZE] == LeafBytes(e);
  }

  lemma {:induction false} LeafPutIn(d: seq<Byte>, n: nat, position: nat, e: LeafEntry)
    requires PackedLeaf(d) && n == Get16(d, POS_TOTAL_KEYS) < LEAF_MAX_ENTRIES && position <= n && FitsLeaf(e)
    ensures var d' := LeafPut(if position < n then Opened(d, LeafPos(position), LEAF_ENTRY_SIZE) else d, LeafPos(position), n, e);
            PackedLeaf(d') && LeafOf(d).LeafNode? && LeafOf(d') == LeafOf(d).(entries := PutAt(LeafOf(d).entries, position, e))
  {
    hide LeafPut, LeafBytes, Get16, Entries, PutAt;
    var w := LeafPos(position);
    LeafPutBytes(if position < n then Opened(d, w, LEAF_ENTRY_SIZE) else d, w, n, e);
    LeafInserted(d, LeafPut(if position < n then Opened(d, w, LEAF_ENTRY_SIZE) else d, w, n, e), n, position, e);
  }

  /** The bytes after a removal of `size` bytes at `w`. */
  function Closed(d: seq<Byte>, w: nat, size: nat, n: nat): (d': seq<Byte>)
    requires |d| == BLOCK_SIZE && w + size <= BLOCK_SIZE && n < 0x1_0000
    ensures |d'| == BLOCK_SIZE
  {
    Splice(Slid(d, w, w + size, BLOCK_SIZE - w - size), POS_TOTAL_KEYS, Big16(n))
  }

  lemma {:induction false} ClosedIs(d: seq<Byte>, w: nat, size: nat, n: nat)
    requires |d| == BLOCK_SIZE && w + size <= BLOCK_SIZE && n < 0x1_0000
    ensures Closed(d, w, size, n) == Splice(Slid(d, w, w + size, BLOCK_SIZE - w - size), POS_TOTAL_KEYS, Big16(n))
  {
  }

  lemma {:induction false} SlidByte(d: seq<Byte>, w: nat, size: nat, i: nat)
    requires |d| == BLOCK_SIZE && w + size <= BLOCK_SIZE && i < BLOCK_SIZE - size
    ensures var e := Slid(d, w, w + size, BLOCK_SIZE - w - size);
            |e| == BLOCK_SIZE && e[i] == if i < w then d[i] else d[i + size]
  {
    var moved := d[w + size..];
    assert d[w + size..w + size + (BLOCK_SIZE - w - size)] == moved;
    assert i >= w ==> moved[i - w] == d[i + size];
  }

  lemma {:induction false} ClosedBytes(d: seq<Byte>, w: nat, size: nat, n: nat)
    requires |d| == BLOCK_SIZE && POS_ENTRIES_OFFSET <= w && w + size <= BLOCK_SIZE && n < 0x1_0000
    ensures var d' := Closed(d, w, size, n);
            Get16(d', POS_TOTAL_KEYS) == n && SameFront(d, d', w) && forall i :: w <= i < BLOCK_SIZE - size ==> d'[i] == d[i + size]
  {
    hide Big16, Get16, Slid;
    var e := Slid(d, w, w + size, BLOCK_SIZE - w - size);
    Get16Splice(e, POS_TOTAL_KEYS, n);
    var d' := Closed(d, w, size, n);
    assert d' == Splice(e, POS_TOTAL_KEYS, Big16(n));
    forall i | 0 <= i < w && !(POS_TOTAL_KEYS <= i < POS_PARENT_ID) ensures d'[i] == d[i] { SlidByte(d, w, size, i); }
    forall i | w <= i < BLOCK_SIZE - size ensures d'[i] == d[i + size] { SlidByte(d, w, size, i); }
  }

  // ---------- Branch entries in bytes ----------

  lemma {:induction false} SameKey(d: seq<Byte>, p: nat, d': seq<Byte>, p': nat)
    requires SameBytes(d, p, d', p', 4)
    ensures Get32(d', p') == Get32(d, p)
  {
    var a, b := d[p..p + 4], d'[p'..p' + 4];
    assert forall k :: 0 <= k < 4 ==> a[k] == d[p + k] && b[k] == d'[p' + k];
  }

  lemma {:induction false} SameKid(d: seq<Byte>, p: nat, d': seq<Byte>, p': nat)
    requires SameBytes(d, p, d', p', 2)
    ensures Get16(d', p') == Get16(d, p)
  {
    var a, b := d[p..p + 2], d'[p'..p' + 2];
    assert forall k :: 0 <= k < 2 ==> a[k] == d[p + k] && b[k] == d'[p' + k];
  }

  /** Where the bytes of a branch come from: below `p` from the same place, from `q` on from `off` bytes
      further on. */
  ghost predicate Moved(d: seq<Byte>, d': seq<Byte>, p: nat, q: nat, off: int) {
    SameFront(d, d', p) && forall i :: q <= i < BLOCK_SIZE && i + off < BLOCK_SIZE && i + off >= 0 ==> d'[i] == d[i + off]
  }

  lemma {:induction false} MovedFront(d: seq<Byte>, d': seq<Byte>, p: nat, q: nat, off: int)
    requires Moved(d, d', p, q, off)
    ensures SameFront(d, d', p) && |d'| == BLOCK_SIZE
  {
  }

  lemma {:induction false} NothingMoved(d: seq<Byte>, d': seq<Byte>)
    requires SameFront(d, d', BLOCK_SIZE)
    ensures Moved(d, d', BLOCK_SIZE, BLOCK_SIZE, 0)
  {
  }

  lemma {:induction false} PutLength<T>(s: seq<T>, p: nat, x: T)
    requires p <= |s|
    ensures |PutAt(s, p, x)| == |s| + 1
  {
  }

  lemma {:induction false} DropLength<T>(s: seq<T>, p: nat)
    requires p < |s|
    ensures |DropAt(s, p)| == |s| - 1
  {
  }

  lemma {:induction false} BranchIs(d': seq<Byte>, keys: seq<Key>, kids: seq<Id>)
    requires PackedBranch(d') && |keys| == Get16(d', POS_TOTAL_KEYS) && |kids| == |keys| + 1
    requires forall k :: 0 <= k < |keys| ==> Get32(d', BranchPos(k) + BRANCH_OFFSET_KEY) == keys[k]
    requires forall k :: 0 <= k < |kids| ==> Get16(d', BranchPos(k)) == kids[k]
    ensures BranchOf(d').slots == Slots(keys, kids)
  {
    assert Keys(d', |keys|) == keys;
    assert Kids(d', |keys|) == kids;
  }

  lemma {:induction false} KeyKept(d: seq<Byte>, d': seq<Byte>, p: nat, q: nat, off: int, k: nat, k': nat)
    requires Moved(d, d', p, q, off) && BranchPos(k') + 6 <= BLOCK_SIZE && BranchPos(k) + 6 <= BLOCK_SIZE
    requires (k == k' && BranchPos(k) + 6 <= p) || (q <= BranchPos(k') + 2 && BranchPos(k) == BranchPos(k') + off)
    ensures Get32(d', BranchPos(k') + BRANCH_OFFSET_KEY) == Get32(d, BranchPos(k) + BRANCH_OFFSET_KEY)
  {
    SameKey(d, BranchPos(k) + BRANCH_OFFSET_KEY, d', BranchPos(k') + BRANCH_OFFSET_KEY);
  }

  lemma {:induction false} KidKept(d: seq<Byte>, d': seq<Byte>, p: nat, q: nat, off: int, k: nat, k': nat)
    requires Moved(d, d', p, q, off) && BranchPos(k') + 2 <= BLOCK_SIZE && BranchPos(k) + 2 <= BLOCK_SIZE
    requires (k == k' && BranchPos(k) + 2 <= p) || (q <= BranchPos(k') && BranchPos(k) == BranchPos(k') + off)
    ensures Get16(d', BranchPos(k')) == Get16(d, BranchPos(k))
  {
    SameKid(d, BranchPos(k), d', BranchPos(k'));
  }

  lemma {:induction false} InsertedKey(d: seq<Byte>, d': seq<Byte>, n: nat, position: nat, key: Key, k: nat)
    requires |d| == BLOCK_SIZE && n < BRANCH_MAX_ENTRIES && position <= n && k <= n
    requires var w := BranchPos(position); Moved(d, d', w + 2, w + 8, -6) && Get32(d', w + BRANCH_OFFSET_KEY) == key
    ensures Get32(d', BranchPos(k) + BRANCH_OFFSET_KEY) == PutAt(Keys(d, n), position, key)[k]
  {
    hide Get16, Get32, Moved;
    var w := BranchPos(position);
    if k < position { KeyKept(d, d', w + 2, w + 8, -6, k, k); } else if k > position { KeyKept(d, d', w + 2, w + 8, -6, k - 1, k); }
  }

  lemma {:induction false} InsertedKid(d: seq<Byte>, d': seq<Byte>, n: nat, position: nat, gte: Id, k: nat)
    requires |d| == BLOCK_SIZE && n < BRANCH_MAX_ENTRIES && position <= n && k <= n + 1
    requires var w := BranchPos(position); Moved(d, d', w + 2, w + 8, -6) && Get16(d', w + 6) == gte
    ensures Get16(d', BranchPos(k)) == PutAt(Kids(d, n), position + 1, gte)[k]
  {
    hide Get16, Get32, Moved;
    var w := BranchPos(position);
    if k <= position { KidKept(d, d', w + 2, w + 8, -6, k, k); } else if k > position + 1 { KidKept(d, d', w + 2, w + 8, -6, k - 1, k); }
  }

  lemma {:induction false} BranchInserted(d: seq<Byte>, d': seq<Byte>, n: nat, position: nat, key: Key, gte: Id)
    requires PackedBranch(d) && n == Get16(d, POS_TOTAL_KEYS) < BRANCH_MAX_ENTRIES && position <= n
    requires var w := BranchPos(position); Moved(d, d', w + 2, w + 8, -6) && Get32(d', w + BRANCH_OFFSET_KEY) == key && Get16(d', w + 6) == gte
    requires Get16(d', POS_TOTAL_KEYS) == n + 1
    ensures PackedBranch(d') && BranchOf(d).BranchNode? && BranchOf(d') == BranchOf(d).(slots := Slots(PutAt(Keys(d, n), position, key), PutAt(Kids(d, n), position + 1, gte)))
  {
    hide Get16, Get32, Moved, PutAt, Slots;
    var w, keys, kids := BranchPos(position), PutAt(Keys(d, n), position, key), PutAt(Kids(d, n), position + 1, gte);
    MovedFront(d, d', w + 2, w + 8, -6);
    SameHead(d, d', w + 2);
    PutLength(Keys(d, n), position, key);
    PutLength(Kids(d, n), position + 1, gte);
    forall k | 0 <= k < n + 1 ensures Get32(d', BranchPos(k) + BRANCH_OFFSET_KEY) == keys[k] { InsertedKey(d, d', n, position, key, k); }
    forall k | 0 <= k < n + 2 ensures Get16(d', BranchPos(k)) == kids[k] { InsertedKid(d, d', n, position, gte, k); }
    BranchIs(d', keys, kids);
  }

  lemma {:induction false} BranchUnshifted(d: seq<Byte>, d': seq<Byte>, n: nat, key: Key, lt: Id)
    requires PackedBranch(d) && n == Get16(d, POS_TOTAL_KEYS) < BRANCH_MAX_ENTRIES
    requires var w := BranchPos(0); Moved(d, d', w, w + 6, -6) && Get32(d', w + BRANCH_OFFSET_KEY) == key && Get16(d', w) == lt
    requires Get16(d', POS_TOTAL_KEYS) == n + 1
    ensures PackedBranch(d') && BranchOf(d).BranchNode? && BranchOf(d') == BranchOf(d).(slots := Slots([key] + Keys(d, n), [lt] + Kids(d, n)))
  {
    hide Get16, Get32, Moved;
    var w, keys, kids := BranchPos(0), [key] + Keys(d, n), [lt] + Kids(d, n);
    MovedFront(d, d', w, w + 6, -6);
    SameHead(d, d', w);
    forall k | 0 <= k < n + 1 ensures Get32(d', BranchPos(k) + BRANCH_OFFSET_KEY) == keys[k] {
      if k > 0 { KeyKept(d, d', w, w + 6, -6, k - 1, k); }
    }
    forall k | 0 <= k < n + 2 ensures Get16(d', BranchPos(k)) == kids[k] {
      if k > 0 { KidKept(d, d', w, w + 6, -6, k - 1, k); }
    }
    BranchIs(d', keys, kids);
  }

  lemma {:induction false} DeletedParts(d: seq<Byte>, d': seq<Byte>, n: nat, position: nat, k: nat)
    requires |d| == BLOCK_SIZE && position < n <= BRANCH_MAX_ENTRIES && k < n
    requires var w := BranchPos(position); Moved(d, d', w, w, 6)
    ensures k < n - 1 ==> Get32(d', BranchPos(k) + BRANCH_OFFSET_KEY) == DropAt(Keys(d, n), position)[k]
    ensures Get16(d', BranchPos(k)) == DropAt(Kids(d, n), position)[k]
  {
    hide Get16, Get32, Moved;
    var w, from := BranchPos(position), if k < position then k else k + 1;
    MovedFront(d, d', w, w, 6);
    if k < n - 1 { KeyKept(d, d', w, w, 6, from, k); }
    KidKept(d, d', w, w, 6, from, k);
  }

  /** The key goes with the child on its left. */
  lemma {:induction false} BranchDeleted(d: seq<Byte>, d': seq<Byte>, n: nat, position: nat)
    requires PackedBranch(d) && n == Get16(d, POS_TOTAL_KEYS) && position < n
    requires var w := BranchPos(position); Moved(d, d', w, w, 6)
    requires Get16(d', POS_TOTAL_KEYS) == n - 1
    ensures PackedBranch(d') && BranchOf(d).BranchNode? && BranchOf(d') == BranchOf(d).(slots := Slots(DropAt(Keys(d, n), position), DropAt(Kids(d, n), position)))
  {
    hide Get16, Get32, Moved, DropAt, Slots;
    var w, keys, kids := BranchPos(position), DropAt(Keys(d, n), position), DropAt(Kids(d, n), position);
    MovedFront(d, d', w, w, 6);
    SameHead(d, d', w);
    DropLength(Keys(d, n), position);
    DropLength(Kids(d, n), position);
    forall k | 0 <= k < n - 1 ensures Get32(d', BranchPos(k) + BRANCH_OFFSET_KEY) == keys[k] { DeletedParts(d, d', n, position, k); }
    forall k | 0 <= k < n ensures Get16(d', BranchPos(k)) == kids[k] { DeletedParts(d, d', n, position, k); }
    BranchIs(d', keys, kids);
  }

  lemma {:induction false} BranchShifted(d: seq<Byte>, d': seq<Byte>, n: nat)
    requires PackedBranch(d) && n == Get16(d, POS_TOTAL_KEYS) > 0
    requires var w := BranchPos(0) + BRANCH_OFFSET_KEY; Moved(d, d', w, w, 6)
    requires Get16(d', POS_TOTAL_KEYS) == n - 1
    ensures PackedBranch(d') && BranchOf(d).BranchNode? && BranchOf(d') == BranchOf(d).(slots := Slots(Keys(d, n)[1..], DropAt(Kids(d, n), 1)))
  {
    hide Get16, Get32, Moved;
    var w, keys, kids := BranchPos(0) + BRANCH_OFFSET_KEY, Keys(d, n)[1..], DropAt(Kids(d, n), 1);
    MovedFront(d, d', w, w, 6);
    SameHead(d, d', w);
    forall k | 0 <= k < n - 1 ensures Get32(d', BranchPos(k) + BRANCH_OFFSET_KEY) == keys[k] { KeyKept(d, d', w, w, 6, k + 1, k); }
    forall k | 0 <= k < n ensures Get16(d', BranchPos(k)) == kids[k] { KidKept(d, d', w, w, 6, if k < 1 then k else k + 1, k); }
    BranchIs(d', keys, kids);
  }

  lemma {:induction false} BranchCut(d: seq<Byte>, d': seq<Byte>, n: nat, start: nat)
    requires PackedBranch(d) && n == Get16(d, POS_TOTAL_KEYS) && start <= n && SameFront(d, d', BLOCK_SIZE)
    requires Get16(d', POS_TOTAL_KEYS) == start
    ensures PackedBranch(d') && BranchOf(d).BranchNode? && BranchOf(d') == BranchOf(d).(slots := Slots(Keys(d, n)[..start], Kids(d, n)[..start + 1]))
  {
    hide Get16, Get32, Moved;
    SameHead(d, d', BLOCK_SIZE);
    NothingMoved(d, d');
    forall k | 0 <= k < start ensures Get32(d', BranchPos(k) + BRANCH_OFFSET_KEY) == Keys(d, n)[k] { KeyKept(d, d', BLOCK_SIZE, BLOCK_SIZE, 0, k, k); }
    forall k | 0 <= k < start + 1 ensures Get16(d', BranchPos(k)) == Kids(d, n)[k] { KidKept(d, d', BLOCK_SIZE, BLOCK_SIZE, 0, k, k); }
    BranchIs(d', Keys(d, n)[..start], Kids(d, n)[..start + 1]);
  }

  lemma {:induction false} BranchReplaced(d: seq<Byte>, d': seq<Byte>, n: nat, position: nat, key: Key)
    requires PackedBranch(d) && n == Get16(d, POS_TOTAL_KEYS) && position < n
    requires var w := BranchPos(position) + BRANCH_OFFSET_KEY; Moved(d, d', w, w + 4, 0) && Get32(d', w) == key
    requires Get16(d', POS_TOTAL_KEYS) == n
    ensures PackedBranch(d') && BranchOf(d).BranchNode? && BranchOf(d') == BranchOf(d).(slots := Slots(Keys(d, n)[position := key], Kids(d, n)))
  {
    hide Get16, Get32, Moved;
    var w := BranchPos(position) + BRANCH_OFFSET_KEY;
    MovedFront(d, d', w, w + 4, 0);
    SameHead(d, d', w);
    forall k | 0 <= k < n && k != position ensures Get32(d', BranchPos(k) + BRANCH_OFFSET_KEY) == Keys(d, n)[k] { KeyKept(d, d', w, w + 4, 0, k, k); }
    forall k | 0 <= k < n + 1 ensures Get16(d', BranchPos(k)) == Kids(d, n)[k] { KidKept(d, d', w, w + 4, 0, k, k); }
    BranchIs(d', Keys(d, n)[position := key], Kids(d, n));
  }

  /** A key at `p`, a child at `q` and the number of keys, written in this order. */
  function BranchPut(d: seq<Byte>, p: nat, key: nat, q: nat, kid: nat, n: nat): (d': seq<Byte>)
    requires |d| == BLOCK_SIZE && p + 4 <= BLOCK_SIZE && q + 2 <= BLOCK_SIZE && key < 0x1_0000_0000 && kid < 0x1_0000 && n < 0x1_0000
    ensures |d'| == BLOCK_SIZE
  {
    Splice(Splice(Splice(d, p, Big32(key)), q, Big16(kid)), POS_TOTAL_KEYS, Big16(n))
  }

  lemma {:induction false} BranchPutIs(d: seq<Byte>, p: nat, key: nat, q: nat, kid: nat, n: nat)
    requires |d| == BLOCK_SIZE && p + 4 <= BLOCK_SIZE && q + 2 <= BLOCK_SIZE && key < 0x1_0000_0000 && kid < 0x1_0000 && n < 0x1_0000
    ensures BranchPut(d, p, key, q, kid, n) == Splice(Splice(Splice(d, p, Big32(key)), q, Big16(kid)), POS_TOTAL_KEYS, Big16(n))
  {
  }

  lemma {:induction false} BranchPutBytes(d: seq<Byte>, p: nat, key: nat, q: nat, kid: nat, n: nat)
    requires |d| == BLOCK_SIZE && p + 4 <= BLOCK_SIZE && q + 2 <= BLOCK_SIZE && key < 0x1_0000_0000 && kid < 0x1_0000 && n < 0x1_0000
    requires p >= POS_ENTRIES_OFFSET && q >= POS_ENTRIES_OFFSET && (q + 2 <= p || p + 4 <= q)
    ensures var d' := BranchPut(d, p, key, q, kid, n);
            && Get32(d', p) == key && Get16(d', q) == kid && Get16(d', POS_TOTAL_KEYS) == n
            && forall i :: 0 <= i < BLOCK_SIZE && !(p <= i < p + 4) && !(q <= i < q + 2) && !(POS_TOTAL_KEYS <= i < POS_PARENT_ID) ==> d'[i] == d[i]
  {
    hide Big16, Big32, Get16, Get32;
    var d1 := Splice(d, p, Big32(key));
    var d2 := Splice(d1, q, Big16(kid));
    var d' := Splice(d2, POS_TOTAL_KEYS, Big16(n));
    Get32Splice(d, p, key);
    Get16Splice(d1, q, kid);
    Get16Splice(d2, POS_TOTAL_KEYS, n);
    assert d1[p..p + 4] == d2[p..p + 4] == d'[p..p + 4];
    SameKey(d1, p, d', p);
    assert d2[q..q + 2] == d'[q..q + 2];
    SameKid(d2, q, d', q);
  }

  lemma {:induction false} OpenedMoved(d: seq<Byte>, d': seq<Byte>, w: nat, p: nat, q: nat)
    requires |d| == |d'| == BLOCK_SIZE && POS_ENTRIES_OFFSET <= w && w + 6 <= BLOCK_SIZE && w <= p <= w + 6 <= q <= BLOCK_SIZE
    requires var o := Opened(d, w, 6); forall i :: 0 <= i < BLOCK_SIZE && !(p <= i < q) && !(POS_TOTAL_KEYS <= i < POS_PARENT_ID) ==> d'[i] == o[i]
    ensures Moved(d, d', p, q, -6)
  {
    var o := Opened(d, w, 6);
    forall i | 0 <= i < p && !(POS_TOTAL_KEYS <= i < POS_PARENT_ID) ensures d'[i] == d[i] { assert o[i] == d[i]; }
    forall i | q <= i < BLOCK_SIZE ensures d'[i] == d[i - 6] { assert o[i] == d[i - 6]; }
  }

  lemma {:induction false} BranchPutIn(d: seq<Byte>, n: nat, position: nat, key: nat, gte: nat)
    requires PackedBranch(d) && n == Get16(d, POS_TOTAL_KEYS) < BRANCH_MAX_ENTRIES && position <= n && key < 0x1_0000_0000 && gte < 0x1_0000
    ensures var w := BranchPos(position);
            var d' := BranchPut(Opened(d, w, BRANCH_ENTRY_JUMP), w + BRANCH_OFFSET_KEY, key, w + BRANCH_OFFSET_RIGHT_BLOCK_ID, gte, n + 1);
            && PackedBranch(d') && BranchOf(d).BranchNode?
            && BranchOf(d') == BranchOf(d).(slots := Slots(PutAt(Keys(d, n), position, key), PutAt(Kids(d, n), position + 1, gte)))
  {
    hide BranchPut, Opened, Get16, Get32, PutAt, Slots, Keys, Kids, Moved, BranchOf;
    var w := BranchPos(position);
    var o := Opened(d, w, BRANCH_ENTRY_JUMP);
    var d' := BranchPut(o, w + BRANCH_OFFSET_KEY, key, w + BRANCH_OFFSET_RIGHT_BLOCK_ID, gte, n + 1);
    BranchPutBytes(o, w + BRANCH_OFFSET_KEY, key, w + BRANCH_OFFSET_RIGHT_BLOCK_ID, gte, n + 1);
    OpenedMoved(d, d', w, w + 2, w + 8);
    BranchInserted(d, d', n, position, key, gte);
  }

  lemma {:induction false} BranchPutFirst(d: seq<Byte>, n: nat, key: nat, lt: nat)
    requires PackedBranch(d) && n == Get16(d, POS_TOTAL_KEYS) < BRANCH_MAX_ENTRIES && key < 0x1_0000_0000 && lt < 0x1_0000
    ensures var w := BranchPos(0);
            var d' := BranchPut(Opened(d, w, BRANCH_ENTRY_JUMP), w + BRANCH_OFFSET_KEY, key, w, lt, n + 1);
            && PackedBranch(d') && BranchOf(d).BranchNode?
            && BranchOf(d') == BranchOf(d).(slots := Slots([key as Key] + Keys(d, n), [lt] + Kids(d, n)))
  {
    hide BranchPut, Opened, Get16, Get32, Slots, Keys, Kids, Moved, BranchOf;
    var w := BranchPos(0);
    var o := Opened(d, w, BRANCH_ENTRY_JUMP);
    var d' := BranchPut(o, w + BRANCH_OFFSET_KEY, key, w, lt, n + 1);
    BranchPutBytes(o, w + BRANCH_OFFSET_KEY, key, w, lt, n + 1);
    OpenedMoved(d, d', w, w, w + 6);
    BranchUnshifted(d, d', n, key, lt);
  }

  lemma {:induction false} ClosedMoved(d: seq<Byte>, w: nat, n: nat)
    requires |d| == BLOCK_SIZE && POS_ENTRIES_OFFSET <= w && w + 6 <= BLOCK_SIZE && n < 0x1_0000
    ensures Moved(d, Closed(d, w, 6, n), w, w, 6) && Get16(Closed(d, w, 6, n), POS_TOTAL_KEYS) == n
  {
    hide Closed, Get16;
    ClosedBytes(d, w, 6, n);
  }

  lemma {:induction false} KeyWritten(d: seq<Byte>, w: nat, key: nat)
    requires |d| == BLOCK_SIZE && POS_ENTRIES_OFFSET <= w && w + 4 <= BLOCK_SIZE && key < 0x1_0000_0000
    ensures var d' := Splice(d, w, Big32(key)); Moved(d, d', w, w + 4, 0) && Get32(d', w) == key && Get16(d', POS_TOTAL_KEYS) == Get16(d, POS_TOTAL_KEYS)
  {
    hide Big32;
    Get32Splice(d, w, key);
  }

  lemma {:induction false} TotalWritten(d: seq<Byte>, n: nat)
    requires |d| == BLOCK_SIZE && n < 0x1_0000
    ensures var d' := Splice(d, POS_TOTAL_KEYS, Big16(n)); SameFront(d, d', BLOCK_SIZE) && Get16(d', POS_TOTAL_KEYS) == n
  {
    Get16Splice(d, POS_TOTAL_KEYS, n);
  }

  /** Only parent and siblings have changed. */
  lemma {:induction false} Relinked(d: seq<Byte>, d': seq<Byte>)
    requires |d| == |d'| == BLOCK_SIZE && forall i :: 0 <= i < BLOCK_SIZE && !(POS_PARENT_ID <= i < POS_ENTRIES_OFFSET) ==> d'[i] == d[i]
    ensures PackedLeaf(d) <==> PackedLeaf(d')
    ensures PackedBranch(d) <==> PackedBranch(d')
    ensures PackedLeaf(d) ==> LeafOf(d') == LeafNode(Get16(d', POS_PARENT_ID), Get16(d', POS_LEFT_SIBLING), Get16(d', POS_RIGHT_SIBLING), LeafOf(d).entries)
    ensures PackedBranch(d) ==> BranchOf(d') == BranchNode(Get16(d', POS_PARENT_ID), Get16(d', POS_LEFT_SIBLING), Get16(d', POS_RIGHT_SIBLING), BranchOf(d).slots)
  {
    hide LeafAt, Get32;
    var n := Get16(d, POS_TOTAL_KEYS);
    if PackedLeaf(d) {
      forall k | 0 <= k < n ensures LeafAt(d', LeafPos(k)) == LeafAt(d, LeafPos(k)) { SameLeafAt(d, LeafPos(k), d', LeafPos(k)); }
      assert Entries(d', n) == Entries(d, n);
    }
    if PackedBranch(d) {
      forall k | 0 <= k < n ensures Get32(d', BranchPos(k) + BRANCH_OFFSET_KEY) == Keys(d, n)[k] {
        SameKey(d, BranchPos(k) + BRANCH_OFFSET_KEY, d', BranchPos(k) + BRANCH_OFFSET_KEY);
      }
      forall k | 0 <= k <= n ensures Get16(d', BranchPos(k)) == Kids(d, n)[k] { SameKid(d, BranchPos(k), d', BranchPos(k)); }
      BranchIs(d', Keys(d, n), Kids(d, n));
    }
  }

  // ---------- Deleting from a branch ----------

  lemma {:induction false} LastDeleted(keys: seq<Key>, kids: seq<Id>)
    requires |kids| == |keys| + 1 && |keys| > 0
    ensures var n := |keys|; PackedDelete(keys, kids, n - 1) == Slots(keys[..n - 1], kids[..n])
  {
  }

  lemma {:induction false} SlotsInjective(keys: seq<Key>, xs: seq<Id>, ys: seq<Id>, i: nat)
    requires |xs| == |ys| == |keys| + 1 && Slots(keys, xs) == Slots(keys, ys) && i <= |keys| && keys != []
    ensures xs[i] == ys[i]
  {
    var k := if i == |keys| then i - 1 else i;
    assert Slots(keys, xs)[k] == BranchEntry(keys[k], xs[k], xs[k + 1]) && Slots(keys, ys)[k] == BranchEntry(keys[k], ys[k], ys[k + 1]);
  }

  /** The two forms agree exactly at the ends of the node, or where a child is there twice; strictly
      inside, the packed form drops the key with the child on the wrong side. */
  lemma {:induction false} DeletesAgree(keys: seq<Key>, kids: seq<Id>, p: nat)
    requires |kids| == |keys| + 1 && p < |keys|
    ensures PackedDelete(keys, kids, p) == ListDelete(keys, kids, p) <==> p == 0 || p == |keys| - 1 || kids[p] == kids[p + 1]
  {
    var xs, ys := DropAt(kids, p), DropAt(kids, p + 1);
    if p == |keys| - 1 {
      assert keys[..p] == DropAt(keys, p) && kids[..p + 1] == DropAt(kids, p + 1);
      if p == 0 { assert Slots(keys[..0], kids[..1]) == Slots(keys[1..], kids[1..]); }
    } else if p == 0 {
      assert DropAt(keys, 0) == keys[1..] && DropAt(kids, 0) == kids[1..];
    } else {
      assert xs[p] == kids[p + 1] && ys[p] == kids[p];
      if kids[p] == kids[p + 1] {
        assert xs == ys;
      }
      if Slots(DropAt(keys, p), xs) == Slots(DropAt(keys, p), ys) { SlotsInjective(DropAt(keys, p), xs, ys, p); }
    }
  }

  // ---------- Nodes ----------

  class IndexNode {
    const block: DataBlock
    /** Whether an operation has marked the block for the buffer. */
    var dirty: bool

    constructor (block: DataBlock)
      ensures this.block == block && !dirty
    {
      this.block := block;
      dirty := false;
    }

    ghost predicate IsLeaf()
      reads block.data
    {
      PackedLeaf(block.data[..])
    }

    ghost predicate IsBranch()
      reads block.data
    {
      PackedBranch(block.data[..])
    }

    ghost function Leaf(): (node: Node)
      requires IsLeaf()
      reads block.data
      ensures node.LeafNode?
    {
      LeafOf(block.data[..])
    }

    ghost function Branch(): (node: Node)
      requires IsBranch()
      reads block.data
      ensures node.BranchNode?
    {
      BranchOf(block.data[..])
    }

    ghost function BranchKeys(): seq<Key>
      requires IsBranch()
      reads block.data
    {
      Keys(block.data[..], TotalKeys())
    }

    ghost function BranchKids(): (kids: seq<Id>)
      requires IsBranch()
      reads block.data
      ensures |kids| == |BranchKeys()| + 1 && Branch().slots == Slots(BranchKeys(), kids)
    {
      Kids(block.data[..], TotalKeys())
    }

    function TotalKeys(): (n: nat)
      requires block.data.Length == BLOCK_SIZE
      reads block.data
      ensures IsLeaf() ==> n == |Leaf().entries|
      ensures IsBranch() ==> n == |Branch().slots|
    {
      block.ReadUint16(POS_TOTAL_KEYS)
    }

    /** The fields of a node in a block just taken, whatever bytes were left in it. */
    method Blank()
      requires block.data.Length == BLOCK_SIZE
      modifies block.data
      ensures Get16(block.data[..], POS_TOTAL_KEYS) == 0 && Get16(block.data[..], POS_PARENT_ID) == 0
      ensures Get16(block.data[..], POS_LEFT_SIBLING) == 0 && Get16(block.data[..], POS_RIGHT_SIBLING) == 0
    {
      block.WriteUint16(POS_TOTAL_KEYS, 0);
      block.WriteUint16(POS_PARENT_ID, 0);
      block.WriteUint16(POS_RIGHT_SIBLING, 0);
      block.WriteUint16(POS_LEFT_SIBLING, 0);
    }

    method CreateLeaf()
      requires block.data.Length == BLOCK_SIZE
      modifies `dirty, block.data
      ensures IsLeaf() && Leaf() == LeafNode(0, 0, 0, []) && dirty
    {
      Blank();
      block.WriteUint8(POS_TYPE, TYPE_LEAF);
      dirty := true;
    }

    method CreateBranch(entry: BranchEntry)
      requires block.data.Length == BLOCK_SIZE && 0 <= entry.key < 0x1_0000_0000 && entry.lt < 0x1_0000 && entry.gte < 0x1_0000
      modifies `dirty, block.data
      ensures IsBranch() && Branch() == BranchNode(0, 0, 0, [entry]) && dirty
    {
      Blank();
      block.WriteUint8(POS_TYPE, TYPE_BRANCH);
      block.WriteUint32(POS_ENTRIES_OFFSET + BRANCH_OFFSET_KEY, entry.key);
      block.WriteUint16(POS_ENTRIES_OFFSET, entry.lt);
      block.WriteUint16(POS_ENTRIES_OFFSET + BRANCH_OFFSET_RIGHT_BLOCK_ID, entry.gte);
      block.WriteUint16(POS_TOTAL_KEYS, 1);
      dirty := true;
    }

    method SetParentID(id: Id)
      requires block.data.Length == BLOCK_SIZE && id < 0x1_0000
      modifies `dirty, block.data
      ensures dirty && IsLeaf() == old(IsLeaf()) && IsBranch() == old(IsBranch())
      ensures IsLeaf() ==> Leaf() == LeafNode(id, old(Leaf()).left, old(Leaf()).right, old(Leaf()).entries)
      ensures IsBranch() ==> Branch() == BranchNode(id, old(Branch()).left, old(Branch()).right, old(Branch()).slots)
    {
      ghost var d := block.data[..];
      block.WriteUint16(POS_PARENT_ID, id);
      Relinked(d, block.data[..]);
      dirty := true;
    }

    method SetLeftSiblingID(id: Id)
      requires block.data.Length == BLOCK_SIZE && id < 0x1_0000
      modifies `dirty, block.data
      ensures dirty && IsLeaf() == old(IsLeaf()) && IsBranch() == old(IsBranch())
      ensures IsLeaf() ==> Leaf() == LeafNode(old(Leaf()).parent, id, old(Leaf()).right, old(Leaf()).entries)
      ensures IsBranch() ==> Branch() == BranchNode(old(Branch()).parent, id, old(Branch()).right, old(Branch()).slots)
    {
      ghost var d := block.data[..];
      block.WriteUint16(POS_LEFT_SIBLING, id);
      Relinked(d, block.data[..]);
      dirty := true;
    }

    method SetRightSiblingID(id: Id)
      requires block.data.Length == BLOCK_SIZE && id < 0x1_0000
      modifies `dirty, block.data
      ensures dirty && IsLeaf() == old(IsLeaf()) && IsBranch() == old(IsBranch())
      ensures IsLeaf() ==> Leaf() == LeafNode(old(Leaf()).parent, old(Leaf()).left, id, old(Leaf()).entries)
      ensures IsBranch() ==> Branch() == BranchNode(old(Branch()).parent, old(Branch()).left, id, old(Branch()).slots)
    {
      ghost var d := block.data[..];
      block.WriteUint16(POS_RIGHT_SIBLING, id);
      Relinked(d, block.data[..]);
      dirty := true;
    }

    // ---------- Leaf entries ----------

    function ReadEntry(p: nat): (e: LeafEntry)
      requires p + LEAF_ENTRY_SIZE <= block.data.Length
      reads block.data
      ensures e == LeafAt(block.data[..], p)
    {
      LeafEntry(block.ReadUint32(p), RowID(block.ReadUint16(p + 4), block.ReadUint16(p + 6)))
    }

    lemma {:induction false} LeafLength()
      requires IsLeaf()
      ensures block.data.Length == BLOCK_SIZE && TotalKeys() <= LEAF_MAX_ENTRIES
      ensures |Leaf().entries| == TotalKeys() && forall i :: 0 <= i < TotalKeys() ==> Leaf().entries[i] == LeafAt(block.data[..], LeafPos(i))
    {
    }

    /** The fields of an entry, and the number of keys. */
    method WriteEntry(w: nat, n: nat, entry: LeafEntry)
      requires block.data.Length == BLOCK_SIZE && w + LEAF_ENTRY_SIZE <= BLOCK_SIZE && FitsLeaf(entry) && n < LEAF_MAX_ENTRIES
      modifies block.data
      ensures block.data[..] == LeafPut(old(block.data[..]), w, n, entry)
    {
      hide Splice, Big16, Big32, Get16, Get32;
      block.WriteUint32(w, entry.key);
      block.WriteUint16(w + 4, entry.item.block);
      block.WriteUint16(w + 6, entry.item.local);
      block.WriteUint16(POS_TOTAL_KEYS, n + 1);
    }

    method LeafInsertAt(position: int, entry: LeafEntry)
      requires IsLeaf() && FitsLeaf(entry) && -1 <= position <= TotalKeys() < LEAF_MAX_ENTRIES
      modifies `dirty, block.data
      ensures IsLeaf() && dirty
      ensures Leaf() == old(Leaf()).(entries := PutAt(old(Leaf()).entries, if position == -1 then 0 else position, entry))
    {
      hide PackedLeaf, LeafOf, LeafPut, Opened, Splice, PutAt, FitsLeaf, Get16;
      LeafLength();
      var at := if position == -1 then 0 else position;
      var w := LeafPos(at);
      var n := TotalKeys();
      ghost var d := block.data[..];
      if at != n {
        block.Unshift(w, LEAF_ENTRY_SIZE);
        OpenedIs(d, w, LEAF_ENTRY_SIZE);
      }
      WriteEntry(w, n, entry);
      dirty := true;
      LeafPutIn(d, n, at, entry);
    }

    method LeafDeleteAt(position: int) returns (res: Result<LeafEntry>)
      requires IsLeaf()
      modifies `dirty, block.data
      ensures IsLeaf() && (res.Refused? <==> !(0 <= position < old(TotalKeys())))
      ensures res.Refused? ==> Leaf() == old(Leaf())
      ensures res.Done? ==> dirty && res.value == old(Leaf()).entries[position] && Leaf() == old(Leaf()).(entries := DropAt(old(Leaf()).entries, position))
    {
      hide PackedLeaf, LeafOf, Closed, Splice, Slid, DropAt;
      LeafLength();
      var n := TotalKeys();
      if position < 0 || position >= n {
        return Refused;
      }
      var w := LeafPos(position);
      var entry := ReadEntry(w);
      ghost var d := block.data[..];
      block.CopyDown(w, w + LEAF_ENTRY_SIZE, BLOCK_SIZE - w - LEAF_ENTRY_SIZE);
      block.WriteUint16(POS_TOTAL_KEYS, n - 1);
      dirty := true;
      ClosedIs(d, w, LEAF_ENTRY_SIZE, n - 1);
      ClosedBytes(d, w, LEAF_ENTRY_SIZE, n - 1);
      LeafDeleted(d, block.data[..], n, position);
      res := Done(entry);
    }

    method LeafDeleteFrom(start: nat) returns (removed: seq<LeafEntry>)
      requires IsLeaf() && start <= TotalKeys()
      modifies `dirty, block.data
      ensures IsLeaf() && dirty && removed == old(Leaf()).entries[start..]
      ensures Leaf() == old(Leaf()).(entries := old(Leaf()).entries[..start])
    {
      var n := TotalKeys();
      removed := [];
      var p := LeafPos(start);
      for i := start to n
        invariant p == LeafPos(i) && removed == Leaf().entries[start..i]
      {
        removed := removed + [ReadEntry(p)];
        p := p + LEAF_ENTRY_SIZE;
      }
      ghost var d := block.data[..];
      block.WriteUint16(POS_TOTAL_KEYS, start);
      dirty := true;
      LeafCut(d, block.data[..], n, start);
    }

    method LeafAll() returns (entries: seq<LeafEntry>)
      requires IsLeaf()
      ensures entries == Leaf().entries
    {
      entries := [];
      var p := POS_ENTRIES_OFFSET;
      for i := 0 to TotalKeys()
        invariant p == LeafPos(i) && entries == Leaf().entries[..i]
      {
        entries := entries + [ReadEntry(p)];
        p := p + LEAF_ENTRY_SIZE;
      }
    }

    // ---------- Branch entries ----------

    function ReadBranchEntry(p: nat): (e: BranchEntry)
      requires p + BRANCH_OFFSET_RIGHT_BLOCK_ID + 2 <= block.data.Length
      reads block.data
      ensures e == BranchEntry(Get32(block.data[..], p + BRANCH_OFFSET_KEY), Get16(block.data[..], p), Get16(block.data[..], p + BRANCH_OFFSET_RIGHT_BLOCK_ID))
    {
      BranchEntry(block.ReadUint32(p + BRANCH_OFFSET_KEY), block.ReadUint16(p), block.ReadUint16(p + BRANCH_OFFSET_RIGHT_BLOCK_ID))
    }

    lemma {:induction false} BranchLength()
      requires IsBranch()
      ensures block.data.Length == BLOCK_SIZE && TotalKeys() <= BRANCH_MAX_ENTRIES && |BranchKeys()| == TotalKeys()
      ensures forall i :: 0 <= i < TotalKeys() ==> BranchKeys()[i] == Get32(block.data[..], BranchPos(i) + BRANCH_OFFSET_KEY)
      ensures forall i :: 0 <= i <= TotalKeys() ==> BranchKids()[i] == Get16(block.data[..], BranchPos(i))
    {
    }

    lemma {:induction false} SlotAt(i: nat)
      requires IsBranch() && i < TotalKeys()
      ensures block.data.Length == BLOCK_SIZE && TotalKeys() <= BRANCH_MAX_ENTRIES && |Branch().slots| == TotalKeys()
      ensures Branch().slots[i] == ReadBranchEntry(BranchPos(i))
    {
      BranchLength();
    }

    method EntryAt(position: int) returns (res: Result<BranchEntry>)
      requires IsBranch()
      ensures res.Refused? <==> !(0 <= position < TotalKeys())
      ensures res.Done? ==> res.value == Branch().slots[position]
    {
      BranchLength();
      if position < 0 || position >= TotalKeys() {
        return Refused;
      }
      SlotAt(position);
      res := Done(ReadBranchEntry(BranchPos(position)));
    }

    /** The last key goes with its right child, any other with its left child; the block is not marked. */
    method BranchDeleteAt(position: int) returns (res: Result<BranchEntry>)
      requires IsBranch()
      modifies block.data
      ensures IsBranch() && (res.Refused? <==> !(0 <= position < old(TotalKeys())))
      ensures res.Refused? ==> Branch() == old(Branch())
      ensures res.Done? ==> res.value == old(Branch()).slots[position]
      ensures res.Done? ==> Branch() == old(Branch()).(slots := PackedDelete(old(BranchKeys()), old(BranchKids()), position))
    {
      hide PackedBranch, BranchOf, Closed, Splice, Slid, DropAt, Slots, Moved;
      BranchLength();
      var n := TotalKeys();
      if position < 0 || position >= n {
        return Refused;
      }
      SlotAt(position);
      var w := BranchPos(position);
      var entry := ReadBranchEntry(w);
      ghost var d := block.data[..];
      res := Done(entry);
      if position == n - 1 {
        block.WriteUint16(POS_TOTAL_KEYS, n - 1);
        TotalWritten(d, n - 1);
        BranchCut(d, block.data[..], n, n - 1);
        LastDeleted(Keys(d, n), Kids(d, n));
        return;
      }
      block.CopyDown(w, w + BRANCH_ENTRY_JUMP, BLOCK_SIZE - w - BRANCH_ENTRY_JUMP);
      block.WriteUint16(POS_TOTAL_KEYS, n - 1);
      ClosedIs(d, w, BRANCH_ENTRY_JUMP, n - 1);
      ClosedMoved(d, w, n - 1);
      BranchDeleted(d, block.data[..], n, position);
    }

    /** The block is not marked. */
    method BranchReplaceKeyAt(position: int, key: Key) returns (res: Result<()>)
      requires IsBranch() && 0 <= key < 0x1_0000_0000
      modifies block.data
      ensures IsBranch() && (res.Refused? <==> !(0 <= position < old(TotalKeys())))
      ensures Branch() == if res.Refused? then old(Branch()) else old(Branch()).(slots := Slots(old(BranchKeys())[position := key], old(BranchKids())))
    {
      hide PackedBranch, BranchOf, Splice, Slots, Moved;
      BranchLength();
      var n := TotalKeys();
      if position < 0 || position >= n {
        return Refused;
      }
      ghost var d := block.data[..];
      var w := BranchPos(position) + BRANCH_OFFSET_KEY;
      block.WriteUint32(w, key);
      KeyWritten(d, w, key);
      BranchReplaced(d, block.data[..], n, position, key);
      res := Done(());
    }

    method BranchDeleteFrom(start: nat) returns (removed: seq<BranchEntry>)
      requires IsBranch() && start <= TotalKeys()
      modifies `dirty, block.data
      ensures IsBranch() && dirty && removed == Slots(old(BranchKeys())[start..], old(BranchKids())[start..])
      ensures Branch() == old(Branch()).(slots := Slots(old(BranchKeys())[..start], old(BranchKids())[..start + 1]))
    {
      hide PackedBranch, BranchOf, Splice, Slots, Keys, Kids;
      BranchLength();
      var n := TotalKeys();
      ghost var d := block.data[..];
      removed := [];
      var p := BranchPos(start);
      for i := start to n
        invariant block.data[..] == d && n == TotalKeys() && IsBranch() && p == BranchPos(i) && n == |Branch().slots| && removed == Branch().slots[start..i]
      {
        SlotAt(i);
        removed := removed + [ReadBranchEntry(p)];
        p := p + BRANCH_ENTRY_JUMP;
      }
      SlotsFrom(BranchKeys(), BranchKids(), start);
      block.WriteUint16(POS_TOTAL_KEYS, start);
      dirty := true;
      TotalWritten(d, start);
      BranchCut(d, block.data[..], n, start);
    }

    static lemma {:induction false} SlotsFrom(keys: seq<Key>, kids: seq<Id>, start: nat)
      requires |kids| == |keys| + 1 && start <= |keys|
      ensures Slots(keys, kids)[start..|keys|] == Slots(keys[start..], kids[start..])
    {
    }

    /** Drops the first key with the child on its right; the block is not marked. */
    method BranchShift()
      requires IsBranch() && TotalKeys() > 0
      modifies block.data
      ensures IsBranch() && Branch() == old(Branch()).(slots := Slots(old(BranchKeys())[1..], DropAt(old(BranchKids()), 1)))
    {
      hide PackedBranch, BranchOf, Closed, Splice, Slid, DropAt, Slots, Moved;
      BranchLength();
      ghost var d := block.data[..];
      var w := POS_ENTRIES_OFFSET + BRANCH_OFFSET_KEY;
      block.CopyDown(w, w + BRANCH_ENTRY_JUMP, BLOCK_SIZE - w - BRANCH_ENTRY_JUMP);
      HeadKept(d, w);
      var n := block.ReadUint16(POS_TOTAL_KEYS);
      block.WriteUint16(POS_TOTAL_KEYS, n - 1);
      ClosedIs(d, w, BRANCH_ENTRY_JUMP, n - 1);
      ClosedMoved(d, w, n - 1);
      BranchShifted(d, block.data[..], n);
    }

    static lemma {:induction false} HeadKept(d: seq<Byte>, w: nat)
      requires |d| == BLOCK_SIZE && POS_ENTRIES_OFFSET <= w && w + 6 <= BLOCK_SIZE
      ensures Get16(Slid(d, w, w + 6, BLOCK_SIZE - w - 6), POS_TOTAL_KEYS) == Get16(d, POS_TOTAL_KEYS)
    {
    }

    method BranchAll() returns (entries: seq<BranchEntry>)
      requires IsBranch()
      ensures entries == Branch().slots
    {
      hide PackedBranch, BranchOf, Slots, Keys, Kids;
      BranchLength();
      entries := [];
      var p := POS_ENTRIES_OFFSET;
      for i := 0 to TotalKeys()
        invariant p == BranchPos(i) && entries == Branch().slots[..i]
      {
        SlotAt(i);
        entries := entries + [ReadBranchEntry(p)];
        p := p + BRANCH_ENTRY_JUMP;
      }
    }

    method BranchInsertAt(position: nat, key: Key, gte: Id)
      requires IsBranch() && position <= TotalKeys() < BRANCH_MAX_ENTRIES && 0 <= key < 0x1_0000_0000 && gte < 0x1_0000
      modifies `dirty, block.data
      ensures IsBranch() && dirty
      ensures Branch() == old(Branch()).(slots := Slots(PutAt(old(BranchKeys()), position, key), PutAt(old(BranchKids()), position + 1, gte)))
    {
      hide PackedBranch, BranchOf, BranchPut, Opened, Splice, PutAt, Slots, Get32, Big16, Big32;
      BranchLength();
      ghost var d := block.data[..];
      ghost var n0 := TotalKeys();
      var w := BranchPos(position);
      block.Unshift(w, BRANCH_ENTRY_JUMP);
      OpenedIs(d, w, BRANCH_ENTRY_JUMP);
      block.WriteUint32(w + BRANCH_OFFSET_KEY, key);
      block.WriteUint16(w + BRANCH_OFFSET_RIGHT_BLOCK_ID, gte);
      TotalKept(d, w, w + BRANCH_OFFSET_KEY, key, w + BRANCH_OFFSET_RIGHT_BLOCK_ID, gte);
      var n := TotalKeys() + 1;
      block.WriteUint16(POS_TOTAL_KEYS, n);
      dirty := true;
      BranchPutIs(Opened(d, w, BRANCH_ENTRY_JUMP), w + BRANCH_OFFSET_KEY, key, w + BRANCH_OFFSET_RIGHT_BLOCK_ID, gte, n);
      BranchPutIn(d, n0, position, key, gte);
    }

    static lemma {:induction false} TotalKept(d: seq<Byte>, w: nat, p: nat, key: nat, q: nat, kid: nat)
      requires |d| == BLOCK_SIZE && POS_ENTRIES_OFFSET <= w && w + 6 <= BLOCK_SIZE && POS_ENTRIES_OFFSET <= p && POS_ENTRIES_OFFSET <= q
      requires p + 4 <= BLOCK_SIZE && q + 2 <= BLOCK_SIZE && key < 0x1_0000_0000 && kid < 0x1_0000
      ensures Get16(Splice(Splice(Opened(d, w, 6), p, Big32(key)), q, Big16(kid)), POS_TOTAL_KEYS) == Get16(d, POS_TOTAL_KEYS)
    {
      hide Big16, Big32;
    }

    method BranchUnshift(key: Key, lt: Id)
      requires IsBranch() && TotalKeys() < BRANCH_MAX_ENTRIES && 0 <= key < 0x1_0000_0000 && lt < 0x1_0000
      modifies `dirty, block.data
      ensures IsBranch() && dirty
      ensures Branch() == old(Branch()).(slots := Slots([key] + old(BranchKeys()), [lt] + old(BranchKids())))
    {
      hide PackedBranch, BranchOf, BranchPut, Opened, Splice, Slots, Get32, Big16, Big32;
      BranchLength();
      ghost var d := block.data[..];
      ghost var n0 := TotalKeys();
      var w := POS_ENTRIES_OFFSET;
      block.Unshift(w, BRANCH_ENTRY_JUMP);
      OpenedIs(d, w, BRANCH_ENTRY_JUMP);
      block.WriteUint32(w + BRANCH_OFFSET_KEY, key);
      block.WriteUint16(w, lt);
      TotalKept(d, w, w + BRANCH_OFFSET_KEY, key, w, lt);
      var n := TotalKeys() + 1;
      block.WriteUint16(POS_TOTAL_KEYS, n);
      dirty := true;
      BranchPutIs(Opened(d, w, BRANCH_ENTRY_JUMP), w + BRANCH_OFFSET_KEY, key, w, lt, n);
      BranchPutFirst(d, n0, key, lt);
    }
  }
}
