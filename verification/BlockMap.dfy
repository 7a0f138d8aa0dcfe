/** The bitmap of used blocks: bits, positions that share a bit, and the map over two blocks. */
module BlockMaps {

  // ---------- Bits ----------

  /** The bit of a position: positions 8k and 8k + 1 share one, and bit 7 is never used. */
  function Mask(i: nat): bv8 {
    var remainder := i % 8;
    if remainder == 0 then 1 else 1 << (remainder - 1)
  }

  predicate SameBit(i: nat, j: nat) {
    i / 8 == j / 8 && (i == j || (i % 8 <= 1 && j % 8 <= 1))
  }

  /** The test of the original: a number is larger than itself with the bit toggled. */
  predicate Larger(v: bv8, mask: bv8) {
    v > v ^ mask
  }

  predicate OneBit(m: bv8) {
    m == 1 || m == 2 || m == 4 || m == 8 || m == 16 || m == 32 || m == 64
  }

  lemma {:induction false} MaskIs(i: nat)
    ensures OneBit(Mask(i))
    ensures Mask(i) == match i % 8 case 0 => 1 case 1 => 1 case 2 => 2 case 3 => 4 case 4 => 8 case 5 => 16 case 6 => 32 case _ => 64
  {
    var r := i % 8;
    assert (1 as bv8) << 1 == 2 && (1 as bv8) << 2 == 4 && (1 as bv8) << 3 == 8 && (1 as bv8) << 4 == 16 && (1 as bv8) << 5 == 32 && (1 as bv8) << 6 == 64;
    assert r == 0 || r == 1 || r == 2 || r == 3 || r == 4 || r == 5 || r == 6 || r == 7;
  }

  lemma {:induction false} MaskSame(i: nat, j: nat)
    requires i / 8 == j / 8
    ensures Mask(i) == Mask(j) <==> SameBit(i, j)
  {
    MaskIs(i);
    MaskIs(j);
  }

  /** Toggling a bit turns its own test around and leaves the tests of other bits alone. */
  lemma {:induction false} ToggleLaw(v: bv8, m: bv8, n: bv8)
    requires OneBit(m) && OneBit(n)
    ensures Larger(v ^ m, n) == if m == n then !Larger(v, n) else Larger(v, n)
  {
  }

  /** The test is true where the bit is set. */
  lemma {:induction false} LargerLaw(v: bv8, m: bv8)
    requires OneBit(m)
    ensures Larger(v, m) <==> v & m != 0
  {
  }

  ghost predicate Reads(vals: seq<bv8>, i: nat)
    requires i / 8 < |vals|
  {
    Larger(vals[i / 8], Mask(i))
  }

  /** A position reads the bit it has in its byte. */
  lemma {:induction false} ReadsBit(vals: seq<bv8>, i: nat)
    requires i / 8 < |vals|
    ensures Reads(vals, i) <==> vals[i / 8] & (1 << (if i % 8 == 0 then 0 else i % 8 - 1)) != 0
  {
    MaskIs(i);
    LargerLaw(vals[i / 8], Mask(i));
  }

  function Toggled(vals: seq<bv8>, i: nat): seq<bv8>
    requires i / 8 < |vals|
  {
    vals[i / 8 := vals[i / 8] ^ Mask(i)]
  }

  lemma {:induction false} ToggledReads(vals: seq<bv8>, i: nat, j: nat)
    requires i / 8 < |vals| && j / 8 < |vals|
    ensures Reads(Toggled(vals, i), j) == if SameBit(i, j) then !Reads(vals, j) else Reads(vals, j)
  {
    if i / 8 == j / 8 {
      MaskIs(i);
      MaskIs(j);
      MaskSame(i, j);
      ToggleLaw(vals[i / 8], Mask(i), Mask(j));
    }
  }

  lemma {:induction false} SameReads(vals: seq<bv8>, i: nat, j: nat)
    requires i / 8 < |vals| && SameBit(i, j)
    ensures Reads(vals, i) == Reads(vals, j)
  {
    MaskSame(i, j);
  }

  /** How an access ends: as asked, with an error, or outside the bytes, where the original panics. */
  datatype Access = Granted | OutOfRange | Crashed

  class BitMap {
    const vals: array<bv8>

    constructor (bytes: nat)
      ensures fresh(vals) && vals.Length == bytes && forall i :: 0 <= i < bytes ==> vals[i] == 0
      ensures forall i: nat :: i < Size() ==> !Reads(vals[..], i)
    {
      vals := new bv8[bytes](_ => 0);
      new;
      forall i: nat | i < Size() ensures !Reads(vals[..], i) { ZeroReads(vals[..], i); }
    }

    static lemma {:induction false} ZeroReads(vals: seq<bv8>, i: nat)
      requires i / 8 < |vals| && vals[i / 8] == 0
      ensures !Reads(vals, i)
    {
      MaskIs(i);
      LargerLaw(0, Mask(i));
    }

    function Size(): nat {
      8 * vals.Length
    }

    predicate InRange(i: int) {
      0 <= i <= Size()
    }

    /** The range check of the original lets position `Size()` pass, which lies outside the bytes. */
    function Outcome(i: int): Access {
      if !InRange(i) then OutOfRange else if i == Size() then Crashed else Granted
    }

    method Get(i: int) returns (a: Access, value: bool)
      ensures a == Outcome(i) && value == (0 <= i < Size() && Reads(vals[..], i))
      ensures a == Granted ==> (value <==> vals[i / 8] & (1 << (if i % 8 == 0 then 0 else i % 8 - 1)) != 0)
      ensures a == (if i < 0 || i > 8 * vals.Length then OutOfRange else if i == 8 * vals.Length then Crashed else Granted)
    {
      if 0 <= i < Size() { ReadsBit(vals[..], i); }
      a, value := Outcome(i), false;
      if a == Granted {
        value := Larger(vals[i / 8], Mask(i));
      }
    }

    method Toggle(i: nat)
      requires i < Size()
      modifies vals
      ensures vals[..] == Toggled(old(vals[..]), i)
    {
      vals[i / 8] := vals[i / 8] ^ Mask(i);
    }

    method Set(i: int) returns (a: Access)
      modifies vals
      ensures a == Outcome(i) && (a != Granted ==> vals[..] == old(vals[..]))
      ensures a == Granted ==> forall j: nat :: j < Size() ==> Reads(vals[..], j) == (Reads(old(vals[..]), j) || SameBit(i, j))
    {
      ghost var was := vals[..];
      var val;
      a, val := Get(i);
      if a == Granted {
        if !val { Toggle(i); }
        forall j: nat | j < Size() ensures Reads(vals[..], j) == (Reads(was, j) || SameBit(i, j)) {
          ToggledReads(was, i, j);
          if SameBit(i, j) { SameReads(was, i, j); }
        }
      }
    }

    method Unset(i: int) returns (a: Access)
      modifies vals
      ensures a == Outcome(i) && (a != Granted ==> vals[..] == old(vals[..]))
      ensures a == Granted ==> forall j: nat :: j < Size() ==> Reads(vals[..], j) == (Reads(old(vals[..]), j) && !SameBit(i, j))
    {
      ghost var was := vals[..];
      var val;
      a, val := Get(i);
      if a == Granted {
        if val { Toggle(i); }
        forall j: nat | j < Size() ensures Reads(vals[..], j) == (Reads(was, j) && !SameBit(i, j)) {
          ToggledReads(was, i, j);
          if SameBit(i, j) { SameReads(was, i, j); }
        }
      }
    }
  }

  // ---------- Blocks ----------

  const PER_BLOCK: nat := 4096
  const TOTAL: nat := 8192

  /** Ids that the map can hand out: an id 8k + 1 never is, it shares the bit of 8k. */
  function Usable(): set<nat> {
    set i: nat | i < TOTAL && i % 8 != 1
  }

  /** The ids below a bound that can be handed out. */
  function UsableBelow(n: nat): set<nat> {
    set i: nat | i < n && i % 8 != 1
  }

  lemma {:induction false} CountBelow(n: nat)
    ensures |UsableBelow(n)| == n - (n + 6) / 8
  {
    hide UsableBelow;
    if n == 0 {
      NoneBelow();
    } else {
      CountBelow(n - 1);
      Eighths(n);
      OneMore(n - 1);
    }
  }

  lemma {:induction false} NoneBelow()
    ensures UsableBelow(0) == {}
  {
  }

  lemma {:induction false} Eighths(n: nat)
    requires n > 0
    ensures (n + 6) / 8 == (n + 5) / 8 + if (n - 1) % 8 == 1 then 1 else 0
  {
  }

  lemma {:induction false} OneMore(n: nat)
    ensures UsableBelow(n + 1) == UsableBelow(n) + (if n % 8 != 1 then {n} else {}) && n !in UsableBelow(n)
  {
  }

  /** A formatted file has 7165 blocks to hand out. */
  lemma {:induction false} UsableCount()
    ensures |Usable() - {0, 1, 2, 3}| == 7165
  {
    CountBelow(TOTAL);
    assert Usable() == UsableBelow(TOTAL);
    assert Usable() == (Usable() - {0, 1, 2, 3}) + {0, 2, 3};
  }

  /** Positions share a bit only within a block. */
  lemma {:induction false} InBlocks(id: nat)
    ensures forall j: nat :: id >= PER_BLOCK && j >= PER_BLOCK ==> (SameBit(id, j) <==> SameBit(id - PER_BLOCK, j - PER_BLOCK))
    ensures forall j: nat :: SameBit(id, j) ==> (id < PER_BLOCK <==> j < PER_BLOCK)
  {
  }

  /** A block is taken if somebody holds it or the block it shares its bit with. */
  ghost predicate Owned(held: set<nat>, j: nat) {
    exists x :: x in held && SameBit(x, j)
  }

  lemma {:induction false} OwnedMore(held: set<nat>, id: nat)
    ensures forall j: nat :: Owned(held + {id}, j) <==> Owned(held, j) || SameBit(id, j)
  {
    forall j: nat ensures Owned(held + {id}, j) <==> Owned(held, j) || SameBit(id, j) {
      if Owned(held, j) {
        var x :| x in held && SameBit(x, j);
        assert x in held + {id};
      }
      if SameBit(id, j) { assert id in held + {id}; }
    }
  }

  class DataBlocksMap {
    const low: BitMap
    const high: BitMap
    /** Blocks in the hands of somebody; 0 to 2 hold the control block and this map. */
    ghost var held: set<nat>

    ghost predicate InUse(id: nat)
      requires id < TOTAL && low.vals.Length == high.vals.Length == PER_BLOCK
      reads this, low.vals, high.vals
    {
      if id < PER_BLOCK then Reads(low.vals[..], id) else Reads(high.vals[..], id - PER_BLOCK)
    }

    ghost predicate Sized() {
      low.vals.Length == high.vals.Length == PER_BLOCK && low.vals != high.vals
    }

    /** The bits say exactly which blocks are held. */
    ghost predicate Valid()
      reads this, low.vals, high.vals
    {
      && Sized() && {0, 1, 2} <= held
      && (forall x :: x in held ==> x < TOTAL && (x % 8 != 1 || x == 1))
      && (forall j: nat :: j < TOTAL ==> (InUse(j) <==> Owned(held, j)))
    }

    /** A formatted data file: control block, the two map blocks and the first block for rows. */
    constructor ()
      ensures Valid() && held == {0, 1, 2, 3} && fresh(low.vals) && fresh(high.vals)
    {
      var a := new BitMap(PER_BLOCK);
      var b := new BitMap(PER_BLOCK);
      low, high := a, b;
      held := {};
      new;
      assert forall j: nat :: j < TOTAL ==> !InUse(j);
      for i := 0 to 4
        invariant Sized() && fresh(low.vals) && fresh(high.vals) && (forall x: nat :: x in held <==> x < i)
        invariant forall j: nat :: j < TOTAL ==> (InUse(j) <==> Owned(held, j))
      {
        MarkAsUsed(i);
        OwnedMore(held, i);
        held := held + {i};
      }
    }

    /** The least id that reads as free, and 0 when there is none. */
    method FirstFree() returns (id: nat)
      requires Sized()
      ensures id < TOTAL && (forall j: nat :: j < id ==> InUse(j))
      ensures if id != 0 then !InUse(id) else InUse(0) ==> forall j: nat :: j < TOTAL ==> InUse(j)
    {
      for blockIndex := 0 to 2
        invariant forall j: nat :: j < blockIndex * PER_BLOCK ==> InUse(j)
      {
        var bitMap := if blockIndex == 0 then low else high;
        for i := 0 to PER_BLOCK
          invariant forall j: nat :: j < blockIndex * PER_BLOCK + i ==> InUse(j)
        {
          var a, isInUse := bitMap.Get(i);
          if !isInUse {
            return i + blockIndex * PER_BLOCK;
          }
          assert InUse(blockIndex * PER_BLOCK + i);
        }
      }
      id := 0;
    }

    method MarkAsUsed(id: nat)
      requires Sized() && id < TOTAL
      modifies low.vals, high.vals
      ensures forall j: nat :: j < TOTAL ==> InUse(j) == (old(InUse(j)) || SameBit(id, j))
    {
      if id / PER_BLOCK == 0 {
        var _ := low.Set(id);
      } else {
        var _ := high.Set(id - PER_BLOCK);
      }
      InBlocks(id);
    }

    method MarkAsFree(id: nat)
      requires Sized() && id < TOTAL
      modifies low.vals, high.vals
      ensures forall j: nat :: j < TOTAL ==> InUse(j) == (old(InUse(j)) && !SameBit(id, j))
    {
      if id / PER_BLOCK == 0 {
        var _ := low.Unset(id);
      } else {
        var _ := high.Unset(id - PER_BLOCK);
      }
      InBlocks(id);
    }

    static lemma {:induction false} Offset(id: nat)
      requires id < TOTAL
      ensures id % PER_BLOCK == if id / PER_BLOCK == 0 then id else id - PER_BLOCK
      ensures id / PER_BLOCK == 0 <==> id < PER_BLOCK
    {
    }

    method IsInUse(id: nat) returns (inUse: bool)
      requires Sized() && id < TOTAL
      ensures inUse == InUse(id)
      ensures inUse <==> if id < 4096 then Reads(low.vals[..], id) else Reads(high.vals[..], id - 4096)
    {
      hide Reads, Mask, Larger;
      var a;
      Offset(id);
      if id / PER_BLOCK == 0 {
        a, inUse := low.Get(id % PER_BLOCK);
      } else {
        a, inUse := high.Get(id % PER_BLOCK);
      }
    }

    method AllInUse() returns (all: bool)
      requires Sized()
      ensures all <==> forall j: nat :: j < TOTAL ==> InUse(j)
    {
      for blockIndex := 0 to 2
        invariant forall j: nat :: j < blockIndex * PER_BLOCK ==> InUse(j)
      {
        var bitMap := if blockIndex == 0 then low else high;
        for i := 0 to PER_BLOCK
          invariant forall j: nat :: j < blockIndex * PER_BLOCK + i ==> InUse(j)
        {
          var a, isInUse := bitMap.Get(i);
          assert isInUse <==> InUse(blockIndex * PER_BLOCK + i);
          if !isInUse {
            return false;
          }
        }
      }
      all := true;
    }

    // ---------- Handing out and taking back ----------

    /** Takes the first free block, if there is one: the least usable id nobody holds. */
    method Allocate() returns (id: nat)
      requires Valid()
      modifies this`held, low.vals, high.vals
      ensures Valid() && (id == 0 <==> Usable() <= old(held))
      ensures id != 0 ==> id in Usable() - old(held) && id > 2 && forall j :: j in Usable() - old(held) ==> id <= j
      ensures held == if id == 0 then old(held) else old(held) + {id}
    {
      id := FirstFree();
      FirstIsFree(id);
      if id != 0 {
        ghost var was := held;
        MarkAsUsed(id);
        held := held + {id};
        OwnedMore(was, id);
      }
    }

    lemma {:induction false} Shared(id: nat)
      requires Valid() && id < TOTAL
      ensures id % 8 == 1 && InUse(id - 1) ==> InUse(id)
    {
      if id % 8 == 1 && InUse(id - 1) {
        var x :| x in held && SameBit(x, id - 1);
        assert SameBit(x, id);
      }
    }

    lemma {:induction false} FirstIsFree(id: nat)
      requires Valid() && id < TOTAL && forall j: nat :: j < id ==> InUse(j)
      requires if id != 0 then !InUse(id) else InUse(0) ==> forall j: nat :: j < TOTAL ==> InUse(j)
      ensures id == 0 <==> Usable() <= held
      ensures id != 0 ==> id in Usable() - held && forall j :: j in Usable() - held ==> id <= j
    {
      assert SameBit(0, 0) && InUse(0);
      forall j: nat | j < TOTAL && j % 8 != 1 && InUse(j) ensures j in held {
        var x :| x in held && SameBit(x, j);
      }
      if id != 0 {
        if id in held { assert SameBit(id, id); }
        Shared(id);
        assert id in Usable();
      }
    }

    /** Gives back a block other than the first three. */
    method Release(id: nat)
      requires Valid() && id in held && id > 2
      modifies this`held, low.vals, high.vals
      ensures Valid() && held == old(held) - {id}
    {
      ghost var was := held;
      MarkAsFree(id);
      held := held - {id};
      forall j: nat | j < TOTAL ensures InUse(j) <==> Owned(held, j) {
        if x :| x in held && SameBit(x, j) {
          assert x in was && !SameBit(id, x);
        }
        if InUse(j) {
          var x :| x in was && SameBit(x, j);
          assert x in held;
        }
      }
    }
  }
}
