/** Blocks of bytes: big-endian numbers in them and the shift that makes room. */
module DataBlocks {
  type Byte = x: int | 0 <= x < 256 witness 0

  const BLOCK_SIZE: nat := 4096

  // ---------- Bytes as values ----------

  function Get16(d: seq<Byte>, p: nat): (v: nat)
    requires p + 2 <= |d|
    ensures v < 0x1_0000
  {
    d[p] as int * 256 + d[p + 1] as int
  }

  function Get32(d: seq<Byte>, p: nat): (v: nat)
    requires p + 4 <= |d|
    ensures v < 0x1_0000_0000
  {
    Get16(d, p) * 0x1_0000 + Get16(d, p + 2)
  }

  function Big16(v: nat): (bs: seq<Byte>)
    requires v < 0x1_0000
    ensures |bs| == 2
  {
    [v / 256, v % 256]
  }

  function Big32(v: nat): (bs: seq<Byte>)
    requires v < 0x1_0000_0000
    ensures |bs| == 4
  {
    Big16(v / 0x1_0000) + Big16(v % 0x1_0000)
  }

  /** The bytes `bs` written over `d` from position `p` on. */
  function Splice(d: seq<Byte>, p: nat, bs: seq<Byte>): (r: seq<Byte>)
    requires p + |bs| <= |d|
    ensures |r| == |d|
    ensures forall i :: 0 <= i < |d| ==> r[i] == if p <= i < p + |bs| then bs[i - p] else d[i]
  {
    d[..p] + bs + d[p + |bs|..]
  }

  /** `count` bytes of `d` at `src` also put at `dst`. */
  function Slid(d: seq<Byte>, dst: nat, src: nat, count: nat): (r: seq<Byte>)
    requires count > 0 ==> dst <= src && src + count <= |d|
    ensures |r| == |d|
  {
    if count == 0 then d else Splice(d, dst, d[src..src + count])
  }

  /** The most significant byte comes first. */
  lemma {:induction false} BigEndian(d: seq<Byte>, p: nat)
    requires p + 4 <= |d|
    ensures Get16(d, p) == 0x100 * d[p] as int + d[p + 1] as int
    ensures Get32(d, p) == 0x100_0000 * d[p] as int + 0x1_0000 * d[p + 1] as int + 0x100 * d[p + 2] as int + d[p + 3] as int
  {
    assert Get16(d, p) * 0x1_0000 == 0x100_0000 * d[p] as int + 0x1_0000 * d[p + 1] as int;
  }

  /** What was written is read back. */
  lemma {:induction false} Get16Splice(d: seq<Byte>, p: nat, v: nat)
    requires p + 2 <= |d| && v < 0x1_0000
    ensures Get16(Splice(d, p, Big16(v)), p) == v
  {
  }

  lemma {:induction false} Get32Splice(d: seq<Byte>, p: nat, v: nat)
    requires p + 4 <= |d| && v < 0x1_0000_0000
    ensures Get32(Splice(d, p, Big32(v)), p) == v
  {
    var r := Splice(d, p, Big32(v));
    assert r[p] == (v / 0x1_0000) / 256 && r[p + 1] == (v / 0x1_0000) % 256;
    assert r[p + 2] == (v % 0x1_0000) / 256 && r[p + 3] == (v % 0x1_0000) % 256;
  }

  lemma {:induction false} SlidIs(d: seq<Byte>, d': seq<Byte>, dst: nat, src: nat, count: nat)
    requires |d'| == |d| && (count > 0 ==> dst <= src && src + count <= |d|)
    requires forall k :: 0 <= k < |d| && !(dst <= k < dst + count) ==> d'[k] == d[k]
    requires forall k {:trigger d[k]} :: src <= k < src + count ==> d'[k - src + dst] == d[k]
    ensures d' == Slid(d, dst, src, count)
  {
    if count > 0 {
      forall k | dst <= k < dst + count ensures d'[k] == Slid(d, dst, src, count)[k] {
        assert d'[(k - dst + src) - src + dst] == d[k - dst + src];
      }
    }
  }

  // ---------- Blocks ----------

  /** Writes bytes over a block one by one. */
  method WriteOver(data: array<Byte>, p: nat, bs: seq<Byte>)
    requires p + |bs| <= data.Length
    modifies data
    ensures data[..] == Splice(old(data[..]), p, bs)
  {
    for i := 0 to |bs|
      invariant data[..] == Splice(old(data[..]), p, bs[..i])
    {
      data[p + i] := bs[i];
    }
  }

  class DataBlock {
    const id: nat
    const data: array<Byte>

    constructor (id: nat)
      ensures this.id == id && fresh(data) && data.Length == BLOCK_SIZE && forall i :: 0 <= i < BLOCK_SIZE ==> data[i] == 0
    {
      this.id := id;
      data := new Byte[BLOCK_SIZE](_ => 0);
    }

    function ReadUint16(p: nat): (v: nat)
      requires p + 2 <= data.Length
      reads data
      ensures v == Get16(data[..], p)
    {
      data[p] as int * 256 + data[p + 1] as int
    }

    function ReadUint32(p: nat): (v: nat)
      requires p + 4 <= data.Length
      reads data
      ensures v == Get32(data[..], p)
    {
      ReadUint16(p) * 0x1_0000 + ReadUint16(p + 2)
    }

    method WriteUint8(p: nat, v: Byte)
      requires p < data.Length
      modifies data
      ensures data[..] == Splice(old(data[..]), p, [v])
    {
      data[p] := v;
    }

    method WriteUint16(p: nat, v: nat)
      requires p + 2 <= data.Length && v < 0x1_0000
      modifies data
      ensures data[..] == Splice(old(data[..]), p, Big16(v))
    {
      data[p], data[p + 1] := v / 256, v % 256;
    }

    method WriteUint32(p: nat, v: nat)
      requires p + 4 <= data.Length && v < 0x1_0000_0000
      modifies data
      ensures data[..] == Splice(old(data[..]), p, Big32(v))
    {
      WriteUint16(p, v / 0x1_0000);
      WriteUint16(p + 2, v % 0x1_0000);
    }

    method WriteBytes(p: nat, bs: seq<Byte>)
      requires p + |bs| <= data.Length
      modifies data
      ensures data[..] == Splice(old(data[..]), p, bs)
    {
      WriteOver(data, p, bs);
    }

    /** Everything from `position` on moves up by `count` places; the last bytes fall off. */
    method Unshift(position: nat, count: nat)
      requires position + count <= data.Length
      modifies data
      ensures data[..] == old(data[..position + count]) + old(data[position..data.Length - count])
    {
      ghost var was := data[..];
      var i := data.Length - 1 - count;
      while i >= position
        invariant position - 1 <= i <= data.Length - 1 - count
        invariant data[..i + count + 1] == was[..i + count + 1]
        invariant data[i + count + 1..] == was[i + 1..data.Length - count]
      {
        assert was[i] == data[i];
        data[i + count] := data[i];
        assert data[i + count..] == [was[i]] + was[i + 1..data.Length - count];
        i := i - 1;
      }
      assert data[..] == data[..position + count] + data[position + count..];
    }

    /** Moves `count` bytes down from `src` to `dst`, first byte first. */
    method CopyDown(dst: nat, src: nat, count: nat)
      requires count > 0 ==> dst <= src && src + count <= data.Length
      modifies data
      ensures data[..] == Slid(old(data[..]), dst, src, count)
    {
      ghost var was := data[..];
      for p := 0 to count
        invariant forall k :: 0 <= k < data.Length && !(dst <= k < dst + p) ==> data[k] == was[k]
        invariant forall k {:trigger was[k]} :: src <= k < src + p ==> data[k - src + dst] == was[k]
      {
        data[dst + p] := data[src + p];
      }
      SlidIs(was, data[..], dst, src, count);
    }
  }
}
