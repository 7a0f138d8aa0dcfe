/** The second-chance write-back cache of blocks in front of the data file. */
module DataBuffers {
  import opened DataBlocks

  /** Blocks of the data file: 256 MB of 4 KB each, as many as there are 16-bit ids. */
  const BLOCKS: nat := 0x1_0000

  // ---------- The data file ----------

  /** The file, block by block. Reading and writing may fail at any time; a read that fails leaves
      any bytes behind, and a write that fails may have changed part of the block. */
  class DataFile {
    var blocks: seq<seq<Byte>>
    /** How many calls have failed so far. */
    ghost var failures: nat

    ghost predicate Valid()
      reads `blocks
    {
      |blocks| == BLOCKS && forall b :: 0 <= b < BLOCKS ==> |blocks[b]| == BLOCK_SIZE
    }

    method ReadBlock(id: nat, data: array<Byte>) returns (ok: bool)
      requires Valid() && id < BLOCKS && data.Length == BLOCK_SIZE
      modifies `failures, data
      ensures (ok ==> data[..] == blocks[id]) && failures == old(failures) + if ok then 0 else 1
    {
      ok := *;
      failures := failures + if ok then 0 else 1;
      var read := blocks[id];
      if !ok {
        read := *;
      }
      for i := 0 to BLOCK_SIZE
        invariant ok ==> read == blocks[id] && data[..i] == blocks[id][..i]
        invariant failures == old(failures) + if ok then 0 else 1
      {
        if i < |read| {
          data[i] := read[i];
        }
      }
    }

    method WriteBlock(id: nat, data: array<Byte>) returns (ok: bool)
      requires Valid() && id < BLOCKS && data.Length == BLOCK_SIZE
      modifies this
      ensures Valid() && (ok ==> blocks[id] == data[..]) && forall b :: 0 <= b < BLOCKS && b != id ==> blocks[b] == old(blocks)[b]
      ensures failures == old(failures) + if ok then 0 else 1
    {
      ok := *;
      failures := failures + if ok then 0 else 1;
      var written := BLOCK_SIZE;
      if !ok {
        written := *;
        if written < 0 || written > BLOCK_SIZE {
          written := 0;
        }
      }
      blocks := blocks[id := data[..written] + blocks[id][written..]];
    }
  }

  // ---------- The order of eviction ----------

  /** How many referenced ids are at the front of the queue. */
  function Spared(queue: seq<nat>, referenced: set<nat>): (n: nat)
    ensures n <= |queue| && (forall i :: 0 <= i < n ==> queue[i] in referenced) && (n < |queue| ==> queue[n] !in referenced)
  {
    if queue == [] || queue[0] !in referenced then 0 else 1 + Spared(queue[1..], referenced)
  }

  /** The first unreferenced id is evicted; if there is none, the head of the queue. */
  function Victim(queue: seq<nat>, referenced: set<nat>): (n: nat)
    requires queue != []
    ensures n < |queue| && (forall i :: 0 <= i < n ==> queue[i] in referenced)
    ensures queue[n] in referenced ==> n == 0 && forall i :: 0 <= i < |queue| ==> queue[i] in referenced
  {
    var n := Spared(queue, referenced);
    if n < |queue| then n else 0
  }

  /** The queue without the id at `p`: those in front of it have had their chance and go to the end. */
  function Turned(queue: seq<nat>, p: nat): (rest: seq<nat>)
    requires p < |queue|
    ensures |rest| == |queue| - 1
    ensures forall i :: p < i < |queue| ==> rest[i - p - 1] == queue[i]
    ensures forall i {:trigger queue[i]} :: 0 <= i < p ==> rest[|queue| - p - 1 + i] == queue[i]
  {
    queue[p + 1..] + queue[..p]
  }

  function Front(queue: seq<nat>, n: nat): set<nat>
    requires n <= |queue|
  {
    set i | 0 <= i < n :: queue[i]
  }

  ghost predicate NoDuplicates(queue: seq<nat>) {
    forall i, j :: 0 <= i < j < |queue| ==> queue[i] != queue[j]
  }

  lemma {:induction false} TurnedIds(queue: seq<nat>, p: nat)
    requires p < |queue| && NoDuplicates(queue)
    ensures NoDuplicates(Turned(queue, p)) && forall x :: x in Turned(queue, p) <==> x in queue && x != queue[p]
  {
    hide Turned;
    var t, n := Turned(queue, p), |queue| - p - 1;
    forall i | 0 <= i < |t| ensures t[i] == queue[if i < n then p + 1 + i else i - n] {
      var k := if i < n then p + 1 + i else i - n;
      assert queue[k] == queue[k];
    }
    forall x | x in queue && x != queue[p] ensures x in t {
      var i :| 0 <= i < |queue| && queue[i] == x;
      assert t[if i > p then i - p - 1 else i + n] == x;
    }
  }

  /** The block that was fetched last, in place of another one, is not the next to go. */
  lemma {:induction false} LastStays(queue: seq<nat>, referenced: set<nat>, id: nat)
    requires |queue| > 0 && NoDuplicates(queue + [id]) && id in referenced
    ensures (queue + [id])[Victim(queue + [id], referenced)] != id
  {
    var q := queue + [id];
    assert q[|queue|] == id;
    assert q[0] == queue[0];
  }

  /** An id that was passed over has its second chance: it does not go next as long as an id that stood behind the last victim is
      still there without its reference bit. */
  lemma {:induction false} SecondChance(queue: seq<nat>, referenced: set<nat>, id: nat, referenced': set<nat>, k: nat)
    requires queue != [] && NoDuplicates(queue) && id !in queue && Victim(queue, referenced) < k < |queue| && queue[k] !in referenced'
    ensures var p, q := Victim(queue, referenced), Turned(queue, Victim(queue, referenced)) + [id];
            forall i :: 0 <= i < p ==> q[Victim(q, referenced')] != queue[i]
  {
    hide Victim, Turned;
    var p := Victim(queue, referenced);
    var t := Turned(queue, p);
    var q := t + [id];
    var v := Victim(q, referenced');
    assert q[k - p - 1] == t[k - p - 1] == queue[k];
    assert v <= k - p - 1 && v < |t|;
    assert q[v] == t[v] == queue[v + p + 1];
  }

  /** Spared ids are exactly those in front of the first one without its reference bit. */
  lemma {:induction false} SparedIs(queue: seq<nat>, referenced: set<nat>, n: nat)
    requires n <= |queue| && (forall i :: 0 <= i < n ==> queue[i] in referenced) && (n < |queue| ==> queue[n] !in referenced)
    ensures Spared(queue, referenced) == n
  {
  }

  lemma {:induction false} Around(p: nat, size: nat)
    requires p < size
    ensures (p + 1) % size == if p + 1 == size then 0 else p + 1
  {
  }

  // ---------- The buffer ----------

  class BufferFrame {
    var inUse: bool
    var referenced: bool
    var isDirty: bool
    const data: array<Byte>

    constructor ()
      ensures fresh(data) && data.Length == BLOCK_SIZE && !inUse && !isDirty
    {
      inUse, referenced, isDirty := false, false, false;
      data := new Byte[BLOCK_SIZE](_ => 0);
    }
  }

  /** Resident ids: each is in the queue once and has a frame in use of its own. */
  ghost predicate ResidentIn(m: map<nat, BufferFrame>, queue: seq<nat>, used: set<BufferFrame>, dirty: set<BufferFrame>) {
    && NoDuplicates(queue) && (forall id :: id in queue <==> id in m)
    && (forall id :: id in m ==> id < BLOCKS && m[id] in used)
    && (forall x, y :: x in m && y in m && x != y ==> m[x] != m[y])
    && (forall f :: f in used ==> HasId(m, f)) && dirty <= used
  }

  ghost predicate HasId(m: map<nat, BufferFrame>, f: BufferFrame) {
    exists id :: id in m && m[id] == f
  }

  lemma {:induction false} Evicted(m: map<nat, BufferFrame>, queue: seq<nat>, used: set<BufferFrame>, dirty: set<BufferFrame>, p: nat)
    requires ResidentIn(m, queue, used, dirty) && p < |queue|
    ensures queue[p] in m
    ensures var f := m[queue[p]]; ResidentIn(m - {queue[p]}, Turned(queue, p), used - {f}, dirty - {f})
  {
    hide Turned;
    TurnedIds(queue, p);
    var v, f := queue[p], m[queue[p]];
    forall g | g in used - {f} ensures HasId(m - {v}, g) {
      var id :| id in m && m[id] == g;
      assert id in m - {v};
    }
  }

  lemma {:induction false} Loaded(m: map<nat, BufferFrame>, queue: seq<nat>, used: set<BufferFrame>, dirty: set<BufferFrame>, id: nat, f: BufferFrame)
    requires ResidentIn(m, queue, used, dirty) && id !in m && f !in used && id < BLOCKS
    ensures ResidentIn(m[id := f], queue + [id], used + {f}, dirty)
  {
    var m' := m[id := f];
    forall g | g in used + {f} ensures HasId(m', g) {
      if g == f {
        assert m'[id] == f;
      } else {
        var x :| x in m && m[x] == g;
        assert x in m' && m'[x] == g;
      }
    }
  }

  lemma {:induction false} MoreDirty(m: map<nat, BufferFrame>, queue: seq<nat>, used: set<BufferFrame>, dirty: set<BufferFrame>, id: nat)
    requires ResidentIn(m, queue, used, dirty) && id in m
    ensures ResidentIn(m, queue, used, dirty + {m[id]})
  {
  }

  lemma {:induction false} LessDirty(m: map<nat, BufferFrame>, queue: seq<nat>, used: set<BufferFrame>, dirty: set<BufferFrame>, id: nat)
    requires ResidentIn(m, queue, used, dirty) && id in m
    ensures ResidentIn(m, queue, used, dirty - {m[id]})
  {
  }

  lemma {:induction false} Distinct<T>(s: seq<T>, t: set<T>)
    requires (forall i, j :: 0 <= i < j < |s| ==> s[i] != s[j]) && forall x :: x in t <==> x in s
    ensures |t| == |s|
  {
    if s == [] {
      assert t == {};
    } else {
      var l := |s| - 1;
      forall x ensures x in t - {s[l]} <==> x in s[..l] {
        if x in s && x != s[l] { var i :| 0 <= i < |s| && s[i] == x; assert s[..l][i] == x; }
      }
      Distinct(s[..l], t - {s[l]});
    }
  }

  /** No more frames are in use than there are ids in the queue. */
  lemma {:induction false} Enough(m: map<nat, BufferFrame>, queue: seq<nat>, used: set<BufferFrame>)
    requires (forall id :: id in queue ==> id in m) && forall f :: f in used ==> exists i :: 0 <= i < |queue| && m[queue[i]] == f
    ensures |used| <= |queue|
  {
    if queue == [] {
      assert used == {};
    } else {
      var l := |queue| - 1;
      var rest := used - {m[queue[l]]};
      forall f | f in rest ensures exists i :: 0 <= i < l && m[queue[..l][i]] == f {
        var i :| 0 <= i < |queue| && m[queue[i]] == f;
        assert queue[..l][i] == queue[i];
      }
      Enough(m, queue[..l], rest);
      assert used <= rest + {m[queue[l]]};
    }
  }

  class DataBuffer {
    const df: DataFile
    const size: nat
    const frames: seq<BufferFrame>
    var idToFrame: map<nat, BufferFrame>
    var nextVictims: seq<nat>

    ghost function Datas(): set<array<Byte>> {
      set i | 0 <= i < |frames| :: frames[i].data
    }

    ghost predicate Apart() {
      && |frames| == size > 0 && (forall i :: 0 <= i < size ==> frames[i].data.Length == BLOCK_SIZE)
      && (forall i, j :: 0 <= i < j < size ==> frames[i] != frames[j] && frames[i].data != frames[j].data)
    }

    ghost function Used(): set<BufferFrame>
      reads frames`inUse
    {
      set f | f in frames && f.inUse
    }

    ghost function Dirty(): set<BufferFrame>
      reads frames`isDirty
    {
      set f | f in frames && f.isDirty
    }

    ghost predicate Resident()
      reads `idToFrame, `nextVictims, frames`inUse, frames`isDirty
    {
      ResidentIn(idToFrame, nextVictims, Used(), Dirty()) && |nextVictims| <= size
    }

    ghost predicate Valid()
      reads `idToFrame, `nextVictims, frames`inUse, frames`isDirty, df`blocks
    {
      Apart() && df.Valid() && Resident()
    }

    /** What a block holds for a client: the frame if it is resident, otherwise the file. */
    ghost function Content(id: nat): (bytes: seq<Byte>)
      requires Valid() && id < BLOCKS
      reads `idToFrame, `nextVictims, frames`inUse, frames`isDirty, df`blocks, Datas()
      ensures |bytes| == BLOCK_SIZE
    {
      if id in idToFrame then idToFrame[id].data[..] else df.blocks[id]
    }

    /** What a client sees of all blocks. */
    ghost function Contents(): map<nat, seq<Byte>>
      requires Valid()
      reads `idToFrame, `nextVictims, frames`inUse, frames`isDirty, df`blocks, Datas()
    {
      map id: nat | id < BLOCKS :: Content(id)
    }

    /** Frames not marked as dirty are as in the file: this is what clients have to keep up, by marking
        a block they have written before they fetch another one. */
    ghost predicate Faithful()
      requires Valid()
      reads `idToFrame, `nextVictims, frames`inUse, frames`isDirty, df`blocks, Datas()
    {
      forall id :: id in idToFrame && !idToFrame[id].isDirty ==> idToFrame[id].data[..] == df.blocks[id]
    }

    /** The file holds what clients see. */
    ghost predicate Synced()
      requires Valid()
      reads `idToFrame, `nextVictims, frames`inUse, frames`isDirty, df`blocks, Datas()
    {
      forall x :: 0 <= x < BLOCKS ==> df.blocks[x] == Content(x)
    }

    /** The resident ids with their reference bit set. */
    ghost function Referenced(): set<nat>
      reads `idToFrame, idToFrame.Values`referenced
    {
      set id | id in idToFrame && idToFrame[id].referenced
    }

    constructor (df: DataFile, size: nat)
      requires df.Valid() && size > 0
      ensures Valid() && this.df == df && this.size == size && idToFrame == map[] && Faithful()
      ensures forall id :: 0 <= id < BLOCKS ==> Content(id) == df.blocks[id]
      ensures fresh(frames) && fresh(Datas())
    {
      var fs: seq<BufferFrame> := [];
      for i := 0 to size
        invariant |fs| == i && forall k :: 0 <= k < i ==> fresh(fs[k]) && fresh(fs[k].data) && fs[k].data.Length == BLOCK_SIZE
        invariant forall k :: 0 <= k < i ==> !fs[k].inUse && !fs[k].isDirty
        invariant forall j, k :: 0 <= j < k < i ==> fs[j] != fs[k] && fs[j].data != fs[k].data
      {
        var f := new BufferFrame();
        fs := fs + [f];
      }
      this.df, this.size, frames := df, size, fs;
      idToFrame, nextVictims := map[], [];
    }

    /** Sweeps over the queue and clears reference bits up to the first id without one. */
    method Sweep() returns (victimPosition: nat, ghost probes: nat)
      requires Valid() && |nextVictims| == size
      modifies frames`referenced
      ensures Valid() && victimPosition == Victim(nextVictims, old(Referenced()))
      ensures probes == Spared(nextVictims, old(Referenced())) + 1 <= size + 1
      ensures Referenced() == old(Referenced()) - Front(nextVictims, probes - 1) && nextVictims[victimPosition] !in Referenced()
    {
      hide Resident, Valid, Front, Spared;
      QueueFacts();
      ghost var refs := Referenced();
      victimPosition := 0;
      var victimFrame := idToFrame[nextVictims[victimPosition]];
      probes := 1;
      while victimFrame.referenced
        invariant 0 < probes <= size + 1 && victimPosition == (if probes > size then 0 else probes - 1)
        invariant victimFrame == idToFrame[nextVictims[victimPosition]]
        invariant forall i :: 0 <= i < probes - 1 ==> nextVictims[i] in refs
        invariant forall i :: 0 <= i < size ==> (idToFrame[nextVictims[i]].referenced <==> i >= probes - 1 && nextVictims[i] in refs)
        decreases size + 1 - probes
      {
        victimFrame.referenced := false;
        Around(victimPosition, size);
        victimPosition := (victimPosition + 1) % size;
        victimFrame := idToFrame[nextVictims[victimPosition]];
        probes := probes + 1;
      }
      SparedIs(nextVictims, refs, probes - 1);
      Swept(refs, probes - 1);
    }

    lemma {:induction false} QueueFacts()
      requires Valid()
      ensures |frames| == size > 0 && forall i :: 0 <= i < |nextVictims| ==> nextVictims[i] in idToFrame && nextVictims[i] < BLOCKS && idToFrame[nextVictims[i]] in frames
      ensures forall f :: f in frames ==> f.data.Length == BLOCK_SIZE
      ensures forall i, j :: 0 <= i < j < |nextVictims| ==> nextVictims[i] != nextVictims[j] && idToFrame[nextVictims[i]] != idToFrame[nextVictims[j]]
    {
      forall i | 0 <= i < |nextVictims| ensures nextVictims[i] in idToFrame { assert nextVictims[i] in nextVictims; }
      forall i | 0 <= i < |nextVictims| ensures idToFrame[nextVictims[i]] in frames { assert idToFrame[nextVictims[i]] in Used(); }
    }

    /** A frame not in use shares nothing with those of resident blocks. */
    lemma {:induction false} OwnData(frame: BufferFrame)
      requires Valid() && frame in frames
      ensures frame.data.Length == BLOCK_SIZE
      ensures forall x :: x in idToFrame ==> idToFrame[x] in frames && x < BLOCKS && (idToFrame[x] != frame ==> idToFrame[x].data != frame.data)
      ensures !frame.inUse ==> !frame.isDirty && forall x :: x in idToFrame ==> idToFrame[x] != frame
    {
      forall x | x in idToFrame ensures idToFrame[x] in frames && x < BLOCKS { assert idToFrame[x] in Used(); }
      if !frame.inUse { assert frame !in Used() && frame !in Dirty(); }
    }

    lemma {:induction false} InDatas(id: nat)
      requires Valid() && id in idToFrame
      ensures idToFrame[id].data in Datas()
    {
      OwnFrames();
      var i :| 0 <= i < |frames| && frames[i] == idToFrame[id];
    }

    lemma {:induction false} OwnFrames()
      requires Valid()
      ensures forall x :: x in idToFrame ==> idToFrame[x] in frames && x < BLOCKS && idToFrame[x].data.Length == BLOCK_SIZE
      ensures forall x, y :: x in idToFrame && y in idToFrame && x != y ==> idToFrame[x] != idToFrame[y] && idToFrame[x].data != idToFrame[y].data
    {
      forall x | x in idToFrame ensures idToFrame[x] in frames && x < BLOCKS { OwnData(idToFrame[x]); }
      forall x, y | x in idToFrame && y in idToFrame && x != y ensures idToFrame[x].data != idToFrame[y].data { OwnData(idToFrame[x]); }
    }

    lemma {:induction false} Swept(refs: set<nat>, n: nat)
      requires Valid() && n <= |nextVictims| && refs <= idToFrame.Keys && (forall i :: 0 <= i < n ==> nextVictims[i] in refs)
      requires forall i :: 0 <= i < |nextVictims| ==> nextVictims[i] in idToFrame && (idToFrame[nextVictims[i]].referenced <==> i >= n && nextVictims[i] in refs)
      ensures Referenced() == refs - Front(nextVictims, n)
    {
      forall id ensures id in Referenced() <==> id in refs - Front(nextVictims, n) {
        if id in idToFrame {
          var i :| 0 <= i < |nextVictims| && nextVictims[i] == id;
        }
      }
    }

    /** A reference bit is kept exactly by those behind the first id without one. */
    static lemma {:induction false} BitsLeft(queue: seq<nat>, refs: set<nat>)
      requires NoDuplicates(queue)
      ensures forall i :: 0 <= i < |queue| ==>
                (queue[i] in refs - Front(queue, Spared(queue, refs)) <==> queue[i] in refs && exists j :: 0 <= j < i && queue[j] !in refs)
    {
      hide Spared;
      var n := Spared(queue, refs);
      forall i | 0 <= i < |queue|
        ensures queue[i] in refs - Front(queue, n) <==> queue[i] in refs && exists j :: 0 <= j < i && queue[j] !in refs
      {
        if i < n { assert queue[i] in Front(queue, n); }
        if i > n { assert queue[n] !in refs; }
        if queue[i] in Front(queue, n) { var k :| 0 <= k < n && queue[k] == queue[i]; }
      }
    }

    /** The id that has to make way next. */
    ghost function NextOut(): nat
      requires nextVictims != []
      reads `idToFrame, `nextVictims, idToFrame.Values`referenced
    {
      nextVictims[Victim(nextVictims, Referenced())]
    }

    /** The block to go next has not been marked as dirty. */
    ghost predicate Unmarked(id: nat)
      requires nextVictims != []
      reads `idToFrame, `nextVictims, idToFrame.Values`referenced, idToFrame.Values`isDirty
    {
      id == NextOut() && id in idToFrame && !idToFrame[id].isDirty
    }

    /** Writes a resident block to the file if it is marked as dirty. */
    method WriteBack(id: nat) returns (ok: bool)
      requires Valid() && id in idToFrame
      modifies df
      ensures Valid() && forall b :: 0 <= b < BLOCKS && b != id ==> df.blocks[b] == old(df.blocks)[b]
      ensures df.failures == old(df.failures) + if ok then 0 else 1
      ensures if idToFrame[id].isDirty then ok ==> id < BLOCKS && df.blocks[id] == idToFrame[id].data[..] else ok && df.blocks == old(df.blocks)
      ensures forall x :: 0 <= x < BLOCKS ==> Content(x) == old(Content(x))
      ensures old(Faithful()) ==> Faithful()
    {
      hide Resident;
      OwnFrames();
      ok := true;
      if idToFrame[id].isDirty {
        ok := df.WriteBlock(id, idToFrame[id].data);
      }
    }

    /** A resident block gives up its frame: what is in the file is all that is left of it. */
    method Discard(p: nat) returns (frame: BufferFrame)
      requires Valid() && p < |nextVictims| && nextVictims[p] !in Referenced()
      modifies `idToFrame, `nextVictims, frames`inUse, frames`isDirty
      ensures Valid() && old(nextVictims)[p] in old(idToFrame) && frame == old(idToFrame)[old(nextVictims)[p]] && frame in frames && !frame.inUse
      ensures idToFrame == old(idToFrame) - {old(nextVictims)[p]} && nextVictims == Turned(old(nextVictims), p) && Referenced() == old(Referenced())
      ensures forall x :: 0 <= x < BLOCKS ==> Content(x) == if x == old(nextVictims)[p] then df.blocks[x] else old(Content(x))
      ensures forall x :: x in idToFrame ==> idToFrame[x].isDirty == old(idToFrame[x].isDirty)
      ensures old(Faithful()) ==> Faithful()
    {
      hide NoDuplicates, ResidentIn, Turned, Apart, DataFile.Valid;
      QueueFacts();
      OwnFrames();
      var victimID := nextVictims[p];
      frame := idToFrame[victimID];
      Evicted(idToFrame, nextVictims, Used(), Dirty(), p);
      ghost var refs, used, dirty := Referenced(), Used(), Dirty();
      frame.inUse := false;
      frame.isDirty := false;
      idToFrame := idToFrame - {victimID};
      nextVictims := Turned(nextVictims, p);
      assert Used() == used - {frame} && Dirty() == dirty - {frame};
      assert Referenced() == refs;
    }

    /** Evicts a block: writes it to the file if it is marked as dirty and gives up its frame. */
    method EvictFrame() returns (frame: BufferFrame?)
      requires Valid() && |nextVictims| == size
      modifies `idToFrame, `nextVictims, frames`inUse, frames`isDirty, frames`referenced, df
      ensures Valid() && Referenced() == old(Referenced()) - Front(old(nextVictims), Spared(old(nextVictims), old(Referenced())))
      ensures df.failures == old(df.failures) + if frame == null then 1 else 0
      ensures frame == null ==> old(!Unmarked(NextOut())) && idToFrame == old(idToFrame) && nextVictims == old(nextVictims)
      ensures frame != null ==> frame == old(idToFrame[NextOut()]) && frame in frames && !frame.inUse && idToFrame == old(idToFrame) - {old(NextOut())}
      ensures frame != null ==> nextVictims == Turned(old(nextVictims), Victim(old(nextVictims), old(Referenced())))
      ensures forall x :: 0 <= x < BLOCKS ==> Content(x) == if old(Unmarked(x)) then old(df.blocks[x]) else old(Content(x))
      ensures forall b :: 0 <= b < BLOCKS && (b != old(NextOut()) || old(Unmarked(b))) ==> df.blocks[b] == old(df.blocks)[b]
      ensures frame != null ==> forall x :: x == old(NextOut()) && old(!Unmarked(x)) ==> x < BLOCKS && df.blocks[x] == old(Content(x))
      ensures forall x :: x in idToFrame ==> x in old(idToFrame) && idToFrame[x].isDirty == old(idToFrame[x].isDirty)
      ensures old(Faithful()) ==> Faithful()
    {
      hide Front, Spared, Victim, Resident, Turned, Apart, DataFile.Valid, Referenced, NoDuplicates;
      QueueFacts();
      var victimPosition, probes := Sweep();
      var ok := WriteBack(nextVictims[victimPosition]);
      if !ok {
        return null;
      }
      frame := Discard(victimPosition);
    }

    /** The first frame that is not in use. */
    method FreeFrame() returns (frame: BufferFrame)
      requires Valid() && |nextVictims| < size
      ensures frame in frames && !frame.inUse && exists i :: 0 <= i < size && frames[i] == frame && forall j :: 0 <= j < i ==> frames[j].inUse
    {
      SomeFree();
      frame := frames[0];
      for i := 0 to size
        invariant forall k :: 0 <= k < i ==> frames[k].inUse
      {
        frame := frames[i];
        if !frame.inUse {
          break;
        }
      }
    }

    lemma {:induction false} SomeFree()
      requires Valid() && |nextVictims| < size
      ensures exists i :: 0 <= i < size && !frames[i].inUse
    {
      if forall i :: 0 <= i < size ==> frames[i].inUse {
        forall i | 0 <= i < size ensures frames[i] in Used() { }
        assert forall f :: f in Used() ==> f in frames;
        Distinct(frames, Used());
        Enough(idToFrame, nextVictims, Used());
        assert false;
      }
    }

    /** Reads a block into a free frame, which then is in use if that has not failed. */
    method LoadInto(id: nat, frame: BufferFrame, referenced: bool) returns (ok: bool)
      requires Valid() && id < BLOCKS && id !in idToFrame && frame in frames && !frame.inUse && |nextVictims| < size
      modifies `idToFrame, `nextVictims, frame`inUse, frame`referenced, frame.data, df`failures
      ensures df.failures == old(df.failures) + if ok then 0 else 1
      ensures Valid() && (!ok ==> idToFrame == old(idToFrame) && nextVictims == old(nextVictims))
      ensures ok ==> idToFrame == old(idToFrame)[id := frame] && nextVictims == old(nextVictims) + [id]
      ensures Referenced() == old(Referenced()) + if ok && referenced then {id} else {}
      ensures forall x :: 0 <= x < BLOCKS ==> Content(x) == old(Content(x))
      ensures forall x :: x in idToFrame ==> idToFrame[x].isDirty == (x in old(idToFrame) && old(idToFrame[x].isDirty))
      ensures old(Faithful()) ==> Faithful()
    {
      hide NoDuplicates, ResidentIn, Apart, DataFile.Valid;
      OwnData(frame);
      OwnFrames();
      Loaded(idToFrame, nextVictims, Used(), Dirty(), id, frame);
      ghost var used, dirty := Used(), Dirty();
      ok := df.ReadBlock(id, frame.data);
      if ok {
        frame.inUse := true;
        frame.referenced := referenced;
        nextVictims := nextVictims + [id];
        idToFrame := idToFrame[id := frame];
        assert Used() == used + {frame} && Dirty() == dirty;
      }
    }

    /** Fetching a block will make another one go. */
    ghost predicate Evicts(id: nat)
      reads `idToFrame, `nextVictims
    {
      id !in idToFrame && |nextVictims| == size > 0
    }

    /** Fetching a block will evict an unmarked one. */
    ghost predicate Drops(x: nat, id: nat)
      reads `idToFrame, `nextVictims, idToFrame.Values`referenced, idToFrame.Values`isDirty
    {
      Evicts(id) && Unmarked(x)
    }

    /** The bytes of a block, or null when the file fails. All blocks stay as clients see them, but for
        one that was written and not marked, if it is evicted: of that one only the file remains. */
    method FetchBlock(id: nat) returns (data: array?<Byte>)
      requires Valid() && id < BLOCKS
      modifies `idToFrame, `nextVictims, frames, df, Datas()
      ensures Valid() && (data != null ==> id in idToFrame && data == idToFrame[id].data)
      ensures df.failures == old(df.failures) + if data == null then 1 else 0
      ensures forall x :: 0 <= x < BLOCKS ==> Content(x) == if old(Drops(x, id)) then old(df.blocks[x]) else old(Content(x))
      ensures old(Faithful()) ==> Faithful()
      ensures id in old(idToFrame) ==> data != null && idToFrame == old(idToFrame) && nextVictims == old(nextVictims)
      ensures data != null && id !in old(idToFrame) ==>
                nextVictims == (if |old(nextVictims)| == size then Turned(old(nextVictims), Victim(old(nextVictims), old(Referenced()))) else old(nextVictims)) + [id]
      ensures data != null && id in old(idToFrame) ==> Referenced() == old(Referenced()) + {id}
      ensures data != null && id !in old(idToFrame) && |old(nextVictims)| < size ==> Referenced() == old(Referenced())
      ensures data != null && id !in old(idToFrame) && |old(nextVictims)| == size ==>
                Referenced() == old(Referenced()) - Front(old(nextVictims), Spared(old(nextVictims), old(Referenced()))) + {id}
      ensures data != null ==> idToFrame.Keys == old(idToFrame.Keys) - (if old(Evicts(id)) then {old(NextOut())} else {}) + {id}
      ensures forall x :: x in idToFrame && x in old(idToFrame) ==> idToFrame[x] == old(idToFrame)[x]
      ensures forall x :: x in idToFrame ==> idToFrame[x].isDirty == (x in old(idToFrame) && old(idToFrame[x].isDirty))
      ensures forall b :: 0 <= b < BLOCKS && (old(!Evicts(id)) || b != old(NextOut()) || old(Unmarked(b))) ==> df.blocks[b] == old(df.blocks)[b]
      ensures data == null ==> (idToFrame == old(idToFrame) && nextVictims == old(nextVictims) && old(Evicts(id) ==> !Unmarked(NextOut()))) ||
                               (old(Evicts(id)) && idToFrame == old(idToFrame) - {old(NextOut())}
                                && nextVictims == Turned(old(nextVictims), Victim(old(nextVictims), old(Referenced()))))
    {
      hide Front, Spared, Victim, ResidentIn, Turned, Apart, DataFile.Valid, Referenced, NoDuplicates;
      if id in idToFrame {
        OwnFrames();
        ghost var refs := Referenced();
        RefsAre();
        idToFrame[id].referenced := true;
        OneMore(refs, id);
        return idToFrame[id].data;
      }
      var needsEvict := |nextVictims| == size;
      var frame: BufferFrame?;
      if needsEvict {
        frame := EvictFrame();
        if frame == null {
          return null;
        }
      } else {
        frame := FreeFrame();
      }
      var ok := LoadInto(id, frame, needsEvict);
      if !ok {
        return null;
      }
      data := frame.data;
    }

    lemma {:induction false} NothingDropped(id: nat)
      requires Valid()
      ensures Faithful() ==> forall x :: 0 <= x < BLOCKS && Drops(x, id) ==> df.blocks[x] == Content(x)
    {
    }

    lemma {:induction false} RefsAre()
      ensures forall x :: x in Referenced() <==> x in idToFrame && idToFrame[x].referenced
    {
    }

    lemma {:induction false} OneMore(refs: set<nat>, id: nat)
      requires id in idToFrame && idToFrame[id].referenced && refs <= idToFrame.Keys
      requires forall x :: x in idToFrame && x != id ==> (idToFrame[x].referenced <==> x in refs)
      ensures Referenced() == refs + {id}
    {
    }

    /** Marks a resident block as written; for any other the original panics (false). */
    method MarkAsDirty(id: nat) returns (ok: bool)
      requires Valid()
      modifies frames`isDirty, frames`referenced
      ensures Valid() && ok == (id in idToFrame)
      ensures forall x :: 0 <= x < BLOCKS ==> Content(x) == old(Content(x))
      ensures ok ==> idToFrame[id].isDirty && idToFrame[id].referenced
      ensures forall x :: x in idToFrame && x != id ==> idToFrame[x].isDirty == old(idToFrame[x].isDirty) && idToFrame[x].referenced == old(idToFrame[x].referenced)
    {
      hide NoDuplicates, ResidentIn, Apart, DataFile.Valid;
      ok := id in idToFrame;
      if ok {
        OwnFrames();
        ghost var used, dirty := Used(), Dirty();
        idToFrame[id].isDirty := true;
        idToFrame[id].referenced := true;
        assert Used() == used && Dirty() == dirty + {idToFrame[id]};
        MoreDirty(idToFrame, nextVictims, used, dirty, id);
      }
    }

    /** Writes a dirty block to the file; after that it is dirty no more. */
    method Save(id: nat) returns (ok: bool)
      requires Valid() && id in idToFrame && idToFrame[id].isDirty
      modifies frames`isDirty, df
      ensures Valid() && (ok ==> !idToFrame[id].isDirty) && df.failures == old(df.failures) + if ok then 0 else 1
      ensures forall x :: x in idToFrame && x != id ==> idToFrame[x].isDirty == old(idToFrame[x].isDirty)
      ensures !ok ==> idToFrame[id].isDirty
      ensures forall b :: 0 <= b < BLOCKS && b != id ==> df.blocks[b] == old(df.blocks)[b]
      ensures ok ==> id < BLOCKS && df.blocks[id] == Content(id)
      ensures forall x :: 0 <= x < BLOCKS ==> Content(x) == old(Content(x))
      ensures old(Faithful()) ==> Faithful()
    {
      hide NoDuplicates, ResidentIn, Apart, DataFile.Valid;
      OwnFrames();
      ok := WriteBack(id);
      if ok {
        ghost var used, dirty := Used(), Dirty();
        idToFrame[id].isDirty := false;
        assert Used() == used && Dirty() == dirty - {idToFrame[id]};
        LessDirty(idToFrame, nextVictims, used, dirty, id);
      }
    }

    /** A flush under way: of the blocks that were marked, those marked no more are in the file, and no other block of the file has
        changed; clients see what they saw. */
    ghost predicate Flushed(file: seq<seq<Byte>>, marked: set<nat>, seen: map<nat, seq<Byte>>, faithful: bool)
      reads `idToFrame, `nextVictims, frames`inUse, frames`isDirty, df`blocks, Datas()
    {
      && Valid() && |file| == BLOCKS && (forall x :: x in idToFrame && idToFrame[x].isDirty ==> x in marked)
      && (forall x :: x in marked ==> x in idToFrame)
      && (forall x :: x in marked && !idToFrame[x].isDirty ==> x < BLOCKS && df.blocks[x] == Content(x))
      && (forall b :: 0 <= b < BLOCKS && b !in marked ==> df.blocks[b] == file[b])
      && (forall x :: 0 <= x < BLOCKS ==> x in seen && Content(x) == seen[x]) && (faithful ==> Faithful())
    }

    /** One step of a flush. */
    method SaveOne(id: nat, ghost file: seq<seq<Byte>>, ghost marked: set<nat>, ghost seen: map<nat, seq<Byte>>, ghost faithful: bool) returns (ok: bool)
      requires id in idToFrame && Flushed(file, marked, seen, faithful)
      modifies frames`isDirty, df
      ensures Flushed(file, marked, seen, faithful) && (ok ==> !idToFrame[id].isDirty) && df.failures == old(df.failures) + if ok then 0 else 1
      ensures forall x :: x in idToFrame && x != id ==> idToFrame[x].isDirty == old(idToFrame[x].isDirty)
    {
      hide Resident, Apart, DataFile.Valid;
      OwnFrames();
      ok := true;
      if idToFrame[id].isDirty {
        ok := Save(id);
      }
    }

    /** Writes all dirty blocks to the file; after that the file is what clients see. */
    method Sync() returns (ok: bool)
      requires Valid()
      modifies frames`isDirty, df
      ensures Valid() && df.failures == old(df.failures) + if ok then 0 else 1
      ensures forall x :: 0 <= x < BLOCKS ==> Content(x) == old(Content(x))
      ensures old(Faithful()) ==> Faithful() && (ok ==> Synced())
      ensures ok ==> forall x :: x in idToFrame ==> !idToFrame[x].isDirty
      ensures forall x :: x in idToFrame && idToFrame[x].isDirty ==> old(idToFrame[x].isDirty)
      ensures forall x :: x in idToFrame && old(idToFrame[x].isDirty) && !idToFrame[x].isDirty ==> x < BLOCKS && df.blocks[x] == Content(x)
      ensures forall b :: 0 <= b < BLOCKS && !(b in idToFrame && old(idToFrame[b].isDirty)) ==> df.blocks[b] == old(df.blocks)[b]
    {
      hide Resident, Apart, DataFile.Valid, Flushed, Faithful, Synced, Content;
      ghost var file, marked, seen, faithful := df.blocks, (set x | x in idToFrame && idToFrame[x].isDirty), Contents(), Faithful();
      FlushStart();
      var todo := idToFrame.Keys;
      ok := true;
      while todo != {}
        invariant Flushed(file, marked, seen, faithful) && todo <= idToFrame.Keys && ok && df.failures == old(df.failures)
        invariant forall x :: x in idToFrame && x !in todo ==> !idToFrame[x].isDirty
        decreases |todo|
      {
        var id :| id in todo;
        todo := todo - {id};
        ok := SaveOne(id, file, marked, seen, faithful);
        if !ok {
          FlushEnd(file, marked, seen, faithful);
          return;
        }
      }
      FlushEnd(file, marked, seen, faithful);
    }

    lemma {:induction false} FlushStart()
      requires Valid()
      ensures Flushed(df.blocks, (set x | x in idToFrame && idToFrame[x].isDirty), Contents(), Faithful())
      ensures forall x: nat :: x < BLOCKS ==> x in Contents() && Contents()[x] == Content(x)
    {
      hide Resident;
    }

    lemma {:induction false} FlushEnd(file: seq<seq<Byte>>, marked: set<nat>, seen: map<nat, seq<Byte>>, faithful: bool)
      requires Flushed(file, marked, seen, faithful)
      ensures Valid() && |file| == |df.blocks| == BLOCKS && forall x :: x in idToFrame && idToFrame[x].isDirty ==> x in marked
      ensures forall x :: x in marked && x in idToFrame && !idToFrame[x].isDirty ==> x < BLOCKS && df.blocks[x] == Content(x)
      ensures forall b :: 0 <= b < BLOCKS && b !in marked ==> df.blocks[b] == file[b]
      ensures forall x: nat :: x < BLOCKS ==> x in seen && Content(x) == seen[x]
      ensures faithful ==> Faithful() && ((forall x :: x in idToFrame ==> !idToFrame[x].isDirty) ==> Synced())
    {
      hide Resident;
      OwnFrames();
    }
  }

  // ---------- Clients ----------

  /** What a client does between two fetches: look at a block, or write to it and mark it. */
  datatype Op = Look(id: nat) | Change(id: nat, p: nat, bytes: seq<Byte>) | Flush

  datatype Outcome = Failed | Finished | Seen(bytes: seq<Byte>)

  predicate WellFormed(op: Op) {
    op.Flush? || (op.id < BLOCKS && (op.Change? ==> op.p + |op.bytes| <= BLOCK_SIZE))
  }

  ghost predicate IsDisk(m: map<nat, seq<Byte>>) {
    forall id: nat :: id < BLOCKS ==> id in m && |m[id]| == BLOCK_SIZE
  }

  /** The disk after an operation: only a change that has not failed changes it. */
  ghost function After(m: map<nat, seq<Byte>>, op: Op, res: Outcome): (m': map<nat, seq<Byte>>)
    requires IsDisk(m) && WellFormed(op)
    ensures IsDisk(m')
  {
    if op.Change? && res != Failed then m[op.id := Splice(m[op.id], op.p, op.bytes)] else m
  }

  /** The disk after the first operations of a run. */
  ghost function AfterAll(m: map<nat, seq<Byte>>, ops: seq<Op>, res: seq<Outcome>): (m': map<nat, seq<Byte>>)
    requires IsDisk(m) && |res| == |ops| && forall i :: 0 <= i < |ops| ==> WellFormed(ops[i])
    ensures IsDisk(m')
  {
    if ops == [] then m else After(AfterAll(m, ops[..|ops| - 1], res[..|ops| - 1]), ops[|ops| - 1], res[|ops| - 1])
  }

  /** How many operations of a run have failed. */
  function Failures(res: seq<Outcome>): nat {
    if res == [] then 0 else Failures(res[..|res| - 1]) + if res[|res| - 1] == Failed then 1 else 0
  }

  lemma {:induction false} FailuresSnoc(res: seq<Outcome>, r: Outcome)
    ensures Failures(res + [r]) == Failures(res) + Failures([r])
  {
    assert (res + [r])[..|res|] == res;
    assert [r][..0] == [];
  }

  lemma {:induction false} NoFailures(res: seq<Outcome>)
    ensures Failures(res) == 0 <==> Failed !in res
  {
    if res != [] {
      NoFailures(res[..|res| - 1]);
      assert res == res[..|res| - 1] + [res[|res| - 1]];
    }
  }

  /** What may come back: an error, or what is on the disk. */
  ghost predicate Right(m: map<nat, seq<Byte>>, op: Op, res: Outcome) {
    res == Failed || if op.Look? then op.id in m && res == Seen(m[op.id]) else res == Finished
  }

  lemma {:induction false} ContentsAre(buffer: DataBuffer)
    requires buffer.Valid()
    ensures IsDisk(buffer.Contents()) && forall x: nat :: x < BLOCKS ==> buffer.Contents()[x] == buffer.Content(x)
    ensures forall x :: x in buffer.Contents() ==> 0 <= x < BLOCKS
  {
  }

  lemma {:induction false} ContentHere(buffer: DataBuffer, id: nat)
    requires buffer.Valid() && id in buffer.idToFrame
    ensures id < BLOCKS && buffer.Content(id) == buffer.idToFrame[id].data[..]
  {
    buffer.OwnFrames();
  }

  /** A client writes to a block it has just fetched and marks it. */
  method Overwrite(buffer: DataBuffer, id: nat, data: array<Byte>, p: nat, bytes: seq<Byte>)
    requires buffer.Valid() && buffer.Faithful() && id in buffer.idToFrame && data == buffer.idToFrame[id].data && p + |bytes| <= BLOCK_SIZE
    modifies buffer.frames`isDirty, buffer.frames`referenced, buffer.Datas()
    ensures buffer.Valid() && buffer.Faithful() && id < BLOCKS && buffer.Content(id) == Splice(old(buffer.Content(id)), p, bytes)
    ensures forall x :: 0 <= x < BLOCKS && x != id ==> buffer.Content(x) == old(buffer.Content(x))
  {
    hide DataBuffer.Resident, DataFile.Valid, Splice, DataBuffer.Apart;
    buffer.OwnFrames();
    buffer.InDatas(id);
    WriteOver(data, p, bytes);
    var ok := buffer.MarkAsDirty(id);
  }

  /** Block `id` is as the file has it, or still resident, not marked, with what has been written. */
  ghost predicate Stale(buffer: DataBuffer, id: nat, file: seq<Byte>, written: seq<Byte>, evicted: bool)
    reads buffer`idToFrame, buffer`nextVictims, buffer.frames`inUse, buffer.frames`isDirty, buffer.df`blocks, buffer.Datas()
  {
    && buffer.Valid() && id < BLOCKS && |buffer.df.blocks| == BLOCKS && buffer.df.blocks[id] == file
    && (if id in buffer.idToFrame then buffer.idToFrame[id] in buffer.frames && !buffer.idToFrame[id].isDirty else evicted)
    && buffer.Content(id) == if evicted then file else written
  }

  lemma {:induction false} StaleIs(buffer: DataBuffer, id: nat, file: seq<Byte>, written: seq<Byte>, evicted: bool)
    requires Stale(buffer, id, file, written, evicted)
    ensures buffer.Valid() && id < BLOCKS && |buffer.df.blocks| == BLOCKS && buffer.df.blocks[id] == file && (id !in buffer.idToFrame ==> evicted)
    ensures buffer.Content(id) == if evicted then file else written
  {
    hide DataBuffer.Resident, DataBuffer.Apart;
  }

  /** A write that is not marked. */
  method WriteAside(buffer: DataBuffer, id: nat, p: nat, bytes: seq<Byte>)
    requires buffer.Valid() && id < BLOCKS && id in buffer.idToFrame && !buffer.idToFrame[id].isDirty && p + |bytes| <= BLOCK_SIZE
    modifies buffer.Datas()
    ensures |buffer.df.blocks| == BLOCKS && Stale(buffer, id, buffer.df.blocks[id], buffer.Content(id), false)
    ensures buffer.Content(id) == Splice(old(buffer.Content(id)), p, bytes)
  {
    hide DataBuffer.Resident, DataBuffer.Apart, Splice;
    buffer.OwnFrames();
    buffer.InDatas(id);
    WriteOver(buffer.idToFrame[id].data, p, bytes);
  }

  /** One more fetch, of any block. */
  method FetchPast(buffer: DataBuffer, id: nat, other: nat, ghost file: seq<Byte>, ghost written: seq<Byte>, ghost was: bool) returns (ghost evicted: bool)
    requires Stale(buffer, id, file, written, was) && other < BLOCKS
    modifies buffer`idToFrame, buffer`nextVictims, buffer.frames, buffer.df, buffer.Datas()
    ensures Stale(buffer, id, file, written, evicted) && evicted == (was || id !in buffer.idToFrame)
  {
    hide DataBuffer.Resident, DataBuffer.Apart, DataBuffer.Content, Turned, Victim, Spared, Front, DataBuffer.Referenced, DataBuffer.NextOut;
    OutIsThere(buffer);
    var _ := buffer.FetchBlock(other);
    evicted := was || id !in buffer.idToFrame;
    buffer.OwnFrames();
  }

  lemma {:induction false} OutIsThere(buffer: DataBuffer)
    requires buffer.Valid()
    ensures buffer.nextVictims != [] ==> buffer.NextOut() in buffer.idToFrame
  {
    hide Victim, DataBuffer.Referenced;
    buffer.QueueFacts();
  }

  /** A client writes to a clean block and does not mark it, and other blocks are fetched, even this one again: the file keeps what
      it had, and as soon as the block has been evicted that is all that is left. */
  method WriteUnmarked(buffer: DataBuffer, id: nat, p: nat, bytes: seq<Byte>, fetches: seq<nat>) returns (ghost evicted: bool)
    requires buffer.Valid() && id < BLOCKS && id in buffer.idToFrame && !buffer.idToFrame[id].isDirty && p + |bytes| <= BLOCK_SIZE
    requires forall i :: 0 <= i < |fetches| ==> fetches[i] < BLOCKS
    modifies buffer`idToFrame, buffer`nextVictims, buffer.frames, buffer.df, buffer.Datas()
    ensures buffer.Valid() && |buffer.df.blocks| == |old(buffer.df.blocks)| == BLOCKS && buffer.df.blocks[id] == old(buffer.df.blocks)[id]
    ensures id !in buffer.idToFrame ==> evicted
    ensures buffer.Content(id) == if evicted then old(buffer.df.blocks)[id] else Splice(old(buffer.Content(id)), p, bytes)
  {
    hide DataBuffer.Valid, Splice, Stale, DataBuffer.Content;
    ghost var file := buffer.df.blocks;
    WriteAside(buffer, id, p, bytes);
    ghost var written := buffer.Content(id);
    evicted := false;
    for i := 0 to |fetches|
      invariant Stale(buffer, id, file[id], written, evicted)
    {
      evicted := FetchPast(buffer, id, fetches[i], file[id], written, evicted);
    }
    StaleIs(buffer, id, file[id], written, evicted);
  }

  /** One operation. Whatever the file does and whatever is evicted, the client sees the disk. */
  method Step(buffer: DataBuffer, op: Op) returns (res: Outcome)
    requires buffer.Valid() && buffer.Faithful() && WellFormed(op)
    modifies buffer`idToFrame, buffer`nextVictims, buffer.frames, buffer.df, buffer.Datas()
    ensures buffer.Valid() && buffer.Faithful() && Right(old(buffer.Contents()), op, res)
    ensures IsDisk(old(buffer.Contents())) && buffer.Contents() == After(old(buffer.Contents()), op, res)
    ensures buffer.df.failures == old(buffer.df.failures) + Failures([res])
    ensures op.Flush? && res != Failed ==> buffer.Synced()
  {
    hide DataBuffer.Valid, DataBuffer.Content, DataBuffer.Contents, DataBuffer.Faithful, DataBuffer.Synced, DataBuffer.Drops, Splice, DataBuffer.Referenced, Turned, Victim;
    ContentsAre(buffer);
    if op.Flush? {
      var ok := buffer.Sync();
      res := if ok then Finished else Failed;
    } else {
      buffer.NothingDropped(op.id);
      var data := buffer.FetchBlock(op.id);
      if data == null {
        res := Failed;
      } else if op.Look? {
        ContentHere(buffer, op.id);
        res := Seen(data[..]);
      } else {
        Overwrite(buffer, op.id, data, op.p, op.bytes);
        res := Finished;
      }
    }
    ContentsAre(buffer);
  }

  /** The outcomes of a run: every look shows what the changes before it have left. */
  ghost predicate Answers(m: map<nat, seq<Byte>>, ops: seq<Op>, res: seq<Outcome>)
    requires IsDisk(m) && |res| == |ops| && forall i :: 0 <= i < |ops| ==> WellFormed(ops[i])
  {
    forall i :: 0 <= i < |ops| ==> Right(AfterAll(m, ops[..i], res[..i]), ops[i], res[i])
  }

  lemma {:induction false} OneMoreAnswer(m: map<nat, seq<Byte>>, ops: seq<Op>, res: seq<Outcome>, op: Op, r: Outcome)
    requires IsDisk(m) && |res| == |ops| && (forall i :: 0 <= i < |ops| ==> WellFormed(ops[i])) && WellFormed(op)
    requires Answers(m, ops, res) && Right(AfterAll(m, ops, res), op, r)
    ensures Answers(m, ops + [op], res + [r]) && AfterAll(m, ops + [op], res + [r]) == After(AfterAll(m, ops, res), op, r)
  {
    hide Right, After, IsDisk, WellFormed;
    var os, rs, n := ops + [op], res + [r], |ops|;
    assert os[..n] == ops && rs[..n] == res;
    forall i | 0 <= i < |os| ensures Right(AfterAll(m, os[..i], rs[..i]), os[i], rs[i]) {
      if i < n { assert os[..i] == ops[..i] && rs[..i] == res[..i]; }
    }
  }

  /** Any run over any file that may fail, with any number of frames: every look shows what the changes
      before it have left, and after a flush that has not failed the file holds it all. */
  method Run(buffer: DataBuffer, ops: seq<Op>) returns (res: seq<Outcome>)
    requires buffer.Valid() && buffer.Faithful() && forall i :: 0 <= i < |ops| ==> WellFormed(ops[i])
    modifies buffer`idToFrame, buffer`nextVictims, buffer.frames, buffer.df, buffer.Datas()
    ensures buffer.Valid() && buffer.Faithful() && |res| == |ops| && IsDisk(old(buffer.Contents()))
    ensures Answers(old(buffer.Contents()), ops, res) && buffer.Contents() == AfterAll(old(buffer.Contents()), ops, res)
    ensures ops != [] && ops[|ops| - 1].Flush? && res[|ops| - 1] != Failed ==> buffer.Synced()
    ensures buffer.df.failures == old(buffer.df.failures) + Failures(res) && (buffer.df.failures == old(buffer.df.failures) ==> Failed !in res)
  {
    hide DataBuffer.Valid, DataBuffer.Content, DataBuffer.Contents, DataBuffer.Faithful, DataBuffer.Synced, AfterAll, After, Answers, Right, IsDisk, WellFormed, Failures;
    ContentsAre(buffer);
    ghost var m := buffer.Contents();
    NoAnswers(m);
    res := [];
    ghost var synced := false;
    NoFailures(res);
    for n := 0 to |ops|
      invariant buffer.Valid() && buffer.Faithful() && |res| == n && Answers(m, ops[..n], res) && buffer.Contents() == AfterAll(m, ops[..n], res)
      invariant n > 0 ==> synced == (ops[n - 1].Flush? && res[n - 1] != Failed)
      invariant synced ==> buffer.Synced()
      invariant buffer.df.failures == old(buffer.df.failures) + Failures(res)
    {
      var r := Step(buffer, ops[n]);
      OneMoreAnswer(m, ops[..n], res, ops[n], r);
      FailuresSnoc(res, r);
      res := res + [r];
      synced := ops[n].Flush? && r != Failed;
      assert ops[..n + 1] == ops[..n] + [ops[n]];
    }
    assert ops[..|ops|] == ops;
    NoFailures(res);
  }

  lemma {:induction false} NoAnswers(m: map<nat, seq<Byte>>)
    requires IsDisk(m)
    ensures Answers(m, [], []) && AfterAll(m, [], []) == m
  {
  }
}
