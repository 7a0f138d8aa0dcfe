/** Whole runs of the database against a map from ids to data. */
module DatabaseRuns {
  import opened DataBlocks
  import opened RecordPages
  import opened Results
  import opened BPlusTrees
  import opened HeapWrites
  import opened IndexedHeaps
  import opened Databases

  datatype Request = Put(id: int, data: seq<Byte>) | Get(id: int) | Change(id: int, data: seq<Byte>) | Drop(id: int)

  datatype Reply = Ended(outcome: Outcome) | Shown(record: Result<Record>)

  /** Ids are of 32 bits and not 0; there always is some data. */
  predicate WellFormed(q: Request) {
    q.Put? || q.Change? ==> 0 < q.id < 0x1_0000_0000 && q.data != []
  }

  function After(m: map<int, seq<Byte>>, q: Request): map<int, seq<Byte>> {
    match q
    case Put(id, data) => if id in m then m else m[id := data]
    case Get(_) => m
    case Change(id, data) => if id in m then m[id := data] else m
    case Drop(id) => m - {id}
  }

  function ReplyTo(m: map<int, seq<Byte>>, q: Request): Reply {
    match q
    case Put(id, _) => Ended(if id in m then KeyExists else Outcome.Done)
    case Get(id) => Shown(if id in m then Result.Done(Record(id, m[id])) else Refused)
    case Change(id, _) => Ended(if id in m then Outcome.Done else KeyNotFound)
    case Drop(id) => Ended(if id in m then Outcome.Done else KeyNotFound)
  }

  /** The map after a run, and what the run replies. */
  ghost function AfterAll(m: map<int, seq<Byte>>, qs: seq<Request>): map<int, seq<Byte>> {
    if qs == [] then m else After(AfterAll(m, qs[..|qs| - 1]), qs[|qs| - 1])
  }

  ghost function Replies(m: map<int, seq<Byte>>, qs: seq<Request>): seq<Reply> {
    if qs == [] then [] else Replies(m, qs[..|qs| - 1]) + [ReplyTo(AfterAll(m, qs[..|qs| - 1]), qs[|qs| - 1])]
  }

  /** What the insertions of a run may take: their data, and one header for each. */
  function Cost(qs: seq<Request>): nat {
    if qs == [] then 0 else CostOf(qs[0]) + Cost(qs[1..])
  }

  function CostOf(q: Request): nat {
    if q.Put? then |q.data| + HEADER_SIZE else 0
  }

  /** How many ids a run may add. */
  function Puts(qs: seq<Request>): nat {
    if qs == [] then 0 else (if qs[0].Put? then 1 else 0) + Puts(qs[1..])
  }

  /** What the original demands of the database without asking. */
  ghost predicate Ready(db: Database, q: Request)
    requires db.Valid()
    reads db, db.store.index, db.store.index.adapter, db.store.heap, db.store.heap.Arrays(), db.store.heap.blocksMap, db.store.heap.blocksMap.low.vals, db.store.heap.blocksMap.high.vals
  {
    match q
    case Put(id, data) => id !in db.Contents() ==> db.Insertable(|data|)
    case Get(_) => true
    case Change(id, data) => id in db.Contents() ==> db.Replaceable(id, |data|)
    case Drop(id) => id in db.Contents() ==> db.Removable(id)
  }

  /** A deletion whose merges neither get stuck nor go astray, where freed nodes are cleared. */
  ghost predicate Passes(db: Database, q: Request)
    requires db.Valid()
    reads db, db.store.index, db.store.index.adapter, db.store.heap, db.store.heap.Arrays(), db.store.heap.blocksMap, db.store.heap.blocksMap.low.vals, db.store.heap.blocksMap.high.vals
  {
    q.Drop? && q.id in db.Contents() ==> !db.store.index.StallsAt(q.id) && !db.store.index.StraysAt(q.id) && db.store.heap.clearsNodes
  }

  /** One request to a database that is ready for it. */
  method Step(db: Database, q: Request) returns (reply: Reply)
    requires db.Valid() && WellFormed(q) && Ready(db, q)
    modifies db.store.index.adapter, db.store.index`tree, db.store.index`height, db.store.heap`first, db.store.heap`nextAvailable, db.store.heap`list, db`blockOf,
             db.store.heap.Arrays(), db.store.heap.blocksMap`held, db.store.heap.blocksMap.low.vals, db.store.heap.blocksMap.high.vals
    ensures old(db.Clean()) || old(Passes(db, q)) ==>
              db.Valid() && db.Contents() == After(old(db.Contents()), q) && reply == ReplyTo(old(db.Contents()), q)
    ensures (old(db.Clean()) || old(Passes(db, q))) && !q.Change? ==> db.Valid() && db.Budget() + CostOf(q) >= old(db.Budget())
    ensures old(db.Clean()) || old(Passes(db, q)) ==> db.Valid() && db.LostPages() <= old(db.LostPages()) + old(if q.Change? then db.SpoiltBy(q.id) else {})
    ensures old(db.Clean()) ==> db.Valid() && (db.Clean() <==> q.Change? ==> old(db.SpoiltBy(q.id)) == {})
  {
    hide Database.Valid, Database.Contents, Database.Clean, Database.Budget, Database.Removable, Database.Insertable, Database.Replaceable, Database.LostPages, Database.SpoiltBy,
         BPlusTree.StallsAt, BPlusTree.StraysAt;
    match q {
      case Put(id, data) =>
        var outcome := db.Insert(id, data);
        reply := Ended(outcome);
      case Get(id) =>
        var found := db.Find(id);
        assert unchanged(db, db.store.index, db.store.index.adapter, db.store.heap, db.store.heap.Arrays(), db.store.heap.blocksMap, db.store.heap.blocksMap.low.vals, db.store.heap.blocksMap.high.vals);
        reply := Shown(found);
      case Change(id, data) =>
        var outcome := db.Update(id, data);
        reply := Ended(outcome);
      case Drop(id) =>
        var outcome := db.Delete(id);
        reply := Ended(outcome);
    }
  }

  lemma {:induction false} MoreNodes(a: nat, b: nat)
    requires a <= b
    ensures NodesFor(a) <= NodesFor(b)
  {
  }

  /** Keys count: an insertion adds one id at most, everything else none. */
  lemma {:induction false} AfterSize(m: map<int, seq<Byte>>, q: Request)
    ensures |After(m, q)| <= |m| + (if q.Put? then 1 else 0)
  {
    var after := After(m, q);
    assert |after| == |after.Keys| && |m| == |m.Keys|;
    if q.Put? || q.Change? {
      assert after.Keys <= m.Keys + {q.id};
      if q.id in m { assert after.Keys == m.Keys; } else if q.Put? { assert after.Keys == m.Keys + {q.id}; }
    } else {
      assert after.Keys <= m.Keys;
      Fewer(after.Keys, m.Keys);
    }
  }

  lemma {:induction false} Fewer(a: set<int>, b: set<int>)
    requires a <= b
    ensures |a| <= |b|
  {
    assert b == a + (b - a);
  }

  /** What a run needs with `ids` ids there: room for what it inserts, and for the nodes of an index with all the ids it may add. */
  function Need(qs: seq<Request>, ids: nat): nat {
    Cost(qs) + NEW_SPACE * (1 + NodesFor(ids + Puts(qs)))
  }

  lemma {:induction false} NeedPut(qs: seq<Request>, ids: nat)
    requires qs != []
    ensures qs[0].Put? ==> |qs[0].data| + HEADER_SIZE + NEW_SPACE * (1 + NodesFor(ids + 1)) <= Need(qs, ids)
  {
    hide NodesFor;
    if qs[0].Put? { MoreNodes(ids + 1, ids + Puts(qs)); }
  }

  /** Room for a run is room for the rest of it after its first request. */
  lemma {:induction false} NeedLess(m: map<int, seq<Byte>>, qs: seq<Request>)
    requires qs != []
    ensures Need(qs[1..], |After(m, qs[0])|) + CostOf(qs[0]) <= Need(qs, |m|)
  {
    hide NodesFor, After;
    AfterSize(m, qs[0]);
    MoreNodes(|After(m, qs[0])| + Puts(qs[1..]), |m| + Puts(qs));
  }

  /** A clean database that holds `m` and has room for a run. */
  ghost predicate Stands(db: Database, m: map<int, seq<Byte>>, qs: seq<Request>)
    reads db, db.store.index, db.store.index.adapter, db.store.heap, db.store.heap.Arrays(), db.store.heap.blocksMap, db.store.heap.blocksMap.low.vals, db.store.heap.blocksMap.high.vals
  {
    db.Valid() && db.Clean() && db.Contents() == m && Need(qs, |m|) <= db.Budget()
  }

  lemma {:induction false} StandsReady(db: Database, m: map<int, seq<Byte>>, qs: seq<Request>)
    requires Stands(db, m, qs) && qs != [] && !qs[0].Change?
    ensures db.Valid() && Ready(db, qs[0])
  {
    hide Database.Housed, Database.Contents, Database.Clean, Database.Budget, Database.Removable, Database.Insertable, NodesFor, Need;
    var q := qs[0];
    NeedPut(qs, |m|);
    if q.Drop? && q.id in m { db.CleanRemovable(q.id); }
    if q.Put? { db.CleanInsertable(|q.data|); }
  }

  /** One request of a run in a clean database. */
  method StepIn(db: Database, ghost m: map<int, seq<Byte>>, q: Request, ghost qs: seq<Request>) returns (reply: Reply)
    requires Stands(db, m, qs) && qs != [] && q == qs[0] && WellFormed(q) && !q.Change?
    modifies db.store.index.adapter, db.store.index`tree, db.store.index`height, db.store.heap`first, db.store.heap`nextAvailable, db.store.heap`list, db`blockOf,
             db.store.heap.Arrays(), db.store.heap.blocksMap`held, db.store.heap.blocksMap.low.vals, db.store.heap.blocksMap.high.vals
    ensures Stands(db, After(m, q), qs[1..]) && reply == ReplyTo(m, q)
  {
    hide Database.Housed, Database.Contents, Database.Clean, Database.Budget, WellFormed, Ready, Passes, Need, After, ReplyTo, CostOf;
    StandsReady(db, m, qs);
    NeedLess(m, qs);
    reply := Step(db, q);
  }

  /** A run of insertions, deletions and look-ups never fails for want of room or pointers as long as what it inserts fits in. */
  method Run(db: Database, qs: seq<Request>) returns (replies: seq<Reply>)
    requires db.Valid() && db.Clean() && (forall i :: 0 <= i < |qs| ==> WellFormed(qs[i]) && !qs[i].Change?) && Need(qs, |db.Contents()|) <= db.Budget()
    modifies db.store.index.adapter, db.store.index`tree, db.store.index`height, db.store.heap`first, db.store.heap`nextAvailable, db.store.heap`list, db`blockOf,
             db.store.heap.Arrays(), db.store.heap.blocksMap`held, db.store.heap.blocksMap.low.vals, db.store.heap.blocksMap.high.vals
    ensures db.Valid() && db.Clean() && db.Contents() == AfterAll(old(db.Contents()), qs) && replies == Replies(old(db.Contents()), qs)
  {
    hide Database.Housed, Database.Contents, Database.Clean, Database.Budget, WellFormed, Need, After, ReplyTo, Stands;
    ghost var m := db.Contents();
    replies := [];
    assert qs[0..] == qs;
    StandsIs(db, m, qs);
    for i := 0 to |qs|
      invariant Stands(db, AfterAll(m, qs[..i]), qs[i..]) && replies == Replies(m, qs[..i])
    {
      assert qs[i..][0] == qs[i] && qs[i..][1..] == qs[i + 1..];
      assert qs[..i + 1][..i] == qs[..i] && qs[..i + 1][i] == qs[i];
      var reply := StepIn(db, AfterAll(m, qs[..i]), qs[i], qs[i..]);
      replies := replies + [reply];
    }
    assert qs[..|qs|] == qs;
    StandsIs(db, AfterAll(m, qs), []);
  }

  lemma {:induction false} StandsIs(db: Database, m: map<int, seq<Byte>>, qs: seq<Request>)
    ensures Stands(db, m, qs) <==> db.Valid() && db.Clean() && db.Contents() == m && Need(qs, |m|) <= db.Budget()
  {
  }

  /** From a formatted file on: 7166 pages of 4076 bytes each, of which the index takes one, and two for every 255 ids, and one is
      kept back. */
  method FromFormatted(qs: seq<Request>) returns (db: Database, replies: seq<Reply>)
    requires forall i :: 0 <= i < |qs| ==> WellFormed(qs[i]) && !qs[i].Change?
    requires Cost(qs) + 4076 * (2 + 2 * (Puts(qs) / 255)) <= 29_208_616
    ensures fresh(db) && db.Valid() && db.Contents() == AfterAll(map[], qs) && replies == Replies(map[], qs)
  {
    hide Database.Housed, Database.Contents, Database.Clean, Database.Budget, WellFormed, Cost, Puts, AfterAll, Replies;
    db := new Database(true, true, true, true);
    replies := Run(db, qs);
  }
}
