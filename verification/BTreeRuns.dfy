/** Whole runs of the B+ tree against a map, and when a delete can get stuck. */
module BTreeRuns {
  import opened RowIDs
  import opened BTreeNodes
  import opened BTreeModel
  import opened BTreeInvariant
  import opened BTreeSearch
  import opened BTreeMoves
  import opened BTreeFacts
  import opened BTreeDeletes
  import opened BPlusTrees

  // ---------- Runs ----------

  datatype Op = Put(key: Key, item: RowID) | Drop(key: Key) | Get(key: Key)

  datatype Answer = Changed | Refused | Value(item: Option<RowID>)

  /** The map after one operation. */
  function After(m: map<Key, RowID>, op: Op): map<Key, RowID> {
    match op
    case Put(k, v) => if k in m then m else m[k := v]
    case Drop(k) => m - {k}
    case Get(_) => m
  }

  function AnswerOf(m: map<Key, RowID>, op: Op): Answer {
    match op
    case Put(k, _) => if k in m then Refused else Changed
    case Drop(k) => if k in m then Changed else Refused
    case Get(k) => Value(if k in m then Some(m[k]) else None)
  }

  /** The map after a run, and what the run answers. */
  ghost function AfterAll(m: map<Key, RowID>, ops: seq<Op>): map<Key, RowID> {
    if ops == [] then m else After(AfterAll(m, ops[..|ops| - 1]), ops[|ops| - 1])
  }

  ghost function Answers(m: map<Key, RowID>, ops: seq<Op>): seq<Answer> {
    if ops == [] then [] else Answers(m, ops[..|ops| - 1]) + [AnswerOf(AfterAll(m, ops[..|ops| - 1]), ops[|ops| - 1])]
  }

  /** The nodes of a tree at some moment, and the tree they stood for. */
  datatype Snapshot = Snapshot(nodes: Nodes, next: Id, first: Id, height: nat, tree: Tree)

  /** Nodes that keep every invariant, hold the entries of `m`, and in which the delete of the key ends as `e` says. */
  ghost predicate EndsAt(s: Snapshot, c: Caps, exact: bool, right: bool, m: map<Key, RowID>, key: Key, e: Ending) {
    && Sound(s.nodes, s.next, s.first, exact, s.height, s.tree) && RootGood(c, s.height, s.tree)
    && MapOf(Ents(Flat(s.tree))) == m && key in m && EndIn(s.nodes, c, right, s.tree, key) == e
  }

  /** A delete of a key that is there gets stuck, or goes astray, exactly when the merges it causes do. */
  method Step(t: BPlusTree, op: Op) returns (a: Answer, e: Ending)
    requires t.Valid()
    modifies t, t.adapter
    ensures e == Stuck <==> op.Drop? && op.key in old(t.Contents()) && old(t.StallsAt(op.key))
    ensures e == Astray <==> op.Drop? && op.key in old(t.Contents()) && old(t.StraysAt(op.key))
    ensures (e == Stuck ==> !t.relinkCousins) && (e == Astray ==> !t.dropsRight)
    ensures e == Through ==> t.Valid() && t.Contents() == After(old(t.Contents()), op) && a == AnswerOf(old(t.Contents()), op)
  {
    hide BPlusTree.StallsAt, BPlusTree.StraysAt;
    a, e := Refused, Through;
    match op {
      case Put(k, v) =>
        var r := t.Insert(k, v);
        a := if r == Done then Changed else Refused;
      case Drop(k) =>
        var r := t.Delete(k);
        e := if r == Panicked then Stuck else if r == Strayed then Astray else Through;
        a := if r == Done then Changed else Refused;
        assert k !in old(t.Contents()) ==> old(t.Contents()) - {k} == old(t.Contents());
      case Get(k) =>
        var r := t.Find(k);
        a := Value(r);
    }
  }

  lemma {:induction false} Taken(t: BPlusTree, key: Key) returns (s: Snapshot)
    requires t.Valid()
    ensures key in t.Contents() && t.StallsAt(key) ==> EndsAt(s, t.Capacities(), t.relinkCousins, t.dropsRight, t.Contents(), key, Stuck)
    ensures key in t.Contents() && t.StraysAt(key) ==> EndsAt(s, t.Capacities(), t.relinkCousins, t.dropsRight, t.Contents(), key, Astray)
  {
    hide Sound, Flat, Ents, RootGood, Ends, PathTo, LeafOf;
    s := Snapshot(t.adapter.nodes, t.adapter.nextNodeID, t.adapter.firstLeafID, t.height, t.tree);
  }

  /** A run answers like a map, up to a delete that gets stuck or goes astray; in the repaired tree none does. Where the
      run stops, the tree had come to a state in which that delete ends so. */
  method Run(t: BPlusTree, ops: seq<Op>) returns (answers: seq<Answer>, e: Ending, ghost last: Snapshot)
    requires t.Valid()
    modifies t, t.adapter
    ensures |answers| <= |ops| && answers == Answers(old(t.Contents()), ops[..|answers|])
    ensures |answers| < |ops| <==> e != Through
    ensures e != Through ==> ops[|answers|].Drop? && (if e == Stuck then !t.relinkCousins else !t.dropsRight)
    ensures e != Through ==>
              EndsAt(last, t.Capacities(), t.relinkCousins, t.dropsRight, AfterAll(old(t.Contents()), ops[..|answers|]), ops[|answers|].key, e)
    ensures e == Through ==> t.Valid() && t.Contents() == AfterAll(old(t.Contents()), ops)
  {
    hide BPlusTree.Valid, BPlusTree.Contents, BPlusTree.StallsAt, BPlusTree.StraysAt, EndsAt;
    answers, e := [], Through;
    ghost var m := t.Contents();
    last := Snapshot(map[], 0, 0, 0, Leaf(0, []));
    for i := 0 to |ops|
      invariant |answers| == i && answers == Answers(m, ops[..i]) && e == Through
      invariant t.Valid() && t.Contents() == AfterAll(m, ops[..i])
    {
      if ops[i].Drop? {
        last := Taken(t, ops[i].key);
      }
      var a;
      a, e := Step(t, ops[i]);
      if e != Through {
        return;
      }
      answers := answers + [a];
      assert ops[..i + 1][..i] == ops[..i] && ops[..i + 1][i] == ops[i];
    }
    assert ops[..|ops|] == ops;
  }
}
