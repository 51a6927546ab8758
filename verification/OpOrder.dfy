/** Operations in ascending order of their timestamps. */
module OpOrder {
  import opened Hlcs
  import opened Ops
  import opened Replicas

  ghost predicate Ascending(ops: seq<Op>) {
    forall i, j | 0 <= i < j < |ops| :: Lt(ops[i].hlc, ops[j].hlc)
  }

  predicate IsFirst(o: Op, s: set<Op>) {
    o in s && forall p <- s :: Leq(o.hlc, p.hlc)
  }

  lemma {:induction false} FirstExists(s: set<Op>)
    requires s != {}
    ensures exists o :: IsFirst(o, s)
    decreases |s|
  {
    var o :| o in s;
    if s == {o} {
      assert IsFirst(o, s);
    } else {
      FirstExists(s - {o});
      var m :| IsFirst(m, s - {o});
      if Leq(o.hlc, m.hlc) {
        assert IsFirst(o, s);
      } else {
        assert IsFirst(m, s);
      }
    }
  }

  ghost function First(s: set<Op>): (o: Op)
    requires s != {}
    ensures IsFirst(o, s)
  {
    FirstExists(s);
    var o :| IsFirst(o, s);
    o
  }

  ghost function SortOps(s: set<Op>): (ops: seq<Op>)
    ensures |ops| == |s|
    decreases |s|
  {
    if s == {} then [] else [First(s)] + SortOps(s - {First(s)})
  }

  lemma {:induction false} SortOpsContents(s: set<Op>)
    ensures OpSet(SortOps(s)) == s
    decreases |s|
  {
    if s != {} {
      var o := First(s);
      SortOpsContents(s - {o});
      assert OpSet(SortOps(s)) == {o} + OpSet(SortOps(s - {o}));
    }
  }

  lemma {:induction false} SortOpsAscending(s: set<Op>)
    requires UniqueIds(s)
    ensures Ascending(SortOps(s))
    decreases |s|
  {
    if s != {} {
      var o := First(s);
      var rest := SortOps(s - {o});
      assert UniqueIds(s - {o});
      SortOpsAscending(s - {o});
      SortOpsContents(s - {o});
      forall j | 0 <= j < |rest| ensures Lt(o.hlc, rest[j].hlc) {
        assert rest[j] in OpSet(rest);
        assert !SameId(o, rest[j]);
      }
    }
  }

  /** A set of operations can be put in ascending order in one way only. */
  lemma {:induction false} AscendingUnique(a: seq<Op>, b: seq<Op>)
    requires Ascending(a) && Ascending(b) && OpSet(a) == OpSet(b)
    ensures a == b
  {
    EmptySet(a);
    EmptySet(b);
    if a != [] && b != [] {
      SameFirst(a, b);
      TailSet(a);
      TailSet(b);
      AscendingUnique(a[1..], b[1..]);
      assert a == [a[0]] + a[1..] && b == [b[0]] + b[1..];
    }
  }

  lemma EmptySet(ops: seq<Op>)
    ensures OpSet(ops) == {} <==> ops == []
  {
    if ops != [] { assert ops[0] in OpSet(ops); }
  }

  lemma SameFirst(a: seq<Op>, b: seq<Op>)
    requires Ascending(a) && Ascending(b) && OpSet(a) == OpSet(b) && a != [] && b != []
    ensures a[0] == b[0]
  {
    assert a[0] in OpSet(b) && b[0] in OpSet(a);
    var i :| 0 <= i < |b| && b[i] == a[0];
    var j :| 0 <= j < |a| && a[j] == b[0];
  }

  lemma TailSet(a: seq<Op>)
    requires Ascending(a) && a != []
    ensures OpSet(a[1..]) == OpSet(a) - {a[0]}
  {
    assert a == [a[0]] + a[1..];
    forall i | 0 <= i < |a[1..]| ensures a[1..][i] != a[0] {
      assert Lt(a[0].hlc, a[i + 1].hlc);
    }
  }

  lemma SortedIs(ops: seq<Op>, s: set<Op>)
    requires Ascending(ops) && OpSet(ops) == s && UniqueIds(s)
    ensures ops == SortOps(s)
  {
    SortOpsContents(s);
    SortOpsAscending(s);
    AscendingUnique(ops, SortOps(s));
  }

  lemma {:induction false} SubsetSize<T>(a: set<T>, b: set<T>)
    requires a <= b
    ensures |a| <= |b|
    decreases |a|
  {
    if a != {} {
      var x :| x in a;
      SubsetSize(a - {x}, b - {x});
    }
  }

  /** Every retained operation above a frontier, in ascending order. */
  ghost function OpsSince(log: set<Op>, have: Frontier): seq<Op> {
    SortOps(Diff(log, have))
  }

  lemma OpsSinceContents(log: set<Op>, have: Frontier)
    ensures OpSet(OpsSince(log, have)) == Diff(log, have)
    ensures OpsSince(log, have) == [] <==> Diff(log, have) == {}
    ensures UniqueIds(log) ==> Ascending(OpsSince(log, have))
  {
    SortOpsContents(Diff(log, have));
    if UniqueIds(log) {
      assert UniqueIds(Diff(log, have));
      SortOpsAscending(Diff(log, have));
    }
  }

  /** The comparator sort of the language, on operations with distinct ids. */
  method Sort(ops: seq<Op>) returns (out: seq<Op>)
    requires forall i, j | 0 <= i < j < |ops| :: ops[i].hlc != ops[j].hlc
    ensures Ascending(out) && OpSet(out) == OpSet(ops) && |out| == |ops|
  {
    out := [];
    for i := 0 to |ops|
      invariant Ascending(out) && |out| == i && OpSet(out) == OpSet(ops[..i])
    {
      PrefixSet(ops, i);
      forall p <- out ensures p.hlc != ops[i].hlc {
        assert p in OpSet(ops[..i]);
        var k :| 0 <= k < i && ops[..i][k] == p;
      }
      out := Insert(out, ops[i]);
    }
    assert ops[..|ops|] == ops;
  }

  lemma PrefixSet(ops: seq<Op>, i: nat)
    requires i < |ops|
    ensures OpSet(ops[..i + 1]) == OpSet(ops[..i]) + {ops[i]}
  {
    assert ops[..i + 1] == ops[..i] + [ops[i]];
    OpSetAppend(ops[..i], ops[i]);
  }

  method Insert(sorted: seq<Op>, op: Op) returns (out: seq<Op>)
    requires Ascending(sorted) && forall p <- sorted :: p.hlc != op.hlc
    ensures Ascending(out) && OpSet(out) == OpSet(sorted) + {op} && |out| == |sorted| + 1
  {
    var k := 0;
    while k < |sorted| && Lt(sorted[k].hlc, op.hlc)
      invariant k <= |sorted|
      invariant forall i | 0 <= i < k :: Lt(sorted[i].hlc, op.hlc)
    {
      k := k + 1;
    }
    out := sorted[..k] + [op] + sorted[k..];
    InsertedAscending(sorted, op, k);
    InsertedSet(sorted, op, k);
  }

  lemma InsertedSet(sorted: seq<Op>, op: Op, k: nat)
    requires k <= |sorted|
    ensures OpSet(sorted[..k] + [op] + sorted[k..]) == OpSet(sorted) + {op}
  {
    assert sorted == sorted[..k] + sorted[k..];
  }

  lemma InsertedAscending(sorted: seq<Op>, op: Op, k: nat)
    requires Ascending(sorted) && k <= |sorted| && forall p <- sorted :: p.hlc != op.hlc
    requires forall i | 0 <= i < k :: Lt(sorted[i].hlc, op.hlc)
    requires k < |sorted| ==> !Lt(sorted[k].hlc, op.hlc)
    ensures Ascending(sorted[..k] + [op] + sorted[k..])
  {
    forall j | k <= j < |sorted| ensures Lt(op.hlc, sorted[j].hlc) {
      assert sorted[k] in sorted && sorted[j] in sorted;
    }
  }
}
