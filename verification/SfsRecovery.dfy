/** Recovery is correct: it resolves a name to what its entries mean, keeps that meaning at
    every one of its own steps, and settles in two passes. */
module SfsRecovery {
  import opened Options
  import opened SfsView

  lemma RunOne(v: View, op: Op)
    ensures RunOps(v, [op]) == Apply(v, op)
  {
    assert [op][1..] == [];
  }

  lemma FirstIsLone(v: View, normal: set<int>, n: nat, p: int)
    requires InRange(normal, n) && Lone(v, normal, p)
    ensures First(v, normal, 0, n) == p
  {
  }

  lemma FirstIsNone(v: View, normal: set<int>, n: nat)
    requires InRange(normal, n)
    requires forall x :: x in v ==> x !in normal
    ensures First(v, normal, 0, n) == n
  {
  }

  lemma FirstOfPair(v: View, normal: set<int>, n: nat, h: int, q: int)
    requires InRange(normal, n) && HiddenPair(v, normal, h, q)
    ensures First(v, normal, 0, n) == if h < q then h else q
  {
  }

  lemma RunTwo(v: View, a: Op, b: Op)
    ensures RunOps(v, [a, b]) == Apply(Apply(v, a), b)
  {
    assert [a, b][1..] == [b];
    RunOne(Apply(v, a), b);
  }

  lemma RunThree(v: View, a: Op, b: Op, c: Op)
    ensures RunOps(v, [a, b, c]) == Apply(Apply(Apply(v, a), b), c)
  {
    assert [a, b, c][1..] == [b, c];
    RunTwo(Apply(v, a), b, c);
  }

  lemma MeansOne(v: View, op: Op, normal: set<int>, file: Option<nat>)
    requires Means(v, normal, file) && Means(Apply(v, op), normal, file)
    ensures MeansThroughout(v, [op], normal, file)
  {
    assert [op][1..] == [];
    assert MeansThroughout(Apply(v, op), [], normal, file);
  }

  lemma MeansThen(v: View, op: Op, ops: seq<Op>, normal: set<int>, file: Option<nat>)
    requires Means(v, normal, file) && MeansThroughout(Apply(v, op), ops, normal, file)
    ensures MeansThroughout(v, [op] + ops, normal, file)
  {
    assert ([op] + ops)[1..] == ops;
  }

  /** The stale entry, and the one it points at. */
  function StaleParts(v: View, s: int): set<int> {
    {s} + if s in v && v[s].link.Some? && v[s].link.value.pointer != -1 then {v[s].link.value.pointer} else {}
  }

  /** The operations of a pass over a stale link, and what they leave. */
  lemma StaleRuns(v: View, p: int) returns (ops: seq<Op>)
    requires p in v && v[p].link.Some? && v[p].link.value.stale >= 0
    ensures var s := v[p].link.value.stale;
            var q := if s in v && v[s].link.Some? then v[s].link.value.pointer else -1;
            && ops == Validate(v, p).ops
            && ops == (if s !in v then [Put(p, EMPTY)]
                       else if q == -1 || q !in v then [Unlink(s), Put(p, EMPTY)]
                       else [Unlink(q), Unlink(s), Put(p, EMPTY)])
    ensures RunOps(v, ops) == Apply(v - StaleParts(v, v[p].link.value.stale), Put(p, EMPTY))
  {
    ops := Validate(v, p).ops;
    var s, reset := v[p].link.value.stale, Put(p, EMPTY);
    if s !in v {
      assert ops == [reset];
      RunOne(v, reset);
      assert v - StaleParts(v, s) == v;
    } else if |ops| == 2 {
      assert ops == [Unlink(s), reset];
      RunTwo(v, Unlink(s), reset);
      assert v - StaleParts(v, s) == v - {s};
    } else {
      var q := v[s].link.value.pointer;
      assert ops == [Unlink(q), Unlink(s), reset];
      RunThree(v, Unlink(q), Unlink(s), reset);
      assert v - StaleParts(v, s) == v - {q} - {s};
    }
  }

  /** A single entry with a stale link and a pass over it: the stale entry goes, with whatever it
      points at, and the record is reset. */
  lemma StaleRecovery(v: View, normal: set<int>, n: nat, p: int, file: Option<nat>)
    requires InRange(normal, n) && Lone(v, normal, p) && LoneMeans(v, p, file)
    requires v[p].link.Some? && v[p].link.value.stale >= 0
    ensures Resolved(v, normal, n) == file
    ensures MeansThroughout(v, Lookup(v, normal, n).ops, normal, file)
    ensures file.Some? ==>
            Lone(Recovered(v, normal, n), normal, p) && Recovered(v, normal, n)[p] == Entry(v[p].file, Some(EMPTY))
    ensures file.None? ==> forall x :: x in Recovered(v, normal, n) ==> x !in normal
    ensures Recovered(v, normal, n) == Apply(v - StaleParts(v, v[p].link.value.stale), Put(p, EMPTY))
  {
    FirstIsLone(v, normal, n, p);
    var s, reset := v[p].link.value.stale, Put(p, EMPTY);
    var ops := StaleRuns(v, p);
    if s !in v {
      StaleGone(v, normal, p, s, file);
    } else if |ops| == 2 {
      StaleThere(v, normal, p, s, file);
    } else {
      StalePointing(v, normal, p, s, v[s].link.value.pointer, file);
    }
  }

  lemma StaleGone(v: View, normal: set<int>, p: int, s: int, file: Option<nat>)
    requires Lone(v, normal, p) && LoneMeans(v, p, file) && s >= 0 && s !in v
    requires v[p].link.Some? && v[p].link.value.stale == s
    ensures MeansThroughout(v, [Put(p, EMPTY)], normal, file)
  {
    var w := Apply(v, Put(p, EMPTY));
    assert Lone(w, normal, p) && LoneMeans(w, p, file);
    MeansOne(v, Put(p, EMPTY), normal, file);
  }

  lemma StaleThere(v: View, normal: set<int>, p: int, s: int, file: Option<nat>)
    requires Lone(v, normal, p) && LoneMeans(v, p, file) && s >= 0 && file.Some?
    requires v[p].link.Some? && v[p].link.value.stale == s
    ensures MeansThroughout(v, [Unlink(s), Put(p, EMPTY)], normal, file)
  {
    var w := Apply(v, Unlink(s));
    assert Lone(w, normal, p) && LoneMeans(w, p, file);
    StaleGone(w, normal, p, s, file);
    MeansThen(v, Unlink(s), [Put(p, EMPTY)], normal, file);
    assert [Unlink(s)] + [Put(p, EMPTY)] == [Unlink(s), Put(p, EMPTY)];
  }

  lemma StalePointing(v: View, normal: set<int>, p: int, s: int, q: int, file: Option<nat>)
    requires Lone(v, normal, p) && LoneMeans(v, p, file) && s >= 0 && s in v
    requires v[p].link.Some? && v[p].link.value.stale == s && PointsBack(v, s, q)
    ensures MeansThroughout(v, [Unlink(q), Unlink(s), Put(p, EMPTY)], normal, file)
  {
    var w := Apply(v, Unlink(q));
    if q == p {
      var u := Apply(w, Unlink(s));
      assert Means(w, normal, file) && Means(u, normal, file);
      MeansOne(u, Put(p, EMPTY), normal, file);
      MeansThen(w, Unlink(s), [Put(p, EMPTY)], normal, file);
      assert [Unlink(s)] + [Put(p, EMPTY)] == [Unlink(s), Put(p, EMPTY)];
    } else {
      assert Lone(w, normal, p) && LoneMeans(w, p, file);
      StaleThere(w, normal, p, s, file);
    }
    MeansThen(v, Unlink(q), [Unlink(s), Put(p, EMPTY)], normal, file);
    assert [Unlink(q)] + [Unlink(s), Put(p, EMPTY)] == [Unlink(q), Unlink(s), Put(p, EMPTY)];
  }

  /** The entries once a lone visible entry without a stale link has been repaired: a meta file whose data is
      gone goes, a rename that arrived becomes a pointer, any other link is dropped; and data that its meta
      file points to points back. */
  function Repaired(v: View, p: int): View
    requires p in v
  {
    match v[p].link
    case None => v
    case Some(r) =>
      if r.hidden < 0 && r.rename < 0 && r.pointer >= 0 then
        if r.pointer !in v then v - {p}
        else if PointsBack(v, r.pointer, p) then v
        else v[r.pointer := Entry(v[r.pointer].file, Some(Record(p, -1, -1, -1)))]
      else if r.hidden < 0 && r.rename >= 0 && r.rename != p && r.rename in v
      then v[p := Entry(v[p].file, Some(Record(r.rename, -1, -1, -1)))]
      else v[p := Entry(v[p].file, Some(EMPTY))]
  }

  /** Everything recovery does for a lone visible entry. */
  lemma LoneRecovery(v: View, normal: set<int>, n: nat, p: int, file: Option<nat>)
    requires InRange(normal, n) && Lone(v, normal, p) && LoneMeans(v, p, file)
    ensures Resolved(v, normal, n) == file
    ensures MeansThroughout(v, Lookup(v, normal, n).ops, normal, file)
    ensures Recovered(v, normal, n) == if v[p].link.Some? && v[p].link.value.stale >= 0
                                       then Apply(v - StaleParts(v, v[p].link.value.stale), Put(p, EMPTY))
                                       else Repaired(v, p)
  {
    if v[p].link.Some? && v[p].link.value.stale >= 0 {
      StaleRecovery(v, normal, n, p, file);
    } else {
      PlainRecovery(v, normal, n, p, file);
    }
  }

  /** Without a stale link a pass makes at most one change. */
  lemma PlainRecovery(v: View, normal: set<int>, n: nat, p: int, file: Option<nat>)
    requires InRange(normal, n) && Lone(v, normal, p) && LoneMeans(v, p, file)
    requires v[p].link.Some? ==> v[p].link.value.stale < 0
    ensures Resolved(v, normal, n) == file
    ensures MeansThroughout(v, Lookup(v, normal, n).ops, normal, file)
    ensures Recovered(v, normal, n) == Repaired(v, p)
  {
    FirstIsLone(v, normal, n, p);
    var plan := Validate(v, p);
    assert Lookup(v, normal, n) == plan;
    if plan.ops != [] {
      assert |plan.ops| == 1;
      var w := Apply(v, plan.ops[0]);
      assert plan.ops == [plan.ops[0]];
      RunOne(v, plan.ops[0]);
      if p in w {
        assert Lone(w, normal, p);
        assert LoneMeans(w, p, file);
      }
      MeansOne(v, plan.ops[0], normal, file);
    }
  }

  /** The window in which both the hidden and the new entry exist: the two scan orders agree. */
  lemma PairRecovery(v: View, normal: set<int>, n: nat, h: int, q: int)
    requires InRange(normal, n) && HiddenPair(v, normal, h, q)
    ensures Resolved(v, normal, n) == Some(v[q].file)
    ensures MeansThroughout(v, Lookup(v, normal, n).ops, normal, Some(v[q].file))
    ensures Recovered(v, normal, n) == (v - {h})[q := Entry(v[q].file, Some(EMPTY))]
  {
    FirstOfPair(v, normal, n, h, q);
    var plan := Lookup(v, normal, n);
    assert plan.ops == [Unlink(h), Put(q, EMPTY)] && plan.replica == q;
    var w := Apply(v, Unlink(h));
    var u := Apply(w, Put(q, EMPTY));
    assert plan.ops[1..] == [Put(q, EMPTY)] && plan.ops[1..][1..] == [];
    assert RunOps(w, [Put(q, EMPTY)]) == RunOps(u, []) == u;
    assert RunOps(v, plan.ops) == u;
    assert Lone(w, normal, q) && LoneMeans(w, q, Some(v[q].file));
    assert Lone(u, normal, q) && LoneMeans(u, q, Some(v[q].file));
    assert MeansThroughout(u, [], normal, Some(v[q].file));
    assert MeansThroughout(w, [Put(q, EMPTY)], normal, Some(v[q].file));
  }

  /** The code resolves a name to exactly the file its entries stand for, and a crash at any
      point of recovery leaves entries that still stand for it. */
  lemma LookupResolves(v: View, normal: set<int>, n: nat, file: Option<nat>)
    requires InRange(normal, n) && Means(v, normal, file)
    ensures Resolved(v, normal, n) == file
    ensures MeansThroughout(v, Lookup(v, normal, n).ops, normal, file)
  {
    if file.None? && forall x :: x in v ==> x !in normal {
      FirstIsNone(v, normal, n);
    } else if p :| Lone(v, normal, p) && LoneMeans(v, p, file) {
      LoneRecovery(v, normal, n, p, file);
    } else {
      var h, q :| HiddenPair(v, normal, h, q) && file == Some(v[q].file);
      PairRecovery(v, normal, n, h, q);
    }
  }

  lemma MeansAtEnd(v: View, ops: seq<Op>, normal: set<int>, file: Option<nat>)
    requires MeansThroughout(v, ops, normal, file)
    ensures Means(RunOps(v, ops), normal, file)
    decreases |ops|
  {
    if ops != [] {
      MeansAtEnd(Apply(v, ops[0]), ops[1..], normal, file);
    }
  }

  /** A crash after any number of operations of a recovery pass. */
  lemma {:induction false} MeansAtPrefix(v: View, ops: seq<Op>, k: nat, normal: set<int>, file: Option<nat>)
    requires k <= |ops| && MeansThroughout(v, ops, normal, file)
    ensures Means(RunOps(v, ops[..k]), normal, file)
    decreases |ops|
  {
    if k > 0 {
      assert ops[..k][0] == ops[0] && ops[..k][1..] == ops[1..][..k - 1];
      MeansAtPrefix(Apply(v, ops[0]), ops[1..], k - 1, normal, file);
    }
  }

  lemma {:induction false} ThroughoutPrefix(v: View, ops: seq<Op>, k: nat, normal: set<int>, file: Option<nat>)
    requires k <= |ops| && MeansThroughout(v, ops, normal, file)
    ensures MeansThroughout(v, ops[..k], normal, file)
    decreases |ops|
  {
    if k > 0 {
      assert ops[..k][0] == ops[0] && ops[..k][1..] == ops[1..][..k - 1];
      ThroughoutPrefix(Apply(v, ops[0]), ops[1..], k - 1, normal, file);
    }
  }

  /** A pass has nothing left to do. */
  predicate Settled(v: View, normal: set<int>, n: nat) {
    Lookup(v, normal, n).ops == []
  }

  lemma LoneSettles(v: View, normal: set<int>, n: nat, p: int, file: Option<nat>)
    requires InRange(normal, n) && Lone(v, normal, p) && LoneMeans(v, p, file)
    ensures Settled(Recovered(Recovered(v, normal, n), normal, n), normal, n)
  {
    if v[p].link.Some? && v[p].link.value.stale >= 0 {
      StaleRecovery(v, normal, n, p, file);
      var w := Recovered(v, normal, n);
      if file.None? { FirstIsNone(w, normal, n); } else { FirstIsLone(w, normal, n, p); }
      assert Recovered(w, normal, n) == w;
    } else {
      PlainSettles(v, normal, n, p, file);
    }
  }

  lemma PlainSettles(v: View, normal: set<int>, n: nat, p: int, file: Option<nat>)
    requires InRange(normal, n) && Lone(v, normal, p) && LoneMeans(v, p, file)
    requires v[p].link.Some? ==> v[p].link.value.stale < 0
    ensures Settled(Recovered(Recovered(v, normal, n), normal, n), normal, n)
  {
    LoneRecovery(v, normal, n, p, file);
    FirstIsLone(v, normal, n, p);
    var plan := Validate(v, p);
    var w := Recovered(v, normal, n);
    if plan.ops == [] {
      assert w == v;
    } else {
      assert plan.ops == [plan.ops[0]];
      RunOne(v, plan.ops[0]);
      if p !in w {
        FirstIsNone(w, normal, n);
      } else {
        FirstIsLone(w, normal, n, p);
        var plan2 := Validate(w, p);
        var u := Recovered(w, normal, n);
        if plan2.ops == [] {
          assert u == w;
        } else {
          assert plan2.ops == [plan2.ops[0]];
          RunOne(w, plan2.ops[0]);
          FirstIsLone(u, normal, n, p);
        }
      }
    }
  }

  lemma Settles(v: View, normal: set<int>, n: nat, file: Option<nat>)
    requires InRange(normal, n) && Means(v, normal, file)
    ensures Settled(Recovered(Recovered(v, normal, n), normal, n), normal, n)
  {
    var once := Recovered(v, normal, n);
    if file.None? && forall x :: x in v ==> x !in normal {
      FirstIsNone(v, normal, n);
    } else if p :| Lone(v, normal, p) && LoneMeans(v, p, file) {
      LoneSettles(v, normal, n, p, file);
    } else {
      var h, q :| HiddenPair(v, normal, h, q) && file == Some(v[q].file);
      PairRecovery(v, normal, n, h, q);
      FirstIsLone(once, normal, n, q);
    }
  }

  /** Where a pass has nothing to do, the data of a partitioned file points back at its meta file. */
  lemma SettledPointsBack(v: View, normal: set<int>, n: nat)
    requires Settled(v, normal, n)
    ensures var plan := Lookup(v, normal, n);
            plan.meta != -1 ==> PointsBack(v, plan.replica, plan.meta) && PointsBack(v, plan.meta, plan.replica)
  {
  }

  /** Two passes reach a state that further passes leave unchanged, and every pass gives the
      same answer.  The data and the meta file of a partitioned file then point at each other. */
  lemma RecoveryConverges(v: View, normal: set<int>, n: nat, file: Option<nat>)
    requires InRange(normal, n) && Means(v, normal, file)
    ensures var once := Recovered(v, normal, n);
            var twice := Recovered(once, normal, n);
            && Resolved(v, normal, n) == Resolved(once, normal, n) == Resolved(twice, normal, n) == file
            && Settled(twice, normal, n) && Recovered(twice, normal, n) == twice
            && var f := Lookup(twice, normal, n);
               f.meta != -1 ==> PointsBack(twice, f.replica, f.meta) && PointsBack(twice, f.meta, f.replica)
  {
    var once := Recovered(v, normal, n);
    LookupResolves(v, normal, n, file);
    MeansAtEnd(v, Lookup(v, normal, n).ops, normal, file);
    LookupResolves(once, normal, n, file);
    MeansAtEnd(once, Lookup(once, normal, n).ops, normal, file);
    LookupResolves(Recovered(once, normal, n), normal, n, file);
    Settles(v, normal, n, file);
    SettledPointsBack(Recovered(once, normal, n), normal, n);
  }
}
