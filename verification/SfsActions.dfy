/** Recovery and rename at work on entries that change in place, one durable step at a time.

    Every change goes through `Issue`, which also records it, so the contracts say which
    steps were taken, in which order, and hence which states a crash can expose. */
module SfsActions {
  import opened Options
  import opened SfsView
  import opened SfsRename
  import opened SfsCall
  import opened SfsRecovery
  import opened SfsComplete
  import opened SfsDentry
  import opened SfsRuns

  function Take(ops: seq<Op>, n: nat): seq<Op> { if n < |ops| then ops[..n] else ops }

  lemma TakeSteps(before: seq<Op>, op: Op, rest: seq<Op>, n: nat)
    requires n > 0
    ensures before + Take([op] + rest, n) == before + [op] + Take(rest, n - 1)
  {
  }

  lemma {:induction false} RunOpsSnoc(v: View, ops: seq<Op>, last: Op)
    ensures RunOps(v, ops + [last]) == Apply(RunOps(v, ops), last)
    decreases |ops|
  {
    if ops == [] {
      assert [last][1..] == [] && ops + [last] == [last];
    } else {
      assert (ops + [last])[1..] == ops[1..] + [last];
      RunOpsSnoc(Apply(v, ops[0]), ops[1..], last);
    }
  }

  lemma {:induction false} RunOpsPlus(v: View, ops: seq<Op>, more: seq<Op>)
    ensures RunOps(v, ops + more) == RunOps(RunOps(v, ops), more)
    decreases |ops|
  {
    if ops == [] {
      assert ops + more == more;
    } else {
      assert (ops + more)[1..] == ops[1..] + more;
      RunOpsPlus(Apply(v, ops[0]), ops[1..], more);
    }
  }

  /** What deleting does, call by call. */
  lemma DeleteRuns(v: View, f: File, k: nat)
    ensures var w, both := Apply(v, Unlink(f.replica)), f.meta != -1 && !Doubled(f);
            && |DeleteOps(f)| == (if both then 2 else 1)
            && RunOps(v, Upto(DeleteOps(f), k)) ==
               if k == 0 then v else if both && k > 1 then Apply(w, Unlink(f.meta)) else w
  {
    RunOne(v, Unlink(f.replica));
    RunTwo(v, Unlink(f.replica), Unlink(f.meta));
    var ops := DeleteOps(f);
    assert ops[..0] == [] && ops[..1] == [Unlink(f.replica)];
    assert f.meta != -1 && !Doubled(f) ==> ops == [Unlink(f.replica), Unlink(f.meta)] && ops[..2] == ops;
  }

  /** Correcting the entry itself first does not change what following its pointer does. */
  lemma CorrectedFirst(v: View, local: int, r: Record, x: Record, pre: seq<Op>, replica: int)
    requires local in v && v[local].link == Some(r) && x.pointer == r.pointer
    ensures var plan := FollowPointer(v, local, r, pre, replica);
            var rest := FollowPointer(Apply(v, Put(local, x)), local, x, [], -1);
            && plan.ops == pre + rest.ops && plan.meta == rest.meta
            && plan.replica == if rest.replica == -1 && r.pointer >= 0 && r.pointer !in v then replica else rest.replica
  {
  }

  /** The same for a hidden link whose target is missing. */
  lemma UnhiddenFirst(v: View, local: int, r: Record)
    requires local >= 0 && local in v && v[local].link == Some(r)
    ensures var x := r.(hidden := -1);
            var plan := FollowRename(v, local, x, [Put(local, x)], local);
            var rest := FollowRename(Apply(v, Put(local, x)), local, x, [], -1);
            && plan.ops == [Put(local, x)] + rest.ops && plan.meta == rest.meta
            && plan.replica == if rest.replica == -1 then local else rest.replica
  {
    var x := r.(hidden := -1);
    if x.rename >= 0 && x.rename != local && x.rename in v {
      assert Redirect(v, local, x) == Redirect(Apply(v, Put(local, x)), local, x);
    } else if x.rename >= 0 && x.rename != local {
      var y := x.(rename := -1);
      assert [Put(local, x)] + [Put(local, y)] == [Put(local, x), Put(local, y)];
      assert FollowPointer(v, local, x, [Put(local, x)] + [Put(local, y)], local).ops
          == [Put(local, x)] + FollowPointer(Apply(v, Put(local, x)), local, x, [Put(local, y)], -1).ops;
    }
  }

  /** A cached name with its on-disk entries.  `replicaId` and `metaId` are where its data and
      its meta file are, -1 when not known. */
  class Dentry {
    var view: View
    var replicaId: int
    var metaId: int
    ghost const origin: View
    ghost var ops: seq<Op>

    ghost predicate Valid()
      reads this
    {
      view == RunOps(origin, ops)
    }

    constructor (view: View)
      ensures Valid() && this.view == origin == view && replicaId == metaId == -1 && ops == []
    {
      this.view, replicaId, metaId := view, -1, -1;
      origin, ops := view, [];
    }

    /** A dentry that has been cached since an earlier call. */
    constructor Cached(view: View, f: File)
      ensures Valid() && this.view == origin == view && File(replicaId, metaId) == f && ops == []
    {
      this.view, replicaId, metaId := view, f.replica, f.meta;
      origin, ops := view, [];
    }

    /** One durable change; a failing call changes nothing. */
    method Issue(op: Op, fails: bool) returns (err: bool)
      requires Valid()
      modifies this`view, this`ops
      ensures Valid() && err == fails
      ensures view == if fails then old(view) else Apply(old(view), op)
      ensures ops == if fails then old(ops) else old(ops) + [op]
    {
      err := fails;
      if !fails {
        RunOpsSnoc(origin, ops, op);
        view, ops := Apply(view, op), ops + [op];
      }
    }

    /** Read a link record; the caller's array keeps its contents when there is none. */
    method Get(part: int, value: Record) returns (found: bool, r: Record)
      requires part in view
      ensures found == view[part].link.Some?
      ensures r == if found then view[part].link.value else value
    {
      found := view[part].link.Some?;
      r := if found then view[part].link.value else value;
    }

    /** Read, change one slot, write back: only the slot named by `modify` differs. */
    method ClearRename(part: int, fails: bool) returns (err: bool)
      requires Valid() && part in view
      modifies this`view, this`ops
      ensures Valid() && err == fails
      ensures var r := if old(view)[part].link.Some? then old(view)[part].link.value else EMPTY;
              && view == (if fails then old(view) else Apply(old(view), Put(part, r.(rename := -1))))
              && ops == if fails then old(ops) else old(ops) + [Put(part, r.(rename := -1))]
    {
      var _, r := Get(part, EMPTY);
      err := Issue(Put(part, r.(rename := -1)), fails);
    }

    method ClearHidden(part: int, fails: bool) returns (err: bool)
      requires Valid() && part in view
      modifies this`view, this`ops
      ensures Valid() && err == fails
      ensures var r := if old(view)[part].link.Some? then old(view)[part].link.value else EMPTY;
              && view == (if fails then old(view) else Apply(old(view), Put(part, r.(hidden := -1))))
              && ops == if fails then old(ops) else old(ops) + [Put(part, r.(hidden := -1))]
    {
      var _, r := Get(part, EMPTY);
      err := Issue(Put(part, r.(hidden := -1)), fails);
    }

    /** Condition 0: delete the stale file and, if it is partitioned, its data. */
    method CleanStale(local: int, pointer: Record, budget: nat) returns (err: bool)
      requires Valid() && pointer.stale >= 0
      modifies this`view, this`ops
      ensures var plan := DropStale(old(view), local, pointer);
              Valid() && err == (budget < |plan.ops|) && ops == old(ops) + Take(plan.ops, budget)
    {
      var left, stale := budget, pointer.stale;
      if stale in view {
        var found, data := Get(stale, EMPTY);
        if found && data.pointer != -1 && data.pointer in view {
          err := Issue(Unlink(data.pointer), left == 0);
          if err { return; }
          left := left - 1;
        }
        err := Issue(Unlink(stale), left == 0);
        if err { return; }
        left := left - 1;
      }
      err := Issue(Put(local, EMPTY), left == 0);
    }

    /** Condition 1.1: delete the hidden file and reset the one that hides it. */
    method CleanHidden(local: int, pointer: Record, budget: nat) returns (err: bool)
      requires Valid() && pointer.hidden >= 0
      modifies this`view, this`ops
      ensures var plan := DropHidden(old(view), local, pointer);
              Valid() && err == (budget < |plan.ops|) && ops == old(ops) + Take(plan.ops, budget)
    {
      var left := budget;
      if pointer.pointer != -1 && pointer.pointer in view {
        err := Issue(Unlink(pointer.pointer), left == 0);
        if err { return; }
        left := left - 1;
      }
      err := Issue(Unlink(local), left == 0);
      if err { return; }
      left := left - 1;
      err := Issue(Put(pointer.hidden, EMPTY), left == 0);
    }

    /** Condition 2.1: the rename is complete; turn the rename link into a pointer link. */
    method FinishRename(local: int, pointer: Record, budget: nat) returns (err: bool)
      requires Valid()
      modifies this`view, this`ops
      ensures var plan := Redirect(old(view), local, pointer);
              Valid() && err == (budget < |plan.ops|) && ops == old(ops) + Take(plan.ops, budget)
    {
      var left := budget;
      if pointer.pointer >= 0 && pointer.pointer in view {
        err := Issue(Unlink(pointer.pointer), left == 0);
        if err { return; }
        left := left - 1;
      }
      err := Issue(Put(local, Link(pointer.rename, -1)), left == 0);
    }

    /** The ids a finished pass leaves in a dentry that held `replica` and `meta`. */
    ghost predicate Holds(replica: int, meta: int, plan: Plan)
      reads this
    {
      && replicaId == (if plan.replica == -1 then replica else plan.replica)
      && metaId == (if plan.meta == -1 then meta else plan.meta)
    }

    /** Condition 3: follow the pointer link, or drop an entry whose data is gone. */
    method CheckPointer(local: int, pointer: Record, budget: nat) returns (err: bool)
      requires Valid() && local >= 0
      modifies this
      ensures var plan := FollowPointer(old(view), local, pointer, [], -1);
              && Valid() && err == (budget < |plan.ops|) && ops == old(ops) + Take(plan.ops, budget)
              && (!err ==> Holds(old(replicaId), old(metaId), plan))
    {
      err := false;
      if pointer.pointer < 0 {
        replicaId := local;
      } else if pointer.pointer !in view {
        err := Issue(Unlink(local), budget == 0);
      } else {
        var found, data := Get(pointer.pointer, EMPTY);
        if !found || data.pointer != local {
          err := Issue(Put(pointer.pointer, Link(local, -1)), budget == 0);
        }
        if !err { replicaId, metaId := pointer.pointer, local; }
      }
    }

    /** Condition 2.2: the rename did not happen; drop the link and go on with condition 3. */
    method DropRename(local: int, pointer: Record, budget: nat) returns (err: bool)
      requires Valid() && local >= 0 && local in view && view[local].link == Some(pointer)
      requires pointer.rename >= 0 && pointer.rename != local && pointer.rename !in view
      modifies this
      ensures var plan := FollowRename(old(view), local, pointer, [], -1);
              && Valid() && err == (budget < |plan.ops|) && ops == old(ops) + Take(plan.ops, budget)
              && (!err ==> Holds(old(replicaId), old(metaId), plan))
    {
      var pointer' := pointer.(rename := -1);
      CorrectedFirst(view, local, pointer, pointer', [Put(local, pointer')], -1);
      ghost var before, rest := ops, FollowPointer(Apply(view, Put(local, pointer')), local, pointer', [], -1).ops;
      ghost var plan := FollowRename(view, local, pointer, [], -1);
      assert plan == FollowPointer(view, local, pointer, [Put(local, pointer')], -1) by {
        assert [] + [Put(local, pointer')] == [Put(local, pointer')];
      }
      assert plan.ops == [Put(local, pointer')] + rest;
      err := ClearRename(local, budget == 0);
      if err { return; }
      err := CheckPointer(local, pointer', budget - 1);
      TakeSteps(before, Put(local, pointer'), rest, budget);
    }

    /** Conditions 2 and 3, with `pointer` as read before any correction. */
    method CheckRename(local: int, pointer: Record, budget: nat) returns (err: bool)
      requires Valid() && local >= 0 && local in view && view[local].link == Some(pointer)
      modifies this
      ensures var plan := FollowRename(old(view), local, pointer, [], -1);
              && Valid() && err == (budget < |plan.ops|) && ops == old(ops) + Take(plan.ops, budget)
              && (!err ==> Holds(old(replicaId), old(metaId), plan))
    {
      if pointer.rename < 0 {
        err := CheckPointer(local, pointer, budget);
      } else if pointer.rename == local {
        err := Issue(Put(local, EMPTY), budget == 0);
        if !err { replicaId := local; }
      } else if pointer.rename in view {
        err := FinishRename(local, pointer, budget);
        if !err { replicaId, metaId := pointer.rename, local; }
      } else {
        err := DropRename(local, pointer, budget);
      }
    }

    /** Condition 1.2: the file that hides this one is missing; drop the link and go on. */
    method UnhideLocal(local: int, pointer: Record, budget: nat) returns (err: bool)
      requires Valid() && local >= 0 && local in view && view[local].link == Some(pointer)
      requires pointer.stale < 0 && pointer.hidden >= 0 && pointer.hidden !in view
      modifies this
      ensures var plan := SfsView.Validate(old(view), local);
              && Valid() && err == (budget < |plan.ops|) && ops == old(ops) + Take(plan.ops, budget)
              && (!err ==> Holds(old(replicaId), old(metaId), plan))
    {
      UnhiddenFirst(view, local, pointer);
      var pointer' := pointer.(hidden := -1);
      ghost var before, rest := ops, FollowRename(Apply(view, Put(local, pointer')), local, pointer', [], -1).ops;
      err := ClearHidden(local, budget == 0);
      if err { return; }
      replicaId := local;
      err := CheckRename(local, pointer', budget - 1);
      TakeSteps(before, Put(local, pointer'), rest, budget);
    }

    /** `validate_partitioned_file`.  A pass whose call number `budget` fails stops there with
        an error; otherwise it does exactly what the plan says. */
    method Validate(local: int, budget: nat) returns (err: bool)
      requires Valid() && local >= 0 && local in view
      modifies this
      ensures var plan := SfsView.Validate(old(view), local);
              && Valid() && err == (budget < |plan.ops|) && ops == old(ops) + Take(plan.ops, budget)
              && (!err ==> Holds(old(replicaId), old(metaId), plan))
    {
      var found, pointer := Get(local, EMPTY);
      if !found {
        replicaId := local;
        return false;
      }
      if pointer.stale >= 0 {
        err := CleanStale(local, pointer, budget);
        if !err { replicaId := local; }
        return;
      }
      if pointer.hidden >= 0 {
        if pointer.hidden in view {
          err := CleanHidden(local, pointer, budget);
          if !err { replicaId := pointer.hidden; }
          return;
        }
        err := UnhideLocal(local, pointer, budget);
        return;
      }
      err := CheckRename(local, pointer, budget);
    }

    /** `validate_file`: a cached dentry is validated at its meta partition, or at its data if it has
        none. */
    method ValidateFile(budget: nat) returns (err: bool)
      requires Valid() && Visible(File(replicaId, metaId)) >= 0 && Visible(File(replicaId, metaId)) in view
      modifies this
      ensures var f := File(old(replicaId), old(metaId));
              var plan := SfsDentry.Check(old(view), f);
              && Valid() && err == (budget < |plan.ops|) && ops == old(ops) + Take(plan.ops, budget)
              && (!err ==> File(replicaId, metaId) == Updated(f, plan))
    {
      var local := if metaId != -1 then metaId else replicaId;
      err := Validate(local, budget);
    }

    /** `sfs_unlink` of a file in the file system `fs`: the name is validated, and then its data goes and its
        meta file.  Call number `budget` of the validation or call number `k` after it fails; and so does
        unlinking the meta file if the dentry takes the data for it.  If validation does not fail, this is
        one step of the file system. */
    method UnlinkFile(ghost fs: Fs, ghost n: Name, budget: nat, k: nat) returns (err: bool)
      requires Valid() && Inv(fs) && Enabled(fs, Delete(n, k)) && view == Entries(fs, n)
      requires Positive(File(replicaId, metaId)) == fs.cache[n]
      modifies this
      ensures var plan := SfsDentry.Check(Entries(fs, n), fs.cache[n].ids);
              if budget < |plan.ops| then err && ops == old(ops) + plan.ops[..budget]
              else Next(fs, Delete(n, k)) == With(fs, n, view, Some(AfterUnlink(err)))
    {
      IdsInRange(fs, n);
      ghost var before := ops;
      err := ValidateFile(budget);
      if err { return; }
      ghost var v, f := view, IdsOf(fs, n).value;
      RunOpsPlus(origin, before, SfsDentry.Check(Entries(fs, n), fs.cache[n].ids).ops);
      assert v == Validated(fs, n) && File(replicaId, metaId) == f;
      DeleteRuns(v, f, k);
      err := Issue(Unlink(replicaId), k == 0);
      if !err && metaId != -1 {
        err := Issue(Unlink(metaId), k == 1 || metaId == replicaId);
      }
    }

    /** What is cached after `sfs_unlink`. */
    function AfterUnlink(err: bool): SfsDentry.Cached
      reads this
    {
      if err then Positive(File(replicaId, metaId)) else Negative
    }

    /** `sfs_lookup` for a regular file: scan the normal directories upwards and validate the
        first entry found. */
    method LookupFile(normal: set<int>, parts: nat, budget: nat) returns (found: bool, err: bool)
      requires Valid() && replicaId == metaId == -1
      modifies this
      ensures var plan := Lookup(old(view), normal, parts);
              && Valid() && err == (budget < |plan.ops|) && ops == old(ops) + Take(plan.ops, budget)
              && (!err ==> replicaId == plan.replica && metaId == plan.meta && found == (plan.replica != -1))
      ensures forall f :: InRange(normal, parts) && Means(old(view), normal, f) ==>
                MeansThroughout(old(view), Take(Lookup(old(view), normal, parts).ops, budget), normal, f)
    {
      forall f | InRange(normal, parts) && Means(view, normal, f)
        ensures MeansThroughout(view, Take(Lookup(view, normal, parts).ops, budget), normal, f)
      {
        LookupResolves(view, normal, parts, f);
        var ops := Lookup(view, normal, parts).ops;
        if budget < |ops| { ThroughoutPrefix(view, ops, budget, normal, f); }
      }
      found, err := false, false;
      var loop := 0;
      while loop < parts
        invariant 0 <= loop <= parts
        invariant Valid() && view == old(view) && ops == old(ops) && !found && !err
        invariant replicaId == metaId == -1
        invariant First(view, normal, 0, parts) == First(view, normal, loop, parts)
      {
        if loop in normal && loop in view {
          err := Validate(loop, budget);
          found := !err && replicaId != -1;
          return;
        }
        loop := loop + 1;
      }
    }
  }

  /** The states a run of `steps` goes through, one after each step. */
  function Trace(s: Names, steps: Steps): seq<Names>
    decreases steps
  {
    match steps
    case Done => []
    case Then(step, rest) => [ApplyStep(s, step)] + Trace(ApplyStep(s, step), rest)
  }

  /** They are exactly the states a crash can expose. */
  lemma {:induction false} TraceIsRunTo(s: Names, steps: Steps, k: nat)
    requires k < |Trace(s, steps)|
    ensures Trace(s, steps)[k] == RunTo(s, steps, k + 1)
    decreases steps
  {
    var t := ApplyStep(s, steps.step);
    if k == 0 {
      assert RunTo(t, steps.rest, 0) == t;
    } else {
      TraceIsRunTo(t, steps.rest, k - 1);
    }
  }

  function Side(s: Names, overSrc: bool): View { if overSrc then s.src else s.dst }

  function WithSide(s: Names, overSrc: bool, v: View): Names { if overSrc then s.(src := v) else s.(dst := v) }

  /** The states of the disk while a pass takes `ops` over one of the names. */
  ghost function Passing(s: Names, overSrc: bool, ops: seq<Op>): seq<Names> {
    seq(|ops|, k requires 0 <= k < |ops| => WithSide(s, overSrc, RunOps(Side(s, overSrc), ops[..k + 1])))
  }

  /** A rename in progress: the entries of both names, the renamed dentry's ids, and the
      normal set of the new parent.  An error is reported exactly when the data is still
      under the old name. */
  class Renaming {
    var names: Names
    var replicaId: int
    var metaId: int
    var normal: set<int>
    const parts: nat
    ghost var plan: Steps
    /** Every state the disk has been in so far, the present one last. */
    ghost var history: seq<Names>

    /** The data is still under the old name, and `steps` are what is to come. */
    ghost predicate Faces(steps: Steps)
      reads this
    {
      Tracks() && plan == steps && replicaId in names.src
    }

    ghost predicate Tracks()
      reads this
    {
      |history| > 0 && history[|history| - 1] == names
    }

    /** Exactly the planned steps were taken, in order, and no other state was exposed on the way. */
    twostate predicate Took(steps: Steps)
      reads this
    {
      Tracks() && plan == Done && names == Run(old(names), steps) && history == old(history) + Trace(old(names), steps)
    }

    constructor (names: Names, from: File, normal: set<int>, parts: nat)
      ensures this.names == names && ToFile() == from && this.normal == normal && this.parts == parts
              && history == [names] && Tracks()
    {
      this.names, replicaId, metaId, this.normal, this.parts := names, from.replica, from.meta, normal, parts;
      history := [names];
    }

    function ToFile(): File
      reads this
    {
      File(replicaId, metaId)
    }

    /** The next planned step, unless the call fails. */
    method Issue(step: Step, fails: bool) returns (err: bool)
      requires Tracks() && (!fails ==> plan.Then? && plan.step == step)
      modifies this`names, this`plan, this`history
      ensures Tracks() && err == fails
      ensures names == if fails then old(names) else ApplyStep(old(names), step)
      ensures plan == if fails then old(plan) else old(plan).rest
      ensures Run(names, plan) == Run(old(names), old(plan))
      ensures Moves(old(plan)) <==> (!fails && step.Move?) || Moves(plan)
      ensures history + Trace(names, plan) == old(history) + Trace(old(names), old(plan))
    {
      err := fails;
      if !fails {
        names, plan := ApplyStep(names, step), plan.rest;
        history := history + [names];
        assert history + Trace(names, plan) == old(history) + ([names] + Trace(names, plan));
      }
    }

    /** The end of a committed rename: the source's old meta file goes. */
    method DropMeta(oldMeta: int, faults: set<nat>)
      requires Tracks() && plan == DropOldMeta(File(replicaId, oldMeta), faults)
      modifies this`names, this`plan, this`history
      ensures Took(DropOldMeta(File(replicaId, oldMeta), faults))
    {
      if oldMeta != -1 {
        var gone := if oldMeta == replicaId then OnDst(Unlink(oldMeta)) else OnSrc(Unlink(oldMeta));
        var _ := Issue(gone, 9 in faults);
      }
    }

    method Turn(faults: set<nat>) returns (err: bool)
      requires Faces(TurnSteps(ToFile(), faults))
      modifies this`names, this`plan, this`history, this`metaId
      ensures Took(TurnSteps(old(ToFile()), faults))
      ensures err == !Moves(old(plan)) && (if err then metaId == old(metaId) else metaId == -1)
    {
      var d, oldMeta, pointer := replicaId, metaId, EMPTY;
      if oldMeta != -1 {
        pointer := pointer.(rename := d);
        err := Issue(OnSrc(Put(d, pointer)), 0 in faults);
        if err { return; }
      }
      err := Issue(Move(d), 1 in faults);
      if err { return; }
      if oldMeta != -1 {
        var _ := Issue(OnDst(Put(d, EMPTY)), 2 in faults);
      }
      metaId := -1;
      DropMeta(oldMeta, faults);
    }

    method Split(newMeta: int, newId: nat, faults: set<nat>) returns (err: bool)
      requires Faces(SplitSteps(ToFile(), newMeta, newId, faults))
      modifies this`names, this`plan, this`history, this`metaId
      ensures Took(SplitSteps(old(ToFile()), newMeta, newId, faults))
      ensures err == !Moves(old(plan)) && (if err then metaId == old(metaId) else metaId == newMeta)
    {
      var d, oldMeta, pointer := replicaId, metaId, EMPTY;
      err := Issue(Create(newMeta, newId), 0 in faults);
      if err { return; }
      pointer := pointer.(pointer := d);
      err := Issue(OnDst(Put(newMeta, pointer)), 1 in faults);
      if err { return; }
      pointer := pointer.(pointer := -1, rename := newMeta);
      err := Issue(OnSrc(Put(d, pointer)), 2 in faults);
      if err { return; }
      err := MoveSplit(newMeta, oldMeta, pointer, faults);
    }

    method MoveSplit(newMeta: int, oldMeta: int, pointer: Record, faults: set<nat>) returns (err: bool)
      requires Tracks() && plan == SplitMove(File(replicaId, oldMeta), newMeta, faults) && replicaId in names.src
               && pointer == Link(-1, newMeta)
      modifies this`names, this`plan, this`history, this`metaId
      ensures Took(SplitMove(File(replicaId, oldMeta), newMeta, faults))
      ensures err == !Moves(old(plan)) && (if err then metaId == old(metaId) else metaId == newMeta)
    {
      err := Issue(Move(replicaId), 3 in faults);
      if err { return; }
      var _ := Issue(OnDst(Put(replicaId, pointer.(pointer := newMeta, rename := -1))), 4 in faults);
      metaId := newMeta;
      DropMeta(oldMeta, faults);
    }

    method Overwrite(onto: File, faults: set<nat>) returns (err: bool)
      requires Faces(OverwriteSteps(ToFile(), onto, faults))
      modifies this`names, this`plan, this`history, this`metaId
      ensures Took(OverwriteSteps(old(ToFile()), onto, faults))
      ensures err == !Moves(old(plan)) && (if err then metaId == old(metaId) else metaId == -1)
    {
      var d, oldMeta, pointer := replicaId, metaId, EMPTY;
      pointer := pointer.(rename := d);
      err := Issue(OnSrc(Put(d, pointer)), 0 in faults);
      if err { return; }
      err := Issue(Move(d), 1 in faults);
      if err {
        var _ := Issue(OnSrc(Put(d, names.src[d].link.value.(rename := -1))), 4 in faults);
        return;
      }
      metaId := -1;
      FinishOverwrite(onto, oldMeta, pointer, faults);
    }

    method FinishOverwrite(onto: File, oldMeta: int, pointer: Record, faults: set<nat>)
      requires Tracks() && plan == OverwriteCleanup(File(replicaId, oldMeta), onto, faults)
               && pointer == Link(-1, replicaId)
      modifies this`names, this`plan, this`history
      ensures Took(OverwriteCleanup(File(replicaId, oldMeta), onto, faults))
    {
      var kept := false;
      if replicaId == onto.meta {
        kept := Issue(OnDst(Unlink(onto.replica)), 2 in faults);
      }
      if !kept {
        var _ := Issue(OnDst(Put(replicaId, pointer.(rename := -1))), 3 in faults);
      }
      DropMeta(oldMeta, faults);
    }

    method Hide(onto: File, faults: set<nat>) returns (err: bool)
      requires Faces(HideSteps(ToFile(), onto, faults)) && (Visible(onto) in names.dst || 1 in faults)
      modifies this`names, this`plan, this`history, this`metaId
      ensures Took(HideSteps(old(ToFile()), onto, faults))
      ensures err == !Moves(old(plan)) && (if err then metaId == old(metaId) else metaId == -1)
    {
      var d, oldMeta, pointer := replicaId, metaId, EMPTY;
      var hiddenId := if onto.meta != -1 then onto.meta else onto.replica;
      pointer := pointer.(stale := hiddenId);
      err := Issue(OnSrc(Put(d, pointer)), 0 in faults);
      if err { return; }
      pointer := pointer.(hidden := d, stale := -1);
      err := Issue(OnDst(Put(hiddenId, pointer)), 1 in faults);
      if err { return; }
      err := MoveHidden(onto, hiddenId, oldMeta, pointer, faults);
    }

    /** The rename itself, once the destination is hidden. */
    method MoveHidden(onto: File, hiddenId: int, oldMeta: int, pointer: Record, faults: set<nat>) returns (err: bool)
      requires Tracks() && plan == HideMove(File(replicaId, oldMeta), onto, faults) && replicaId in names.src
               && names.src[replicaId].link == Some(Record(-1, -1, -1, hiddenId))
      requires hiddenId in names.dst && names.dst[hiddenId].link == Some(Record(-1, -1, replicaId, -1))
      requires pointer == Record(-1, -1, replicaId, -1) && hiddenId == Visible(onto)
      modifies this`names, this`plan, this`history, this`metaId
      ensures Took(HideMove(File(replicaId, oldMeta), onto, faults))
      ensures err == !Moves(old(plan)) && (if err then metaId == old(metaId) else metaId == -1)
    {
      err := Issue(Move(replicaId), 2 in faults);
      if err {
        Unhide(hiddenId, faults);
        return;
      }
      metaId := -1;
      FinishHide(onto, oldMeta, pointer, faults);
    }

    /** The two corrections made when the rename itself fails. */
    method Unhide(hiddenId: int, faults: set<nat>)
      requires Tracks() && plan == HideRevert(replicaId, hiddenId, faults) && replicaId in names.src
               && names.src[replicaId].link == Some(Record(-1, -1, -1, hiddenId))
      requires hiddenId in names.dst && names.dst[hiddenId].link == Some(Record(-1, -1, replicaId, -1))
      modifies this`names, this`plan, this`history
      ensures Took(HideRevert(replicaId, hiddenId, faults)) && !Moves(old(plan))
    {
      var _ := Issue(OnSrc(Put(replicaId, names.src[replicaId].link.value.(stale := -1))), 6 in faults);
      var _ := Issue(OnDst(Put(hiddenId, names.dst[hiddenId].link.value.(hidden := -1))), 7 in faults);
    }

    method FinishHide(onto: File, oldMeta: int, pointer: Record, faults: set<nat>)
      requires Tracks() && plan == HideCleanup(File(replicaId, oldMeta), onto, faults)
               && pointer == Record(-1, -1, replicaId, -1)
      modifies this`names, this`plan, this`history
      ensures Took(HideCleanup(File(replicaId, oldMeta), onto, faults))
    {
      var kept := false;
      if onto.meta != -1 {
        kept := Issue(OnDst(Unlink(onto.meta)), 3 in faults);
      }
      if !kept {
        kept := Issue(OnDst(Unlink(onto.replica)), 4 in faults);
      }
      if !kept {
        var _ := Issue(OnDst(Put(replicaId, pointer.(stale := -1, hidden := -1))), 5 in faults);
      }
      DropMeta(oldMeta, faults);
    }

    method Redirect(onto: File, faults: set<nat>) returns (err: bool)
      requires Faces(RedirectSteps(ToFile(), onto, faults))
      modifies this`names, this`plan, this`history, this`metaId
      ensures Took(RedirectSteps(old(ToFile()), onto, faults))
      ensures err == !Moves(old(plan)) && (if err then metaId == old(metaId) else metaId == Visible(onto))
    {
      var d, oldMeta, pointer := replicaId, metaId, EMPTY;
      var newMeta := if onto.meta != -1 then onto.meta else onto.replica;
      pointer := pointer.(rename := d);
      err := Issue(OnDst(Put(newMeta, pointer)), 0 in faults);
      if err { return; }
      pointer := pointer.(rename := newMeta);
      err := Issue(OnSrc(Put(d, pointer)), 1 in faults);
      if err { return; }
      err := MoveRedirected(onto, newMeta, oldMeta, faults);
    }

    /** The rename itself, once the destination's entry points to its new data. */
    method MoveRedirected(onto: File, newMeta: int, oldMeta: int, faults: set<nat>) returns (err: bool)
      requires Tracks() && plan == RedirectMove(File(replicaId, oldMeta), onto, faults) && replicaId in names.src
               && newMeta == Visible(onto)
      modifies this`names, this`plan, this`history, this`metaId
      ensures Took(RedirectMove(File(replicaId, oldMeta), onto, faults))
      ensures err == !Moves(old(plan)) && (if err then metaId == old(metaId) else metaId == newMeta)
    {
      err := Issue(Move(replicaId), 2 in faults);
      if err { return; }
      metaId := newMeta;
      FinishRedirect(onto, oldMeta, faults);
    }

    method FinishRedirect(onto: File, oldMeta: int, faults: set<nat>)
      requires Tracks() && plan == RedirectCleanup(File(replicaId, oldMeta), onto, faults)
      modifies this`names, this`plan, this`history
      ensures Took(RedirectCleanup(File(replicaId, oldMeta), onto, faults))
    {
      var d, newMeta, kept := replicaId, if onto.meta != -1 then onto.meta else onto.replica, false;
      if onto.meta != -1 && onto.replica != d {
        kept := Issue(OnDst(Unlink(onto.replica)), 3 in faults);
      }
      if kept {
        DropMeta(oldMeta, faults);
      } else {
        LinkBoth(d, newMeta, oldMeta, faults);
      }
    }

    /** The final records: data and meta entry point at each other. */
    method LinkBoth(d: int, newMeta: int, oldMeta: int, faults: set<nat>)
      requires Tracks() && plan == LinkSteps(File(d, oldMeta), newMeta, faults) && d == replicaId
      modifies this`names, this`plan, this`history
      ensures Took(LinkSteps(File(d, oldMeta), newMeta, faults))
    {
      var pointer := EMPTY.(pointer := newMeta);
      var _ := Issue(OnDst(Put(d, pointer)), 4 in faults);
      pointer := pointer.(pointer := d);
      var _ := Issue(OnDst(Put(newMeta, pointer)), 5 in faults);
      DropMeta(oldMeta, faults);
    }

    /** `rename2non` and `rename2exist` on validated names: mark the data's partition normal for the
        new parent if that is still possible, then take the branch that fits.  `newMeta` is the
        normal directory picked for a meta file. */
    method Rename(onto: Option<File>, newMeta: int, newId: nat, faults: set<nat>) returns (err: bool)
      requires Tracks() && replicaId in names.src
      requires onto.Some? && CanTurn(normal, replicaId, parts)
               && onto.value.replica != replicaId && onto.value.meta != replicaId ==>
               Visible(onto.value) in names.dst || 1 in faults
      modifies this`names, this`plan, this`history, this`metaId, this`normal
      ensures normal == if CanTurn(old(normal), replicaId, parts) then old(normal) + {replicaId} else old(normal)
      ensures var steps := RenameSteps(old(ToFile()), onto, replicaId in normal, newMeta, newId, faults);
              Took(steps) && err == !Moves(steps)
      ensures var meta := if replicaId in normal then -1 else if onto.Some? then Visible(onto.value) else newMeta;
              ToFile() == if err then old(ToFile()) else File(old(replicaId), meta)
    {
      var canTurn := CanTurn(normal, replicaId, parts);
      if canTurn {
        normal := normal + {replicaId};
      }
      plan := RenameSteps(ToFile(), onto, canTurn, newMeta, newId, faults);
      match onto
      case None =>
        if canTurn { err := Turn(faults); } else { err := Split(newMeta, newId, faults); }
      case Some(e) =>
        if !canTurn { err := Redirect(e, faults); }
        else if e.replica == replicaId || e.meta == replicaId { err := Overwrite(e, faults); }
        else { err := Hide(e, faults); }
    }

    /** The validation of one of the names, from the ids its dentry holds. */
    method Check(overSrc: bool, ids: File, budget: nat) returns (err: bool, now: File)
      requires Tracks() && Visible(ids) >= 0 && Visible(ids) in Side(names, overSrc)
      modifies this`names, this`history
      ensures var plan := SfsDentry.Check(Side(old(names), overSrc), ids);
              var ops := Take(plan.ops, budget);
              && Tracks() && err == (budget < |plan.ops|) && history == old(history) + Passing(old(names), overSrc, ops)
              && names == WithSide(old(names), overSrc, RunOps(Side(old(names), overSrc), ops))
              && (!err ==> now == Updated(ids, plan))
    {
      var dentry := new Dentry.Cached(Side(names, overSrc), ids);
      err := dentry.ValidateFile(budget);
      now := File(dentry.replicaId, dentry.metaId);
      ghost var ops := Take(SfsDentry.Check(Side(names, overSrc), ids).ops, budget);
      assert dentry.ops == ops;
      assert ops[..|ops|] == ops;
      history := history + Passing(names, overSrc, ops);
      names := WithSide(names, overSrc, dentry.view);
    }

    /** The names, the sets and the dentry that this rename works on are those of `fs`. */
    ghost predicate Views(fs: Fs, a: Action)
      requires a.Rename? && Enabled(fs, a)
      reads this
    {
      && Tracks() && names == Names(Entries(fs, a.n), Entries(fs, a.onto)) && parts == fs.parts
      && normal == Normal(fs, a.onto.dir) && Positive(ToFile()) == fs.cache[a.n]
    }

    /** All states of the disk since there were `n` of them are ones that `Shown` allows. */
    ghost predicate ShownSince(fs: Fs, a: Action, n: nat)
      requires a.Rename? && Enabled(fs, a)
      reads this
    {
      n <= |history| && forall k :: n <= k < |history| ==> Shown(fs, a, history[k])
    }

    /** The validation of the old name, up to the call that fails. */
    method CheckOld(ghost fs: Fs, ghost a: Action, budget: nat) returns (err: bool)
      requires a.Rename? && Inv(fs) && Enabled(fs, a) && Views(fs, a)
      modifies this`names, this`history, this`replicaId, this`metaId
      ensures Tracks() && old(history) <= history && ShownSince(fs, a, |old(history)|)
      ensures err <==> budget < |SfsDentry.Check(Entries(fs, a.n), fs.cache[a.n].ids).ops|
      ensures !err ==> names == Names(Validated(fs, a.n), Entries(fs, a.onto)) && ToFile() == CallOf(fs, a).from
    {
      OldPassingShown(fs, a, budget);
      IdsInRange(fs, a.n);
      var now;
      err, now := Check(true, ToFile(), budget);
      replicaId, metaId := now.replica, now.meta;
    }

    /** The validation of the new name, up to the call that fails, if its dentry has an inode. */
    method CheckNew(ghost fs: Fs, ghost a: Action, exist: Option<File>, budget: nat)
        returns (err: bool, onto: Option<File>)
      requires a.Rename? && Inv(fs) && Enabled(fs, a) && Tracks() && AsCached(exist) == fs.cache[a.onto]
      requires names == Names(Validated(fs, a.n), Entries(fs, a.onto))
      modifies this`names, this`history
      ensures Tracks() && old(history) <= history && ShownSince(fs, a, |old(history)|)
      ensures err <==> exist.Some? && budget < |SfsDentry.Check(Entries(fs, a.onto), exist.value).ops|
      ensures !err ==> names == NamesOf(fs, a) && onto == CallOf(fs, a).onto
    {
      err, onto := false, None;
      if exist.Some? {
        NewPassingShown(fs, a, budget);
        IdsInRange(fs, a.onto);
        var now;
        err, now := Check(false, exist.value, budget);
        onto := Some(now);
      }
    }

    /** `sfs_rename_other` in the file system `fs`: both names are validated from what their dentries hold,
        and then renamed.  Every state of the disk on the way is one that `Shown` allows.  If validation
        does not fail, this is one step of the file system: the entries, the normal set of the new parent
        and the two dentries end up as `Next` says.  `faults` are the calls that fail, among them those that
        cannot succeed; `exist` and `kept` are the ids of the new name's dentry before and after. */
    method RenameOther(ghost fs: Fs, ghost a: Action, exist: Option<File>, newMeta: int, newId: nat,
                       faults: set<nat>, budget: nat, budget2: nat) returns (err: bool, kept: Option<File>)
      requires a.Rename? && a.meta == newMeta && a.newId == newId && a.faults == faults && a.cut.None?
      requires Inv(fs) && Enabled(fs, a) && Views(fs, a) && AsCached(exist) == fs.cache[a.onto]
      requires Forced(CallOf(fs, a), NamesOf(fs, a)) <= faults
      modifies this
      ensures old(history) <= history && ShownSince(fs, a, |old(history)|)
      ensures budget >= |SfsDentry.Check(Entries(fs, a.n), fs.cache[a.n].ids).ops|
              && (exist.None? || budget2 >= |SfsDentry.Check(Entries(fs, a.onto), exist.value).ops|) ==>
              Next(fs, a) == Left(fs, a, names, normal, err, ToFile(), kept)
    {
      kept := None;
      err := CheckOld(fs, a, budget);
      if err { return; }
      err, kept := CheckNew(fs, a, exist, budget2);
      if err { return; }
      err := RenameValidated(fs, a, kept, newMeta, newId, faults);
    }

    /** The part after validation. */
    method RenameValidated(ghost fs: Fs, ghost a: Action, onto: Option<File>, newMeta: int, newId: nat,
                           faults: set<nat>) returns (err: bool)
      requires a.Rename? && a.meta == newMeta && a.newId == newId && a.faults == faults && a.cut.None?
      requires Inv(fs) && Enabled(fs, a) && Tracks() && parts == fs.parts && normal == Normal(fs, a.onto.dir)
      requires names == NamesOf(fs, a) && ToFile() == CallOf(fs, a).from && onto == CallOf(fs, a).onto
      requires Forced(CallOf(fs, a), NamesOf(fs, a)) <= faults
      modifies this
      ensures old(history) <= history && ShownSince(fs, a, |old(history)|)
      ensures Next(fs, a) == Left(fs, a, names, normal, err, ToFile(), onto)
    {
      TraceShown(fs, a);
      ReadyToRename(fs, a);
      ghost var before, call := history, CallOf(fs, a);
      assert faults + Forced(call, NamesOf(fs, a)) == faults;
      err := Rename(onto, newMeta, newId, faults);
      RenamedIs(fs, a, names, normal, err, ToFile(), onto);
      assert history == before + Trace(NamesOf(fs, a), PlanOf(fs, a));
    }

    /** `sfs_rename` of a file: in every state of the disk on the way exactly one of the two names
        resolves to the file, unless the call exposes, severs or covers it. */
    method RenameFile(ghost fs: Fs, ghost a: Action, exist: Option<File>, newMeta: int, newId: nat,
                      faults: set<nat>, budget: nat, budget2: nat) returns (err: bool, kept: Option<File>)
      requires a.Rename? && a.meta == newMeta && a.newId == newId && a.faults == faults && a.cut.None?
      requires Inv(fs) && Enabled(fs, a) && Views(fs, a) && AsCached(exist) == fs.cache[a.onto]
      requires Forced(CallOf(fs, a), NamesOf(fs, a)) <= faults
      modifies this
      ensures old(history) <= history
      ensures Kept(CallOf(fs, a), NamesOf(fs, a)) ==> forall k :: |old(history)| <= k < |history| ==>
                OneHas(CallOf(fs, a), history[k], FileOf(fs, a.n))
    {
      err, kept := RenameOther(fs, a, exist, newMeta, newId, faults, budget, budget2);
      if Kept(CallOf(fs, a), NamesOf(fs, a)) {
        forall r | Shown(fs, a, r) ensures OneHas(CallOf(fs, a), r, FileOf(fs, a.n)) {
          ShownIsSafe(fs, a, r);
        }
      }
    }
  }

  /** The call neither exposes the file nor severs it from its name nor covers it. */
  predicate Kept(call: Call, s: Names) { !Exposed(call, s) && !Severs(call, s) && !Covered(call, s) }

  /** Exactly one of the two names resolves to `file`. */
  predicate OneHas(call: Call, r: Names, file: Option<nat>) {
    (OldName(call, r) == file) != (NewName(call, r) == file)
  }

  /** The file system with the two names, the normal set of the new parent and the two dentries replaced:
      a dentry that has been renamed is the new name's, and one whose rename failed stays where it was. */
  function Left(fs: Fs, a: Action, r: Names, normal: set<int>, err: bool, ids: File, kept: Option<File>): Fs
    requires a.Rename?
  {
    Fs(fs.parts, fs.normal[a.onto.dir := normal], fs.names[a.n := r.src][a.onto := r.dst],
        if err then fs.cache[a.n := Positive(ids)][a.onto := AsCached(kept)]
        else (fs.cache - {a.n})[a.onto := Positive(ids)])
  }

  lemma RenamedIs(fs: Fs, a: Action, r: Names, normal: set<int>, err: bool, ids: File, kept: Option<File>)
    requires a.Rename? && Enabled(fs, a) && a.cut.None? && Forced(CallOf(fs, a), NamesOf(fs, a)) <= a.faults
    requires var call := CallOf(fs, a);
             && r == Run(NamesOf(fs, a), call.Plan(a.faults)) && normal == call.dstNormal && kept == call.onto
             && err == !Moves(call.Plan(a.faults)) && ids == if err then call.from else Renamed(call)
    ensures Next(fs, a) == Left(fs, a, r, normal, err, ids, kept)
  {
    assert a.faults + Forced(CallOf(fs, a), NamesOf(fs, a)) == a.faults;
    RunToEnd(NamesOf(fs, a), PlanOf(fs, a), CutAt(fs, a));
  }

  lemma IdsInRange(fs: Fs, n: Name)
    requires Inv(fs) && Live(fs, n)
    ensures Visible(fs.cache[n].ids) >= 0
  {
    assert NameOk(fs, n);
  }

  lemma ReadyToRename(fs: Fs, a: Action)
    requires Inv(fs) && a.Rename? && Enabled(fs, a)
    ensures var call, s := CallOf(fs, a), NamesOf(fs, a);
            && call.from.replica in s.src
            && (call.onto.Some? && call.CanTurn() && !Overwrites(call) ==>
                  Visible(call.onto.value) in s.dst || 1 in Forced(call, s))
            && call.CanTurn() == CanTurn(Normal(fs, a.onto.dir), call.from.replica, fs.parts)
  {
    CallReady(fs, a);
  }

  lemma PassingIsPartly(s: Names, overSrc: bool, f: File, budget: nat, k: nat)
    requires k < |Take(Check(Side(s, overSrc), f).ops, budget)|
    ensures var ops := Take(Check(Side(s, overSrc), f).ops, budget);
            Passing(s, overSrc, ops)[k] == WithSide(s, overSrc, Partly(Side(s, overSrc), f, k + 1))
  {
    var ops := Check(Side(s, overSrc), f).ops;
    assert Take(ops, budget)[..k + 1] == ops[..k + 1];
  }

  lemma OldPassingShown(fs: Fs, a: Action, budget: nat)
    requires a.Rename? && Enabled(fs, a)
    ensures var s, f := Names(Entries(fs, a.n), Entries(fs, a.onto)), fs.cache[a.n].ids;
            forall r :: r in Passing(s, true, Take(Check(s.src, f).ops, budget)) ==> Shown(fs, a, r)
  {
    var s, f := Names(Entries(fs, a.n), Entries(fs, a.onto)), fs.cache[a.n].ids;
    var states := Passing(s, true, Take(Check(s.src, f).ops, budget));
    forall r | r in states ensures Shown(fs, a, r) {
      var k :| 0 <= k < |states| && states[k] == r;
      PassingIsPartly(s, true, f, budget, k);
    }
  }

  lemma NewPassingShown(fs: Fs, a: Action, budget: nat)
    requires a.Rename? && Enabled(fs, a) && Live(fs, a.onto)
    ensures var s, f := Names(Validated(fs, a.n), Entries(fs, a.onto)), fs.cache[a.onto].ids;
            forall r :: r in Passing(s, false, Take(Check(s.dst, f).ops, budget)) ==> Shown(fs, a, r)
  {
    var s, f := Names(Validated(fs, a.n), Entries(fs, a.onto)), fs.cache[a.onto].ids;
    var states := Passing(s, false, Take(Check(s.dst, f).ops, budget));
    forall r | r in states ensures Shown(fs, a, r) {
      var k :| 0 <= k < |states| && states[k] == r;
      PassingIsPartly(s, false, f, budget, k);
    }
  }

  lemma TraceShown(fs: Fs, a: Action)
    requires a.Rename? && Enabled(fs, a)
    ensures forall r :: r in Trace(NamesOf(fs, a), PlanOf(fs, a)) ==> Shown(fs, a, r)
  {
    var states := Trace(NamesOf(fs, a), PlanOf(fs, a));
    forall r | r in states ensures Shown(fs, a, r) {
      var k :| 0 <= k < |states| && states[k] == r;
      TraceIsRunTo(NamesOf(fs, a), PlanOf(fs, a), k);
    }
  }
}
