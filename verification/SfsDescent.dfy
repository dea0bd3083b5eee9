/** Which entries a rename can produce: where the files under the two names come from. */
module SfsDescent {
  import opened Options
  import opened SfsView
  import opened SfsRename
  import opened SfsCall

  predicate StepOk(call: Call, step: Step) {
    match step
    case OnSrc(_) => true
    case OnDst(_) => true
    case Create(p, f) => Creates(call) && p == call.meta && f == call.newId
    case Move(p) => p == call.from.replica
  }

  predicate AllOk(call: Call, steps: Steps) {
    steps.Then? ==> StepOk(call, steps.step) && AllOk(call, steps.rest)
  }

  lemma TryOk(call: Call, step: Step, fails: bool, ok: Steps, bad: Steps)
    requires StepOk(call, step) && AllOk(call, ok) && AllOk(call, bad)
    ensures AllOk(call, Try(step, fails, ok, bad))
  {
  }

  lemma DropOk(call: Call, faults: set<nat>)
    ensures AllOk(call, DropOldMeta(call.from, faults))
  {
    var step := if call.from.meta == call.from.replica then OnDst(Unlink(call.from.meta))
                else OnSrc(Unlink(call.from.meta));
    TryOk(call, step, 9 in faults, Done, Done);
  }

  lemma TurnOk(call: Call, faults: set<nat>)
    ensures AllOk(call, TurnSteps(call.from, faults))
  {
    var d, drop := call.from.replica, DropOldMeta(call.from, faults);
    DropOk(call, faults);
    TryOk(call, Move(d), 1 in faults, drop, Done);
    var reset := Try(OnDst(Put(d, EMPTY)), 2 in faults, drop, drop);
    TryOk(call, OnDst(Put(d, EMPTY)), 2 in faults, drop, drop);
    TryOk(call, Move(d), 1 in faults, reset, Done);
    TryOk(call, OnSrc(Put(d, Link(-1, d))), 0 in faults, Try(Move(d), 1 in faults, reset, Done), Done);
  }

  lemma SplitOk(call: Call, faults: set<nat>)
    requires Creates(call)
    ensures AllOk(call, SplitSteps(call.from, call.meta, call.newId, faults))
  {
    var d, m, drop := call.from.replica, call.meta, DropOldMeta(call.from, faults);
    DropOk(call, faults);
    var back := Try(OnDst(Put(d, Link(m, -1))), 4 in faults, drop, drop);
    TryOk(call, OnDst(Put(d, Link(m, -1))), 4 in faults, drop, drop);
    var move := SplitMove(call.from, m, faults);
    TryOk(call, Move(d), 3 in faults, back, Done);
    var mark := Try(OnSrc(Put(d, Link(-1, m))), 2 in faults, move, Done);
    TryOk(call, OnSrc(Put(d, Link(-1, m))), 2 in faults, move, Done);
    var fwd := Try(OnDst(Put(m, Link(d, -1))), 1 in faults, mark, Done);
    TryOk(call, OnDst(Put(m, Link(d, -1))), 1 in faults, mark, Done);
    TryOk(call, Create(m, call.newId), 0 in faults, fwd, Done);
  }

  lemma OverwriteOk(call: Call, e: File, faults: set<nat>)
    ensures AllOk(call, OverwriteSteps(call.from, e, faults))
  {
    var d, drop := call.from.replica, DropOldMeta(call.from, faults);
    DropOk(call, faults);
    var reset := Try(OnDst(Put(d, EMPTY)), 3 in faults, drop, drop);
    TryOk(call, OnDst(Put(d, EMPTY)), 3 in faults, drop, drop);
    TryOk(call, OnDst(Unlink(e.replica)), 2 in faults, reset, drop);
    var revert := Try(OnSrc(Put(d, EMPTY)), 4 in faults, Done, Done);
    TryOk(call, OnSrc(Put(d, EMPTY)), 4 in faults, Done, Done);
    var move := Try(Move(d), 1 in faults, OverwriteCleanup(call.from, e, faults), revert);
    TryOk(call, Move(d), 1 in faults, OverwriteCleanup(call.from, e, faults), revert);
    TryOk(call, OnSrc(Put(d, Link(-1, d))), 0 in faults, move, Done);
  }

  lemma HideOk(call: Call, e: File, faults: set<nat>)
    ensures AllOk(call, HideSteps(call.from, e, faults))
  {
    var d, h, drop := call.from.replica, Visible(e), DropOldMeta(call.from, faults);
    DropOk(call, faults);
    var reset := Try(OnDst(Put(d, EMPTY)), 5 in faults, drop, drop);
    TryOk(call, OnDst(Put(d, EMPTY)), 5 in faults, drop, drop);
    var data := Try(OnDst(Unlink(e.replica)), 4 in faults, reset, drop);
    TryOk(call, OnDst(Unlink(e.replica)), 4 in faults, reset, drop);
    TryOk(call, OnDst(Unlink(e.meta)), 3 in faults, data, drop);
    var unhide := Try(OnDst(Put(h, EMPTY)), 7 in faults, Done, Done);
    TryOk(call, OnDst(Put(h, EMPTY)), 7 in faults, Done, Done);
    TryOk(call, OnSrc(Put(d, EMPTY)), 6 in faults, unhide, unhide);
    var move := HideMove(call.from, e, faults);
    TryOk(call, Move(d), 2 in faults, HideCleanup(call.from, e, faults), HideRevert(d, h, faults));
    var hiding := Try(OnDst(Put(h, Record(-1, -1, d, -1))), 1 in faults, move, Done);
    TryOk(call, OnDst(Put(h, Record(-1, -1, d, -1))), 1 in faults, move, Done);
    TryOk(call, OnSrc(Put(d, Record(-1, -1, -1, h))), 0 in faults, hiding, Done);
  }

  lemma RedirectOk(call: Call, e: File, faults: set<nat>)
    ensures AllOk(call, RedirectSteps(call.from, e, faults))
  {
    var d, x, drop := call.from.replica, Visible(e), DropOldMeta(call.from, faults);
    DropOk(call, faults);
    var fwd := Try(OnDst(Put(x, Link(d, -1))), 5 in faults, drop, drop);
    TryOk(call, OnDst(Put(x, Link(d, -1))), 5 in faults, drop, drop);
    TryOk(call, OnDst(Put(d, Link(x, -1))), 4 in faults, fwd, fwd);
    TryOk(call, OnDst(Unlink(e.replica)), 3 in faults, LinkSteps(call.from, x, faults), drop);
    var move := RedirectMove(call.from, e, faults);
    TryOk(call, Move(d), 2 in faults, RedirectCleanup(call.from, e, faults), Done);
    var mark := Try(OnSrc(Put(d, Link(-1, x))), 1 in faults, move, Done);
    TryOk(call, OnSrc(Put(d, Link(-1, x))), 1 in faults, move, Done);
    TryOk(call, OnDst(Put(x, Link(-1, d))), 0 in faults, mark, Done);
  }

  lemma PlanOk(call: Call, faults: set<nat>)
    ensures AllOk(call, call.Plan(faults))
  {
    match call.onto
    case None => if call.CanTurn() { TurnOk(call, faults); } else { SplitOk(call, faults); }
    case Some(e) =>
      if !call.CanTurn() { RedirectOk(call, e, faults); }
      else if Overwrites(call) { OverwriteOk(call, e, faults); }
      else { HideOk(call, e, faults); }
  }

  /** Every entry of `r` is an entry of `s`, with its file: where it was, or the source's data in its
      partition under the new name; or it is the meta file the call creates. */
  ghost predicate Descends(call: Call, s: Names, r: Names, committed: bool) {
    var d := call.from.replica;
    && d in s.src
    && (forall p :: p in r.src ==> p in s.src && r.src[p].file == s.src[p].file && !(committed && p == d))
    && (forall p :: p in r.dst ==>
          || (p in s.dst && r.dst[p].file == s.dst[p].file)
          || (committed && p == d && r.dst[p].file == s.src[d].file)
          || (Creates(call) && p == call.meta && r.dst[p].file == call.newId))
  }

  lemma {:induction false} StepsDescend(call: Call, s: Names, r: Names, committed: bool, steps: Steps, k: nat)
    requires Descends(call, s, r, committed) && AllOk(call, steps)
    requires Creates(call) ==> call.meta != call.from.replica
    ensures Descends(call, s, RunTo(r, steps, k), committed || Committed(steps, k))
    decreases steps
  {
    if steps.Then? && k > 0 {
      var t := ApplyStep(r, steps.step);
      if steps.step.Move? && call.from.replica !in r.src {
        assert t == r;
      }
      StepsDescend(call, s, t, committed || steps.step.Move?, steps.rest, k - 1);
    }
  }

  /** Recovery removes entries and changes records. */
  lemma {:induction false} OpsKeepFiles(v: View, ops: seq<Op>)
    ensures forall p :: p in RunOps(v, ops) ==> p in v && RunOps(v, ops)[p].file == v[p].file
    decreases |ops|
  {
    if ops != [] {
      OpsKeepFiles(Apply(v, ops[0]), ops[1..]);
    }
  }

  lemma {:induction false} PassesDescend(call: Call, s: Names, r: Names, committed: bool, passes: seq<Pass>)
    requires Descends(call, s, r, committed)
    ensures Descends(call, s, RunPasses(call, r, passes), committed)
    decreases |passes|
  {
    if passes != [] {
      var p := passes[0];
      var v, normal := if p.overSrc then r.src else r.dst, if p.overSrc then call.srcNormal else call.dstNormal;
      var ops := Lookup(v, normal, call.parts).ops;
      var done := if p.ops <= |ops| then ops[..p.ops] else ops;
      OpsKeepFiles(v, done);
      var r' := if p.overSrc then r.(src := Cut(r.src, call.srcNormal, call.parts, p.ops))
                else r.(dst := Cut(r.dst, call.dstNormal, call.parts, p.ops));
      PassesDescend(call, s, r', committed, passes[1..]);
    }
  }

  lemma AfterDescends(call: Call, s: Names, file: nat, faults: set<nat>, k: nat, passes: seq<Pass>)
    requires Ready(call, s, file)
    ensures Descends(call, s, After(call, s, faults, k, passes), Moved(call, s, faults, k))
  {
    var steps := Taken(call, s, faults);
    PlanOk(call, faults + Forced(call, s));
    StepsDescend(call, s, s, false, steps, k);
    PassesDescend(call, s, RunTo(s, steps, k), Committed(steps, k), passes);
  }

  // ---- Names that a file cannot be found under ----

  predicate Lacks(v: View, file: nat) {
    forall p :: p in v ==> v[p].file != file
  }

  lemma LacksResolved(v: View, normal: set<int>, n: nat, file: nat)
    requires Lacks(v, file)
    ensures Resolved(v, normal, n) != Some(file)
  {
    OpsKeepFiles(v, Lookup(v, normal, n).ops);
  }

  /** The source's data is not under the new name before it has been moved, and not under the old one
      afterwards. */
  lemma NotUnderBoth(call: Call, s: Names, file: nat, faults: set<nat>, k: nat, passes: seq<Pass>)
    requires Ready(call, s, file)
    ensures var r := After(call, s, faults, k, passes);
            if Moved(call, s, faults, k) then Lacks(r.src, file) && OldName(call, r) != Some(file)
            else Lacks(r.dst, file) && NewName(call, r) != Some(file)
  {
    AfterDescends(call, s, file, faults, k, passes);
    var r := After(call, s, faults, k, passes);
    if Moved(call, s, faults, k) {
      LacksResolved(r.src, call.srcNormal, call.parts, file);
    } else {
      LacksResolved(r.dst, call.dstNormal, call.parts, file);
    }
  }
}
