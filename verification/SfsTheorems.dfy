/** What a crash, a failing call, or both can do to a rename, as seen by later lookups. */
module SfsTheorems {
  import opened Options
  import opened SfsView
  import opened SfsRename
  import opened SfsCall
  import opened SfsDescent
  import opened SfsCrash
  import opened SfsRecovery

  /** The record a call puts on the source's data before it moves it. */
  function Mark(call: Call): Record {
    match call.onto
    case None => Link(-1, Landing(call))
    case Some(e) =>
      if !call.CanTurn() then Link(-1, Visible(e))
      else if Overwrites(call) then Link(-1, call.from.replica)
      else Record(-1, -1, -1, Visible(e))
  }

  /** The call gets as far as its mark. */
  predicate Marks(call: Call, s: Names) { Proceeds(call, s) || (call.onto.Some? && call.CanTurn()) }

  /** What the old name may stand for before the rename commits. */
  function SrcMay(call: Call, s: Names, file: nat): set<Option<nat>> {
    {Some(file)} + if Marks(call, s) then {SrcAfter(s.src, Plain(call.from), file, Mark(call))} else {}
  }

  /** What the new name may stand for before the rename commits, beside what it stood for. */
  function Detours(call: Call, s: Names): set<Option<nat>> {
    var d := call.from.replica;
    match call.onto
    case None =>
      if call.CanTurn() || !Proceeds(call, s) then {}
      else {Some(call.newId)} + if d in s.dst then {Some(s.dst[d].file)} else {}
    case Some(e) =>
      if Overwrites(call) || Visible(e) !in s.dst then {}
      else {Some(s.dst[if !call.CanTurn() && d in s.dst then d else Visible(e)].file)}
  }

  ghost function ContextOf(call: Call, s: Names, file: nat): Context {
    Context(call.srcNormal, call.dstNormal, file, SrcMay(call, s, file), {NewName(call, s)} + Detours(call, s),
        Crowds(call, s))
  }

  lemma MarkCovered(call: Call, s: Names, file: nat)
    requires Ready(call, s, file) && Marks(call, s)
    ensures Covers(ContextOf(call, s, file), s.src, Plain(call.from), Mark(call))
    ensures SrcAfter(s.src, Plain(call.from), file, Mark(call)) == Some(file) <==> !Exposed(call, s)
  {
  }

  /** What the entries of the new name stand for is what it resolves to. */
  lemma KnownMeans(call: Call, s: Names, file: nat)
    requires Ready(call, s, file)
    ensures Means(s.dst, call.dstNormal, NewName(call, s))
    ensures call.onto.Some? && Doubled(call.onto.value) && !Absent(s.dst, call.dstNormal) ==>
            Lone(s.dst, call.dstNormal, call.onto.value.replica)
    ensures Accurate(call, s) ==> NewName(call, s) == FileAt(s.dst, call.onto)
  {
    var v, normal := s.dst, call.dstNormal;
    if Absent(v, normal) {
      LookupResolves(v, normal, call.parts, None);
    } else if call.onto.Some? {
      var e := Plain(call.onto.value);
      FileMeans(v, normal, e, v[e.replica].file);
      LookupResolves(v, normal, call.parts, Some(v[e.replica].file));
    } else {
      var m :| Lone(v, normal, m) && Unfinished(v[m].link, m);
      var f := if v[m].link.None? then Some(v[m].file)
               else var q := v[m].link.value.pointer; if q in v then Some(v[q].file) else None;
      MeansLone(v, normal, m, f);
      LookupResolves(v, normal, call.parts, f);
    }
  }

  /** Renames to a name that the caller knows nothing of. */
  lemma NewSafe(call: Call, s: Names, file: nat, faults: set<nat>)
    requires Ready(call, s, file) && call.onto.None? && !Doubled(call.from) && Forced(call, s) <= faults
    requires !Covered(call, s)
    ensures SafeThroughout(ContextOf(call, s, file), s, false, call.Plan(faults))
  {
    var c := ContextOf(call, s, file);
    KnownMeans(call, s, file);
    if !Proceeds(call, s) {
      FileMeans(s.src, call.srcNormal, call.from, file);
      assert call.Plan(faults) == Done;
    } else {
      MarkCovered(call, s, file);
      if c.crowd {
        assert FewerLead(s.dst, call.dstNormal, Landing(call), call.from.replica);
        if call.CanTurn() { CrowdTurnSafe(c, s, call.parts, call.from, faults); }
        else { CrowdSplitSafe(c, s, call.parts, call.from, call.meta, call.newId, faults); }
      } else {
        assert Only(s.dst, call.dstNormal, Landing(call));
        if call.CanTurn() { TurnSafe(c, s, call.from, faults); }
        else {
          LookupResolves(s.dst, call.dstNormal, call.parts, None);
          SplitSafe(c, s, call.from, call.meta, call.newId, faults);
        }
      }
    }
  }

  /** Renames onto a file, which may be gone. */
  lemma OntoSafe(call: Call, s: Names, file: nat, faults: set<nat>)
    requires Ready(call, s, file) && call.onto.Some? && !Doubled(call.from) && Forced(call, s) <= faults
    requires !Severs(call, s)
    ensures SafeThroughout(ContextOf(call, s, file), s, false, call.Plan(faults))
  {
    var c, e := ContextOf(call, s, file), call.onto.value;
    KnownMeans(call, s, file);
    if Marks(call, s) {
      MarkCovered(call, s, file);
    }
    if Overwrites(call) {
      assert Only(s.dst, call.dstNormal, call.from.replica);
      OverwriteSafe(c, s, call.from, e, faults);
    } else if Visible(e) !in s.dst {
      FileMeans(s.src, call.srcNormal, call.from, file);
      if call.CanTurn() { StoppedHideSafe(c, s, call.from, e, faults); }
      else { assert call.Plan(faults) == Done; }
    } else if call.CanTurn() {
      HideSafe(c, s, call.from, e, faults);
    } else {
      FileMeans(s.dst, call.dstNormal, e, s.dst[e.replica].file);
      LookupResolves(s.dst, call.dstNormal, call.parts, Some(s.dst[e.replica].file));
      RedirectSafe(c, s, call.from, e, faults);
    }
  }

  /** A source whose dentry is wrong about its meta file is renamed like the plain file it is, if the
      step that would delete the file fails or is not reached. */
  lemma PlainPlan(call: Call, s: Names, faults: set<nat>)
    requires Doubled(call.from) && call.from.replica >= 0 && Forced(call, s) <= faults && !Severs(call, s)
    ensures var plain := call.(from := Plain(call.from));
            && call.Plan(faults) == plain.Plan(faults) && Forced(plain, s) <= faults
            && !Doubled(plain.from) && !Severs(plain, s)
  {
    if Proceeds(call, s) {
      assert 9 in faults;
      assert DropOldMeta(call.from, faults) == Done == DropOldMeta(Plain(call.from), faults);
    }
  }

  /** No step of a call, whatever fails, puts an entry of either name where recovery does not expect
      it, unless the call severs the file from its name or covers it. */
  lemma RenameSafe(call: Call, s: Names, file: nat, faults: set<nat>)
    requires Ready(call, s, file) && !Severs(call, s) && !Covered(call, s)
    ensures SafeThroughout(ContextOf(call, s, file), s, false, Taken(call, s, faults))
  {
    var all := faults + Forced(call, s);
    var plain := call.(from := Plain(call.from));
    if Doubled(call.from) {
      PlainPlan(call, s, all);
      assert Ready(plain, s, file) && ContextOf(plain, s, file) == ContextOf(call, s, file);
    }
    if call.onto.None? { NewSafe(plain, s, file, all); } else { OntoSafe(plain, s, file, all); }
  }

  lemma {:induction false} SafeAtStep(c: Context, s: Names, committed: bool, steps: Steps, k: nat)
    requires SafeThroughout(c, s, committed, steps)
    ensures Safe(c, RunTo(s, steps, k), committed || Committed(steps, k))
    decreases steps
  {
    if steps.Then? && k > 0 {
      SafeAtStep(c, ApplyStep(s, steps.step), committed || steps.step.Move?, steps.rest, k - 1);
    }
  }

  // ---- Recovery passes that may themselves be cut short ----

  lemma CutKeepsMeaning(v: View, normal: set<int>, n: nat, k: nat, file: Option<nat>)
    requires InRange(normal, n) && Means(v, normal, file)
    ensures Means(Cut(v, normal, n, k), normal, file)
  {
    LookupResolves(v, normal, n, file);
    var ops := Lookup(v, normal, n).ops;
    var j := if k <= |ops| then k else |ops|;
    MeansAtPrefix(v, ops, j, normal, file);
    assert ops[..|ops|] == ops;
  }

  /** Recovery looks at the first visible entry only, and keeps it. */
  lemma LeadsResolved(v: View, normal: set<int>, n: nat, file: nat)
    requires InRange(normal, n) && Leads(v, normal, file)
    ensures Resolved(v, normal, n) == Some(file)
    ensures |Lookup(v, normal, n).ops| <= 1 && Leads(Recovered(v, normal, n), normal, file)
  {
    var p :| Lowest(v, normal, p) && LeadsFrom(v, p, file);
    assert First(v, normal, 0, n) == p;
    var plan := Validate(v, p);
    if plan.ops != [] {
      assert plan.ops == [plan.ops[0]];
      RunOne(v, plan.ops[0]);
    }
    assert Lowest(Recovered(v, normal, n), normal, p);
  }

  lemma CutKeepsLeads(v: View, normal: set<int>, n: nat, k: nat, file: nat)
    requires InRange(normal, n) && Leads(v, normal, file)
    ensures Leads(Cut(v, normal, n, k), normal, file)
  {
    LeadsResolved(v, normal, n, file);
    var ops := Lookup(v, normal, n).ops;
    if 0 < k {
      assert ops[..|ops|] == ops;
    } else {
      assert ops[..0] == [];
    }
  }

  lemma CutKeepsHas(c: Context, v: View, n: nat, k: nat)
    requires InRange(c.dstNormal, n)
    ensures Has(c, v) ==> Has(c, Cut(v, c.dstNormal, n, k))
    ensures Lacks(v, c.file) ==> Lacks(Cut(v, c.dstNormal, n, k), c.file)
  {
    if Has(c, v) {
      if c.crowd { CutKeepsLeads(v, c.dstNormal, n, k, c.file); }
      else { CutKeepsMeaning(v, c.dstNormal, n, k, Some(c.file)); }
    }
    var ops := Lookup(v, c.dstNormal, n).ops;
    OpsKeepFiles(v, if k <= |ops| then ops[..k] else ops);
  }

  lemma {:induction false} PassesKeepSafe(call: Call, c: Context, s: Names, committed: bool, passes: seq<Pass>)
    requires c.srcNormal == call.srcNormal && c.dstNormal == call.dstNormal
    requires InRange(call.srcNormal, call.parts) && InRange(call.dstNormal, call.parts)
    requires Safe(c, s, committed)
    ensures Safe(c, RunPasses(call, s, passes), committed)
    decreases |passes|
  {
    if passes != [] {
      var p := passes[0];
      forall file | Means(s.src, c.srcNormal, file)
          ensures Means(Cut(s.src, c.srcNormal, call.parts, p.ops), c.srcNormal, file) {
        CutKeepsMeaning(s.src, c.srcNormal, call.parts, p.ops, file);
      }
      forall file | Means(s.dst, c.dstNormal, file)
          ensures Means(Cut(s.dst, c.dstNormal, call.parts, p.ops), c.dstNormal, file) {
        CutKeepsMeaning(s.dst, c.dstNormal, call.parts, p.ops, file);
      }
      CutKeepsHas(c, s.dst, call.parts, p.ops);
      var s' := if p.overSrc then s.(src := Cut(s.src, call.srcNormal, call.parts, p.ops))
                else s.(dst := Cut(s.dst, call.dstNormal, call.parts, p.ops));
      PassesKeepSafe(call, c, s', committed, passes[1..]);
    }
  }

  lemma AfterIsSafe(call: Call, s: Names, file: nat, faults: set<nat>, k: nat, passes: seq<Pass>)
    requires Ready(call, s, file) && !Severs(call, s) && !Covered(call, s)
    ensures Safe(ContextOf(call, s, file), After(call, s, faults, k, passes), Moved(call, s, faults, k))
  {
    var c, steps := ContextOf(call, s, file), Taken(call, s, faults);
    RenameSafe(call, s, file, faults);
    SafeAtStep(c, s, false, steps, k);
    PassesKeepSafe(call, c, RunTo(s, steps, k), Committed(steps, k), passes);
  }

  /** What the two names resolve to after a crash: before the commit point the source keeps its file
      unless it is exposed, after it the new name has it. */
  lemma SourceOutcome(call: Call, s: Names, file: nat, faults: set<nat>, k: nat, passes: seq<Pass>)
    requires Ready(call, s, file) && !Severs(call, s) && !Covered(call, s)
    ensures var r := After(call, s, faults, k, passes);
            if Moved(call, s, faults, k) then OldName(call, r) == None && NewName(call, r) == Some(file)
            else && (|| OldName(call, r) == Some(file)
                     || (Exposed(call, s) && OldName(call, r) == SrcAfter(s.src, Plain(call.from), file, Mark(call))))
                 && NewName(call, r) != Some(file)
  {
    AfterIsSafe(call, s, file, faults, k, passes);
    NotUnderBoth(call, s, file, faults, k, passes);
    if Marks(call, s) {
      MarkCovered(call, s, file);
    }
    var r := After(call, s, faults, k, passes);
    forall f | Means(r.src, call.srcNormal, f) ensures OldName(call, r) == f {
      LookupResolves(r.src, call.srcNormal, call.parts, f);
    }
    if Moved(call, s, faults, k) {
      if Crowds(call, s) { LeadsResolved(r.dst, call.dstNormal, call.parts, file); }
      else { LookupResolves(r.dst, call.dstNormal, call.parts, Some(file)); }
    }
  }

  /** The same with what the new name may be taken for before the commit point. */
  lemma CrashOutcome(call: Call, s: Names, file: nat, faults: set<nat>, k: nat, passes: seq<Pass>)
    requires Ready(call, s, file) && Sound(call, s)
    ensures var r := After(call, s, faults, k, passes);
            if Moved(call, s, faults, k) then OldName(call, r) == None && NewName(call, r) == Some(file)
            else && (|| OldName(call, r) == Some(file)
                     || (Exposed(call, s) && OldName(call, r) == SrcAfter(s.src, Plain(call.from), file, Mark(call))))
                 && (NewName(call, r) == NewName(call, s) || NewName(call, r) in Detours(call, s))
                 && NewName(call, r) != Some(file)
  {
    SoundIsKept(call, s);
    SourceOutcome(call, s, file, faults, k, passes);
    AfterIsSafe(call, s, file, faults, k, passes);
    var r := After(call, s, faults, k, passes);
    forall f | Means(r.dst, call.dstNormal, f) ensures NewName(call, r) == f {
      LookupResolves(r.dst, call.dstNormal, call.parts, f);
    }
  }

  lemma SoundIsKept(call: Call, s: Names)
    requires Sound(call, s)
    ensures !Severs(call, s) && !Covered(call, s)
  {
    assert Covered(call, s) ==> Crowds(call, s);
  }

  // ---- The source ----

  /** The source's data is never lost and never visible under both names, whatever call fails,
      wherever the crash comes, and however recovery is cut short. */
  ghost predicate SourceSafe(call: Call, s: Names, file: nat) {
    forall faults: set<nat>, k: nat, passes: seq<Pass> {:trigger After(call, s, faults, k, passes)} ::
        var r := After(call, s, faults, k, passes);
        (OldName(call, r) == Some(file)) != (NewName(call, r) == Some(file))
  }

  /** No call fails that could succeed, and after `k` steps the source's data is under neither name. */
  ghost predicate Loses(call: Call, s: Names, file: nat, k: nat) {
    var r := After(call, s, {}, k, []);
    OldName(call, r) != Some(file) && NewName(call, r) != Some(file)
  }

  /** How many steps a call takes up to its mark. */
  function MarkAt(call: Call): nat { if call.onto.None? then 3 else if call.CanTurn() then 1 else 2 }

  /** The first steps of a call none of whose own calls fails. */
  lemma FirstSteps(call: Call, s: Names)
    ensures var steps := Taken(call, s, {});
            && RunTo(s, steps, 0) == s && !Committed(steps, 0)
            && (steps.Then? ==>
                  var s1 := ApplyStep(s, steps.step);
                  && RunTo(s, steps, 1) == s1 && Committed(steps, 1) == steps.step.Move?
                  && (steps.rest.Then? ==>
                        var s2 := ApplyStep(s1, steps.rest.step);
                        && RunTo(s, steps, 2) == s2
                        && Committed(steps, 2) == (steps.step.Move? || steps.rest.step.Move?)))
  {
    var steps := Taken(call, s, {});
    if steps.Then? {
      var s1 := ApplyStep(s, steps.step);
      assert RunTo(s, steps, 1) == RunTo(s1, steps.rest, 0) == s1;
      if steps.rest.Then? {
        var s2 := ApplyStep(s1, steps.rest.step);
        assert RunTo(s, steps, 2) == RunTo(s1, steps.rest, 1) == RunTo(s2, steps.rest.rest, 0) == s2;
        assert Committed(steps.rest, 1) == steps.rest.step.Move?;
      }
    }
  }

  lemma NextSteps(s: Names, steps: Steps)
    requires steps.Then? && steps.rest.Then? && steps.rest.rest.Then?
    requires !steps.step.Move? && !steps.rest.step.Move?
    ensures var s2 := ApplyStep(ApplyStep(s, steps.step), steps.rest.step);
            var s3 := ApplyStep(s2, steps.rest.rest.step);
            && RunTo(s, steps, 3) == s3 && Committed(steps, 3) == steps.rest.rest.step.Move?
            && (steps.rest.rest.rest.Then? ==>
                  && RunTo(s, steps, 4) == ApplyStep(s3, steps.rest.rest.rest.step)
                  && Committed(steps, 4) == (steps.rest.rest.step.Move? || steps.rest.rest.rest.step.Move?))
  {
    var s1, last := ApplyStep(s, steps.step), steps.rest.rest;
    var s2 := ApplyStep(s1, steps.rest.step);
    assert RunTo(s, steps, 3) == RunTo(s1, steps.rest, 2) == RunTo(s2, last, 1);
    assert RunTo(s, steps, 4) == RunTo(s1, steps.rest, 3) == RunTo(s2, last, 2);
    assert Committed(steps, 3) == Committed(steps.rest, 2) == Committed(last, 1);
    assert Committed(steps, 4) == Committed(steps.rest, 3) == Committed(last, 2);
    var s3 := ApplyStep(s2, last.step);
    assert RunTo(s2, last, 1) == RunTo(s3, last.rest, 0) == s3;
    if last.rest.Then? {
      assert RunTo(s2, last, 2) == RunTo(s3, last.rest, 1) == RunTo(ApplyStep(s3, last.rest.step), last.rest.rest, 0);
      assert Committed(last.rest, 1) == last.rest.step.Move?;
    }
  }

  lemma MarkTaken(call: Call, s: Names, file: nat)
    requires Ready(call, s, file) && Exposed(call, s)
    ensures !Moved(call, s, {}, MarkAt(call))
    ensures After(call, s, {}, MarkAt(call), []).src == s.src[call.from.replica := Entry(file, Some(Mark(call)))]
  {
    FirstSteps(call, s);
    if call.onto.None? {
      NextSteps(s, Taken(call, s, {}));
    }
  }

  /** A crash right after the mark loses an exposed source. */
  lemma ExposedIsLost(call: Call, s: Names, file: nat)
    requires Ready(call, s, file) && Exposed(call, s)
    ensures Loses(call, s, file, MarkAt(call))
  {
    MarkTaken(call, s, file);
    MarkCovered(call, s, file);
    NotUnderBoth(call, s, file, {}, MarkAt(call), []);
    SrcMeans(s.src, call.srcNormal, Plain(call.from), file, Mark(call));
    var r := After(call, s, {}, MarkAt(call), []);
    LookupResolves(r.src, call.srcNormal, call.parts, SrcAfter(s.src, Plain(call.from), file, Mark(call)));
  }

  // ---- Dentries that are wrong about their file ----

  /** The steps move the data, and the last one is `step`. */
  predicate MovesAndEnds(steps: Steps, step: Step) {
    steps.Then? && if steps.step.Move? then Ends(steps.rest, step) else MovesAndEnds(steps.rest, step)
  }

  predicate Ends(steps: Steps, step: Step) {
    steps.Then? && if steps.rest.Done? then steps.step == step else Ends(steps.rest, step)
  }

  lemma TryEnds(first: Step, fails: bool, ok: Steps, bad: Steps, step: Step)
    requires Ends(ok, step) && Ends(bad, step)
    ensures Ends(Try(first, fails, ok, bad), step)
  {
  }

  lemma {:induction false} LastStep(s: Names, steps: Steps, step: Step, moved: bool) returns (k: nat)
    requires if moved then Ends(steps, step) else MovesAndEnds(steps, step)
    ensures RunTo(s, steps, k + 1) == ApplyStep(RunTo(s, steps, k), step) && k + 1 == Length(steps)
    ensures moved || Committed(steps, k)
    decreases steps
  {
    var s1 := ApplyStep(s, steps.step);
    if moved && steps.rest.Done? {
      k := 0;
      assert RunTo(s, steps, 1) == RunTo(s1, steps.rest, 0) == s1;
    } else {
      var j := LastStep(s1, steps.rest, step, moved || steps.step.Move?);
      k := j + 1;
      assert RunTo(s, steps, k + 1) == RunTo(s1, steps.rest, j + 1);
      assert RunTo(s, steps, k) == RunTo(s1, steps.rest, j);
    }
  }

  /** A call that takes the source's data for its meta file deletes it last of all. */
  lemma DeletesData(call: Call, s: Names)
    requires Doubled(call.from) && call.from.replica >= 0 && call.from.replica in s.src
    requires Proceeds(call, s) && (call.onto.None? || call.sameDir)
    ensures MovesAndEnds(Taken(call, s, {}), OnDst(Unlink(call.from.replica)))
  {
    var d, faults := call.from.replica, {} + Forced(call, s);
    var drop, last := DropOldMeta(call.from, faults), OnDst(Unlink(call.from.replica));
    assert drop == Then(last, Done);
    match call.onto
    case None =>
      if call.CanTurn() { TryEnds(OnDst(Put(d, EMPTY)), 2 in faults, drop, drop, last); }
      else {
        TryEnds(OnDst(Put(d, Link(call.meta, -1))), 4 in faults, drop, drop, last);
        assert MovesAndEnds(SplitMove(call.from, call.meta, faults), last);
      }
    case Some(e) =>
      if Overwrites(call) {
        var reset := Try(OnDst(Put(d, EMPTY)), 3 in faults, drop, drop);
        TryEnds(OnDst(Put(d, EMPTY)), 3 in faults, drop, drop, last);
        TryEnds(OnDst(Unlink(e.replica)), 2 in faults, reset, drop, last);
      } else if call.CanTurn() {
        var reset := Try(OnDst(Put(d, EMPTY)), 5 in faults, drop, drop);
        TryEnds(OnDst(Put(d, EMPTY)), 5 in faults, drop, drop, last);
        var data := Try(OnDst(Unlink(e.replica)), 4 in faults, reset, drop);
        TryEnds(OnDst(Unlink(e.replica)), 4 in faults, reset, drop, last);
        TryEnds(OnDst(Unlink(e.meta)), 3 in faults, data, drop, last);
        assert MovesAndEnds(HideMove(call.from, e, faults), last);
      } else {
        LinkEnds(call, Visible(e), faults);
        TryEnds(OnDst(Unlink(e.replica)), 3 in faults, LinkSteps(call.from, Visible(e), faults), drop, last);
        assert MovesAndEnds(RedirectMove(call.from, e, faults), last);
      }
  }

  lemma LinkEnds(call: Call, x: int, faults: set<nat>)
    requires Ends(DropOldMeta(call.from, faults), OnDst(Unlink(call.from.replica)))
    ensures Ends(LinkSteps(call.from, x, faults), OnDst(Unlink(call.from.replica)))
  {
    var d, drop, last := call.from.replica, DropOldMeta(call.from, faults), OnDst(Unlink(call.from.replica));
    var fwd := Try(OnDst(Put(x, Link(d, -1))), 5 in faults, drop, drop);
    TryEnds(OnDst(Put(x, Link(d, -1))), 5 in faults, drop, drop, last);
    TryEnds(OnDst(Put(d, Link(x, -1))), 4 in faults, fwd, fwd, last);
  }

  /** Steps that only remove entries of the new name and change records. */
  predicate Quiet(steps: Steps) {
    steps.Then? ==> !steps.step.Move? && !steps.step.Create? && Quiet(steps.rest)
  }

  lemma {:induction false} QuietKeepsAbsent(s: Names, steps: Steps, k: nat, normal: set<int>)
    requires Quiet(steps) && Absent(s.dst, normal)
    ensures Absent(RunTo(s, steps, k).dst, normal)
    decreases steps
  {
    if steps.Then? && k > 0 { QuietKeepsAbsent(ApplyStep(s, steps.step), steps.rest, k - 1, normal); }
  }

  /** Four steps, the third of which moves the data, and quiet ones. */
  lemma QuietEnd(s: Names, steps: Steps, normal: set<int>)
    requires steps.Then? && steps.rest.Then? && steps.rest.rest.Then? && steps.rest.rest.rest.Then?
    requires steps.rest.rest.step.Move? && Quiet(steps.rest.rest.rest.rest)
    requires var s3 := ApplyStep(ApplyStep(ApplyStep(s, steps.step), steps.rest.step), steps.rest.rest.step);
             Absent(ApplyStep(s3, steps.rest.rest.rest.step).dst, normal)
    ensures Absent(RunTo(s, steps, Length(steps)).dst, normal) && Committed(steps, Length(steps))
  {
    var s1 := ApplyStep(s, steps.step);
    var s2 := ApplyStep(s1, steps.rest.step);
    var s3 := ApplyStep(s2, steps.rest.rest.step);
    var last := steps.rest.rest.rest;
    var s4 := ApplyStep(s3, last.step);
    var n := Length(last.rest);
    assert Length(steps.rest.rest) == n + 2 && Length(steps.rest) == n + 3 && Length(steps) == n + 4;
    assert RunTo(s, steps, n + 4) == RunTo(s1, steps.rest, n + 3) == RunTo(s2, steps.rest.rest, n + 2)
           == RunTo(s3, last, n + 1) == RunTo(s4, last.rest, n);
    assert Committed(steps.rest.rest, n + 2) && Committed(steps.rest, n + 3);
    QuietKeepsAbsent(s4, last.rest, n, normal);
  }

  /** A call that takes the destination's visible entry for its data, and deletes it. */
  lemma DeletesVisible(call: Call, s: Names)
    requires call.onto.Some? && Doubled(call.onto.value) && !call.CanTurn() && Proceeds(call, s)
    requires call.from.replica in s.src && call.onto.value.replica >= 0
    requires Lone(s.dst, call.dstNormal, call.onto.value.replica)
    ensures var steps := Taken(call, s, {});
            Absent(RunTo(s, steps, Length(steps)).dst, call.dstNormal) && Committed(steps, Length(steps))
  {
    var e, faults := call.onto.value, {} + Forced(call, s);
    var link := LinkSteps(call.from, e.meta, faults);
    assert RedirectCleanup(call.from, e, faults) == Then(OnDst(Unlink(e.replica)), link);
    assert Quiet(DropOldMeta(call.from, faults));
    assert Quiet(link);
    QuietEnd(s, Taken(call, s, {}), call.dstNormal);
  }

  /** No call of the rename fails and no crash comes, and yet the file is gone. */
  lemma SeveredIsLost(call: Call, s: Names, file: nat)
    requires Ready(call, s, file) && Severs(call, s)
    ensures Loses(call, s, file, Length(Taken(call, s, {})))
  {
    var steps, d := Taken(call, s, {}), call.from.replica;
    if Doubled(call.from) && (call.onto.None? || call.sameDir) {
      DeletesData(call, s);
      var k := LastStep(s, steps, OnDst(Unlink(d)), false);
      AfterDescends(call, s, file, {}, k, []);
      LacksResolved(After(call, s, {}, k + 1, []).src, call.srcNormal, call.parts, file);
      LacksResolved(After(call, s, {}, k + 1, []).dst, call.dstNormal, call.parts, file);
    } else {
      DeletesVisible(call, s);
      NotUnderBoth(call, s, file, {}, Length(steps), []);
      FirstIsNone(After(call, s, {}, Length(steps), []).dst, call.dstNormal, call.parts);
    }
  }

  lemma CoveredByFirst(v: View, normal: set<int>, n: nat, m: int, d: int, file: nat)
    requires InRange(normal, n) && Lowest(v, normal, m) && m != d && Unfinished(v[m].link, m)
    requires v[m].link != Some(Link(d, -1)) && forall p :: p in v && p != d ==> v[p].file != file
    ensures Resolved(v, normal, n) != Some(file)
  {
    assert First(v, normal, 0, n) == m;
    OpsKeepFiles(v, Validate(v, m).ops);
  }

  lemma DropKeepsNew(s: Names, from: File, faults: set<nat>)
    requires !Doubled(from)
    ensures Run(s, DropOldMeta(from, faults)).dst == s.dst
  {
  }

  /** What a rename to a free name leaves, beside the file's two entries. */
  lemma NewEntries(call: Call, s: Names)
    requires call.onto.None? && Proceeds(call, s) && !Doubled(call.from) && call.from.replica in s.src
    requires Creates(call) ==> call.meta != call.from.replica
    ensures var steps := Taken(call, s, {});
            var r := RunTo(s, steps, Length(steps));
            && Committed(steps, Length(steps)) && Landing(call) in r.dst
            && (forall p :: p in r.dst ==> p in s.dst || p == Landing(call) || p == call.from.replica)
            && (forall p :: p in s.dst && p != Landing(call) && p != call.from.replica ==>
                  p in r.dst && r.dst[p] == s.dst[p])
  {
    var steps := Taken(call, s, {});
    var faults := {} + Forced(call, s);
    assert faults == {};
    RunToEnd(s, steps, Length(steps));
    var s1 := ApplyStep(s, steps.step);
    var drop := DropOldMeta(call.from, faults);
    if call.CanTurn() {
      if call.from.meta != -1 {
        var s2 := ApplyStep(s1, steps.rest.step);
        var s3 := ApplyStep(s2, steps.rest.rest.step);
        assert Run(s, steps) == Run(s1, steps.rest) == Run(s2, steps.rest.rest) == Run(s3, drop);
        DropKeepsNew(s3, call.from, faults);
      }
    } else {
      var s2 := ApplyStep(s1, steps.rest.step);
      var s3 := ApplyStep(s2, steps.rest.rest.step);
      var last := steps.rest.rest.rest;
      var s4 := ApplyStep(s3, last.step);
      var s5 := ApplyStep(s4, last.rest.step);
      assert Run(s, steps) == Run(s1, steps.rest) == Run(s2, steps.rest.rest) == Run(s3, last) == Run(s4, last.rest)
             == Run(s5, drop);
      DropKeepsNew(s5, call.from, faults);
      assert Moves(last) && Moves(steps.rest.rest);
    }
  }

  /** The rename succeeds, and the new name resolves through the entry its dentry did not know of. */
  lemma CoveredIsLost(call: Call, s: Names, file: nat)
    requires Ready(call, s, file) && Covered(call, s) && !Doubled(call.from)
    ensures Loses(call, s, file, Length(Taken(call, s, {})))
  {
    var k := Length(Taken(call, s, {}));
    NewEntries(call, s);
    NotUnderBoth(call, s, file, {}, k, []);
    AfterDescends(call, s, file, {}, k, []);
    var m :| m in s.dst && m in call.dstNormal && m < Landing(call)
             && s.dst[m].link != Some(Link(call.from.replica, -1));
    CoveredByFirst(After(call, s, {}, k, []).dst, call.dstNormal, call.parts, m, call.from.replica, file);
  }

  /** Exactly when the source is safe: its mark does not lead to a left-over, and neither dentry is wrong
      about its file in a way that makes the call delete or cover the file. */
  lemma SourceNeverLostIff(call: Call, s: Names, file: nat)
    requires Ready(call, s, file)
    ensures SourceSafe(call, s, file) <==> !Exposed(call, s) && !Severs(call, s) && !Covered(call, s)
  {
    if Exposed(call, s) {
      ExposedIsLost(call, s, file);
      LostIsUnsafe(call, s, file, MarkAt(call));
    } else if Severs(call, s) {
      SeveredIsLost(call, s, file);
      LostIsUnsafe(call, s, file, Length(Taken(call, s, {})));
    } else if Covered(call, s) {
      CoveredIsLost(call, s, file);
      LostIsUnsafe(call, s, file, Length(Taken(call, s, {})));
    } else {
      forall faults: set<nat>, k: nat, passes: seq<Pass>
        ensures var r := After(call, s, faults, k, passes);
                (OldName(call, r) == Some(file)) != (NewName(call, r) == Some(file))
      {
        SourceOutcome(call, s, file, faults, k, passes);
      }
    }
  }

  lemma LostIsUnsafe(call: Call, s: Names, file: nat, k: nat)
    requires Loses(call, s, file, k)
    ensures !SourceSafe(call, s, file)
  {
    var r := After(call, s, {}, k, []);
    assert (OldName(call, r) == Some(file)) == (NewName(call, r) == Some(file));
  }

  // ---- The destination ----

  /** The new name always resolves to what it had before or to the source's file. */
  ghost predicate DestinationAtomic(call: Call, s: Names, file: nat) {
    forall faults: set<nat>, k: nat, passes: seq<Pass> {:trigger After(call, s, faults, k, passes)} ::
        var dst := NewName(call, After(call, s, faults, k, passes));
        dst == NewName(call, s) || dst == Some(file)
  }

  /** The branches in which no entry of the destination is overwritten in a way that recovery cannot
      undo, nor made to lead to a left-over. */
  predicate KeepsDestination(call: Call, s: Names) {
    var d := call.from.replica;
    match call.onto
    case None => call.CanTurn() || !Proceeds(call, s)
    case Some(e) =>
      || Visible(e) !in s.dst
      || if call.CanTurn() then Plain(e).meta == -1 || e.meta == d else e.replica == d || (e.meta == -1 && d !in s.dst)
  }

  /** How many steps lead into the window in which the destination is misread, and what it is then
      taken for. */
  function Window(call: Call): nat { if call.onto.Some? && call.CanTurn() then 2 else 1 }

  function Misread(call: Call, s: Names): Option<nat> {
    var d := call.from.replica;
    match call.onto
    case None => Some(call.newId)
    case Some(e) =>
      var x := if !call.CanTurn() && d in s.dst then d else Visible(e);
      if x in s.dst then Some(s.dst[x].file) else None
  }

  lemma DetourVisible(call: Call, s: Names, file: nat)
    requires Ready(call, s, file) && Sound(call, s) && !KeepsDestination(call, s)
    ensures NewName(call, After(call, s, {}, Window(call), [])) == Misread(call, s)
  {
    FirstSteps(call, s);
    var r := After(call, s, {}, Window(call), []);
    var x := match call.onto case None => call.meta case Some(e) => Visible(e);
    assert Lone(r.dst, call.dstNormal, x) && LoneMeans(r.dst, x, Misread(call, s));
    LookupResolves(r.dst, call.dstNormal, call.parts, Misread(call, s));
  }

  lemma KeptDetours(call: Call, s: Names, file: nat)
    requires Ready(call, s, file) && Sound(call, s) && KeepsDestination(call, s)
    ensures forall f :: f in Detours(call, s) ==> f == NewName(call, s)
  {
    if call.onto.Some? && Visible(call.onto.value) in s.dst {
      var e := Plain(call.onto.value);
      FileMeans(s.dst, call.dstNormal, e, s.dst[e.replica].file);
      LookupResolves(s.dst, call.dstNormal, call.parts, Some(s.dst[e.replica].file));
    }
  }

  lemma MisreadIsNew(call: Call, s: Names, file: nat)
    requires Ready(call, s, file) && Sound(call, s) && !KeepsDestination(call, s)
    ensures Misread(call, s) != NewName(call, s) && Misread(call, s) != Some(file)
  {
    KnownMeans(call, s, file);
    if call.onto.None? {
      assert Absent(s.dst, call.dstNormal);
      LookupResolves(s.dst, call.dstNormal, call.parts, None);
    } else {
      assert Accurate(call.(from := Plain(call.from)), s);
      KnownMeans(call.(from := Plain(call.from)), s, file);
    }
  }

  /** Exactly when the new name is crash atomic.  It is not when the call has to create a meta file
      for a free name, when it overwrites the record that holds the only link to a partitioned
      destination's data, or when it links the destination to a left-over. */
  lemma DestinationAtomicIff(call: Call, s: Names, file: nat)
    requires Ready(call, s, file) && Sound(call, s)
    ensures DestinationAtomic(call, s, file) <==> KeepsDestination(call, s)
  {
    if KeepsDestination(call, s) {
      KeptDetours(call, s, file);
      forall faults: set<nat>, k: nat, passes: seq<Pass>
        ensures var dst := NewName(call, After(call, s, faults, k, passes));
                dst == NewName(call, s) || dst == Some(file)
      {
        CrashOutcome(call, s, file, faults, k, passes);
      }
    } else {
      DetourVisible(call, s, file);
      MisreadIsNew(call, s, file);
      var r := After(call, s, {}, Window(call), []);
      assert NewName(call, r) == Misread(call, s);
    }
  }

  /** From every state a crashed rename can leave, two passes over a name settle it, and every
      pass resolves it to the same file, whose data and meta file then point at each other. */
  lemma CrashConverges(call: Call, s: Names, file: nat, faults: set<nat>, k: nat, passes: seq<Pass>, overSrc: bool)
    requires Ready(call, s, file) && Sound(call, s)
    ensures var r := After(call, s, faults, k, passes);
            var v, normal := if overSrc then r.src else r.dst, if overSrc then call.srcNormal else call.dstNormal;
            var once := Recovered(v, normal, call.parts);
            var twice := Recovered(once, normal, call.parts);
            && Resolved(v, normal, call.parts) == Resolved(once, normal, call.parts)
                == Resolved(twice, normal, call.parts)
            && Settled(twice, normal, call.parts) && Recovered(twice, normal, call.parts) == twice
            && var f := Found(twice, normal, call.parts);
               f.Some? && f.value.meta != -1 ==>
                 PointsBack(twice, f.value.replica, f.value.meta) && PointsBack(twice, f.value.meta, f.value.replica)
  {
    SoundIsKept(call, s);
    AfterIsSafe(call, s, file, faults, k, passes);
    var r := After(call, s, faults, k, passes);
    var v, normal := if overSrc then r.src else r.dst, if overSrc then call.srcNormal else call.dstNormal;
    var f :| Means(v, normal, f);
    RecoveryConverges(v, normal, call.parts, f);
  }

  // ---- Validated names ----

  /** The file a pass over the name finds. */
  function Found(v: View, normal: set<int>, n: nat): Option<File> {
    var plan := Lookup(v, normal, n);
    if Resolved(v, normal, n).Some? then Some(File(plan.replica, plan.meta)) else None
  }

  lemma LoneValidated(v: View, normal: set<int>, n: nat, p: int, file: Option<nat>)
    requires InRange(normal, n) && Lone(v, normal, p) && LoneMeans(v, p, file)
    ensures IsFileOrAbsent(Recovered(v, normal, n), normal, Found(v, normal, n), file)
  {
    LoneRecovery(v, normal, n, p, file);
    FirstIsLone(v, normal, n, p);
    if v[p].link.Some? && v[p].link.value.stale >= 0 {
      StaleRecovery(v, normal, n, p, file);
    } else {
      var plan := Validate(v, p);
      if plan.ops != [] {
        assert plan.ops == [plan.ops[0]];
        RunOne(v, plan.ops[0]);
      }
    }
  }

  /** One complete pass makes a well-formed file of every name a crash can leave, or clears it away:
      the validation at the start of a rename is enough. */
  lemma ValidatedIsFile(v: View, normal: set<int>, n: nat, file: Option<nat>)
    requires InRange(normal, n) && Means(v, normal, file)
    ensures Resolved(v, normal, n) == file
    ensures IsFileOrAbsent(Recovered(v, normal, n), normal, Found(v, normal, n), file)
  {
    LookupResolves(v, normal, n, file);
    if file.None? && forall x :: x in v ==> x !in normal {
      FirstIsNone(v, normal, n);
    } else if p :| Lone(v, normal, p) && LoneMeans(v, p, file) {
      LoneValidated(v, normal, n, p, file);
    } else {
      var h, q :| HiddenPair(v, normal, h, q) && file == Some(v[q].file);
      PairRecovery(v, normal, n, h, q);
      FirstOfPair(v, normal, n, h, q);
    }
  }

  /** In particular both names of a crashed rename. */
  lemma CrashLeavesFiles(call: Call, s: Names, file: nat, faults: set<nat>, k: nat, passes: seq<Pass>, overSrc: bool)
    requires Ready(call, s, file) && Sound(call, s)
    ensures var r := After(call, s, faults, k, passes);
            var v, normal := if overSrc then r.src else r.dst, if overSrc then call.srcNormal else call.dstNormal;
            IsFileOrAbsent(Recovered(v, normal, call.parts), normal, Found(v, normal, call.parts),
                Resolved(v, normal, call.parts))
  {
    SoundIsKept(call, s);
    AfterIsSafe(call, s, file, faults, k, passes);
    var r := After(call, s, faults, k, passes);
    var v, normal := if overSrc then r.src else r.dst, if overSrc then call.srcNormal else call.dstNormal;
    var f :| Means(v, normal, f);
    ValidatedIsFile(v, normal, call.parts, f);
  }
}
