/** What a dentry remembers of its file between calls, and what validation makes of it. */
module SfsDentry {
  import opened Options
  import opened SfsView
  import opened SfsRename
  import opened SfsCall
  import opened SfsDescent
  import opened SfsTheorems
  import opened SfsRecovery
  import opened SfsComplete

  /** A cached dentry without an inode, or with one and the ids of its file. */
  datatype Cached = Negative | Positive(ids: File)

  /** `validate_file`: validation of the entry that the ids call visible.  If that entry is gone, there is
      nothing to validate. */
  function Check(v: View, f: File): Plan {
    if Visible(f) in v then Validate(v, Visible(f)) else Plan([], -1, -1)
  }

  function Checked(v: View, f: File): View { RunOps(v, Check(v, f).ops) }

  /** The ids afterwards: validation sets some, and never takes one back. */
  function Updated(f: File, plan: Plan): File {
    File(if plan.replica == -1 then f.replica else plan.replica, if plan.meta == -1 then f.meta else plan.meta)
  }

  /** The entries stand for a file, or for nothing. */
  ghost predicate Stands(v: View, normal: set<int>) { exists f :: Means(v, normal, f) }

  /** What a cached dentry can be about: the entry it calls visible is the one that lookups see, even if
      its link is not what the ids say; or the entry is gone, or was never known of. */
  ghost predicate CacheOk(v: View, normal: set<int>, c: Cached) {
    match c
    case Negative => Known(v, normal, None)
    case Positive(f) =>
      && f.replica >= 0 && f.meta >= -1
      && (|| Lone(v, normal, Visible(f))
          || (f.meta == -1 && HiddenBy(v, normal, f.replica))
          || (Absent(v, normal) && Visible(f) !in v))
  }

  ghost predicate HiddenBy(v: View, normal: set<int>, q: int) { exists h :: HiddenPair(v, normal, h, q) }

  /** Validation at the cached ids does what a lookup would do. */
  lemma CheckIsLookup(v: View, normal: set<int>, n: nat, f: File)
    requires InRange(normal, n) && CacheOk(v, normal, Positive(f)) && Visible(f) in v
    ensures Check(v, f) == Lookup(v, normal, n)
  {
    if Lone(v, normal, Visible(f)) {
      FirstIsLone(v, normal, n, Visible(f));
    } else {
      var h :| HiddenPair(v, normal, h, f.replica);
      FirstOfPair(v, normal, n, h, f.replica);
    }
  }

  lemma LoneStands(v: View, normal: set<int>, p: int, file: Option<nat>)
    requires Lone(v, normal, p) && Means(v, normal, file)
    ensures LoneMeans(v, p, file)
  {
  }

  /** The meta file has no link that leads anywhere. */
  predicate Unlinked(v: View, x: int)
    requires x in v
  {
    match v[x].link
    case None => true
    case Some(r) => r.stale >= 0 || (r.pointer < 0 && !(r.rename >= 0 && r.rename != x && r.rename in v))
  }

  /** Exactly when validation leaves a dentry with one partition for both the data and the meta file: it
      has a meta partition from before, and the record there has lost its link. */
  lemma DoubledIff(v: View, normal: set<int>, n: nat, f: File, id: nat)
    requires InRange(normal, n) && CacheOk(v, normal, Positive(f)) && Visible(f) in v && Means(v, normal, Some(id))
    ensures Doubled(Updated(f, Check(v, f))) <==> f.meta != -1 && Unlinked(v, f.meta)
  {
    if f.meta != -1 {
      LoneStands(v, normal, f.meta, Some(id));
    } else {
      CheckIsLookup(v, normal, n, f);
      ValidatedIsFile(v, normal, n, Some(id));
    }
  }

  /** After validation the ids are those of the file that a lookup finds, or doubled ones of a plain file;
      or the entry they call visible is gone. */
  lemma CheckedKnown(v: View, normal: set<int>, n: nat, f: File)
    requires InRange(normal, n) && Stands(v, normal) && CacheOk(v, normal, Positive(f)) && Visible(f) in v
    ensures Known(Checked(v, f), normal, Some(Updated(f, Check(v, f))))
    ensures Checked(v, f) == Recovered(v, normal, n)
    ensures match Found(v, normal, n)
            case Some(g) => Plain(Updated(f, Check(v, f))) == g && Resolved(v, normal, n).Some?
                && IsFile(Checked(v, f), normal, g, Resolved(v, normal, n).value)
            case None => Absent(Checked(v, f), normal) && Resolved(v, normal, n).None?
  {
    var file :| Means(v, normal, file);
    var plan := Check(v, f);
    CheckIsLookup(v, normal, n, f);
    ValidatedIsFile(v, normal, n, file);
    PlainUpdated(v, normal, f, file);
    if file.None? {
      LookupResolves(v, normal, n, file);
      OpsKeepFiles(v, plan.ops);
    }
  }

  lemma PlainUpdated(v: View, normal: set<int>, f: File, file: Option<nat>)
    requires Means(v, normal, file) && CacheOk(v, normal, Positive(f)) && Visible(f) in v
    ensures var plan := Check(v, f);
            && (file.Some? ==> plan.replica >= 0 && Plain(Updated(f, plan)) == File(plan.replica, plan.meta))
            && (file.None? ==> Visible(Updated(f, plan)) == Visible(f))
            && Updated(f, plan).replica >= 0 && Updated(f, plan).meta >= -1
  {
    if Lone(v, normal, Visible(f)) {
      LoneStands(v, normal, Visible(f), file);
    } else {
      var h :| HiddenPair(v, normal, h, f.replica);
    }
  }

  // ---- Where wrong dentries come from ----

  /** A rename onto a partitioned file that fails, with dentries that were right: exactly when it leaves the
      destination's meta file without its link, and so the dentry to be validated to doubled ids.  It has
      hidden the meta file, or it has linked it to where the data never arrived. */
  lemma FailureUnlinksIff(call: Call, s: Names, file: nat, faults: set<nat>)
    requires Ready(call, s, file) && Accurate(call, s) && !Moves(Taken(call, s, faults))
    requires call.onto.Some? && call.onto.value.meta != -1
    ensures var x, v := call.onto.value.meta, Run(s, Taken(call, s, faults)).dst;
            && x in v
            && (Unlinked(v, x) <==> Undoes(call, s, faults))
  {
    NothingForced(call, s, file);
    if Overwrites(call) { FailedOverwrite(call, s, faults); }
    else if call.CanTurn() { FailedHide(call, s, faults); }
    else { FailedRedirect(call, s, faults); }
  }

  /** The calls that did not fail before one did. */
  predicate Undoes(call: Call, s: Names, faults: set<nat>) {
    && !Overwrites(call) && 0 !in faults
    && if call.CanTurn() then 1 !in faults else call.from.replica !in s.dst
  }

  lemma FailedOverwrite(call: Call, s: Names, faults: set<nat>)
    requires Overwrites(call) && !Moves(call.Plan(faults))
    ensures Run(s, call.Plan(faults)).dst == s.dst
  {
    if 0 !in faults {
      var s1 := ApplyStep(s, OnSrc(Put(call.from.replica, Link(-1, call.from.replica))));
      assert 1 in faults;
      assert Run(s, call.Plan(faults)) == Run(s1, call.Plan(faults).rest);
    }
  }

  lemma FailedHide(call: Call, s: Names, faults: set<nat>)
    requires call.onto.Some? && call.CanTurn() && !Overwrites(call) && !Moves(call.Plan(faults))
    requires Visible(call.onto.value) in s.dst
    ensures var x, v := Visible(call.onto.value), Run(s, call.Plan(faults)).dst;
            if 0 in faults || 1 in faults then v == s.dst
            else x in v && v[x].link in {Some(EMPTY), Some(Record(-1, -1, call.from.replica, -1))}
  {
    var d, x, e := call.from.replica, Visible(call.onto.value), call.onto.value;
    var steps := call.Plan(faults);
    if 0 !in faults {
      var s1 := ApplyStep(s, OnSrc(Put(d, Record(-1, -1, -1, x))));
      assert Run(s, steps) == Run(s1, steps.rest);
      if 1 !in faults {
        var s2 := ApplyStep(s1, OnDst(Put(x, Record(-1, -1, d, -1))));
        assert steps.rest.rest == HideMove(call.from, e, faults) && !Moves(HideMove(call.from, e, faults));
        var revert := HideRevert(d, x, faults);
        assert Run(s1, steps.rest) == Run(s2, revert);
        var s3 := if 6 in faults then s2 else ApplyStep(s2, OnSrc(Put(d, EMPTY)));
        assert Run(s2, revert) == Run(s3, Try(OnDst(Put(x, EMPTY)), 7 in faults, Done, Done));
        assert s3.dst == s2.dst;
        var s4 := if 7 in faults then s3 else ApplyStep(s3, OnDst(Put(x, EMPTY)));
        assert Run(s3, Try(OnDst(Put(x, EMPTY)), 7 in faults, Done, Done)) == Run(s4, Done);
      }
    }
  }

  lemma FailedRedirect(call: Call, s: Names, faults: set<nat>)
    requires call.onto.Some? && !call.CanTurn() && !Moves(call.Plan(faults)) && Visible(call.onto.value) in s.dst
    ensures var x, v := Visible(call.onto.value), Run(s, call.Plan(faults)).dst;
            v == if 0 in faults then s.dst else s.dst[x := s.dst[x].(link := Some(Link(-1, call.from.replica)))]
  {
    var d, x, e := call.from.replica, Visible(call.onto.value), call.onto.value;
    var steps := call.Plan(faults);
    if 0 !in faults {
      var s1 := ApplyStep(s, OnDst(Put(x, Link(-1, d))));
      assert Run(s, steps) == Run(s1, steps.rest);
      if 1 !in faults {
        var s2 := ApplyStep(s1, OnSrc(Put(d, Link(-1, x))));
        assert steps.rest.rest == RedirectMove(call.from, e, faults) && !Moves(RedirectMove(call.from, e, faults));
        assert Run(s1, steps.rest) == Run(s2, Done);
      }
    }
  }

  /** A rename to a free name that fails: exactly when it leaves an entry that the dentry, which still has no
      inode, does not know of. */
  lemma FailureShadowsIff(call: Call, s: Names, file: nat, faults: set<nat>)
    requires Ready(call, s, file) && Accurate(call, s) && !Moves(Taken(call, s, faults)) && call.onto.None?
    ensures var v := Run(s, Taken(call, s, faults)).dst;
            !Absent(v, call.dstNormal) <==> Creates(call) && 0 !in faults
  {
    NothingForced(call, s, file);
    var steps := Taken(call, s, faults);
    if Creates(call) {
      if 0 !in faults { FailedSplit(call, s, faults); }
    } else if steps.Then? {
      var s1 := ApplyStep(s, steps.step);
      assert Run(s, steps) == Run(s1, steps.rest);
      assert steps.rest == Done && s1.dst == s.dst;
    }
  }

  lemma FailedSplit(call: Call, s: Names, faults: set<nat>)
    requires Creates(call) && 0 !in faults && !Moves(call.Plan(faults))
    ensures call.meta in Run(s, call.Plan(faults)).dst
  {
    var steps, d, m := call.Plan(faults), call.from.replica, call.meta;
    var s1 := ApplyStep(s, Create(m, call.newId));
    assert Run(s, steps) == Run(s1, steps.rest);
    if 1 !in faults {
      var s2 := ApplyStep(s1, OnDst(Put(m, Link(d, -1))));
      assert Run(s1, steps.rest) == Run(s2, steps.rest.rest);
      if 2 !in faults {
        var s3 := ApplyStep(s2, OnSrc(Put(d, Link(-1, m))));
        var last := steps.rest.rest.rest;
        assert last == SplitMove(call.from, m, faults) && !Moves(steps.rest) && !Moves(steps.rest.rest) && !Moves(last);
        assert Run(s2, steps.rest.rest) == Run(s3, last);
      }
    }
  }
}
