/** Crash safety of rename: at every step boundary of every branch, and for every pattern of
    failing calls, the two names still stand for the right data files. */
module SfsCrash {
  import opened Options
  import opened SfsView
  import opened SfsRename
  import opened SfsDescent

  /** A rename in context: the normal sets of the two parents, the source's data file, and what the
      old and the new name may stand for before the rename commits.  In a `crowd` the new name has a
      second visible entry, and only the first one that a lookup finds matters. */
  datatype Context = Context(srcNormal: set<int>, dstNormal: set<int>, file: nat, srcMay: set<Option<nat>>,
      dstMay: set<Option<nat>>, crowd: bool)

  ghost predicate OneOf(v: View, normal: set<int>, may: set<Option<nat>>) {
    exists f :: f in may && Means(v, normal, f)
  }

  ghost predicate Lowest(v: View, normal: set<int>, p: int) {
    p in v && p in normal && forall x :: x in v && x in normal ==> p <= x
  }

  /** The entry in partition `p` is the file, or its pointer link leads there. */
  ghost predicate LeadsFrom(v: View, p: int, file: nat)
    requires p in v
  {
    var link := v[p].link;
    if link.None? || link.value == EMPTY || link.value == Link(-1, p) then v[p].file == file
    else
      var t := link.value.pointer;
      t >= 0 && t != p && link.value == Link(t, -1) && t in v && v[t].file == file
  }

  /** The first visible entry leads to the file, whatever the others do. */
  ghost predicate Leads(v: View, normal: set<int>, file: nat) {
    exists p :: Lowest(v, normal, p) && LeadsFrom(v, p, file)
  }

  /** The new name has the file. */
  ghost predicate Has(c: Context, v: View) {
    if c.crowd then Leads(v, c.dstNormal, c.file) else Means(v, c.dstNormal, Some(c.file))
  }

  ghost predicate Safe(c: Context, s: Names, committed: bool) {
    if committed then Means(s.src, c.srcNormal, None) && Has(c, s.dst)
    else OneOf(s.src, c.srcNormal, c.srcMay)
         && if c.crowd then Lacks(s.dst, c.file) else OneOf(s.dst, c.dstNormal, c.dstMay)
  }

  ghost predicate SafeThroughout(c: Context, s: Names, committed: bool, steps: Steps)
    decreases steps
  {
    && Safe(c, s, committed)
    && (steps.Then? ==> SafeThroughout(c, ApplyStep(s, steps.step), committed || steps.step.Move?, steps.rest))
  }

  lemma TrySafe(c: Context, s: Names, committed: bool, step: Step, fails: bool, ok: Steps, bad: Steps)
    requires Safe(c, s, committed)
    requires fails ==> SafeThroughout(c, s, committed, bad)
    requires !fails ==> SafeThroughout(c, ApplyStep(s, step), committed || step.Move?, ok)
    ensures SafeThroughout(c, s, committed, Try(step, fails, ok, bad))
  {
  }

  /** What is left under the old name once the data has moved away. */
  ghost predicate SrcGone(v: View, normal: set<int>, from: File) {
    && from.replica !in v
    && if from.meta == -1 then Absent(v, normal)
       else Lone(v, normal, from.meta) && v[from.meta].link == Some(Link(from.replica, -1))
            && from.replica >= 0 && from.replica != from.meta
  }

  lemma SrcGoneMeansNone(v: View, normal: set<int>, from: File)
    requires SrcGone(v, normal, from)
    ensures Means(v, normal, None)
  {
    if from.meta != -1 {
      assert Lone(v, normal, from.meta) && LoneMeans(v, from.meta, None);
    }
  }

  lemma DropSafe(c: Context, s: Names, from: File, faults: set<nat>)
    requires SrcGone(s.src, c.srcNormal, from) && Has(c, s.dst)
    ensures SafeThroughout(c, s, true, DropOldMeta(from, faults))
  {
    SrcGoneMeansNone(s.src, c.srcNormal, from);
    if from.meta != -1 {
      var step := OnSrc(Unlink(from.meta));
      assert Absent(ApplyStep(s, step).src, c.srcNormal);
      assert SafeThroughout(c, ApplyStep(s, step), true, Done);
      TrySafe(c, s, true, step, 9 in faults, Done, Done);
    }
  }

  lemma MeansLone(v: View, normal: set<int>, p: int, file: Option<nat>)
    requires Lone(v, normal, p) && LoneMeans(v, p, file)
    ensures Means(v, normal, file)
  {
  }

  /** An undisturbed file stands for its own data. */
  lemma FileMeans(v: View, normal: set<int>, f: File, id: nat)
    requires IsFile(v, normal, f, id)
    ensures Means(v, normal, Some(id))
  {
    MeansLone(v, normal, Visible(f), Some(id));
  }

  /** A record that rename puts on the source's data. */
  predicate IsMark(r: Record, d: int) {
    && r.pointer == -1 && r.hidden == -1
    && if r.stale == -1 then r.rename >= -1 else r.rename == -1 && r.stale >= 0 && r.stale != d
  }

  /** What the old name stands for while its data entry has record `r`.  The data of a partitioned
      file is found through its meta file; a plain file answers for itself, unless the record leads
      recovery to a left-over. */
  function SrcAfter(v: View, from: File, id: nat, r: Record): Option<nat> {
    if from.meta != -1 then Some(id)
    else if r.stale >= 0 then if PointsBack(v, r.stale, from.replica) then None else Some(id)
    else if r.rename >= 0 && r.rename in v then Some(v[r.rename].file)
    else Some(id)
  }

  lemma SrcMeans(v: View, normal: set<int>, from: File, id: nat, r: Record)
    requires IsFile(v, normal, from, id) && IsMark(r, from.replica)
    ensures Means(v[from.replica := Entry(id, Some(r))], normal, SrcAfter(v, from, id, r))
    ensures SrcGone(v - {from.replica}, normal, from)
  {
    var w := v[from.replica := Entry(id, Some(r))];
    MeansLone(w, normal, Visible(from), SrcAfter(v, from, id, r));
  }

  /** The source is a file, and the context knows what record `r` on its data leads to. */
  ghost predicate Covers(c: Context, v: View, from: File, r: Record) {
    && IsFile(v, c.srcNormal, from, c.file) && Some(c.file) in c.srcMay
    && IsMark(r, from.replica) && SrcAfter(v, from, c.file, r) in c.srcMay
  }

  lemma SrcSafe(c: Context, v: View, from: File, r: Record)
    requires Covers(c, v, from, r)
    ensures OneOf(v, c.srcNormal, c.srcMay)
    ensures OneOf(v[from.replica := Entry(c.file, Some(r))], c.srcNormal, c.srcMay)
    ensures OneOf(v[from.replica := Entry(c.file, Some(EMPTY))], c.srcNormal, c.srcMay)
    ensures SrcGone(v - {from.replica}, c.srcNormal, from)
  {
    FileMeans(v, c.srcNormal, from, c.file);
    SrcMeans(v, c.srcNormal, from, c.file, r);
    SrcMeans(v, c.srcNormal, from, c.file, EMPTY);
  }

  /** A lone visible entry that stands for something the new name may stand for. */
  lemma LoneOneOf(v: View, normal: set<int>, p: int, file: Option<nat>, may: set<Option<nat>>)
    requires Lone(v, normal, p) && LoneMeans(v, p, file) && file in may
    ensures OneOf(v, normal, may)
  {
    MeansLone(v, normal, p, file);
  }

  /** No visible entry but the one in partition `p`, if that. */
  ghost predicate Only(v: View, normal: set<int>, p: int) {
    forall x :: x in v && x in normal ==> x == p
  }

  lemma TurnSafe(c: Context, s: Names, from: File, faults: set<nat>)
    requires !c.crowd
    requires Covers(c, s.src, from, Link(-1, from.replica))
    requires OneOf(s.dst, c.dstNormal, c.dstMay) && Only(s.dst, c.dstNormal, from.replica)
    requires from.replica in c.dstNormal
    ensures SafeThroughout(c, s, false, TurnSteps(from, faults))
  {
    var d := from.replica;
    var drop := DropOldMeta(from, faults);
    SrcSafe(c, s.src, from, Link(-1, d));
    if from.meta == -1 {
      var s1 := ApplyStep(s, Move(d));
      MeansLone(s1.dst, c.dstNormal, d, Some(c.file));
      DropSafe(c, s1, from, faults);
      TrySafe(c, s, false, Move(d), 1 in faults, drop, Done);
    } else {
      var s1 := ApplyStep(s, OnSrc(Put(d, Link(-1, d))));
      var s2 := ApplyStep(s1, Move(d));
      assert s2.src == s.src - {d};
      var s3 := ApplyStep(s2, OnDst(Put(d, EMPTY)));
      MeansLone(s2.dst, c.dstNormal, d, Some(c.file));
      MeansLone(s3.dst, c.dstNormal, d, Some(c.file));
      DropSafe(c, s2, from, faults);
      DropSafe(c, s3, from, faults);
      var reset := Try(OnDst(Put(d, EMPTY)), 2 in faults, drop, drop);
      TrySafe(c, s2, true, OnDst(Put(d, EMPTY)), 2 in faults, drop, drop);
      var move := Try(Move(d), 1 in faults, reset, Done);
      TrySafe(c, s1, false, Move(d), 1 in faults, reset, Done);
      TrySafe(c, s, false, OnSrc(Put(d, Link(-1, d))), 0 in faults, move, Done);
    }
  }

  lemma SplitSafe(c: Context, s: Names, from: File, meta: int, newId: nat, faults: set<nat>)
    requires !c.crowd
    requires Covers(c, s.src, from, Link(-1, meta))
    requires Absent(s.dst, c.dstNormal) && None in c.dstMay && Some(newId) in c.dstMay
    requires from.replica in s.dst ==> Some(s.dst[from.replica].file) in c.dstMay
    requires meta >= 0 && meta in c.dstNormal && from.replica !in c.dstNormal
    ensures SafeThroughout(c, s, false, SplitSteps(from, meta, newId, faults))
  {
    var d := from.replica;
    var drop := DropOldMeta(from, faults);
    assert Means(s.dst, c.dstNormal, None);
    SrcSafe(c, s.src, from, Link(-1, meta));
    var s1 := ApplyStep(s, Create(meta, newId));
    var s2 := ApplyStep(s1, OnDst(Put(meta, Link(d, -1))));
    var s3 := ApplyStep(s2, OnSrc(Put(d, Link(-1, meta))));
    var s4 := ApplyStep(s3, Move(d));
    var s5 := ApplyStep(s4, OnDst(Put(d, Link(meta, -1))));
    assert s4.src == s.src - {d};
    LoneOneOf(s1.dst, c.dstNormal, meta, Some(newId), c.dstMay);
    LoneOneOf(s2.dst, c.dstNormal, meta, if d in s.dst then Some(s.dst[d].file) else None, c.dstMay);
    MeansLone(s4.dst, c.dstNormal, meta, Some(c.file));
    MeansLone(s5.dst, c.dstNormal, meta, Some(c.file));
    DropSafe(c, s4, from, faults);
    DropSafe(c, s5, from, faults);
    TrySafe(c, s4, true, OnDst(Put(d, Link(meta, -1))), 4 in faults, drop, drop);
    var back := Try(OnDst(Put(d, Link(meta, -1))), 4 in faults, drop, drop);
    TrySafe(c, s3, false, Move(d), 3 in faults, back, Done);
    var move := Try(Move(d), 3 in faults, back, Done);
    TrySafe(c, s2, false, OnSrc(Put(d, Link(-1, meta))), 2 in faults, move, Done);
    var mark := Try(OnSrc(Put(d, Link(-1, meta))), 2 in faults, move, Done);
    TrySafe(c, s1, false, OnDst(Put(meta, Link(d, -1))), 1 in faults, mark, Done);
    TrySafe(c, s, false, Create(meta, newId), 0 in faults,
        Try(OnDst(Put(meta, Link(d, -1))), 1 in faults, mark, Done), Done);
  }

  /** The part of `OverwriteSteps` after the rename itself. */
  lemma OverwriteCleanupSafe(c: Context, s: Names, from: File, onto: File, faults: set<nat>)
    requires !c.crowd
    requires SrcGone(s.src, c.srcNormal, from)
    requires Lone(s.dst, c.dstNormal, from.replica) && s.dst[from.replica].file == c.file
    requires s.dst[from.replica].link == Some(Link(-1, from.replica)) && from.replica >= 0
    requires from.replica == onto.meta ==> onto.replica != from.replica || 2 in faults
    ensures SafeThroughout(c, s, true, OverwriteCleanup(from, onto, faults))
  {
    var d, drop := from.replica, DropOldMeta(from, faults);
    MeansLone(s.dst, c.dstNormal, d, Some(c.file));
    DropSafe(c, s, from, faults);
    if d == onto.meta && 2 in faults {
      return;
    }
    var s1 := if d == onto.meta then ApplyStep(s, OnDst(Unlink(onto.replica))) else s;
    MeansLone(s1.dst, c.dstNormal, d, Some(c.file));
    DropSafe(c, s1, from, faults);
    var s2 := ApplyStep(s1, OnDst(Put(d, EMPTY)));
    MeansLone(s2.dst, c.dstNormal, d, Some(c.file));
    DropSafe(c, s2, from, faults);
    var reset := Try(OnDst(Put(d, EMPTY)), 3 in faults, drop, drop);
    TrySafe(c, s1, true, OnDst(Put(d, EMPTY)), 3 in faults, drop, drop);
    if d == onto.meta {
      TrySafe(c, s, true, OnDst(Unlink(onto.replica)), 2 in faults, reset, drop);
    }
  }

  lemma OverwriteSafe(c: Context, s: Names, from: File, onto: File, faults: set<nat>)
    requires !c.crowd
    requires Covers(c, s.src, from, Link(-1, from.replica))
    requires OneOf(s.dst, c.dstNormal, c.dstMay) && Only(s.dst, c.dstNormal, from.replica)
    requires from.replica in c.dstNormal
    requires from.replica == onto.meta ==> onto.replica != from.replica || 2 in faults
    ensures SafeThroughout(c, s, false, OverwriteSteps(from, onto, faults))
  {
    var d, mark := from.replica, OnSrc(Put(from.replica, Link(-1, from.replica)));
    SrcSafe(c, s.src, from, Link(-1, d));
    var s1 := ApplyStep(s, mark);
    var s2 := ApplyStep(s1, Move(d));
    assert s2.src == s.src - {d};
    OverwriteCleanupSafe(c, s2, from, onto, faults);
    var s3 := ApplyStep(s1, OnSrc(Put(d, EMPTY)));
    assert s3.src == s.src[d := Entry(c.file, Some(EMPTY))];
    var revert := Try(OnSrc(Put(d, EMPTY)), 4 in faults, Done, Done);
    TrySafe(c, s1, false, OnSrc(Put(d, EMPTY)), 4 in faults, Done, Done);
    var move := Try(Move(d), 1 in faults, OverwriteCleanup(from, onto, faults), revert);
    TrySafe(c, s1, false, Move(d), 1 in faults, OverwriteCleanup(from, onto, faults), revert);
    TrySafe(c, s, false, mark, 0 in faults, move, Done);
  }

  /** The part of `HideSteps` after the rename itself. */
  lemma HideCleanupSafe(c: Context, s: Names, from: File, onto: File, h: int, faults: set<nat>)
    requires !c.crowd
    requires h == Visible(onto)
    requires SrcGone(s.src, c.srcNormal, from)
    requires HiddenPair(s.dst, c.dstNormal, h, from.replica) && s.dst[from.replica].file == c.file
    requires from.replica != onto.replica && h >= 0
    requires onto.meta == -1 || onto.replica !in c.dstNormal || 4 in faults
    ensures SafeThroughout(c, s, true, HideCleanup(from, onto, faults))
  {
    var d, drop := from.replica, DropOldMeta(from, faults);
    DropSafe(c, s, from, faults);
    var s1 := if onto.meta != -1 then ApplyStep(s, OnDst(Unlink(onto.meta))) else s;
    if onto.meta != -1 {
      MeansLone(s1.dst, c.dstNormal, d, Some(c.file));
    }
    DropSafe(c, s1, from, faults);
    var reset := Try(OnDst(Put(d, EMPTY)), 5 in faults, drop, drop);
    if 4 !in faults {
      var s2 := ApplyStep(s1, OnDst(Unlink(onto.replica)));
      MeansLone(s2.dst, c.dstNormal, d, Some(c.file));
      DropSafe(c, s2, from, faults);
      var s3 := ApplyStep(s2, OnDst(Put(d, EMPTY)));
      MeansLone(s3.dst, c.dstNormal, d, Some(c.file));
      DropSafe(c, s3, from, faults);
      TrySafe(c, s2, true, OnDst(Put(d, EMPTY)), 5 in faults, drop, drop);
    }
    var data := Try(OnDst(Unlink(onto.replica)), 4 in faults, reset, drop);
    TrySafe(c, s1, true, OnDst(Unlink(onto.replica)), 4 in faults, reset, drop);
    if onto.meta != -1 {
      TrySafe(c, s, true, OnDst(Unlink(onto.meta)), 3 in faults, data, drop);
    }
  }

  lemma HideSafe(c: Context, s: Names, from: File, onto: File, faults: set<nat>)
    requires !c.crowd
    requires Covers(c, s.src, from, Record(-1, -1, -1, Visible(onto)))
    requires OneOf(s.dst, c.dstNormal, c.dstMay) && Lone(s.dst, c.dstNormal, Visible(onto)) && Visible(onto) >= 0
    requires from.replica in c.dstNormal && onto.replica != from.replica && onto.meta != from.replica
    requires onto.meta == -1 || onto.replica !in c.dstNormal || 4 in faults
    requires Some(s.dst[Visible(onto)].file) in c.dstMay
    ensures SafeThroughout(c, s, false, HideSteps(from, onto, faults))
  {
    var d, h := from.replica, Visible(onto);
    var hiddenBy, stale := Record(-1, -1, d, -1), Record(-1, -1, -1, h);
    SrcSafe(c, s.src, from, stale);
    var s1 := ApplyStep(s, OnSrc(Put(d, stale)));
    var s2 := ApplyStep(s1, OnDst(Put(h, hiddenBy)));
    LoneOneOf(s2.dst, c.dstNormal, h, Some(s.dst[h].file), c.dstMay);
    var s3 := ApplyStep(s2, Move(d));
    assert s3.src == s.src - {d};
    assert HiddenPair(s3.dst, c.dstNormal, h, d);
    HideCleanupSafe(c, s3, from, onto, h, faults);
    HideRevertSafe(c, s2, s.src, from, h, faults);
    var revert := HideRevert(d, h, faults);
    var done := HideCleanup(from, onto, faults);
    TrySafe(c, s2, false, Move(d), 2 in faults, done, revert);
    var move := Try(Move(d), 2 in faults, done, revert);
    TrySafe(c, s1, false, OnDst(Put(h, hiddenBy)), 1 in faults, move, Done);
    TrySafe(c, s, false, OnSrc(Put(d, stale)), 0 in faults, Try(OnDst(Put(h, hiddenBy)), 1 in faults, move, Done),
        Done);
  }

  /** The two corrections made when the rename itself fails. */
  lemma HideRevertSafe(c: Context, s: Names, v: View, from: File, h: int, faults: set<nat>)
    requires !c.crowd
    requires Covers(c, v, from, Record(-1, -1, -1, h))
    requires s.src == v[from.replica := Entry(c.file, Some(Record(-1, -1, -1, h)))]
    requires Lone(s.dst, c.dstNormal, h) && LoneMeans(s.dst, h, Some(s.dst[h].file)) && Some(s.dst[h].file) in c.dstMay
    ensures SafeThroughout(c, s, false, HideRevert(from.replica, h, faults))
  {
    var d := from.replica;
    SrcSafe(c, v, from, Record(-1, -1, -1, h));
    LoneOneOf(s.dst, c.dstNormal, h, Some(s.dst[h].file), c.dstMay);
    var s1 := ApplyStep(s, OnSrc(Put(d, EMPTY)));
    assert s1.src == v[d := Entry(c.file, Some(EMPTY))];
    UnhideSafe(c, s, h, faults);
    UnhideSafe(c, s1, h, faults);
    var unhide := Try(OnDst(Put(h, EMPTY)), 7 in faults, Done, Done);
    TrySafe(c, s, false, OnSrc(Put(d, EMPTY)), 6 in faults, unhide, unhide);
  }

  lemma UnhideSafe(c: Context, s: Names, h: int, faults: set<nat>)
    requires !c.crowd
    requires OneOf(s.src, c.srcNormal, c.srcMay)
    requires Lone(s.dst, c.dstNormal, h) && LoneMeans(s.dst, h, Some(s.dst[h].file)) && Some(s.dst[h].file) in c.dstMay
    ensures SafeThroughout(c, s, false, Try(OnDst(Put(h, EMPTY)), 7 in faults, Done, Done))
  {
    var s1 := ApplyStep(s, OnDst(Put(h, EMPTY)));
    LoneOneOf(s.dst, c.dstNormal, h, Some(s.dst[h].file), c.dstMay);
    LoneOneOf(s1.dst, c.dstNormal, h, Some(s.dst[h].file), c.dstMay);
    TrySafe(c, s, false, OnDst(Put(h, EMPTY)), 7 in faults, Done, Done);
  }

  /** The part of `RedirectSteps` after the rename itself. */
  lemma RedirectCleanupSafe(c: Context, s: Names, from: File, onto: File, x: int, faults: set<nat>)
    requires !c.crowd
    requires x == Visible(onto)
    requires SrcGone(s.src, c.srcNormal, from) && from.replica >= 0 && x >= 0
    requires Lone(s.dst, c.dstNormal, x) && s.dst[x].link == Some(Link(-1, from.replica))
    requires from.replica in s.dst && from.replica != x && s.dst[from.replica].file == c.file
    requires onto.meta == -1 || onto.replica != x
    ensures SafeThroughout(c, s, true, RedirectCleanup(from, onto, faults))
  {
    var d, drop := from.replica, DropOldMeta(from, faults);
    MeansLone(s.dst, c.dstNormal, x, Some(c.file));
    DropSafe(c, s, from, faults);
    var gone := onto.meta != -1 && onto.replica != d;
    var s1 := if gone then ApplyStep(s, OnDst(Unlink(onto.replica))) else s;
    MeansLone(s1.dst, c.dstNormal, x, Some(c.file));
    DropSafe(c, s1, from, faults);
    var s2 := ApplyStep(s1, OnDst(Put(d, Link(x, -1))));
    MeansLone(s2.dst, c.dstNormal, x, Some(c.file));
    ForwardSafe(c, s1, from, x, faults);
    ForwardSafe(c, s2, from, x, faults);
    var fwd := Try(OnDst(Put(x, Link(d, -1))), 5 in faults, drop, drop);
    TrySafe(c, s1, true, OnDst(Put(d, Link(x, -1))), 4 in faults, fwd, fwd);
    var back := Try(OnDst(Put(d, Link(x, -1))), 4 in faults, fwd, fwd);
    if gone {
      TrySafe(c, s, true, OnDst(Unlink(onto.replica)), 3 in faults, back, drop);
    }
  }

  lemma ForwardSafe(c: Context, s: Names, from: File, x: int, faults: set<nat>)
    requires !c.crowd
    requires SrcGone(s.src, c.srcNormal, from) && from.replica >= 0
    requires Lone(s.dst, c.dstNormal, x) && LoneMeans(s.dst, x, Some(c.file))
    requires from.replica in s.dst && from.replica != x && s.dst[from.replica].file == c.file
    ensures var drop := DropOldMeta(from, faults);
            SafeThroughout(c, s, true, Try(OnDst(Put(x, Link(from.replica, -1))), 5 in faults, drop, drop))
  {
    var step, drop := OnDst(Put(x, Link(from.replica, -1))), DropOldMeta(from, faults);
    SrcGoneMeansNone(s.src, c.srcNormal, from);
    var s1 := ApplyStep(s, step);
    MeansLone(s1.dst, c.dstNormal, x, Some(c.file));
    DropSafe(c, s, from, faults);
    DropSafe(c, s1, from, faults);
    TrySafe(c, s, true, step, 5 in faults, drop, drop);
  }

  lemma RedirectSafe(c: Context, s: Names, from: File, onto: File, faults: set<nat>)
    requires !c.crowd
    requires Covers(c, s.src, from, Link(-1, Visible(onto)))
    requires onto.replica in s.dst && IsFile(s.dst, c.dstNormal, onto, s.dst[onto.replica].file)
    requires from.replica !in c.dstNormal
    requires Some(s.dst[onto.replica].file) in c.dstMay
    requires Some(s.dst[if from.replica in s.dst then from.replica else Visible(onto)].file) in c.dstMay
    ensures SafeThroughout(c, s, false, RedirectSteps(from, onto, faults))
  {
    var d, x := from.replica, Visible(onto);
    FileMeans(s.dst, c.dstNormal, onto, s.dst[onto.replica].file);
    SrcSafe(c, s.src, from, Link(-1, x));
    var s1 := ApplyStep(s, OnDst(Put(x, Link(-1, d))));
    LoneOneOf(s1.dst, c.dstNormal, x, Some(s.dst[if d in s.dst then d else x].file), c.dstMay);
    var s2 := ApplyStep(s1, OnSrc(Put(d, Link(-1, x))));
    var s3 := ApplyStep(s2, Move(d));
    assert s3.src == s.src - {d};
    RedirectCleanupSafe(c, s3, from, onto, x, faults);
    var done := RedirectCleanup(from, onto, faults);
    TrySafe(c, s2, false, Move(d), 2 in faults, done, Done);
    var move := Try(Move(d), 2 in faults, done, Done);
    TrySafe(c, s1, false, OnSrc(Put(d, Link(-1, x))), 1 in faults, move, Done);
    TrySafe(c, s, false, OnDst(Put(x, Link(-1, d))), 0 in faults,
        Try(OnSrc(Put(d, Link(-1, x))), 1 in faults, move, Done), Done);
  }

  /** The destination is gone: nothing can be hidden, and the call stops after its mark. */
  lemma StoppedHideSafe(c: Context, s: Names, from: File, onto: File, faults: set<nat>)
    requires !c.crowd
    requires Covers(c, s.src, from, Record(-1, -1, -1, Visible(onto)))
    requires OneOf(s.dst, c.dstNormal, c.dstMay) && 1 in faults
    ensures SafeThroughout(c, s, false, HideSteps(from, onto, faults))
  {
    var mark := OnSrc(Put(from.replica, Record(-1, -1, -1, Visible(onto))));
    SrcSafe(c, s.src, from, Record(-1, -1, -1, Visible(onto)));
    TrySafe(c, s, false, mark, 0 in faults, Done, Done);
  }

  // ---- A second visible entry ----

  lemma LowestExists(v: View, normal: set<int>, n: nat, y: int)
    requires InRange(normal, n) && y in v && y in normal
    ensures exists p :: Lowest(v, normal, p) && p == First(v, normal, 0, n)
  {
    assert Lowest(v, normal, First(v, normal, 0, n));
  }

  /** The entries that come before `y` all lead to partition `d`. */
  ghost predicate FewerLead(v: View, normal: set<int>, y: int, d: int) {
    forall m :: m in v && m in normal && m < y ==> v[m].link == Some(Link(d, -1))
  }

  lemma TurnLeads(v: View, normal: set<int>, n: nat, d: int, e: Entry)
    requires InRange(normal, n) && d in normal && d >= 0 && FewerLead(v, normal, d, d)
    requires e.link.None? || e.link.value == EMPTY || e.link.value == Link(-1, d)
    ensures Leads(v[d := e], normal, e.file)
  {
    var w := v[d := e];
    LowestExists(w, normal, n, d);
    var p := First(w, normal, 0, n);
    assert LeadsFrom(w, p, e.file);
  }

  lemma SplitLeads(v: View, normal: set<int>, n: nat, d: int, meta: int, newId: nat, e: Entry)
    requires InRange(normal, n) && meta in normal && d !in normal && d >= 0 && FewerLead(v, normal, meta, d)
    ensures Leads(v[meta := Entry(newId, Some(Link(d, -1)))][d := e], normal, e.file)
  {
    var w := v[meta := Entry(newId, Some(Link(d, -1)))][d := e];
    LowestExists(w, normal, n, meta);
    var p := First(w, normal, 0, n);
    assert LeadsFrom(w, p, e.file);
  }

  lemma CrowdTurnSafe(c: Context, s: Names, n: nat, from: File, faults: set<nat>)
    requires c.crowd && InRange(c.dstNormal, n) && Covers(c, s.src, from, Link(-1, from.replica))
    requires Lacks(s.dst, c.file) && from.replica in c.dstNormal
    requires FewerLead(s.dst, c.dstNormal, from.replica, from.replica)
    ensures SafeThroughout(c, s, false, TurnSteps(from, faults))
  {
    var d := from.replica;
    var drop := DropOldMeta(from, faults);
    SrcSafe(c, s.src, from, Link(-1, d));
    if from.meta == -1 {
      var s1 := ApplyStep(s, Move(d));
      TurnLeads(s.dst, c.dstNormal, n, d, s.src[d]);
      DropSafe(c, s1, from, faults);
      TrySafe(c, s, false, Move(d), 1 in faults, drop, Done);
    } else {
      var s1 := ApplyStep(s, OnSrc(Put(d, Link(-1, d))));
      var s2 := ApplyStep(s1, Move(d));
      assert s2.src == s.src - {d};
      var s3 := ApplyStep(s2, OnDst(Put(d, EMPTY)));
      TurnLeads(s.dst, c.dstNormal, n, d, s1.src[d]);
      TurnLeads(s.dst, c.dstNormal, n, d, Entry(c.file, Some(EMPTY)));
      assert s3.dst == s.dst[d := Entry(c.file, Some(EMPTY))];
      DropSafe(c, s2, from, faults);
      DropSafe(c, s3, from, faults);
      var reset := Try(OnDst(Put(d, EMPTY)), 2 in faults, drop, drop);
      TrySafe(c, s2, true, OnDst(Put(d, EMPTY)), 2 in faults, drop, drop);
      var move := Try(Move(d), 1 in faults, reset, Done);
      TrySafe(c, s1, false, Move(d), 1 in faults, reset, Done);
      TrySafe(c, s, false, OnSrc(Put(d, Link(-1, d))), 0 in faults, move, Done);
    }
  }

  lemma CrowdSplitSafe(c: Context, s: Names, n: nat, from: File, meta: int, newId: nat, faults: set<nat>)
    requires c.crowd && InRange(c.dstNormal, n) && Covers(c, s.src, from, Link(-1, meta))
    requires Lacks(s.dst, c.file) && newId != c.file
    requires meta >= 0 && meta in c.dstNormal && from.replica !in c.dstNormal
    requires FewerLead(s.dst, c.dstNormal, meta, from.replica)
    ensures SafeThroughout(c, s, false, SplitSteps(from, meta, newId, faults))
  {
    var d := from.replica;
    var drop := DropOldMeta(from, faults);
    SrcSafe(c, s.src, from, Link(-1, meta));
    var s1 := ApplyStep(s, Create(meta, newId));
    var s2 := ApplyStep(s1, OnDst(Put(meta, Link(d, -1))));
    var s3 := ApplyStep(s2, OnSrc(Put(d, Link(-1, meta))));
    var s4 := ApplyStep(s3, Move(d));
    var s5 := ApplyStep(s4, OnDst(Put(d, Link(meta, -1))));
    assert s4.src == s.src - {d};
    assert s2.dst == s.dst[meta := Entry(newId, Some(Link(d, -1)))];
    SplitLeads(s.dst, c.dstNormal, n, d, meta, newId, s3.src[d]);
    SplitLeads(s.dst, c.dstNormal, n, d, meta, newId, Entry(c.file, Some(Link(meta, -1))));
    assert s5.dst == s2.dst[d := Entry(c.file, Some(Link(meta, -1)))];
    DropSafe(c, s4, from, faults);
    DropSafe(c, s5, from, faults);
    TrySafe(c, s4, true, OnDst(Put(d, Link(meta, -1))), 4 in faults, drop, drop);
    var back := Try(OnDst(Put(d, Link(meta, -1))), 4 in faults, drop, drop);
    TrySafe(c, s3, false, Move(d), 3 in faults, back, Done);
    var move := Try(Move(d), 3 in faults, back, Done);
    TrySafe(c, s2, false, OnSrc(Put(d, Link(-1, meta))), 2 in faults, move, Done);
    var mark := Try(OnSrc(Put(d, Link(-1, meta))), 2 in faults, move, Done);
    TrySafe(c, s1, false, OnDst(Put(meta, Link(d, -1))), 1 in faults, mark, Done);
    TrySafe(c, s, false, Create(meta, newId), 0 in faults,
        Try(OnDst(Put(meta, Link(d, -1))), 1 in faults, mark, Done), Done);
  }
}
