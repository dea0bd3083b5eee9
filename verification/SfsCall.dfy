/** One call of rename, on what the dentries of the two names know about them.

    A dentry keeps the partitions of its file, `replica_id` and `meta_id`, between calls.  Validation
    starts from them and never takes a meta partition back, so that after a call that failed they
    need not be what is on disk. */
module SfsCall {
  import opened Options
  import opened SfsView
  import opened SfsRename

  /** `from` and `onto` are the ids of the two dentries after validation; a dentry without an inode has
      none.  `meta` and `newId` are the partition and file id of the meta file a rename to a free name
      may have to create. */
  datatype Call = Call(srcNormal: set<int>, dstNormal: set<int>, parts: nat, from: File, onto: Option<File>,
                       meta: int, newId: nat, sameDir: bool) {
    /** `can_turn2normal`, once the data's partition has been marked normal if it could be. */
    predicate CanTurn() { from.replica in dstNormal }

    function Plan(faults: set<nat>): Steps {
      RenameSteps(from, onto, CanTurn(), meta, newId, faults)
    }
  }

  /** The dentry takes one partition for both the data and the meta file. */
  predicate Doubled(f: File) { f.meta == f.replica }

  /** The file such a dentry really has. */
  function Plain(f: File): File { if Doubled(f) then File(f.replica, -1) else f }

  predicate Creates(call: Call) { call.onto.None? && !call.CanTurn() }

  /** The source replaces an entry of the destination. */
  predicate Overwrites(call: Call) {
    call.onto.Some? && call.CanTurn()
    && (call.onto.value.replica == call.from.replica || call.onto.value.meta == call.from.replica)
  }

  // ---- Calls that cannot succeed ----

  /** The steps that fail because the entry of their dentry is not there, was replaced by the move, or
      has already been unlinked by the step before; and the one that creates an entry that is there. */
  function Forced(call: Call, s: Names): set<nat> {
    match call.onto
    case None => if Creates(call) && call.meta in s.dst then {0} else {}
    case Some(e) =>
      var gone := Doubled(e) || e.replica !in s.dst;
      (if Doubled(call.from) && !call.sameDir then {9} else {}) +
      if Overwrites(call) then if call.from.replica == e.meta && gone then {2} else {}
      else if call.CanTurn() then
        (if Visible(e) !in s.dst then {1} else {}) + if e.meta != -1 && gone then {4} else {}
      else (if Visible(e) !in s.dst then {0} else {}) + if e.replica !in s.dst then {3} else {}
  }

  /** The steps a call takes from `s` when the calls in `faults`, too, fail. */
  function Taken(call: Call, s: Names, faults: set<nat>): Steps { call.Plan(faults + Forced(call, s)) }

  /** No such step stops the call before it moves the data. */
  predicate Proceeds(call: Call, s: Names) {
    match call.onto
    case None => call.CanTurn() || call.meta !in s.dst
    case Some(e) => Overwrites(call) || Visible(e) in s.dst
  }

  // ---- What the dentries can be about ----

  /** A failed rename to a free name has left its meta file behind, with or without its link, under a
      dentry that still has no inode. */
  ghost predicate Shadowed(v: View, normal: set<int>) {
    exists m :: Lone(v, normal, m) && Unfinished(v[m].link, m)
  }

  predicate Unfinished(link: Option<Record>, m: int) {
    link.Some? ==> link.value.pointer >= 0 && link.value.pointer != m && link.value == Link(link.value.pointer, -1)
  }

  /** What a dentry without an inode, or one with ids `f`, can have on disk after validation. */
  ghost predicate Known(v: View, normal: set<int>, f: Option<File>) {
    match f
    case None => Absent(v, normal) || Shadowed(v, normal)
    case Some(f) =>
      || (f.replica in v && IsFile(v, normal, Plain(f), v[f.replica].file))
      || (f.replica >= 0 && f.meta >= -1 && Absent(v, normal) && Visible(f) !in v)
  }

  /** Both names are validated; either may have left-overs in shadow directories.  No two entries
      share a file id. */
  ghost predicate Ready(call: Call, s: Names, file: nat) {
    && InRange(call.srcNormal, call.parts) && InRange(call.dstNormal, call.parts)
    && IsFile(s.src, call.srcNormal, Plain(call.from), file) && Known(s.dst, call.dstNormal, call.onto)
    && (Creates(call) ==> call.meta in call.dstNormal)
    && (forall p :: p in s.src && p != call.from.replica ==> s.src[p].file != file)
    && (forall p :: p in s.dst ==> s.dst[p].file != file && s.dst[p].file != call.newId)
    && (forall p, q :: p in s.dst && q in s.dst && s.dst[p].file == s.dst[q].file ==> p == q)
    && call.newId != file
  }

  function FileAt(v: View, f: Option<File>): Option<nat> {
    if f.Some? && f.value.replica in v then Some(v[f.value.replica].file) else None
  }

  /** The ids are those of the files on disk. */
  ghost predicate Accurate(call: Call, s: Names) {
    && !Doubled(call.from)
    && IsFileOrAbsent(s.dst, call.dstNormal, call.onto, FileAt(s.dst, call.onto))
  }

  // ---- When a call goes wrong ----

  /** The mark leads recovery of the old name astray: the source is plain, and the partition the mark
      names has a left-over of the old name, which for a stale mark also points back at the source. */
  predicate Exposed(call: Call, s: Names) {
    Plain(call.from).meta == -1 &&
    match call.onto
    case None => Creates(call) && Proceeds(call, s) && call.meta in s.src
    case Some(e) =>
      if !call.CanTurn() then Proceeds(call, s) && Visible(e) in s.src
      else !Overwrites(call) && PointsBack(s.src, Visible(e), call.from.replica)
  }

  /** The partition of the visible entry a rename to a free name gives the new name. */
  function Landing(call: Call): int { if call.CanTurn() then call.from.replica else call.meta }

  /** The new name has a visible entry that its dentry does not know of, and gets another one. */
  predicate Crowds(call: Call, s: Names) {
    call.onto.None? && Proceeds(call, s) && exists m :: m in s.dst && m in call.dstNormal && m != Landing(call)
  }

  /** That entry comes first in a lookup, and does not lead to the source's data. */
  predicate Covered(call: Call, s: Names) {
    call.onto.None? && Proceeds(call, s)
    && exists m :: m in s.dst && m in call.dstNormal && m < Landing(call)
                   && s.dst[m].link != Some(Link(call.from.replica, -1))
  }

  /** The call deletes an entry because its dentry takes it for another one: the data it has just moved
      for the old meta file, or the destination's visible entry for its old data. */
  predicate Severs(call: Call, s: Names) {
    && Proceeds(call, s)
    && (|| (Doubled(call.from) && (call.onto.None? || call.sameDir))
        || (call.onto.Some? && Doubled(call.onto.value) && !call.CanTurn()))
  }

  /** The entries of both names keep to the shapes that recovery knows. */
  predicate Sound(call: Call, s: Names) { !Severs(call, s) && !Crowds(call, s) }

  // ---- The disk after a crash ----

  /** A recovery pass over one of the two names that stops after at most `ops` operations. */
  datatype Pass = Pass(overSrc: bool, ops: nat)

  function Cut(v: View, normal: set<int>, n: nat, k: nat): View {
    var ops := Lookup(v, normal, n).ops;
    RunOps(v, if k <= |ops| then ops[..k] else ops)
  }

  function RunPasses(call: Call, s: Names, passes: seq<Pass>): Names
    decreases |passes|
  {
    if passes == [] then s
    else
      var p := passes[0];
      var s' := if p.overSrc then s.(src := Cut(s.src, call.srcNormal, call.parts, p.ops))
                else s.(dst := Cut(s.dst, call.dstNormal, call.parts, p.ops));
      RunPasses(call, s', passes[1..])
  }

  /** The disk after a rename is cut at step `k` and any recovery passes, finished or not. */
  function After(call: Call, s: Names, faults: set<nat>, k: nat, passes: seq<Pass>): Names {
    RunPasses(call, RunTo(s, Taken(call, s, faults), k), passes)
  }

  /** The call has moved the data by step `k`. */
  predicate Moved(call: Call, s: Names, faults: set<nat>, k: nat) { Committed(Taken(call, s, faults), k) }

  /** What each of the two names resolves to. */
  function OldName(call: Call, s: Names): Option<nat> { Resolved(s.src, call.srcNormal, call.parts) }

  function NewName(call: Call, s: Names): Option<nat> { Resolved(s.dst, call.dstNormal, call.parts) }

  // ---- Running to the end ----

  function Length(steps: Steps): nat {
    match steps case Done => 0 case Then(_, rest) => 1 + Length(rest)
  }

  lemma {:induction false} RunToEnd(s: Names, steps: Steps, k: nat)
    requires Length(steps) <= k
    ensures RunTo(s, steps, k) == Run(s, steps)
    ensures Committed(steps, k) <==> Moves(steps)
    decreases steps
  {
    if steps.Then? { RunToEnd(ApplyStep(s, steps.step), steps.rest, k - 1); }
  }

  predicate Moves(steps: Steps) { steps.Then? && (steps.step.Move? || Moves(steps.rest)) }
}
