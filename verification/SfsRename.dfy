/** Cross-partition rename as the durable steps it takes on the entries of the old and the
    new name.  Each function follows one branch of `rename2non` or `rename2exist`, including
    what it does when a step fails: `faults` holds the numbers of the calls that return an
    error. */
module SfsRename {
  import opened Options
  import opened SfsView

  datatype Names = Names(src: View, dst: View)

  datatype Step = OnSrc(op: Op) | OnDst(op: Op) | Create(part: int, file: nat) | Move(part: int)

  function ApplyStep(s: Names, step: Step): Names {
    match step
    case OnSrc(op) => s.(src := Apply(s.src, op))
    case OnDst(op) => s.(dst := Apply(s.dst, op))
    case Create(p, f) => s.(dst := s.dst[p := Entry(f, None)])
    case Move(p) => if p in s.src then Names(s.src - {p}, s.dst[p := s.src[p]]) else s
  }

  /** The steps a call takes, in order. */
  datatype Steps = Done | Then(step: Step, rest: Steps)

  function Run(s: Names, steps: Steps): Names
    decreases steps
  {
    match steps
    case Done => s
    case Then(step, rest) => Run(ApplyStep(s, step), rest)
  }

  /** The state a crash exposes after `k` steps (or at the end, if there are fewer). */
  function RunTo(s: Names, steps: Steps, k: nat): Names
    decreases steps
  {
    if steps.Done? || k == 0 then s else RunTo(ApplyStep(s, steps.step), steps.rest, k - 1)
  }

  /** The rename step itself is among the first `k`. */
  predicate Committed(steps: Steps, k: nat) {
    steps.Then? && k > 0 && (steps.step.Move? || Committed(steps.rest, k - 1))
  }

  /** A validated file: the partition of its data, and of its meta file or -1. */
  datatype File = File(replica: int, meta: int)

  function Link(pointer: int, rename: int): Record { Record(pointer, rename, -1, -1) }

  /** A call that does nothing when it fails: go on with `ok` or with `bad`. */
  function Try(step: Step, fails: bool, ok: Steps, bad: Steps): Steps {
    if fails then bad else Then(step, ok)
  }

  /** Last of all the source's own meta file goes; an error here is ignored.  If the dentry takes the
      data for the meta file as well, the entry that goes is the one that has just been moved. */
  function DropOldMeta(from: File, faults: set<nat>): Steps {
    if from.meta == -1 then Done
    else Try(if from.meta == from.replica then OnDst(Unlink(from.meta)) else OnSrc(Unlink(from.meta)),
             9 in faults, Done, Done)
  }

  /** `rename2non` when the data's partition is, or may become, normal for the new parent. */
  function TurnSteps(from: File, faults: set<nat>): Steps {
    var d, drop := from.replica, DropOldMeta(from, faults);
    if from.meta == -1 then Try(Move(d), 1 in faults, drop, Done)
    else
      var reset := Try(OnDst(Put(d, EMPTY)), 2 in faults, drop, drop);
      Try(OnSrc(Put(d, Link(-1, d))), 0 in faults, Try(Move(d), 1 in faults, reset, Done), Done)
  }

  /** `rename2non` otherwise: the new name gets a meta file `meta` in a normal directory. */
  function SplitSteps(from: File, meta: int, newId: nat, faults: set<nat>): Steps {
    var d := from.replica;
    var mark := Try(OnSrc(Put(d, Link(-1, meta))), 2 in faults, SplitMove(from, meta, faults), Done);
    Try(Create(meta, newId), 0 in faults, Try(OnDst(Put(meta, Link(d, -1))), 1 in faults, mark, Done), Done)
  }

  function SplitMove(from: File, meta: int, faults: set<nat>): Steps {
    var d, drop := from.replica, DropOldMeta(from, faults);
    Try(Move(d), 3 in faults, Try(OnDst(Put(d, Link(meta, -1))), 4 in faults, drop, drop), Done)
  }

  /** `rename2exist`, condition 1.1: the source replaces an entry of the destination. */
  function OverwriteSteps(from: File, onto: File, faults: set<nat>): Steps {
    var d := from.replica;
    var revert := Try(OnSrc(Put(d, EMPTY)), 4 in faults, Done, Done);
    var move := Try(Move(d), 1 in faults, OverwriteCleanup(from, onto, faults), revert);
    Try(OnSrc(Put(d, Link(-1, d))), 0 in faults, move, Done)
  }

  function OverwriteCleanup(from: File, onto: File, faults: set<nat>): Steps {
    var d, drop := from.replica, DropOldMeta(from, faults);
    var reset := Try(OnDst(Put(d, EMPTY)), 3 in faults, drop, drop);
    if d == onto.meta then Try(OnDst(Unlink(onto.replica)), 2 in faults, reset, drop) else reset
  }

  /** The partition of the destination entry that lookups see. */
  function Visible(f: File): int { if f.meta != -1 then f.meta else f.replica }

  /** `rename2exist`, condition 1.2: the destination is hidden first and deleted later. */
  function HideSteps(from: File, onto: File, faults: set<nat>): Steps {
    var d, h := from.replica, Visible(onto);
    Try(OnSrc(Put(d, Record(-1, -1, -1, h))), 0 in faults,
        Try(OnDst(Put(h, Record(-1, -1, d, -1))), 1 in faults, HideMove(from, onto, faults), Done), Done)
  }

  function HideMove(from: File, onto: File, faults: set<nat>): Steps {
    Try(Move(from.replica), 2 in faults, HideCleanup(from, onto, faults),
        HideRevert(from.replica, Visible(onto), faults))
  }

  function HideRevert(d: int, h: int, faults: set<nat>): Steps {
    var unhide := Try(OnDst(Put(h, EMPTY)), 7 in faults, Done, Done);
    Try(OnSrc(Put(d, EMPTY)), 6 in faults, unhide, unhide)
  }

  function HideCleanup(from: File, onto: File, faults: set<nat>): Steps {
    var d, drop := from.replica, DropOldMeta(from, faults);
    var reset := Try(OnDst(Put(d, EMPTY)), 5 in faults, drop, drop);
    var data := Try(OnDst(Unlink(onto.replica)), 4 in faults, reset, drop);
    if onto.meta != -1 then Try(OnDst(Unlink(onto.meta)), 3 in faults, data, drop) else data
  }

  /** `rename2exist`, condition 2: the destination's visible entry becomes the meta file. */
  function RedirectSteps(from: File, onto: File, faults: set<nat>): Steps {
    var d, x := from.replica, Visible(onto);
    var mark := Try(OnSrc(Put(d, Link(-1, x))), 1 in faults, RedirectMove(from, onto, faults), Done);
    Try(OnDst(Put(x, Link(-1, d))), 0 in faults, mark, Done)
  }

  function RedirectMove(from: File, onto: File, faults: set<nat>): Steps {
    Try(Move(from.replica), 2 in faults, RedirectCleanup(from, onto, faults), Done)
  }

  function RedirectCleanup(from: File, onto: File, faults: set<nat>): Steps {
    var link := LinkSteps(from, Visible(onto), faults);
    if onto.meta != -1 && onto.replica != from.replica
    then Try(OnDst(Unlink(onto.replica)), 3 in faults, link, DropOldMeta(from, faults)) else link
  }

  /** The data entry and the meta entry `x` come to point at each other. */
  function LinkSteps(from: File, x: int, faults: set<nat>): Steps {
    var d, drop := from.replica, DropOldMeta(from, faults);
    var fwd := Try(OnDst(Put(x, Link(d, -1))), 5 in faults, drop, drop);
    Try(OnDst(Put(d, Link(x, -1))), 4 in faults, fwd, fwd)
  }

  /** What `sfs_rename_other` does once both names are validated.  `canTurn` is the answer of
      `can_turn2normal`, `meta` the normal directory picked for a new meta file. */
  function RenameSteps(from: File, onto: Option<File>, canTurn: bool, meta: int, newId: nat, faults: set<nat>): Steps {
    match onto
    case None => if canTurn then TurnSteps(from, faults) else SplitSteps(from, meta, newId, faults)
    case Some(e) =>
      if !canTurn then RedirectSteps(from, e, faults)
      else if e.replica == from.replica || e.meta == from.replica then OverwriteSteps(from, e, faults)
      else HideSteps(from, e, faults)
  }

  // ---- Normal directories ----

  const SPAN_THRESHOLD := 20

  /** How many partitions may hold normal directories of one directory. */
  function Threshold(parts: int): int { if SPAN_THRESHOLD > parts then parts else SPAN_THRESHOLD }

  /** `can_turn2normal`. */
  predicate CanTurn(normal: set<int>, part: int, parts: int) { part in normal || |normal| < Threshold(parts) }

  // ---- Well-formed names ----

  /** The name has a file `f` with data file `id`: its visible entry is the data, or the meta file
      whose pointer link leads there.  Entries in other shadow directories are left-overs. */
  ghost predicate IsFile(v: View, normal: set<int>, f: File, id: nat) {
    && f.replica >= 0 && f.replica in v && v[f.replica].file == id && Lone(v, normal, Visible(f))
    && if f.meta == -1 then v[f.replica].link.None? || v[f.replica].link == Some(EMPTY)
       else f.meta >= 0 && f.meta != f.replica && v[f.meta].link == Some(Link(f.replica, -1))
  }

  /** The name is not there, though left-overs may be. */
  ghost predicate Absent(v: View, normal: set<int>) {
    forall p :: p in v ==> p !in normal
  }

  ghost predicate IsFileOrAbsent(v: View, normal: set<int>, f: Option<File>, id: Option<nat>) {
    match f
    case None => Absent(v, normal) && id.None?
    case Some(f) => id.Some? && IsFile(v, normal, f, id.value)
  }

  /** The partitions of a file. */
  function Parts(f: File): set<int> { if f.meta == -1 then {f.replica} else {f.replica, f.meta} }

  /** The entries of a name that do not belong to its file. */
  function LeftOvers(v: View, f: Option<File>): View {
    match f
    case None => v
    case Some(f) => v - Parts(f)
  }
}
