/** The on-disk entries of one user-visible name, and the recovery code that repairs them.

    A name may have an entry in any partition.  Each entry is a file plus an optional link
    record (`trusted.sfs.meta`).  `Validate` follows `validate_partitioned_file` branch by
    branch; `Means` says, independently of that code, which data file a set of entries
    stands for. */
module SfsView {
  import opened Options

  /** The four slots of the link record; -1 is "no link". */
  datatype Record = Record(pointer: int, rename: int, hidden: int, stale: int)

  const EMPTY := Record(-1, -1, -1, -1)

  datatype Entry = Entry(file: nat, link: Option<Record>)

  /** The entries of one name, by partition. */
  type View = map<int, Entry>

  datatype Op = Put(part: int, rec: Record) | Unlink(part: int)

  function Apply(v: View, op: Op): View {
    match op
    case Put(p, r) => if p in v then v[p := v[p].(link := Some(r))] else v
    case Unlink(p) => v - {p}
  }

  function RunOps(v: View, ops: seq<Op>): View {
    if ops == [] then v else RunOps(Apply(v, ops[0]), ops[1..])
  }

  /** What recovery does to the entries, and the `replica_id` and `meta_id` it sets
      (-1: left alone). */
  datatype Plan = Plan(ops: seq<Op>, replica: int, meta: int)

  function UnlinkIfThere(v: View, p: int): seq<Op> {
    if p in v then [Unlink(p)] else []
  }

  /** Condition 0: the entry hides a stale file, which goes away together with its data. */
  function DropStale(v: View, local: int, r: Record): Plan {
    var s := r.stale;
    var ops := if s !in v then []
               else (if v[s].link.Some? && v[s].link.value.pointer != -1
                     then UnlinkIfThere(v, v[s].link.value.pointer) else []) + [Unlink(s)];
    Plan(ops + [Put(local, EMPTY)], local, -1)
  }

  /** Condition 1.1: the entry is hidden and the file that hides it is in place. */
  function DropHidden(v: View, local: int, r: Record): Plan {
    Plan((if r.pointer != -1 then UnlinkIfThere(v, r.pointer) else []) + [Unlink(local), Put(r.hidden, EMPTY)],
         r.hidden, -1)
  }

  /** Condition 2.1: a rename link whose target is in place becomes a pointer link. */
  function Redirect(v: View, local: int, r: Record): Plan {
    Plan((if r.pointer >= 0 then UnlinkIfThere(v, r.pointer) else []) + [Put(local, Record(r.rename, -1, -1, -1))],
         r.rename, local)
  }

  /** Condition 3: only the pointer link is left to follow.  `pre` and `replica` come from
      the conditions that fell through. */
  function FollowPointer(v: View, local: int, r: Record, pre: seq<Op>, replica: int): Plan {
    if r.pointer < 0 then Plan(pre, local, -1)
    else if r.pointer !in v then Plan(pre + [Unlink(local)], replica, -1)
    else
      var back := v[r.pointer].link;
      Plan(pre + (if back.None? || back.value.pointer != local then [Put(r.pointer, Record(local, -1, -1, -1))]
          else []),
           r.pointer, local)
  }

  /** Conditions 2 and 3 on a record whose hidden link is gone. */
  function FollowRename(v: View, local: int, r: Record, pre: seq<Op>, replica: int): Plan {
    if r.rename < 0 then FollowPointer(v, local, r, pre, replica)
    else if r.rename == local then Plan(pre + [Put(local, EMPTY)], local, -1)
    else if r.rename in v then
      var p := Redirect(v, local, r);
      p.(ops := pre + p.ops)
    else FollowPointer(v, local, r, pre + [Put(local, r.(rename := -1))], replica)
  }

  /** `validate_partitioned_file` on the entry in partition `local`. */
  function Validate(v: View, local: int): Plan
    requires local in v
  {
    match v[local].link
    case None => Plan([], local, -1)
    case Some(r) =>
      if r.stale >= 0 then DropStale(v, local, r)
      else if r.hidden >= 0 then
        if r.hidden in v then DropHidden(v, local, r)
        else
          var r' := r.(hidden := -1);
          FollowRename(v, local, r', [Put(local, r')], local)
      else FollowRename(v, local, r, [], -1)
  }

  /** The partition `sfs_lookup` stops at: the lowest one from `p` on that is normal and has
      an entry; `n` when there is none. */
  function First(v: View, normal: set<int>, p: int, n: int): (r: int)
    requires p <= n
    ensures p <= r <= n
    ensures r < n ==> r in v && r in normal
    ensures forall q :: p <= q < r ==> !(q in v && q in normal)
    decreases n - p
  {
    if p == n || (p in v && p in normal) then p else First(v, normal, p + 1, n)
  }

  /** One recovery pass: look the name up and validate what the scan finds. */
  function Lookup(v: View, normal: set<int>, n: nat): Plan {
    var p := First(v, normal, 0, n);
    if p == n then Plan([], -1, -1) else Validate(v, p)
  }

  function Recovered(v: View, normal: set<int>, n: nat): View {
    RunOps(v, Lookup(v, normal, n).ops)
  }

  /** The data file the name resolves to after one recovery pass. */
  function Resolved(v: View, normal: set<int>, n: nat): Option<nat> {
    var plan := Lookup(v, normal, n);
    var after := Recovered(v, normal, n);
    if plan.replica != -1 && plan.replica in after then Some(after[plan.replica].file) else None
  }

  // ---- What the entries of a name stand for, without running recovery ----

  ghost predicate Lone(v: View, normal: set<int>, p: int) {
    && p in v && p in normal
    && forall x :: x in v && x in normal ==> x == p
  }

  /** The entry in partition `x` has a pointer link to partition `p`. */
  predicate PointsBack(v: View, x: int, p: int) {
    x in v && v[x].link.Some? && v[x].link.value.pointer == p
  }

  /** The data file behind the only visible entry. */
  ghost predicate LoneMeans(v: View, p: int, file: Option<nat>)
    requires p in v
  {
    match v[p].link
    case None => file == Some(v[p].file)
    case Some(r) =>
      r.pointer >= -1 && r.rename >= -1 && r.hidden >= -1 && r.stale >= -1 &&
      if r.stale >= 0 then r.stale != p && file == if PointsBack(v, r.stale, p) then None else Some(v[p].file)
      else if r.hidden >= 0 then r.hidden !in v && r.rename == r.pointer == -1 && file == Some(v[p].file)
      else if r.rename >= 0 then
        && r.pointer == -1
        && file == Some(if r.rename in v then v[r.rename].file else v[p].file)
      else if r.pointer >= 0 then
        && r.pointer != p
        && file == if r.pointer in v then Some(v[r.pointer].file) else None
      else r == EMPTY && file == Some(v[p].file)
  }

  /** Two visible entries: `h` is hidden by `q`, and `q` knows `h` is stale. */
  ghost predicate HiddenPair(v: View, normal: set<int>, h: int, q: int) {
    && h != q && h in v && q in v && h in normal && q in normal
    && (forall x :: x in v && x in normal ==> x == h || x == q)
    && v[h].link == Some(Record(-1, -1, q, -1))
    && v[q].link == Some(Record(-1, -1, -1, h))
  }

  ghost predicate Means(v: View, normal: set<int>, file: Option<nat>) {
    || (file.None? && forall x :: x in v ==> x !in normal)
    || (exists p :: Lone(v, normal, p) && LoneMeans(v, p, file))
    || (exists h, q :: HiddenPair(v, normal, h, q) && file == Some(v[q].file))
  }

  /** `Means` holds now and after every single operation of `ops`. */
  ghost predicate MeansThroughout(v: View, ops: seq<Op>, normal: set<int>, file: Option<nat>)
    decreases |ops|
  {
    Means(v, normal, file) && (ops != [] ==> MeansThroughout(Apply(v, ops[0]), ops[1..], normal, file))
  }

  ghost predicate InRange(normal: set<int>, n: nat) {
    forall p :: p in normal ==> 0 <= p < n
  }
}
