/** The dentry hash tables and what moving a dentry does to them.

    A loop-mounted superblock has a hash table of its own; all other superblocks share one. A
    dentry without a parent that is hashed is on its superblock's anonymous list instead. */
module DcacheMove {
  import opened Lists

  /** A dentry is identified by its address. */
  type Id = nat

  const TWO32 := 0x1_0000_0000
  const L1_CACHE_BYTES := 64
  const DNAME_INLINE_LEN := 32

  datatype Place = Inline | External(ptr: nat)

  /** `place` and `len` are the pointer and length of `d_name`, `iname` is the inline buffer. */
  datatype Qname = Qname(place: Place, iname: seq<char>, len: nat)

  datatype Dentry = Dentry(parent: Id, hash: nat, name: Qname, disconnected: bool)

  datatype Table = Shared | Own(sb: nat)

  datatype Bucket = Bucket(table: Table, index: nat) | Anonymous(sb: nat)

  datatype Found = Nothing | Found(x: Id)

  /** How the children of a dentry are compared with a name: as strings, or by an operation of the
      file system. */
  datatype Comparison = Exact | Custom(same: (string, string) -> bool)

  /** What never changes: each dentry's superblock, which superblocks are loop-mounted, how a parent
      and a hash are mixed into a bucket index, and how names are compared. */
  datatype Layout = Layout(sb: Id -> nat, isLoop: nat -> bool, index: (Id, nat) -> nat, compare: Id -> Comparison)

  /** What a lookup asks for. */
  datatype Path = Path(parent: Id, hash: nat, name: string)

  type Dentries = map<Id, Dentry>
  type Strings = map<nat, seq<char>>

  function Pow2(n: nat): (p: nat)
    ensures p > 0
  {
    if n == 0 then 1 else 2 * Pow2(n - 1)
  }

  /** The mixing in `d_hash`: 32-bit arithmetic on the parent's address and the name's hash. */
  function Mix(shift: nat, parent: Id, hash: nat): (index: nat)
    ensures index < Pow2(shift)
  {
    var mixed := (hash + parent / L1_CACHE_BYTES) % TWO32;
    var folded := (mixed + mixed / Pow2(shift)) % TWO32;
    folded % Pow2(shift)
  }

  /** The layout of the kernel, with tables of `Pow2(shift)` buckets each. */
  function KernelLayout(sb: Id -> nat, isLoop: nat -> bool, shift: nat, compare: Id -> Comparison): Layout {
    Layout(sb, isLoop, (parent, hash) => Mix(shift, parent, hash), compare)
  }

  /** `d_hash`: a bucket of the table of the parent's superblock. */
  function BucketOf(l: Layout, parent: Id, hash: nat): Bucket {
    Bucket(if l.isLoop(l.sb(parent)) then Own(l.sb(parent)) else Shared, l.index(parent, hash))
  }

  predicate IsRoot(x: Id, e: Dentry) { e.parent == x }

  /** The list a hashed dentry belongs on. */
  function Home(l: Layout, x: Id, e: Dentry): Bucket {
    if IsRoot(x, e) then Anonymous(l.sb(x)) else BucketOf(l, e.parent, e.hash)
  }

  // ---- Lists of dentries ----

  function Listed<K>(lists: map<K, seq<Id>>, k: K): seq<Id> {
    if k in lists then lists[k] else []
  }

  /** `on` gives, for each linked dentry, the list its links are part of: each linked dentry is
      on that list once, and on no other. */
  ghost predicate Filed<K(!new)>(on: map<Id, K>, lists: map<K, seq<Id>>) {
    && (forall k :: NoDup(Listed(lists, k)))
    && (forall k, x {:trigger x in Listed(lists, k)} :: x in Listed(lists, k) <==> x in on && on[x] == k)
  }

  function Remove<K>(lists: map<K, seq<Id>>, k: K, x: Id): map<K, seq<Id>> {
    lists[k := Without(Listed(lists, k), x)]
  }

  function Push<K>(lists: map<K, seq<Id>>, k: K, x: Id): map<K, seq<Id>> {
    lists[k := [x] + Listed(lists, k)]
  }

  lemma RemoveKeepsFiled<K(!new)>(on: map<Id, K>, lists: map<K, seq<Id>>, x: Id)
    requires Filed(on, lists) && x in on
    ensures Filed(on - {x}, Remove(lists, on[x], x))
  {
    WithoutSpec(Listed(lists, on[x]), x);
    var after := Remove(lists, on[x], x);
    forall k, y ensures y in Listed(after, k) <==> y in on - {x} && (on - {x})[y] == k {
      assert y in Listed(lists, k) <==> y in on && on[y] == k;
    }
    forall k ensures NoDup(Listed(after, k)) {
      assert NoDup(Listed(lists, k));
    }
  }

  lemma PushKeepsFiled<K(!new)>(on: map<Id, K>, lists: map<K, seq<Id>>, k: K, x: Id)
    requires Filed(on, lists) && x !in on
    ensures Filed(on[x := k], Push(lists, k, x))
  {
    var after := Push(lists, k, x);
    forall k', y ensures y in Listed(after, k') <==> y in on[x := k] && on[x := k][y] == k' {
      assert y in Listed(lists, k') <==> y in on && on[y] == k';
    }
    forall k' ensures NoDup(Listed(after, k')) {
      assert NoDup(Listed(lists, k'));
      assert x !in Listed(lists, k');
    }
  }

  // ---- Names ----

  /** A name fits where it is stored with its terminator, and no two dentries share an external string. */
  ghost predicate Stored(ds: Dentries, ext: Strings) {
    && (forall x {:trigger NameFits(ds[x].name, ext)} :: x in ds ==> NameFits(ds[x].name, ext))
    && (forall x, y {:trigger Share(ds, x, y)} :: Share(ds, x, y) ==> x == y)
  }

  predicate Share(ds: Dentries, x: Id, y: Id) {
    x in ds && y in ds && ds[x].name.place.External? && ds[x].name.place == ds[y].name.place
  }

  predicate NameFits(q: Qname, ext: Strings) {
    && |q.iname| == DNAME_INLINE_LEN
    && match q.place
       case Inline => q.len < DNAME_INLINE_LEN && q.iname[q.len] == '\0'
       case External(p) => p in ext && q.len < |ext[p]| && ext[p][q.len] == '\0'
  }

  function Name(q: Qname, ext: Strings): string
    requires NameFits(q, ext)
  {
    match q.place
    case Inline => q.iname[..q.len]
    case External(p) => ext[p][..q.len]
  }

  /** The external strings some dentry owns. */
  function Owned(ds: Dentries): set<nat> {
    set x | x in ds && ds[x].name.place.External? :: ds[x].name.place.ptr
  }

  /** `memcpy` of a name with its terminator into an inline buffer. */
  function Copied(onto: seq<char>, from: seq<char>, len: nat): (buffer: seq<char>)
    requires len < |onto| && len < |from|
    ensures |buffer| == |onto| && buffer[..len] == from[..len] && buffer[len] == from[len]
  {
    from[..len + 1] + onto[len + 1..]
  }

  /** The branches of `switch_names`. */
  function SwitchedNames(d: Qname, t: Qname, ext: Strings): (names: (Qname, Qname))
    requires NameFits(d, ext) && NameFits(t, ext)
    ensures NameFits(names.0, ext) && Name(names.0, ext) == Name(t, ext) && names.0.place == t.place
    ensures NameFits(names.1, ext) && names.1.place == d.place
    ensures Name(names.1, ext) == Name(if d.place.Inline? && t.place.Inline? then t else d, ext)
  {
    if t.place.External? then
      if d.place.External? then
        (d.(place := t.place, len := t.len), t.(place := d.place, len := d.len))
      else
        (d.(place := t.place, len := t.len), Qname(Inline, Copied(t.iname, d.iname, d.len), d.len))
    else
      if d.place.External? then
        (Qname(Inline, Copied(d.iname, t.iname, t.len), t.len), t.(place := d.place, len := d.len))
      else
        (d.(iname := Copied(d.iname, t.iname, t.len), len := t.len), t)
  }

  // ---- Paths ----

  predicate SameName(l: Layout, parent: Id, name: string, asked: string) {
    match l.compare(parent)
    case Exact => name == asked
    case Custom(same) => same(name, asked)
  }

  /** The dentry's parent, hash and name are those that `path` asks for. */
  predicate Fits(l: Layout, e: Dentry, ext: Strings, path: Path) {
    && e.parent == path.parent && e.hash == path.hash
    && NameFits(e.name, ext) && SameName(l, e.parent, Name(e.name, ext), path.name)
  }

  /** Looking up `path` may find `x`. */
  ghost predicate Answers(l: Layout, ds: Dentries, on: map<Id, Bucket>, ext: Strings, x: Id, path: Path) {
    x in ds && x in on && !IsRoot(x, ds[x]) && Fits(l, ds[x], ext, path)
  }

  /** At most one dentry answers to each path. */
  ghost predicate Unambiguous(l: Layout, ds: Dentries, on: map<Id, Bucket>, ext: Strings) {
    forall x, y, path :: Answers(l, ds, on, ext, x, path) && Answers(l, ds, on, ext, y, path) ==> x == y
  }

  // ---- The tree ----

  predicate SameSb(l: Layout, ds: Dentries, x: Id)
    requires x in ds
  {
    ds[x].parent in ds && l.sb(ds[x].parent) == l.sb(x)
  }

  /** Every parent is a dentry of the same superblock. */
  ghost predicate Closed(l: Layout, ds: Dentries) {
    forall x {:trigger SameSb(l, ds, x)} :: x in ds ==> SameSb(l, ds, x)
  }

  /** Following parents from `x` for `n` steps ends at a root. */
  ghost predicate Climbs(ds: Dentries, x: Id, n: nat)
    decreases n
  {
    x in ds && (ds[x].parent == x || (n > 0 && Climbs(ds, ds[x].parent, n - 1)))
  }

  ghost predicate HasRoot(ds: Dentries, x: Id) {
    exists n :: Climbs(ds, x, n)
  }

  ghost predicate Acyclic(ds: Dentries) {
    forall x {:trigger HasRoot(ds, x)} :: x in ds ==> HasRoot(ds, x)
  }

  /** `a` is met on the way from `x` up to its root, `x` itself not counted. */
  ghost predicate Above(ds: Dentries, a: Id, x: Id, n: nat)
    requires Climbs(ds, x, n)
    decreases n
  {
    ds[x].parent != x && (ds[x].parent == a || Above(ds, a, ds[x].parent, n - 1))
  }

  ghost predicate IsAncestor(ds: Dentries, a: Id, x: Id) {
    exists n :: Climbs(ds, x, n) && Above(ds, a, x, n)
  }

  /** How far a climb may go does not decide whom it meets. */
  lemma {:induction false} AboveWithin(ds: Dentries, a: Id, x: Id, n: nat, m: nat)
    requires Climbs(ds, x, n) && Climbs(ds, x, m) && Above(ds, a, x, n)
    ensures Above(ds, a, x, m)
    ensures n > 0 && Climbs(ds, a, n - 1)
    decreases n
  {
    if ds[x].parent != a {
      AboveWithin(ds, a, ds[x].parent, n - 1, m - 1);
      ClimbsFurther(ds, a, n - 2);
    }
  }

  lemma {:induction false} ClimbsFurther(ds: Dentries, x: Id, n: nat)
    requires Climbs(ds, x, n)
    ensures Climbs(ds, x, n + 1)
    decreases n
  {
    if ds[x].parent != x {
      ClimbsFurther(ds, ds[x].parent, n - 1);
    }
  }

  lemma {:induction false} NotAboveItself(ds: Dentries, x: Id, n: nat)
    requires Climbs(ds, x, n)
    ensures !Above(ds, x, x, n)
    decreases n
  {
    if Above(ds, x, x, n) {
      AboveWithin(ds, x, x, n, n);
      AboveWithin(ds, x, x, n, n - 1);
      NotAboveItself(ds, x, n - 1);
    }
  }

  // ---- Moving a dentry in the tree ----

  /** `after` is the tree with `d` put in the place of `t`, and `t` in that of `d`, or made a root
      if `d` was one. */
  ghost predicate Exchanged(ds: Dentries, after: Dentries, d: Id, t: Id) {
    && d in ds && t in ds && d != t && after.Keys == ds.Keys
    && (forall x :: x in ds && x != d && x != t ==> after[x].parent == ds[x].parent)
    && after[d].parent == ds[t].parent
    && after[t].parent == (if IsRoot(d, ds[d]) then t else ds[d].parent)
  }

  /** A climb that meets neither dentry is not affected. */
  lemma {:induction false} ClimbElsewhere(ds: Dentries, after: Dentries, d: Id, t: Id, x: Id, n: nat)
    requires Exchanged(ds, after, d, t) && Climbs(ds, x, n)
    requires x != d && x != t && !Above(ds, d, x, n) && !Above(ds, t, x, n)
    ensures Climbs(after, x, n)
    decreases n
  {
    if ds[x].parent != x {
      ClimbElsewhere(ds, after, d, t, ds[x].parent, n - 1);
    }
  }

  /** The place of `x` is reached without meeting `x` or a dentry that is not its ancestor. */
  lemma ClimbFromParent(ds: Dentries, after: Dentries, d: Id, t: Id, x: Id) returns (n: nat)
    requires Exchanged(ds, after, d, t) && Acyclic(ds)
    requires !IsAncestor(ds, d, t) && !IsAncestor(ds, t, d)
    requires x == d || x == t
    requires !IsRoot(x, ds[x])
    ensures Climbs(after, ds[x].parent, n)
  {
    assert HasRoot(ds, x);
    var m: nat :| Climbs(ds, x, m);
    var other := if x == d then t else d;
    NotAboveItself(ds, x, m);
    assert !Above(ds, other, x, m);
    ClimbElsewhere(ds, after, d, t, ds[x].parent, m - 1);
    n := m - 1;
  }

  lemma ClimbFromTarget(ds: Dentries, after: Dentries, d: Id, t: Id) returns (n: nat)
    requires Exchanged(ds, after, d, t) && Acyclic(ds)
    requires !IsAncestor(ds, d, t) && !IsAncestor(ds, t, d)
    ensures Climbs(after, t, n)
  {
    if IsRoot(d, ds[d]) {
      n := 0;
    } else {
      n := ClimbFromParent(ds, after, d, t, d);
      n := n + 1;
    }
  }

  lemma ClimbFromMoved(ds: Dentries, after: Dentries, d: Id, t: Id) returns (n: nat)
    requires Exchanged(ds, after, d, t) && Acyclic(ds)
    requires !IsAncestor(ds, d, t) && !IsAncestor(ds, t, d)
    ensures Climbs(after, d, n)
  {
    if IsRoot(t, ds[t]) {
      n := ClimbFromTarget(ds, after, d, t);
    } else {
      n := ClimbFromParent(ds, after, d, t, t);
    }
    n := n + 1;
  }

  lemma {:induction false} ClimbFrom(ds: Dentries, after: Dentries, d: Id, t: Id, x: Id, bound: nat) returns (n: nat)
    requires Exchanged(ds, after, d, t) && Acyclic(ds)
    requires !IsAncestor(ds, d, t) && !IsAncestor(ds, t, d)
    requires Climbs(ds, x, bound)
    ensures Climbs(after, x, n)
    decreases bound
  {
    if x == d {
      n := ClimbFromMoved(ds, after, d, t);
    } else if x == t {
      n := ClimbFromTarget(ds, after, d, t);
    } else if IsRoot(x, ds[x]) {
      n := 0;
    } else {
      n := ClimbFrom(ds, after, d, t, ds[x].parent, bound - 1);
      n := n + 1;
    }
  }

  /** Exchanging two dentries, neither above the other, makes no cycle. */
  lemma ExchangeKeepsAcyclic(ds: Dentries, after: Dentries, d: Id, t: Id)
    requires Exchanged(ds, after, d, t) && Acyclic(ds)
    requires !IsAncestor(ds, d, t) && !IsAncestor(ds, t, d)
    ensures Acyclic(after)
  {
    forall x | x in after ensures HasRoot(after, x) {
      assert HasRoot(ds, x);
      var bound: nat :| Climbs(ds, x, bound);
      var n := ClimbFrom(ds, after, d, t, x, bound);
    }
  }

  // ---- Where every dentry is ----

  /** A hashed dentry is on its home list. */
  ghost predicate Homed(l: Layout, ds: Dentries, on: map<Id, Bucket>) {
    forall x :: x in on ==> x in ds && on[x] == Home(l, x, ds[x])
  }

  /** A dentry with a parent is among its children, and a root among nobody's. */
  ghost predicate Parented(ds: Dentries, under: map<Id, Id>) {
    && (forall x :: x in under ==> x in ds && under[x] == ds[x].parent)
    && (forall x {:trigger x in under} :: x in ds ==> (x in under <==> !IsRoot(x, ds[x])))
  }

  /** The list whose lock dropping `x` takes. */
  function LockTaken(l: Layout, x: Id, e: Dentry): Bucket {
    if e.disconnected then Anonymous(l.sb(x)) else BucketOf(l, e.parent, e.hash)
  }

  /** Only disconnected dentries are on the anonymous list. */
  ghost predicate Flagged(ds: Dentries, on: map<Id, Bucket>) {
    forall x :: x in on && x in ds && IsRoot(x, ds[x]) ==> ds[x].disconnected
  }

  /** Dropping a dentry locks the list it is on, unless it is a disconnected dentry that was given a
      parent: that one is removed from a bucket under the lock of the anonymous list. */
  lemma DropLocksItsListIff(l: Layout, ds: Dentries, on: map<Id, Bucket>, x: Id)
    requires Homed(l, ds, on) && Flagged(ds, on) && x in on
    ensures LockTaken(l, x, ds[x]) == on[x] <==> !(ds[x].disconnected && !IsRoot(x, ds[x]))
  {
    assert on[x] == Home(l, x, ds[x]);
  }

  /** Every hashed dentry with a parent is in range in its superblock's own table if that is
      loop-mounted, else in the shared one. */
  lemma HashedInOwnTable(sb: Id -> nat, isLoop: nat -> bool, shift: nat, compare: Id -> Comparison,
                         ds: Dentries, on: map<Id, Bucket>, x: Id)
    requires Homed(KernelLayout(sb, isLoop, shift, compare), ds, on)
             && Closed(KernelLayout(sb, isLoop, shift, compare), ds)
    requires x in on
    ensures match on[x]
            case Anonymous(s) => IsRoot(x, ds[x]) && s == sb(x)
            case Bucket(table, index) =>
              !IsRoot(x, ds[x]) && index < Pow2(shift) && table == if isLoop(sb(x)) then Own(sb(x)) else Shared
  {
    var l := KernelLayout(sb, isLoop, shift, compare);
    assert on[x] == Home(l, x, ds[x]);
    assert SameSb(l, ds, x);
  }

  // ---- What a move does ----

  /** `after` differs from `ds` in the two dentries only, which have exchanged where their names are
      stored and their hashes; `d` has the name of `t`. */
  ghost predicate Switched(ds: Dentries, after: Dentries, ext: Strings, d: Id, t: Id) {
    && d in ds && t in ds && d != t && after.Keys == ds.Keys
    && (forall x :: x in ds && x != d && x != t ==> after[x] == ds[x])
    && after[d].name.place == ds[t].name.place && after[t].name.place == ds[d].name.place
    && NameFits(ds[t].name, ext) && NameFits(after[d].name, ext) && NameFits(after[t].name, ext)
    && Name(after[d].name, ext) == Name(ds[t].name, ext)
  }

  function Other(d: Id, t: Id, x: Id): Id { if x == d then t else if x == t then d else x }

  lemma SwitchKeepsStored(ds: Dentries, after: Dentries, ext: Strings, d: Id, t: Id)
    requires Switched(ds, after, ext, d, t) && Stored(ds, ext)
    ensures Stored(after, ext) && Owned(after) == Owned(ds)
  {
    forall x | x in after ensures NameFits(after[x].name, ext) { assert NameFits(ds[x].name, ext); }
    forall x, y | Share(after, x, y) ensures x == y {
      assert Share(ds, Other(d, t, x), Other(d, t, y));
    }
    forall p ensures p in Owned(after) <==> p in Owned(ds) {
      if p in Owned(ds) {
        var x :| x in ds && ds[x].name.place == External(p);
        var y := Other(d, t, x);
        assert after[y].name.place == External(p);
      }
      if p in Owned(after) {
        var x :| x in after && after[x].name.place == External(p);
        var y := Other(d, t, x);
        assert ds[y].name.place == External(p);
      }
    }
  }

  /** The state after a move, seen from outside. */
  ghost predicate Moved(l: Layout, ds: Dentries, after: Dentries, on: map<Id, Bucket>, onAfter: map<Id, Bucket>,
      ext: Strings, d: Id, t: Id) {
    && Switched(ds, after, ext, d, t) && Exchanged(ds, after, d, t)
    && after[d].hash == ds[t].hash && after[t].hash == ds[d].hash
    && onAfter == on[d := BucketOf(l, ds[t].parent, ds[t].hash)] - {t}
  }

  lemma ParentIsAncestor(ds: Dentries, a: Id, x: Id)
    requires Acyclic(ds) && x in ds && !IsRoot(x, ds[x]) && !IsAncestor(ds, a, x)
    ensures ds[x].parent != a
  {
    assert HasRoot(ds, x);
    var n: nat :| Climbs(ds, x, n);
    assert !Above(ds, a, x, n);
  }

  lemma MovedIsHomed(l: Layout, ds: Dentries, after: Dentries, on: map<Id, Bucket>, onAfter: map<Id, Bucket>,
      ext: Strings, d: Id, t: Id)
    requires Moved(l, ds, after, on, onAfter, ext, d, t) && Homed(l, ds, on) && ds[t].parent != d
    ensures Homed(l, after, onAfter)
  {
    forall x | x in onAfter ensures x in after && onAfter[x] == Home(l, x, after[x]) {
      if x != d {
        assert x in on && on[x] == Home(l, x, ds[x]);
      }
    }
  }

  /** The child lists after a move. */
  function UnderAfter(ds: Dentries, under: map<Id, Id>, d: Id, t: Id): map<Id, Id>
    requires d in ds && t in ds
  {
    var left := under - {d} - {t};
    var target := if IsRoot(d, ds[d]) then left else left[t := ds[d].parent];
    target[d := ds[t].parent]
  }

  lemma MovedIsParented(l: Layout, ds: Dentries, after: Dentries, under: map<Id, Id>, d: Id, t: Id)
    requires Exchanged(ds, after, d, t) && Parented(ds, under)
    requires ds[t].parent != d && ds[d].parent != t
    ensures Parented(after, UnderAfter(ds, under, d, t))
  {
    var underAfter := UnderAfter(ds, under, d, t);
    forall x | x in after && x != d && x != t ensures x in underAfter <==> !IsRoot(x, after[x]) {
      assert x in underAfter <==> x in under;
    }
  }

  lemma MovedIsClosed(l: Layout, ds: Dentries, after: Dentries, d: Id, t: Id)
    requires Exchanged(ds, after, d, t) && Closed(l, ds) && l.sb(d) == l.sb(t)
    ensures Closed(l, after)
  {
    assert SameSb(l, ds, d) && SameSb(l, ds, t);
    forall x | x in after ensures SameSb(l, after, x) {
      assert SameSb(l, ds, x);
    }
  }

  /** A move leaves every dentry in its place. */
  lemma MovedIsShaped(l: Layout, ds: Dentries, after: Dentries, on: map<Id, Bucket>, onAfter: map<Id, Bucket>,
      under: map<Id, Id>,
                      ext: Strings, d: Id, t: Id)
    requires Moved(l, ds, after, on, onAfter, ext, d, t) && Shaped(l, ds, on, under, ext) && l.sb(d) == l.sb(t)
    requires !IsAncestor(ds, d, t) && !IsAncestor(ds, t, d)
    ensures Shaped(l, after, onAfter, UnderAfter(ds, under, d, t), ext) && Owned(after) == Owned(ds)
    ensures ds[t].parent != d
  {
    if !IsRoot(t, ds[t]) { ParentIsAncestor(ds, d, t); }
    if !IsRoot(d, ds[d]) { ParentIsAncestor(ds, t, d); }
    MovedIsHomed(l, ds, after, on, onAfter, ext, d, t);
    MovedIsParented(l, ds, after, under, d, t);
    SwitchKeepsStored(ds, after, ext, d, t);
    MovedIsClosed(l, ds, after, d, t);
    ExchangeKeepsAcyclic(ds, after, d, t);
  }

  /** After a move, the path of the target finds the moved dentry, neither dentry is found by any
      other path, and every other dentry is found exactly where it was. */
  lemma MovedAnswers(l: Layout, ds: Dentries, after: Dentries, on: map<Id, Bucket>, onAfter: map<Id, Bucket>,
      ext: Strings, d: Id, t: Id,
                     x: Id, path: Path)
    requires Moved(l, ds, after, on, onAfter, ext, d, t) && ds[t].parent != d
    ensures Answers(l, after, onAfter, ext, x, path) <==>
            (if x == d then Fits(l, ds[t], ext, path) else x != t && Answers(l, ds, on, ext, x, path))
  {
    if x != d && x != t && x in ds {
      assert after[x] == ds[x];
    }
  }

  /** Paths stay unambiguous exactly if nothing else answered where the target would. */
  lemma MovedUnambiguousIff(l: Layout, ds: Dentries, after: Dentries, on: map<Id, Bucket>, onAfter: map<Id, Bucket>,
                            ext: Strings, d: Id, t: Id)
    requires Moved(l, ds, after, on, onAfter, ext, d, t) && ds[t].parent != d && Unambiguous(l, ds, on, ext)
    ensures Unambiguous(l, after, onAfter, ext) <==>
            forall x, path :: Fits(l, ds[t], ext, path) && Answers(l, ds, on, ext, x, path) ==> x == d || x == t
  {
    forall x, path
      ensures Answers(l, after, onAfter, ext, x, path) <==>
              (if x == d then Fits(l, ds[t], ext, path) else x != t && Answers(l, ds, on, ext, x, path))
    {
      MovedAnswers(l, ds, after, on, onAfter, ext, d, t, x, path);
    }
    if Unambiguous(l, after, onAfter, ext) {
      forall x, path | Fits(l, ds[t], ext, path) && Answers(l, ds, on, ext, x, path) && x != t ensures x == d {
        assert Answers(l, after, onAfter, ext, x, path) && Answers(l, after, onAfter, ext, d, path);
      }
    }
  }

  /** The walk along the chain a path hashes to. */
  method Walk(l: Layout, ds: Dentries, on: map<Id, Bucket>, table: map<Bucket, seq<Id>>, ext: Strings, path: Path)
      returns (found: Found)
    requires Filed(on, table) && Homed(l, ds, on) && Stored(ds, ext)
    ensures match found
            case Found(x) => Answers(l, ds, on, ext, x, path)
            case Nothing => forall x :: !Answers(l, ds, on, ext, x, path)
  {
    var b := BucketOf(l, path.parent, path.hash);
    var chain := Listed(table, b);
    assert forall x :: Answers(l, ds, on, ext, x, path) ==> x in chain;
    var i := 0;
    while i < |chain|
      invariant 0 <= i <= |chain|
      invariant forall j :: 0 <= j < i ==> !Answers(l, ds, on, ext, chain[j], path)
    {
      var x := chain[i];
      assert x in Listed(table, b);
      assert x in on && on[x] == b;
      assert NameFits(ds[x].name, ext);
      if ds[x].hash == path.hash && ds[x].parent == path.parent
          && SameName(l, path.parent, Name(ds[x].name, ext), path.name) {
        return Found(x);
      }
      i := i + 1;
    }
    return Nothing;
  }

  /** Every dentry is where its fields say, names are stored soundly, and parents form trees. */
  ghost predicate Shaped(l: Layout, ds: Dentries, on: map<Id, Bucket>, under: map<Id, Id>, ext: Strings) {
    && Homed(l, ds, on) && Flagged(ds, on) && Parented(ds, under)
    && Stored(ds, ext) && Closed(l, ds) && Acyclic(ds)
  }

  lemma {:induction false} SameClimb(ds: Dentries, after: Dentries, x: Id, n: nat, y: Id)
    requires x in ds && x != y && Climbs(ds, x, n)
    requires forall z :: z in ds && z != y ==> z in after && after[z] == ds[z]
    requires forall z :: z in ds && z != y ==> ds[z].parent != y
    ensures Climbs(after, x, n)
    decreases n
  {
    if ds[x].parent != x {
      SameClimb(ds, after, ds[x].parent, n - 1, y);
    }
  }

  lemma RootKeepsTree(l: Layout, ds: Dentries, x: Id, e: Dentry)
    requires Closed(l, ds) && Acyclic(ds) && x !in ds && e.parent == x
    ensures Closed(l, ds[x := e]) && Acyclic(ds[x := e])
    ensures forall z :: z in ds ==> ds[z].parent != x
  {
    var after := ds[x := e];
    forall z | z in ds ensures ds[z].parent != x { assert SameSb(l, ds, z); }
    forall z | z in after ensures SameSb(l, after, z) {
      if z != x { assert SameSb(l, ds, z); }
    }
    forall z | z in after ensures HasRoot(after, z) {
      if z == x {
        assert Climbs(after, x, 0);
      } else {
        assert HasRoot(ds, z);
        var n: nat :| Climbs(ds, z, n);
        SameClimb(ds, after, z, n, x);
      }
    }
  }

  lemma RootKeepsStored(ds: Dentries, ext: Strings, extAfter: Strings, x: Id, e: Dentry)
    requires Stored(ds, ext) && x !in ds && NameFits(e.name, extAfter)
    requires forall p :: p in ext ==> p in extAfter && extAfter[p] == ext[p]
    requires e.name.place.External? ==> e.name.place.ptr !in ext
    ensures Stored(ds[x := e], extAfter)
  {
    forall z | z in ds ensures NameFits(ds[z].name, extAfter)
        && (ds[z].name.place.External? ==> ds[z].name.place.ptr in ext) {
      assert NameFits(ds[z].name, ext);
    }
    var after := ds[x := e];
    forall y: Id, z: Id | Share(after, y, z) ensures y == z {
      if y != x && z != x {
        assert Share(ds, y, z);
      }
    }
  }

  lemma RootKeepsShape(l: Layout, ds: Dentries, on: map<Id, Bucket>, under: map<Id, Id>, ext: Strings,
      extAfter: Strings, x: Id, e: Dentry)
    requires Shaped(l, ds, on, under, ext) && x !in ds && e.parent == x && NameFits(e.name, extAfter)
    requires forall p :: p in ext ==> p in extAfter && extAfter[p] == ext[p]
    requires e.name.place.External? ==> e.name.place.ptr !in ext
    ensures Shaped(l, ds[x := e], on, under, extAfter) && x !in on
    ensures forall z :: z in ds ==> ds[z].parent != x
  {
    RootKeepsTree(l, ds, x, e);
    RootKeepsStored(ds, ext, extAfter, x, e);
  }

  lemma HangingKeepsTree(l: Layout, ds: Dentries, x: Id, parent: Id)
    requires Closed(l, ds) && Acyclic(ds) && x in ds && parent in ds && l.sb(x) == l.sb(parent) && x != parent
    requires forall z :: z in ds && z != x ==> ds[z].parent != x
    ensures Closed(l, ds[x := ds[x].(parent := parent)]) && Acyclic(ds[x := ds[x].(parent := parent)])
  {
    var after := ds[x := ds[x].(parent := parent)];
    forall z | z in after ensures SameSb(l, after, z) { assert SameSb(l, ds, z); }
    assert HasRoot(ds, parent);
    var m: nat :| Climbs(ds, parent, m);
    SameClimb(ds, after, parent, m, x);
    forall z | z in after ensures HasRoot(after, z) {
      if z == x {
        assert Climbs(after, x, m + 1);
      } else {
        assert HasRoot(ds, z);
        var n: nat :| Climbs(ds, z, n);
        SameClimb(ds, after, z, n, x);
      }
    }
  }

  lemma HangingKeepsShape(l: Layout, ds: Dentries, on: map<Id, Bucket>, under: map<Id, Id>, ext: Strings, x: Id,
      parent: Id)
    requires Shaped(l, ds, on, under, ext) && x in ds && x !in on && IsRoot(x, ds[x])
    requires parent in ds && l.sb(x) == l.sb(parent) && x != parent
    requires forall z :: z in ds && z != x ==> ds[z].parent != x
    ensures Shaped(l, ds[x := ds[x].(parent := parent)], on, under[x := parent], ext) && x !in under
  {
    HangingKeepsTree(l, ds, x, parent);
    var after := ds[x := ds[x].(parent := parent)];
    assert x !in under;
    forall z | z in after ensures NameFits(after[z].name, ext) { assert NameFits(ds[z].name, ext); }
    forall y, z | Share(after, y, z) ensures y == z { assert Share(ds, y, z); }
    forall z | z in on ensures z in after && on[z] == Home(l, z, after[z]) { assert on[z] == Home(l, z, ds[z]); }
  }

  lemma FlaggingKeepsTree(l: Layout, ds: Dentries, x: Id)
    requires Closed(l, ds) && Acyclic(ds) && x in ds
    ensures Closed(l, ds[x := ds[x].(disconnected := true)]) && Acyclic(ds[x := ds[x].(disconnected := true)])
  {
    var after := ds[x := ds[x].(disconnected := true)];
    forall z | z in after ensures SameSb(l, after, z) { assert SameSb(l, ds, z); }
    forall z | z in after ensures HasRoot(after, z) {
      assert HasRoot(ds, z);
      var n: nat :| Climbs(ds, z, n);
      SameParentsClimb(ds, after, z, n);
    }
  }

  lemma FlaggingKeepsStored(ds: Dentries, ext: Strings, x: Id)
    requires Stored(ds, ext) && x in ds
    ensures Stored(ds[x := ds[x].(disconnected := true)], ext)
  {
    var after := ds[x := ds[x].(disconnected := true)];
    forall z | z in after ensures NameFits(after[z].name, ext) { assert NameFits(ds[z].name, ext); }
    forall y, z | Share(after, y, z) ensures y == z { assert Share(ds, y, z); }
  }

  /** Setting the flag of a dentry and hashing it on the anonymous list. */
  lemma FlaggingKeepsShape(l: Layout, ds: Dentries, on: map<Id, Bucket>, under: map<Id, Id>, ext: Strings, x: Id)
    requires Shaped(l, ds, on, under, ext) && x in ds && x !in on && IsRoot(x, ds[x])
    ensures Shaped(l, ds[x := ds[x].(disconnected := true)], on[x := Anonymous(l.sb(x))], under, ext)
  {
    FlaggingKeepsTree(l, ds, x);
    FlaggingKeepsStored(ds, ext, x);
  }

  lemma {:induction false} SameParentsClimb(ds: Dentries, after: Dentries, x: Id, n: nat)
    requires after.Keys == ds.Keys && (forall z :: z in ds ==> after[z].parent == ds[z].parent) && Climbs(ds, x, n)
    ensures Climbs(after, x, n)
    decreases n
  {
    if ds[x].parent != x {
      SameParentsClimb(ds, after, ds[x].parent, n - 1);
    }
  }

  class Dcache {
    const layout: Layout
    var ds: Dentries
    /** For each hashed dentry, the list its hash links are part of. */
    var on: map<Id, Bucket>
    var table: map<Bucket, seq<Id>>
    /** For each child, the list its sibling links are part of. */
    var under: map<Id, Id>
    var kids: map<Id, seq<Id>>
    var ext: Strings
    /** The references held on each dentry. */
    var count: map<Id, nat>

    ghost predicate Linked()
      reads `on, `table, `under, `kids
    {
      Filed(on, table) && Filed(under, kids)
    }

    ghost predicate Valid()
      reads `ds, `on, `table, `under, `kids, `ext
    {
      Linked() && Shaped(layout, ds, on, under, ext)
    }

    constructor (layout: Layout)
      ensures Valid() && this.layout == layout && ds == map[] && ext == map[]
    {
      this.layout := layout;
      ds, on, table, under, kids, ext, count := map[], map[], map[], map[], map[], map[], map[];
    }

    /** `__d_alloc`: a root, not hashed, with a copy of `name`; `ptr` is the memory for a long name. */
    method AllocRoot(x: Id, hash: nat, name: string, ptr: nat)
      requires Valid() && x !in ds && ptr !in ext
      modifies `ds, `ext
      ensures Valid() && x in ds && ds == old(ds)[x := ds[x]] && IsRoot(x, ds[x]) && x !in on
      ensures ds[x].hash == hash && NameFits(ds[x].name, ext) && Name(ds[x].name, ext) == name
      ensures forall z :: z in old(ds) ==> ds[z].parent != x
      ensures if |name| < DNAME_INLINE_LEN then ext == old(ext) else ptr in ext && ext == old(ext)[ptr := ext[ptr]]
    {
      var buffer := seq(DNAME_INLINE_LEN, i => '\0');
      var q := Qname(Inline, buffer, |name|);
      if |name| > DNAME_INLINE_LEN - 1 {
        q := q.(place := External(ptr));
        ext := ext[ptr := name + "\0"];
      } else {
        q := q.(iname := name + buffer[|name|..]);
      }
      var e := Dentry(x, hash, q, false);
      RootKeepsShape(layout, ds, on, under, old(ext), ext, x, e);
      ds := ds[x := e];
    }

    /** `d_alloc`: a child of `parent`, not hashed. */
    method Alloc(x: Id, parent: Id, hash: nat, name: string, ptr: nat)
      requires Valid() && x !in ds && ptr !in ext && parent in ds && layout.sb(x) == layout.sb(parent)
      modifies `ds, `ext, `under, `kids
      ensures Valid() && x in ds && ds == old(ds)[x := ds[x]] && ds[x].parent == parent && x !in on
      ensures ds[x].hash == hash && NameFits(ds[x].name, ext) && Name(ds[x].name, ext) == name
      ensures if |name| < DNAME_INLINE_LEN then ext == old(ext) else ptr in ext && ext == old(ext)[ptr := ext[ptr]]
    {
      AllocRoot(x, hash, name, ptr);
      HangingKeepsShape(layout, ds, on, under, ext, x, parent);
      ds := ds[x := ds[x].(parent := parent)];
      JoinSiblings(x, parent);
    }

    /** `d_obtain_alias`: a disconnected dentry, on the anonymous list of its superblock. */
    method ObtainAlias(x: Id, ptr: nat)
      requires Valid() && x !in ds && ptr !in ext
      modifies `ds, `ext, `on, `table
      ensures Valid() && x in ds && ds == old(ds)[x := ds[x]] && IsRoot(x, ds[x]) && ds[x].disconnected
      ensures on == old(on)[x := Anonymous(layout.sb(x))] && forall z :: z in old(ds) ==> ds[z].parent != x
    {
      AllocRoot(x, 0, "/", ptr);
      FlaggingKeepsShape(layout, ds, on, under, ext, x);
      ds := ds[x := ds[x].(disconnected := true)];
      Rehash(x, Anonymous(layout.sb(x)));
    }

    /** `_d_rehash`: `x` now answers to its path. */
    method Hash(x: Id)
      requires Valid() && x in ds && x !in on && !IsRoot(x, ds[x])
      modifies `on, `table
      ensures Valid() && on.Keys == old(on).Keys + {x}
    {
      Rehash(x, BucketOf(layout, ds[x].parent, ds[x].hash));
    }

    /** `__d_drop`; `lock` is the list whose lock is taken for it. */
    method Drop(x: Id) returns (lock: Bucket)
      requires Linked() && x in ds
      modifies `on, `table
      ensures Linked() && on == old(on) - {x} && lock == LockTaken(layout, x, ds[x])
    {
      lock := if ds[x].disconnected then Anonymous(layout.sb(x)) else BucketOf(layout, ds[x].parent, ds[x].hash);
      if x in on {
        RemoveKeepsFiled(on, table, x);
        table := Remove(table, on[x], x);
        on := on - {x};
      } else {
        assert on - {x} == on;
      }
    }

    /** `__d_rehash`. */
    method Rehash(x: Id, b: Bucket)
      requires Linked() && x !in on
      modifies `on, `table
      ensures Linked() && on == old(on)[x := b]
    {
      PushKeepsFiled(on, table, b, x);
      table := Push(table, b, x);
      on := on[x := b];
    }

    method LeaveSiblings(x: Id)
      requires Linked()
      modifies `under, `kids
      ensures Linked() && under == old(under) - {x}
    {
      if x in under {
        RemoveKeepsFiled(under, kids, x);
        kids := Remove(kids, under[x], x);
        under := under - {x};
      } else {
        assert under - {x} == under;
      }
    }

    method JoinSiblings(x: Id, parent: Id)
      requires Linked() && x !in under
      modifies `under, `kids
      ensures Linked() && under == old(under)[x := parent]
    {
      PushKeepsFiled(under, kids, parent, x);
      kids := Push(kids, parent, x);
      under := under[x := parent];
    }

    /** `__d_lookup`: a dentry that answers is found if there is one, and a reference to it taken. */
    method Lookup(path: Path) returns (found: Found)
      requires Valid() && count.Keys == ds.Keys
      modifies `count
      ensures Valid() && count.Keys == ds.Keys
      ensures match found
              case Found(x) => Answers(layout, ds, on, ext, x, path) && x in old(count)
                  && count == old(count)[x := old(count)[x] + 1]
              case Nothing => count == old(count) && forall x :: !Answers(layout, ds, on, ext, x, path)
    {
      found := Walk(layout, ds, on, table, ext, path);
      if found.Found? {
        count := count[found.x := count[found.x] + 1];
      }
    }

    /** `switch_names`: `d` takes the name of `t`, and each external string keeps exactly one owner.
        With both names inline, `t` keeps its own. */
    method SwitchNames(d: Id, t: Id)
      requires Stored(ds, ext) && d in ds && t in ds && d != t
      modifies `ds
      ensures Switched(old(ds), ds, ext, d, t) && Stored(ds, ext) && Owned(ds) == old(Owned(ds))
      ensures ds[d] == old(ds)[d].(name := ds[d].name) && ds[t] == old(ds)[t].(name := ds[t].name)
      ensures Name(ds[t].name, ext) ==
              if old(ds)[d].name.place.Inline?
                  && old(ds)[t].name.place.Inline? then Name(old(ds)[t].name, ext) else Name(old(ds)[d].name, ext)
    {
      assert NameFits(ds[d].name, ext) && NameFits(ds[t].name, ext);
      var names := SwitchedNames(ds[d].name, ds[t].name, ext);
      ds := ds[d := ds[d].(name := names.0)][t := ds[t].(name := names.1)];
      SwitchKeepsStored(old(ds), ds, ext, d, t);
    }

    /** `d_ancestor`. */
    method Ancestor(a: Id, x: Id) returns (found: Found)
      requires Acyclic(ds) && x in ds
      ensures found.Found? <==> IsAncestor(ds, a, x)
      ensures found.Found? ==> found.x in ds && !IsRoot(found.x, ds[found.x]) && ds[found.x].parent == a
    {
      var p := x;
      assert HasRoot(ds, x);
      ghost var n: nat :| Climbs(ds, x, n);
      ghost var left := n;
      while !IsRoot(p, ds[p])
        invariant Climbs(ds, p, left)
        invariant Above(ds, a, x, n) <==> Above(ds, a, p, left)
        decreases left
      {
        if ds[p].parent == a {
          return Found(p);
        }
        p := ds[p].parent;
        left := left - 1;
      }
      found := Nothing;
      if m: nat :| Climbs(ds, x, m) && Above(ds, a, x, m) {
        AboveWithin(ds, a, x, m, n);
      }
    }

    /** The moved dentry goes to the bucket of the target, before it has the target's fields, and the
        target is unhashed. */
    method MoveHash(d: Id, t: Id)
      requires Linked() && d in ds && t in ds && d != t
      modifies `on, `table
      ensures Linked() && on == old(on)[d := BucketOf(layout, ds[t].parent, ds[t].hash)] - {t}
    {
      var _ := Drop(d);
      Rehash(d, BucketOf(layout, ds[t].parent, ds[t].hash));
      var _ := Drop(t);
    }

    /** The two dentries exchange name, hash and parent. */
    method SwapFields(d: Id, t: Id)
      requires Stored(ds, ext) && d in ds && t in ds && d != t
      modifies `ds
      ensures Switched(old(ds), ds, ext, d, t) && Exchanged(old(ds), ds, d, t)
      ensures ds[d].hash == old(ds)[t].hash && ds[t].hash == old(ds)[d].hash
      ensures ds[d].disconnected == old(ds)[d].disconnected && ds[t].disconnected == old(ds)[t].disconnected
    {
      SwitchNames(d, t);
      var e, f := ds[d].(hash := ds[t].hash), ds[t].(hash := ds[d].hash);
      if IsRoot(d, e) {
        e, f := e.(parent := f.parent), f.(parent := t);
      } else {
        e, f := e.(parent := f.parent), f.(parent := e.parent);
      }
      ds := ds[d := e][t := f];
    }

    /** `__d_move`. */
    method Move(d: Id, t: Id)
      requires Valid() && d in ds && t in ds && d != t && layout.sb(d) == layout.sb(t)
      requires !IsAncestor(ds, d, t) && !IsAncestor(ds, t, d)
      modifies `ds, `on, `table, `under, `kids
      ensures Valid() && Moved(layout, old(ds), ds, old(on), on, ext, d, t)
      ensures Owned(ds) == old(Owned(ds))
      ensures forall x, path :: Answers(layout, ds, on, ext, x, path) <==>
              (if x == d then Fits(layout, old(ds)[t], ext, path)
               else x != t && Answers(layout, old(ds), old(on), ext, x, path))
      ensures ds[d].disconnected == old(ds)[d].disconnected
    {
      MoveHash(d, t);
      LeaveSiblings(d);
      LeaveSiblings(t);
      var wasRoot := IsRoot(d, ds[d]);
      SwapFields(d, t);
      if !wasRoot {
        JoinSiblings(t, ds[t].parent);
      }
      JoinSiblings(d, ds[d].parent);

      assert under == UnderAfter(old(ds), old(under), d, t);
      MovedIsShaped(layout, old(ds), ds, old(on), on, old(under), ext, d, t);
      forall x, path ensures Answers(layout, ds, on, ext, x, path) <==>
          (if x == d then Fits(layout, old(ds)[t], ext, path)
               else x != t && Answers(layout, old(ds), old(on), ext, x, path))
      {
        MovedAnswers(layout, old(ds), ds, old(on), on, ext, d, t, x, path);
      }
    }
  }

  /** A dentry whose parent is a root, or that is a root itself, has no other ancestor. */
  lemma ShallowAncestors(ds: Dentries, a: Id, x: Id)
    requires x in ds && ds[x].parent in ds && IsRoot(ds[x].parent, ds[ds[x].parent]) && ds[x].parent != a
    ensures !IsAncestor(ds, a, x)
  {
    forall n: nat | Climbs(ds, x, n) ensures !Above(ds, a, x, n) { }
  }

  /** A run in which the wrong lock is taken: an anonymous dentry is moved to a place in the tree, as
      `d_splice_alias` does, and then dropped. */
  method SpliceAndDrop(layout: Layout, root: Id, target: Id, alias: Id, hash: nat, name: string, ptr: nat)
    returns (lock: Bucket, list: Bucket)
    requires root != target && root != alias && target != alias && |name| < DNAME_INLINE_LEN
    requires layout.sb(root) == layout.sb(target) == layout.sb(alias)
    ensures lock == Anonymous(layout.sb(alias)) && list == BucketOf(layout, root, hash) && lock != list
  {
    var cache := new Dcache(layout);
    cache.AllocRoot(root, 0, "/", ptr);
    cache.Alloc(target, root, hash, name, ptr);
    cache.ObtainAlias(alias, ptr);
    ShallowAncestors(cache.ds, alias, target);
    ShallowAncestors(cache.ds, target, alias);
    cache.Move(alias, target);
    list := cache.on[alias];
    lock := cache.Drop(alias);
  }
}
