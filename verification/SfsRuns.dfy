/** A whole file system over time: any sequence of lookups, creates, unlinks and renames, each of which
    may fail or be cut short by a crash, on any number of directories and names, with the dentries that
    outlive the calls. */
module SfsRuns {
  import opened Options
  import opened SfsView
  import opened SfsRename
  import opened SfsCall
  import opened SfsDescent
  import opened SfsCrash
  import opened SfsTheorems
  import opened SfsRecovery
  import opened SfsComplete
  import opened SfsLeftOver
  import opened SfsDentry

  datatype Name = Name(dir: nat, name: string)

  /** The normal set of every directory, the entries of every name over `parts` partitions, and the
      dentries that are cached. */
  datatype Fs = Fs(parts: nat, normal: map<nat, set<int>>, names: map<Name, View>, cache: map<Name, Cached>)

  function Normal(fs: Fs, dir: nat): set<int> { if dir in fs.normal then fs.normal[dir] else {} }

  function Entries(fs: Fs, n: Name): View { if n in fs.names then fs.names[n] else map[] }

  /** The file that a lookup of the name on disk would find. */
  function FileOf(fs: Fs, n: Name): Option<nat> { Resolved(Entries(fs, n), Normal(fs, n.dir), fs.parts) }

  datatype Action =
    | Look(n: Name, ops: nat)        // a lookup on disk, whose call number `ops` fails
    | Evict(n: Name)                 // the dentry is dropped from the cache
    | Crash                          // all of them are
    | Revalidate(n: Name, ops: nat)  // an unlink or rename that gets no further than validation
    | Make(n: Name, part: int, id: nat)
    | Delete(n: Name, ops: nat)      // call number `ops` after validation fails
    // `faults` fail, and a crash comes after `cut` steps
    | Rename(n: Name, onto: Name, meta: int, newId: nat, faults: set<nat>, cut: Option<nat>)

  /** The normal set of a directory once `part` has been marked, if that is possible. */
  function Marked(normal: set<int>, part: int, parts: nat): set<int> {
    if CanTurn(normal, part, parts) then normal + {part} else normal
  }

  predicate EntryOf(names: map<Name, View>, n: Name, p: int, id: nat) {
    n in names && p in names[n] && names[n][p].file == id
  }

  /** No entry anywhere has file id `id`. */
  ghost predicate Unused(fs: Fs, id: nat) {
    forall n, p {:trigger EntryOf(fs.names, n, p, id)} :: !EntryOf(fs.names, n, p, id)
  }

  function Pass0(fs: Fs, n: Name): View { Recovered(Entries(fs, n), Normal(fs, n.dir), fs.parts) }

  function FoundAt(fs: Fs, n: Name): Option<File> { Found(Entries(fs, n), Normal(fs, n.dir), fs.parts) }

  // ---- Dentries ----

  function CacheAt(fs: Fs, n: Name): Option<Cached> { if n in fs.cache then Some(fs.cache[n]) else None }

  /** The dentry has an inode, and the entry it calls visible is there. */
  predicate Live(fs: Fs, n: Name) {
    n in fs.cache && fs.cache[n].Positive? && Visible(fs.cache[n].ids) in Entries(fs, n)
  }

  function AsCached(f: Option<File>): Cached { match f case None => Negative case Some(f) => Positive(f) }

  /** What a lookup makes of a new dentry. */
  function Answer(v: View, normal: set<int>, n: nat): Cached {
    var plan := Lookup(v, normal, n);
    if plan.replica == -1 then Negative else Positive(File(plan.replica, plan.meta))
  }

  function Upto(ops: seq<Op>, n: nat): seq<Op> { if n <= |ops| then ops[..n] else ops }

  /** The entries when validation at ids `f` is cut short. */
  function Partly(v: View, f: File, k: nat): View { RunOps(v, Upto(Check(v, f).ops, k)) }

  /** The ids, and the entries, once the dentry has been validated. */
  function IdsOf(fs: Fs, n: Name): Option<File> {
    if n in fs.cache && fs.cache[n].Positive?
    then Some(Updated(fs.cache[n].ids, Check(Entries(fs, n), fs.cache[n].ids))) else None
  }

  function Validated(fs: Fs, n: Name): View {
    if n in fs.cache && fs.cache[n].Positive? then Checked(Entries(fs, n), fs.cache[n].ids) else Entries(fs, n)
  }

  /** One name changes, on disk and in the cache. */
  function With(fs: Fs, n: Name, v: View, c: Option<Cached>): Fs {
    fs.(names := fs.names[n := v], cache := if c.Some? then fs.cache[n := c.value] else fs.cache - {n})
  }

  // ---- Steps ----

  /** The call a rename makes once both names are validated and the data's partition is marked. */
  function CallOf(fs: Fs, a: Action): Call
    requires a.Rename? && IdsOf(fs, a.n).Some?
  {
    var from := IdsOf(fs, a.n).value;
    var onto := Marked(Normal(fs, a.onto.dir), from.replica, fs.parts);
    Call(if a.n.dir == a.onto.dir then onto else Normal(fs, a.n.dir), onto, fs.parts, from, IdsOf(fs, a.onto),
        a.meta, a.newId, a.n.dir == a.onto.dir)
  }

  function NamesOf(fs: Fs, a: Action): Names
    requires a.Rename?
  {
    Names(Validated(fs, a.n), Validated(fs, a.onto))
  }

  function PlanOf(fs: Fs, a: Action): Steps
    requires a.Rename? && IdsOf(fs, a.n).Some?
  {
    Taken(CallOf(fs, a), NamesOf(fs, a), a.faults)
  }

  function CutAt(fs: Fs, a: Action): nat
    requires a.Rename? && IdsOf(fs, a.n).Some?
  {
    if a.cut.Some? then a.cut.value else Length(PlanOf(fs, a))
  }

  /** The two names when the rename has ended, or has been cut short. */
  function Result(fs: Fs, a: Action): Names
    requires a.Rename? && IdsOf(fs, a.n).Some?
  {
    RunTo(NamesOf(fs, a), PlanOf(fs, a), CutAt(fs, a))
  }

  predicate Renames(fs: Fs, a: Action)
    requires a.Rename? && IdsOf(fs, a.n).Some?
  {
    Committed(PlanOf(fs, a), CutAt(fs, a))
  }

  /** A crash empties the cache.  Otherwise the renamed dentry takes its ids to the new name, or, if the
      rename failed, both dentries keep what validation made of them. */
  function NewCache(fs: Fs, a: Action): map<Name, Cached>
    requires a.Rename? && IdsOf(fs, a.n).Some?
  {
    if a.cut.Some? then map[]
    else if Renames(fs, a) then (fs.cache - {a.n})[a.onto := Positive(Renamed(CallOf(fs, a)))]
    else fs.cache[a.n := Positive(CallOf(fs, a).from)][a.onto := AsCached(CallOf(fs, a).onto)]
  }

  ghost predicate Enabled(fs: Fs, a: Action) {
    match a
    case Look(n, _) => n !in fs.cache
    case Evict(_) => true
    case Crash => true
    case Revalidate(n, _) => Live(fs, n)
    case Make(n, part, id) =>
      && CacheAt(fs, n) == Some(Negative) && 0 <= part < fs.parts && part !in Entries(fs, n)
      && CanTurn(Normal(fs, n.dir), part, fs.parts) && Unused(fs, id)
    case Delete(n, _) => Live(fs, n) && FoundAt(fs, n).Some?
    case Rename(n, onto, meta, newId, _, _) =>
      && n != onto && Live(fs, n) && FoundAt(fs, n).Some? && (CacheAt(fs, onto) == Some(Negative) || Live(fs, onto))
      && Unused(fs, newId) && (Creates(CallOf(fs, a)) ==> meta in CallOf(fs, a).dstNormal)
  }

  /** `sfs_unlink`: the data goes first.  What is left for a dentry with doubled ids has gone with it. */
  function DeleteOps(f: File): seq<Op> {
    [Unlink(f.replica)] + if f.meta != -1 && !Doubled(f) then [Unlink(f.meta)] else []
  }

  function Next(fs: Fs, a: Action): Fs
    requires Enabled(fs, a)
  {
    match a
    case Look(n, k) =>
      var v, normal := Entries(fs, n), Normal(fs, n.dir);
      With(fs, n, Cut(v, normal, fs.parts, k),
          if k < |Lookup(v, normal, fs.parts).ops| then None else Some(Answer(v, normal, fs.parts)))
    case Evict(n) => fs.(cache := fs.cache - {n})
    case Crash => fs.(cache := map[])
    case Revalidate(n, k) =>
      var v, f := Entries(fs, n), fs.cache[n].ids;
      With(fs, n, Partly(v, f, k),
          Some(Positive(if k < |Check(v, f).ops| then f else Updated(f, Check(v, f)))))
    case Make(n, part, id) =>
      With(MarkIn(fs, n.dir, part), n, Entries(fs, n)[part := Entry(id, None)], Some(Positive(File(part, -1))))
    case Delete(n, k) =>
      var f := IdsOf(fs, n).value;
      var ops := DeleteOps(f);
      With(fs, n, RunOps(Validated(fs, n), Upto(ops, k)),
          Some(if k < |ops| || Doubled(f) then Positive(f) else Negative))
    case Rename(n, onto, _, _, _, _) =>
      var r := Result(fs, a);
      Fs(fs.parts, fs.normal[onto.dir := CallOf(fs, a).dstNormal], fs.names[n := r.src][onto := r.dst],
          NewCache(fs, a))
  }

  function MarkIn(fs: Fs, dir: nat, part: int): Fs {
    fs.(normal := fs.normal[dir := Marked(Normal(fs, dir), part, fs.parts)])
  }

  // ---- What every state keeps ----

  /** Entries are in existing partitions, and outside the normal ones only once the set is full. */
  predicate InPlace(v: View, normal: set<int>, parts: nat) {
    forall p :: p in v ==> 0 <= p < parts && (p in normal || |normal| >= Threshold(parts))
  }

  ghost predicate NameOk(fs: Fs, n: Name) {
    && Stands(Entries(fs, n), Normal(fs, n.dir)) && InPlace(Entries(fs, n), Normal(fs, n.dir), fs.parts)
    && (n in fs.cache ==> CacheOk(Entries(fs, n), Normal(fs, n.dir), fs.cache[n]))
  }

  /** No two entries share a file id. */
  ghost predicate Distinct(names: map<Name, View>) {
    forall n, m, p, q, id {:trigger EntryOf(names, n, p, id), EntryOf(names, m, q, id)} ::
        EntryOf(names, n, p, id) && EntryOf(names, m, q, id) ==> n == m && p == q
  }

  ghost predicate DirOk(fs: Fs, dir: nat) { InRange(Normal(fs, dir), fs.parts) }

  ghost predicate Inv(fs: Fs) {
    && (forall dir {:trigger DirOk(fs, dir)} :: DirOk(fs, dir))
    && (forall n {:trigger NameOk(fs, n)} :: NameOk(fs, n))
    && Distinct(fs.names)
  }

  /** The dentries that the action uses are not so wrong that it would leave entries recovery does not
      expect: a rename neither severs the file from its name nor crowds the new name, and a create finds
      the name as free as its dentry says. */
  ghost predicate Coherent(fs: Fs, a: Action) {
    && (a.Make? ==> Absent(Entries(fs, a.n), Normal(fs, a.n.dir)))
    && (a.Rename? && IdsOf(fs, a.n).Some? ==> Sound(CallOf(fs, a), NamesOf(fs, a)))
  }

  // ---- Marking a partition normal ----

  /** The two sets show the same entries. */
  predicate SameShow(v: View, normal: set<int>, more: set<int>) {
    forall p :: p in v ==> (p in normal <==> p in more)
  }

  /** A normal set that grows only while all entries are visible shows the same entries. */
  lemma MarkingKeepsView(v: View, normal: set<int>, part: int, parts: nat)
    requires InPlace(v, normal, parts)
    ensures SameShow(v, normal, Marked(normal, part, parts))
    ensures InPlace(v, Marked(normal, part, parts), parts)
  {
    if part in normal {
      assert normal + {part} == normal;
    } else if CanTurn(normal, part, parts) {
      assert |normal + {part}| == |normal| + 1;
    }
  }

  lemma SameMeaning(v: View, normal: set<int>, more: set<int>, file: Option<nat>)
    requires SameShow(v, normal, more) && Means(v, normal, file)
    ensures Means(v, more, file)
  {
    if p :| Lone(v, normal, p) && LoneMeans(v, p, file) {
      assert Lone(v, more, p);
    } else if h, q :| HiddenPair(v, normal, h, q) && file == Some(v[q].file) {
      assert HiddenPair(v, more, h, q);
    }
  }

  lemma SameKnown(v: View, normal: set<int>, more: set<int>, f: Option<File>)
    requires SameShow(v, normal, more) && Known(v, normal, f)
    ensures Known(v, more, f)
  {
    if f.None? && Shadowed(v, normal) {
      var m :| Lone(v, normal, m) && Unfinished(v[m].link, m);
      assert Lone(v, more, m);
    }
  }

  lemma SameCacheOk(v: View, normal: set<int>, more: set<int>, c: Cached)
    requires SameShow(v, normal, more) && CacheOk(v, normal, c)
    ensures CacheOk(v, more, c)
  {
    if c.Negative? {
      SameKnown(v, normal, more, None);
    } else if h :| HiddenPair(v, normal, h, c.ids.replica) {
      assert HiddenPair(v, more, h, c.ids.replica);
    }
  }

  /** Marking a partition normal leaves every name what it was. */
  lemma MarkingKeepsName(fs: Fs, dir: nat, part: int, n: Name)
    requires NameOk(fs, n)
    ensures NameOk(MarkIn(fs, dir, part), n)
  {
    if n.dir == dir {
      var v, normal := Entries(fs, n), Normal(fs, dir);
      var more := Marked(normal, part, fs.parts);
      MarkingKeepsView(v, normal, part, fs.parts);
      var f :| Means(v, normal, f);
      SameMeaning(v, normal, more, f);
      if n in fs.cache { SameCacheOk(v, normal, more, fs.cache[n]); }
    }
  }

  lemma MarkKeepsInv(fs: Fs, dir: nat, part: int)
    requires Inv(fs) && 0 <= part < fs.parts
    ensures Inv(MarkIn(fs, dir, part))
  {
    var next := MarkIn(fs, dir, part);
    forall other ensures DirOk(next, other) {
      assert DirOk(fs, other);
    }
    forall n ensures NameOk(next, n) {
      assert NameOk(fs, n);
      MarkingKeepsName(fs, dir, part, n);
    }
  }

  lemma MarkKeepsFiles(fs: Fs, dir: nat, part: int, n: Name)
    requires Inv(fs) && 0 <= part < fs.parts
    ensures FileOf(MarkIn(fs, dir, part), n) == FileOf(fs, n)
  {
    if n.dir == dir {
      var next := MarkIn(fs, dir, part);
      var f := NameStands(fs, n);
      MarkKeepsInv(fs, dir, part);
      assert DirOk(next, dir);
      MarkingKeepsView(Entries(fs, n), Normal(fs, dir), part, fs.parts);
      SameMeaning(Entries(fs, n), Normal(fs, dir), Normal(next, dir), f);
      LookupResolves(Entries(fs, n), Normal(next, dir), fs.parts, f);
    }
  }

  // ---- Single names ----

  /** The entries of `v` are among those of `w`, with their files. */
  predicate Within(v: View, w: View) {
    forall p :: p in v ==> p in w && v[p].file == w[p].file
  }

  lemma FewerDistinct(names: map<Name, View>, n: Name, v: View)
    requires Distinct(names) && Within(v, if n in names then names[n] else map[])
    ensures Distinct(names[n := v])
  {
    var next := names[n := v];
    forall a, b, p, q, id | EntryOf(next, a, p, id) && EntryOf(next, b, q, id) ensures a == b && p == q {
      assert EntryOf(names, a, p, id) && EntryOf(names, b, q, id);
    }
  }

  /** One name changes: it loses entries or has records changed, and still stands for something that its
      dentry can be about. */
  lemma NameChanges(fs: Fs, n: Name, v: View, c: Option<Cached>)
    requires Inv(fs) && Within(v, Entries(fs, n)) && Stands(v, Normal(fs, n.dir))
    requires c.Some? ==> CacheOk(v, Normal(fs, n.dir), c.value)
    ensures Inv(With(fs, n, v, c))
  {
    var next := With(fs, n, v, c);
    FewerDistinct(fs.names, n, v);
    assert NameOk(fs, n);
    forall dir ensures DirOk(next, dir) { assert DirOk(fs, dir); }
    forall m ensures NameOk(next, m) {
      assert NameOk(fs, m);
    }
  }

  lemma NameStands(fs: Fs, n: Name) returns (f: Option<nat>)
    requires Inv(fs)
    ensures Means(Entries(fs, n), Normal(fs, n.dir), f) && f == FileOf(fs, n)
    ensures InPlace(Entries(fs, n), Normal(fs, n.dir), fs.parts) && InRange(Normal(fs, n.dir), fs.parts)
    ensures n in fs.cache ==> CacheOk(Entries(fs, n), Normal(fs, n.dir), fs.cache[n])
  {
    assert NameOk(fs, n) && DirOk(fs, n.dir);
    f :| Means(Entries(fs, n), Normal(fs, n.dir), f);
    LookupResolves(Entries(fs, n), Normal(fs, n.dir), fs.parts, f);
  }

  /** What a pass over a name makes of it. */
  lemma NamePassed(fs: Fs, n: Name)
    requires Inv(fs)
    ensures Within(Pass0(fs, n), Entries(fs, n)) && InPlace(Pass0(fs, n), Normal(fs, n.dir), fs.parts)
    ensures IsFileOrAbsent(Pass0(fs, n), Normal(fs, n.dir), FoundAt(fs, n), FileOf(fs, n))
    ensures FoundAt(fs, n).Some? <==> FileOf(fs, n).Some?
  {
    var f := NameStands(fs, n);
    ValidatedIsFile(Entries(fs, n), Normal(fs, n.dir), fs.parts, f);
    PassKeepsFiles(Entries(fs, n), Normal(fs, n.dir), fs.parts);
  }

  /** Validation at the ids of a live dentry is a pass over the name; the ids are then those of the file
      found, or doubled. */
  lemma NameValidated(fs: Fs, n: Name)
    requires Inv(fs) && Live(fs, n)
    ensures Validated(fs, n) == Pass0(fs, n) && Check(Entries(fs, n), fs.cache[n].ids) == Lookup(Entries(fs, n),
        Normal(fs, n.dir), fs.parts)
    ensures IdsOf(fs, n).Some? && Known(Validated(fs, n), Normal(fs, n.dir), IdsOf(fs, n))
    ensures FoundAt(fs, n).Some? ==> FoundAt(fs, n).value == Plain(IdsOf(fs, n).value)
  {
    var f := NameStands(fs, n);
    CheckIsLookup(Entries(fs, n), Normal(fs, n.dir), fs.parts, fs.cache[n].ids);
    CheckedKnown(Entries(fs, n), Normal(fs, n.dir), fs.parts, fs.cache[n].ids);
  }

  /** A name that loses entries may leave its dentry behind. */
  lemma CacheShrinks(v: View, w: View, normal: set<int>, f: File)
    requires Within(v, w) && f.replica >= 0 && f.meta >= -1
    requires Lone(w, normal, Visible(f)) || (Absent(w, normal) && Visible(f) !in w)
    ensures CacheOk(v, normal, Positive(f))
  {
  }

  lemma KnownCacheOk(v: View, normal: set<int>, f: Option<File>)
    requires Known(v, normal, f)
    ensures CacheOk(v, normal, AsCached(f))
  {
  }

  lemma PartlyIsCut(v: View, normal: set<int>, n: nat, f: File, k: nat)
    requires InRange(normal, n) && CacheOk(v, normal, Positive(f)) && Visible(f) in v
    ensures Partly(v, f, k) == Cut(v, normal, n, k)
  {
    CheckIsLookup(v, normal, n, f);
  }

  /** A pass that is cut short leaves the ids to be about the entry they were about. */
  lemma CutCacheOk(v: View, normal: set<int>, n: nat, f: File, k: nat)
    requires InRange(normal, n) && CacheOk(v, normal, Positive(f)) && Visible(f) in v
    ensures CacheOk(Cut(v, normal, n, k), normal, Positive(f))
  {
    var ops := Lookup(v, normal, n).ops;
    OpsKeepFiles(v, Upto(ops, k));
    if Lone(v, normal, Visible(f)) {
      CacheShrinks(Cut(v, normal, n, k), v, normal, f);
    } else {
      var h, q :| q == f.replica && HiddenPair(v, normal, h, q);
      FirstOfPair(v, normal, n, h, q);
      assert ops == [Unlink(h), Put(q, EMPTY)];
      RunOne(v, Unlink(h));
      RunTwo(v, Unlink(h), Put(q, EMPTY));
      assert ops[..0] == [] && ops[..1] == [Unlink(h)] && ops[..2] == ops;
    }
  }

  lemma CutOk(v: View, normal: set<int>, n: nat, k: nat, file: Option<nat>)
    requires InRange(normal, n) && Means(v, normal, file)
    ensures Within(Cut(v, normal, n, k), v) && Stands(Cut(v, normal, n, k), normal)
    ensures k >= |Lookup(v, normal, n).ops| ==> Cut(v, normal, n, k) == Recovered(v, normal, n)
  {
    var ops := Lookup(v, normal, n).ops;
    CutKeepsMeaning(v, normal, n, k, file);
    OpsKeepFiles(v, Upto(ops, k));
    assert ops[..|ops|] == ops;
  }

  lemma LookKeepsInv(fs: Fs, n: Name, k: nat)
    requires Inv(fs) && Enabled(fs, Look(n, k))
    ensures Inv(Next(fs, Look(n, k)))
  {
    var f := NameStands(fs, n);
    var v, normal := Entries(fs, n), Normal(fs, n.dir);
    CutOk(v, normal, fs.parts, k, f);
    AnswerOk(v, normal, fs.parts, f);
    NameChanges(fs, n, Cut(v, normal, fs.parts, k),
        if k < |Lookup(v, normal, fs.parts).ops| then None else Some(Answer(v, normal, fs.parts)));
  }

  lemma AnswerOk(v: View, normal: set<int>, n: nat, file: Option<nat>)
    requires InRange(normal, n) && Means(v, normal, file)
    ensures CacheOk(Recovered(v, normal, n), normal, Answer(v, normal, n))
  {
    var plan := Lookup(v, normal, n);
    ValidatedIsFile(v, normal, n, file);
    OpsKeepFiles(v, plan.ops);
    if file.None? && plan.replica != -1 {
      var p :| Lone(v, normal, p) && LoneMeans(v, p, file);
      FirstIsLone(v, normal, n, p);
    }
  }

  lemma PartlyOk(v: View, normal: set<int>, n: nat, f: File, k: nat, file: Option<nat>)
    requires InRange(normal, n) && Means(v, normal, file) && CacheOk(v, normal, Positive(f)) && Visible(f) in v
    ensures Within(Partly(v, f, k), v) && Stands(Partly(v, f, k), normal)
    ensures CacheOk(Partly(v, f, k), normal, Positive(if k < |Check(v, f).ops| then f else Updated(f, Check(v, f))))
  {
    PartlyIsCut(v, normal, n, f, k);
    CheckIsLookup(v, normal, n, f);
    CutOk(v, normal, n, k, file);
    if k < |Check(v, f).ops| {
      CutCacheOk(v, normal, n, f, k);
    } else {
      CheckedKnown(v, normal, n, f);
      KnownCacheOk(Checked(v, f), normal, Some(Updated(f, Check(v, f))));
    }
  }

  lemma RevalidateKeepsInv(fs: Fs, n: Name, k: nat)
    requires Inv(fs) && Enabled(fs, Revalidate(n, k))
    ensures Inv(Next(fs, Revalidate(n, k)))
  {
    var file := NameStands(fs, n);
    var v, f := Entries(fs, n), fs.cache[n].ids;
    PartlyOk(v, Normal(fs, n.dir), fs.parts, f, k, file);
    NameChanges(fs, n, Partly(v, f, k), Some(Positive(if k < |Check(v, f).ops| then f else Updated(f, Check(v, f)))));
  }

  /** Deleting is crash atomic: until the data goes the name has its file, and then nothing. */
  lemma DeleteAtomic(v: View, normal: set<int>, n: nat, f: File, id: nat, k: nat)
    requires InRange(normal, n) && IsFile(v, normal, Plain(f), id)
    ensures Means(RunOps(v, Upto(DeleteOps(f), k)), normal, if k == 0 then Some(id) else None)
    ensures Within(RunOps(v, Upto(DeleteOps(f), k)), v)
    ensures k >= |DeleteOps(f)| ==> Absent(RunOps(v, Upto(DeleteOps(f), k)), normal)
  {
    var ops := DeleteOps(f);
    FileMeans(v, normal, Plain(f), id);
    OpsKeepFiles(v, Upto(ops, k));
    var w := Apply(v, Unlink(f.replica));
    if k > 0 {
      RunOne(v, Unlink(f.replica));
      if Plain(f).meta == -1 {
        assert Upto(ops, k) == [Unlink(f.replica)];
        assert Absent(w, normal);
      } else if k == 1 {
        assert Upto(ops, k) == [Unlink(f.replica)];
        MeansLone(w, normal, f.meta, None);
      } else {
        assert Upto(ops, k) == [Unlink(f.replica), Unlink(f.meta)];
        RunTwo(v, Unlink(f.replica), Unlink(f.meta));
        assert Absent(Apply(w, Unlink(f.meta)), normal);
      }
    } else {
      assert Upto(ops, k) == [];
    }
  }

  lemma DeleteKeepsInv(fs: Fs, n: Name, k: nat)
    requires Inv(fs) && Enabled(fs, Delete(n, k))
    ensures Inv(Next(fs, Delete(n, k)))
  {
    var was := NameStands(fs, n);
    NamePassed(fs, n);
    NameValidated(fs, n);
    var f, v, normal := IdsOf(fs, n).value, Validated(fs, n), Normal(fs, n.dir);
    DeleteAtomic(v, normal, fs.parts, f, FileOf(fs, n).value, k);
    var w := RunOps(v, Upto(DeleteOps(f), k));
    CacheShrinks(w, v, normal, f);
    NameChanges(fs, n, w, Some(if k < |DeleteOps(f)| || Doubled(f) then Positive(f) else Negative));
  }

  // ---- Creating ----

  lemma OneMoreDistinct(fs: Fs, n: Name, part: int, id: nat)
    requires Distinct(fs.names) && Unused(fs, id)
    ensures Distinct(fs.names[n := Entries(fs, n)[part := Entry(id, None)]])
  {
    var next := fs.names[n := Entries(fs, n)[part := Entry(id, None)]];
    forall a, b, p, q, i | EntryOf(next, a, p, i) && EntryOf(next, b, q, i) ensures a == b && p == q {
      assert i != id ==> EntryOf(fs.names, a, p, i) && EntryOf(fs.names, b, q, i);
      assert !EntryOf(fs.names, a, p, id) && !EntryOf(fs.names, b, q, id);
    }
  }

  lemma MadeStands(v: View, normal: set<int>, part: int, id: nat)
    requires (forall p :: p in v && p != part ==> p !in normal) && part in normal
    ensures Means(v[part := Entry(id, None)], normal, Some(id))
  {
    MeansLone(v[part := Entry(id, None)], normal, part, Some(id));
  }

  lemma MadeOk(fs: Fs, n: Name, part: int, id: nat)
    requires Inv(fs) && Enabled(fs, Make(n, part, id)) && Coherent(fs, Make(n, part, id))
    ensures NameOk(Next(fs, Make(n, part, id)), n) && FileOf(Next(fs, Make(n, part, id)), n) == Some(id)
  {
    var marked, next := MarkIn(fs, n.dir, part), Next(fs, Make(n, part, id));
    MarkKeepsInv(fs, n.dir, part);
    assert NameOk(fs, n) && DirOk(marked, n.dir);
    MarkingKeepsView(Entries(fs, n), Normal(fs, n.dir), part, fs.parts);
    MadeStands(Entries(fs, n), Normal(next, n.dir), part, id);
    LookupResolves(next.names[n], Normal(next, n.dir), fs.parts, Some(id));
  }

  lemma MakeKeepsInv(fs: Fs, n: Name, part: int, id: nat)
    requires Inv(fs) && Enabled(fs, Make(n, part, id)) && Coherent(fs, Make(n, part, id))
    ensures Inv(Next(fs, Make(n, part, id))) && FileOf(Next(fs, Make(n, part, id)), n) == Some(id)
  {
    var marked, next := MarkIn(fs, n.dir, part), Next(fs, Make(n, part, id));
    MarkKeepsInv(fs, n.dir, part);
    OneMoreDistinct(fs, n, part, id);
    MadeOk(fs, n, part, id);
    forall dir ensures DirOk(next, dir) { assert DirOk(marked, dir); }
    forall m ensures NameOk(next, m) {
      if m != n { assert NameOk(marked, m); }
    }
  }

  // ---- Renaming ----

  /** What a rename can assume of a name once it has been validated and its directory marked. */
  lemma ReadyName(fs: Fs, n: Name, part: int)
    requires Inv(fs) && (CacheAt(fs, n) == Some(Negative) || Live(fs, n))
    ensures var v, more := Validated(fs, n), Marked(Normal(fs, n.dir), part, fs.parts);
            && Known(v, Normal(fs, n.dir), IdsOf(fs, n)) && Known(v, more, IdsOf(fs, n))
            && Within(v, Entries(fs, n)) && SameShow(v, Normal(fs, n.dir), more) && InPlace(v, more, fs.parts)
            && InPlace(v, Normal(fs, n.dir), fs.parts)
  {
    var f := NameStands(fs, n);
    if Live(fs, n) {
      NamePassed(fs, n);
      NameValidated(fs, n);
    }
    MarkingKeepsView(Validated(fs, n), Normal(fs, n.dir), part, fs.parts);
    SameKnown(Validated(fs, n), Normal(fs, n.dir), Marked(Normal(fs, n.dir), part, fs.parts), IdsOf(fs, n));
  }

  lemma ReadySource(fs: Fs, a: Action)
    requires Inv(fs) && a.Rename? && Enabled(fs, a)
    ensures FileOf(fs, a.n).Some?
    ensures IsFile(NamesOf(fs, a).src, CallOf(fs, a).srcNormal, Plain(CallOf(fs, a).from), FileOf(fs, a.n).value)
    ensures 0 <= CallOf(fs, a).from.replica < fs.parts
  {
    NamePassed(fs, a.n);
    NameValidated(fs, a.n);
    ReadyName(fs, a.n, CallOf(fs, a).from.replica);
  }

  /** What rename assumes of its names is what every state provides, unless a dentry is not live. */
  lemma CallReady(fs: Fs, a: Action)
    requires Inv(fs) && a.Rename? && Enabled(fs, a)
    ensures FileOf(fs, a.n).Some? && Ready(CallOf(fs, a), NamesOf(fs, a), FileOf(fs, a.n).value)
    ensures 0 <= CallOf(fs, a).from.replica < fs.parts
  {
    var call, s := CallOf(fs, a), NamesOf(fs, a);
    ReadySource(fs, a);
    var d, file := call.from.replica, FileOf(fs, a.n).value;
    ReadyName(fs, a.n, d);
    ReadyName(fs, a.onto, d);
    MarkKeepsInv(fs, a.onto.dir, d);
    assert DirOk(fs, a.n.dir) && DirOk(MarkIn(fs, a.onto.dir, d), a.onto.dir);
    forall p | p in s.src && p != d ensures s.src[p].file != file {
      assert s.src[p].file == file ==> EntryOf(fs.names, a.n, p, file) && EntryOf(fs.names, a.n, d, file);
    }
    forall p | p in s.dst ensures s.dst[p].file != file && s.dst[p].file != a.newId {
      assert EntryOf(fs.names, a.n, d, file) && EntryOf(fs.names, a.onto, p, s.dst[p].file);
    }
    forall p, q | p in s.dst && q in s.dst && s.dst[p].file == s.dst[q].file ensures p == q {
      assert EntryOf(fs.names, a.onto, p, s.dst[p].file) && EntryOf(fs.names, a.onto, q, s.dst[p].file);
    }
    assert EntryOf(fs.names, a.n, d, file);
  }

  lemma SafeStands(c: Context, r: Names, committed: bool)
    requires Safe(c, r, committed) && !c.crowd
    ensures Stands(r.src, c.srcNormal) && Stands(r.dst, c.dstNormal)
  {
  }

  lemma DescendsInPlace(fs: Fs, a: Action, r: Names, committed: bool)
    requires Inv(fs) && a.Rename? && Enabled(fs, a) && Descends(CallOf(fs, a), NamesOf(fs, a), r, committed)
    ensures InPlace(r.src, CallOf(fs, a).srcNormal, fs.parts) && InPlace(r.dst, CallOf(fs, a).dstNormal, fs.parts)
  {
    var call, s := CallOf(fs, a), NamesOf(fs, a);
    CallReady(fs, a);
    ReadyName(fs, a.n, call.from.replica);
    ReadyName(fs, a.onto, call.from.replica);
    assert InRange(call.dstNormal, fs.parts);
  }

  /** Ids stay distinct when one name loses entries and another one gains the one that moved, or a new
      one. */
  lemma MovedDistinct(names: map<Name, View>, n: Name, onto: Name, v: View, w: View, r: Names, d: int, moved: bool,
      made: int, newId: nat)
    requires Distinct(names) && n != onto
    requires v == (if n in names then names[n] else map[]) && w == (if onto in names then names[onto] else map[])
    requires Within(r.src, v) && (moved ==> d !in r.src)
    requires forall m, p {:trigger EntryOf(names, m, p, newId)} :: !EntryOf(names, m, p, newId)
    requires forall p :: p in r.dst ==>
      || (p in w && r.dst[p].file == w[p].file)
      || (moved && p == d && d in v && r.dst[p].file == v[d].file)
      || (p == made && r.dst[p].file == newId)
    ensures Distinct(names[n := r.src][onto := r.dst])
  {
    var next := names[n := r.src][onto := r.dst];
    forall a, b, p, q, id | EntryOf(next, a, p, id) && EntryOf(next, b, q, id) ensures a == b && p == q {
      Origin(names, n, onto, v, w, r, d, moved, made, newId, a, p, id);
      Origin(names, n, onto, v, w, r, d, moved, made, newId, b, q, id);
    }
  }

  /** Every entry comes from one of the same name, or is the one that moved, or is new. */
  lemma Origin(names: map<Name, View>, n: Name, onto: Name, v: View, w: View, r: Names, d: int, moved: bool,
      made: int, newId: nat, a: Name, p: int, id: nat)
    requires n != onto && EntryOf(names[n := r.src][onto := r.dst], a, p, id)
    requires v == (if n in names then names[n] else map[]) && w == (if onto in names then names[onto] else map[])
    requires Within(r.src, v) && (moved ==> d !in r.src)
    requires forall m, x {:trigger EntryOf(names, m, x, newId)} :: !EntryOf(names, m, x, newId)
    requires forall x :: x in r.dst ==>
      || (x in w && r.dst[x].file == w[x].file)
      || (moved && x == d && d in v && r.dst[x].file == v[d].file)
      || (x == made && r.dst[x].file == newId)
    ensures || (EntryOf(names, a, p, id) && id != newId && !(moved && a == n && p == d))
            || (a == onto && p == d && moved && EntryOf(names, n, d, id) && id != newId)
            || (a == onto && p == made && id == newId)
  {
    assert !EntryOf(names, a, p, newId) && !EntryOf(names, n, d, newId);
  }

  lemma DescendsDistinct(fs: Fs, a: Action, r: Names, committed: bool)
    requires Inv(fs) && a.Rename? && Enabled(fs, a) && Descends(CallOf(fs, a), NamesOf(fs, a), r, committed)
    ensures Distinct(fs.names[a.n := r.src][a.onto := r.dst])
  {
    var d, v, w := CallOf(fs, a).from.replica, Entries(fs, a.n), Entries(fs, a.onto);
    ReadyName(fs, a.n, d);
    ReadyName(fs, a.onto, d);
    MovedDistinct(fs.names, a.n, a.onto, v, w, r, d, committed, a.meta, a.newId);
  }

  // ---- What a rename leaves in the cache ----

  /** Until the data moves, a rename to a free name changes the new name only by adding its meta file. */
  lemma UnmovedNew(call: Call, s: Names, faults: set<nat>, k: nat)
    requires call.onto.None? && !Committed(Taken(call, s, faults), k)
    ensures var v := RunTo(s, Taken(call, s, faults), k).dst;
            || v == s.dst
            || (Creates(call) && call.meta !in s.dst && v == s.dst[call.meta := Entry(call.newId, None)])
            || (Creates(call) && call.meta !in s.dst
                && v == s.dst[call.meta := Entry(call.newId, Some(Link(call.from.replica, -1)))])
  {
    var steps := Taken(call, s, faults);
    if k > 0 && steps.Then? {
      var s1 := ApplyStep(s, steps.step);
      if k > 1 && steps.rest.Then? {
        var s2 := ApplyStep(s1, steps.rest.step);
        if k > 2 && steps.rest.rest.Then? {
          var s3 := ApplyStep(s2, steps.rest.rest.step);
          assert RunTo(s, steps, k) == RunTo(s1, steps.rest, k - 1) == RunTo(s2, steps.rest.rest, k - 2)
                 == RunTo(s3, steps.rest.rest.rest, k - 3);
          var last := steps.rest.rest.rest;
          assert Committed(steps, k) == (steps.step.Move? || Committed(steps.rest, k - 1));
          assert Committed(steps.rest, k - 1) == (steps.rest.step.Move? || Committed(steps.rest.rest, k - 2));
          assert Committed(steps.rest.rest, k - 2) == (steps.rest.rest.step.Move? || Committed(last, k - 3));
          assert Creates(call) && last == SplitMove(call.from, call.meta, faults + Forced(call, s));
        } else {
          assert RunTo(s, steps, k) == RunTo(s1, steps.rest, k - 1) == RunTo(s2, steps.rest.rest, k - 2);
        }
      } else {
        assert RunTo(s, steps, k) == RunTo(s1, steps.rest, k - 1);
      }
    }
  }

  /** A rename that did not move the data leaves both dentries about the entries they were about. */
  lemma UnmovedCacheOk(call: Call, s: Names, file: nat, faults: set<nat>, k: nat)
    requires Ready(call, s, file) && Sound(call, s) && !Moved(call, s, faults, k)
    ensures var r := RunTo(s, Taken(call, s, faults), k);
            && CacheOk(r.src, call.srcNormal, Positive(call.from))
            && CacheOk(r.dst, call.dstNormal, AsCached(call.onto))
  {
    var r := RunTo(s, Taken(call, s, faults), k);
    assert After(call, s, faults, k, []) == r;
    AfterDescends(call, s, file, faults, k, []);
    CacheShrinks(r.src, s.src, call.srcNormal, call.from);
    if call.onto.Some? {
      CacheShrinks(r.dst, s.dst, call.dstNormal, call.onto.value);
    } else {
      UnmovedNew(call, s, faults, k);
      if r.dst != s.dst {
        assert Absent(s.dst, call.dstNormal);
        assert Lone(r.dst, call.dstNormal, call.meta) && Unfinished(r.dst[call.meta].link, call.meta);
        assert Shadowed(r.dst, call.dstNormal);
      }
    }
  }

  /** After a rename that did, the ids of the dentry that moved are about the new name. */
  lemma MovedCacheOk(call: Call, s: Names, file: nat, r: Names)
    requires Ready(call, s, file) && Sound(call, s) && Descends(call, s, r, true)
    requires Means(r.dst, call.dstNormal, Some(file))
    ensures CacheOk(r.dst, call.dstNormal, Positive(Renamed(call)))
  {
    var d, v, normal := call.from.replica, r.dst, call.dstNormal;
    if p :| Lone(v, normal, p) && LoneMeans(v, p, Some(file)) {
      assert d in v;
    } else {
      var h, q :| HiddenPair(v, normal, h, q) && v[q].file == file;
      assert q == d;
      assert HiddenBy(v, normal, d);
    }
  }

  /** Two names change, and both still stand for something that their dentries can be about. */
  lemma TwoNamesChange(fs: Fs, n: Name, onto: Name, r: Names, cache: map<Name, Cached>)
    requires Inv(fs) && n != onto
    requires Stands(r.src, Normal(fs, n.dir)) && InPlace(r.src, Normal(fs, n.dir), fs.parts)
    requires Stands(r.dst, Normal(fs, onto.dir)) && InPlace(r.dst, Normal(fs, onto.dir), fs.parts)
    requires Distinct(fs.names[n := r.src][onto := r.dst])
    requires forall m :: m in cache && m != n && m != onto ==> m in fs.cache && cache[m] == fs.cache[m]
    requires n in cache ==> CacheOk(r.src, Normal(fs, n.dir), cache[n])
    requires onto in cache ==> CacheOk(r.dst, Normal(fs, onto.dir), cache[onto])
    ensures Inv(fs.(names := fs.names[n := r.src][onto := r.dst], cache := cache))
  {
    var next := fs.(names := fs.names[n := r.src][onto := r.dst], cache := cache);
    forall dir ensures DirOk(next, dir) { assert DirOk(fs, dir); }
    forall m ensures NameOk(next, m) {
      assert NameOk(fs, m);
    }
  }

  /** The two names of a coherent rename, and their dentries if they outlive it. */
  lemma ResultOk(fs: Fs, a: Action)
    requires Inv(fs) && a.Rename? && Enabled(fs, a) && Coherent(fs, a)
    ensures var call, r := CallOf(fs, a), Result(fs, a);
            && Stands(r.src, call.srcNormal) && Stands(r.dst, call.dstNormal)
            && Descends(call, NamesOf(fs, a), r, Renames(fs, a))
            && if Renames(fs, a) then CacheOk(r.dst, call.dstNormal, Positive(Renamed(call)))
               else CacheOk(r.src, call.srcNormal, Positive(call.from))
                    && CacheOk(r.dst, call.dstNormal, AsCached(call.onto))
  {
    var call, s, r, k := CallOf(fs, a), NamesOf(fs, a), Result(fs, a), CutAt(fs, a);
    CallReady(fs, a);
    var file := FileOf(fs, a.n).value;
    assert r == After(call, s, a.faults, k, []);
    SoundIsKept(call, s);
    AfterIsSafe(call, s, file, a.faults, k, []);
    SafeStands(ContextOf(call, s, file), r, Renames(fs, a));
    AfterDescends(call, s, file, a.faults, k, []);
    if Renames(fs, a) { MovedCacheOk(call, s, file, r); } else { UnmovedCacheOk(call, s, file, a.faults, k); }
  }

  lemma MarkedNormals(fs: Fs, a: Action)
    requires a.Rename? && IdsOf(fs, a.n).Some?
    ensures var call := CallOf(fs, a);
            var marked := MarkIn(fs, a.onto.dir, call.from.replica);
            Normal(marked, a.onto.dir) == call.dstNormal && Normal(marked, a.n.dir) == call.srcNormal
  {
  }

  lemma NewCacheOk(fs: Fs, a: Action)
    requires Inv(fs) && a.Rename? && Enabled(fs, a) && Coherent(fs, a)
    ensures var call, r, cache := CallOf(fs, a), Result(fs, a), NewCache(fs, a);
            && (forall m :: m in cache && m != a.n && m != a.onto ==> m in fs.cache && cache[m] == fs.cache[m])
            && (a.n in cache ==> CacheOk(r.src, call.srcNormal, cache[a.n]))
            && (a.onto in cache ==> CacheOk(r.dst, call.dstNormal, cache[a.onto]))
  {
    ResultOk(fs, a);
  }

  lemma RenameKeepsInv(fs: Fs, a: Action)
    requires Inv(fs) && a.Rename? && Enabled(fs, a) && Coherent(fs, a)
    ensures Inv(Next(fs, a))
  {
    var d, r, cache := CallOf(fs, a).from.replica, Result(fs, a), NewCache(fs, a);
    ResultOk(fs, a);
    NewCacheOk(fs, a);
    ReadySource(fs, a);
    DescendsInPlace(fs, a, r, Renames(fs, a));
    DescendsDistinct(fs, a, r, Renames(fs, a));
    MarkKeepsInv(fs, a.onto.dir, d);
    MarkedNormals(fs, a);
    RenamedFs(fs, MarkIn(fs, a.onto.dir, d), a, r, cache);
  }

  lemma RenamedFs(fs: Fs, marked: Fs, a: Action, r: Names, cache: map<Name, Cached>)
    requires a.Rename? && Enabled(fs, a) && r == Result(fs, a) && cache == NewCache(fs, a)
    requires marked == MarkIn(fs, a.onto.dir, CallOf(fs, a).from.replica) && Inv(marked)
    requires Stands(r.src, Normal(marked, a.n.dir)) && InPlace(r.src, Normal(marked, a.n.dir), fs.parts)
    requires Stands(r.dst, Normal(marked, a.onto.dir)) && InPlace(r.dst, Normal(marked, a.onto.dir), fs.parts)
    requires Distinct(fs.names[a.n := r.src][a.onto := r.dst])
    requires forall m :: m in cache && m != a.n && m != a.onto ==> m in fs.cache && cache[m] == fs.cache[m]
    requires a.n in cache ==> CacheOk(r.src, Normal(marked, a.n.dir), cache[a.n])
    requires a.onto in cache ==> CacheOk(r.dst, Normal(marked, a.onto.dir), cache[a.onto])
    ensures Inv(Next(fs, a))
  {
    TwoNamesChange(marked, a.n, a.onto, r, cache);
    assert Next(fs, a) == marked.(names := marked.names[a.n := r.src][a.onto := r.dst], cache := cache);
  }

  lemma ForgetKeepsInv(fs: Fs, cache: map<Name, Cached>)
    requires Inv(fs) && forall m :: m in cache ==> m in fs.cache && cache[m] == fs.cache[m]
    ensures Inv(fs.(cache := cache))
  {
    var next := fs.(cache := cache);
    forall dir ensures DirOk(next, dir) { assert DirOk(fs, dir); }
    forall m ensures NameOk(next, m) {
      assert NameOk(fs, m);
    }
  }

  /** What every action keeps, if the dentries it uses are coherent. */
  lemma StepKeepsInv(fs: Fs, a: Action)
    requires Inv(fs) && Enabled(fs, a) && Coherent(fs, a)
    ensures Inv(Next(fs, a))
  {
    match a
    case Look(n, k) => LookKeepsInv(fs, n, k);
    case Evict(n) => ForgetKeepsInv(fs, fs.cache - {n});
    case Crash => ForgetKeepsInv(fs, map[]);
    case Revalidate(n, k) => RevalidateKeepsInv(fs, n, k);
    case Make(n, part, id) => MakeKeepsInv(fs, n, part, id);
    case Delete(n, k) => DeleteKeepsInv(fs, n, k);
    case Rename(_, _, _, _, _, _) => RenameKeepsInv(fs, a);
  }

  // ---- Runs ----

  predicate IsEmpty(fs: Fs) { fs == Fs(fs.parts, map[], map[], map[]) }

  ghost predicate Takes(fs: Fs, a: Action, next: Fs) { Enabled(fs, a) && next == Next(fs, a) }

  /** A run from an empty file system. */
  ghost predicate IsRun(states: seq<Fs>, acts: seq<Action>) {
    && |states| == |acts| + 1 && IsEmpty(states[0])
    && forall i {:trigger acts[i]} :: 0 <= i < |acts| ==> Takes(states[i], acts[i], states[i + 1])
  }

  /** Up to state `n` every action of the run is coherent. */
  ghost predicate CoherentTo(states: seq<Fs>, acts: seq<Action>, n: nat)
    requires |states| > |acts| >= n
  {
    forall i {:trigger acts[i]} :: 0 <= i < n ==> Coherent(states[i], acts[i])
  }

  lemma EmptyOk(fs: Fs)
    requires IsEmpty(fs)
    ensures Inv(fs)
  {
    forall n ensures NameOk(fs, n) {
      assert Means(Entries(fs, n), Normal(fs, n.dir), None);
    }
  }

  lemma {:induction false} RunKeepsInv(states: seq<Fs>, acts: seq<Action>, i: nat)
    requires IsRun(states, acts) && i <= |acts| && CoherentTo(states, acts, i)
    ensures Inv(states[i])
  {
    if i == 0 {
      EmptyOk(states[0]);
    } else {
      RunKeepsInv(states, acts, i - 1);
      assert Takes(states[i - 1], acts[i - 1], states[i]);
      StepKeepsInv(states[i - 1], acts[i - 1]);
    }
  }

  lemma NamedOnce(fs: Fs, n: Name)
    requires Inv(fs)
    ensures forall m :: FileOf(fs, n).Some? && FileOf(fs, m) == FileOf(fs, n) ==> m == n
  {
    NamePassed(fs, n);
    forall m | FileOf(fs, n).Some? && FileOf(fs, m) == FileOf(fs, n) ensures m == n {
      NamePassed(fs, m);
      var id := FileOf(fs, n).value;
      assert EntryOf(fs.names, n, FoundAt(fs, n).value.replica, id);
      assert EntryOf(fs.names, m, FoundAt(fs, m).value.replica, id);
    }
  }

  /** In every state of every run, whatever failed or crashed on the way, as long as the dentries used
      were coherent: one pass over a name makes a well-formed file of it or clears it away; a name with a
      meta file or a left-over is in a directory whose normal set is full; and no two names resolve to the
      same file. */
  lemma EveryNameRecovers(states: seq<Fs>, acts: seq<Action>, i: nat, n: Name)
    requires IsRun(states, acts) && i <= |acts| && CoherentTo(states, acts, i)
    ensures var fs := states[i];
            var v, normal, f := Pass0(fs, n), Normal(fs, n.dir), FoundAt(fs, n);
            && IsFileOrAbsent(v, normal, f, FileOf(fs, n))
            && ((f.Some? && f.value.meta != -1) || LeftOvers(v, f) != map[] ==> |normal| >= Threshold(fs.parts))
            && forall m :: FileOf(fs, n).Some? && FileOf(fs, m) == FileOf(fs, n) ==> m == n
  {
    var fs := states[i];
    RunKeepsInv(states, acts, i);
    NamePassed(fs, n);
    var v, normal, f := Pass0(fs, n), Normal(fs, n.dir), FoundAt(fs, n);
    if |normal| < Threshold(fs.parts) {
      AllBelong(v, normal, f, FileOf(fs, n), -1);
    }
    NamedOnce(fs, n);
  }

  // ---- Dentries over a run ----

  /** In every such state, when a call gets a dentry whose ids are doubled: exactly when the dentry has a
      meta partition, and the meta file's record has lost its link. */
  lemma DoubledInRunIff(states: seq<Fs>, acts: seq<Action>, i: nat, n: Name)
    requires IsRun(states, acts) && i <= |acts| && CoherentTo(states, acts, i)
    requires Live(states[i], n) && FileOf(states[i], n).Some?
    ensures var fs := states[i];
            var f := fs.cache[n].ids;
            && IdsOf(fs, n).Some? && FoundAt(fs, n) == Some(Plain(IdsOf(fs, n).value))
            && (Doubled(IdsOf(fs, n).value) <==> f.meta != -1 && Unlinked(Entries(fs, n), f.meta))
  {
    var fs := states[i];
    RunKeepsInv(states, acts, i);
    var file := NameStands(fs, n);
    NamePassed(fs, n);
    NameValidated(fs, n);
    DoubledIff(Entries(fs, n), Normal(fs, n.dir), fs.parts, fs.cache[n].ids, file.value);
  }

  /** A create through a dentry that does not know of a visible entry: exactly when the new file can be
      found again. */
  lemma MadeFoundIff(fs: Fs, n: Name, part: int, id: nat)
    requires Inv(fs) && Enabled(fs, Make(n, part, id))
    ensures FileOf(Next(fs, Make(n, part, id)), n) == Some(id) <==>
            FewerLead(Entries(fs, n), Normal(fs, n.dir), part, part)
  {
    var v, next := Entries(fs, n), Next(fs, Make(n, part, id));
    var f := NameStands(fs, n);
    var more, w := Normal(next, n.dir), next.names[n];
    MarkKeepsInv(fs, n.dir, part);
    assert DirOk(MarkIn(fs, n.dir, part), n.dir);
    MarkingKeepsView(v, Normal(fs, n.dir), part, fs.parts);
    if FewerLead(v, Normal(fs, n.dir), part, part) {
      TurnLeads(v, more, fs.parts, part, Entry(id, None));
      LeadsResolved(w, more, fs.parts, id);
    } else {
      var m :| m in v && m in Normal(fs, n.dir) && m < part && v[m].link != Some(Link(part, -1));
      forall p | p in w && p != part ensures w[p].file != id {
        assert !EntryOf(fs.names, n, p, id);
      }
      CoveredByFirst(w, more, fs.parts, m, part, id);
    }
  }

  // ---- Files are not lost ----

  /** The action neither deletes file `f` nor replaces it, and does not expose it. */
  ghost predicate Spares(fs: Fs, a: Action, f: nat) {
    && (a.Delete? ==> FileOf(fs, a.n) != Some(f))
    && (a.Rename? ==> FileOf(fs, a.onto) != Some(f))
    && (a.Rename? && IdsOf(fs, a.n).Some? && FileOf(fs, a.n) == Some(f) ==>
          !Exposed(CallOf(fs, a), NamesOf(fs, a)))
  }

  /** A rename, finished or not, changes what no other name resolves to. */
  lemma OthersKeepFiles(fs: Fs, a: Action, n: Name)
    requires Inv(fs) && a.Rename? && Enabled(fs, a) && n != a.n && n != a.onto
    ensures FileOf(Next(fs, a), n) == FileOf(fs, n)
  {
    CallReady(fs, a);
    MarkKeepsFiles(fs, a.onto.dir, CallOf(fs, a).from.replica, n);
  }

  lemma RenameKeepsFile(fs: Fs, a: Action, n: Name, f: nat) returns (m: Name)
    requires Inv(fs) && a.Rename? && Enabled(fs, a) && Coherent(fs, a)
    requires FileOf(fs, n) == Some(f) && Spares(fs, a, f)
    ensures FileOf(Next(fs, a), m) == Some(f)
  {
    var call, s := CallOf(fs, a), NamesOf(fs, a);
    if n == a.n {
      CallReady(fs, a);
      assert Result(fs, a) == After(call, s, a.faults, CutAt(fs, a), []);
      CrashOutcome(call, s, f, a.faults, CutAt(fs, a), []);
      m := if Renames(fs, a) then a.onto else a.n;
    } else {
      OthersKeepFiles(fs, a, n);
      m := n;
    }
  }

  lemma CutKeepsFile(fs: Fs, n: Name, k: nat)
    requires Inv(fs)
    ensures Resolved(Cut(Entries(fs, n), Normal(fs, n.dir), fs.parts, k), Normal(fs, n.dir), fs.parts) == FileOf(fs, n)
  {
    var f := NameStands(fs, n);
    var v, normal := Entries(fs, n), Normal(fs, n.dir);
    CutKeepsMeaning(v, normal, fs.parts, k, f);
    LookupResolves(Cut(v, normal, fs.parts, k), normal, fs.parts, f);
  }

  lemma StepKeepsFile(fs: Fs, a: Action, n: Name, f: nat) returns (m: Name)
    requires Inv(fs) && Enabled(fs, a) && Coherent(fs, a) && FileOf(fs, n) == Some(f) && Spares(fs, a, f)
    ensures FileOf(Next(fs, a), m) == Some(f)
  {
    m := n;
    match a
    case Look(x, k) => CutKeepsFile(fs, n, k);
    case Evict(_) =>
    case Crash =>
    case Revalidate(x, k) =>
      if x == n {
        var g := NameStands(fs, n);
        PartlyIsCut(Entries(fs, n), Normal(fs, n.dir), fs.parts, fs.cache[n].ids, k);
        CutKeepsFile(fs, n, k);
      }
    case Make(x, part, id) =>
      MakeKeepsInv(fs, x, part, id);
      MarkKeepsFiles(fs, x.dir, part, n);
      if x == n { FirstIsNone(Entries(fs, n), Normal(fs, n.dir), fs.parts); }
    case Delete(x, k) =>
    case Rename(_, _, _, _, _, _) => m := RenameKeepsFile(fs, a, n, f);
  }

  ghost predicate HasFile(fs: Fs, f: nat) { exists n :: FileOf(fs, n) == Some(f) }

  lemma ActionKeepsFile(states: seq<Fs>, acts: seq<Action>, k: nat, f: nat)
    requires IsRun(states, acts) && k < |acts| && CoherentTo(states, acts, k + 1)
    requires Spares(states[k], acts[k], f) && HasFile(states[k], f)
    ensures HasFile(states[k + 1], f)
  {
    RunKeepsInv(states, acts, k);
    assert Takes(states[k], acts[k], states[k + 1]);
    var n :| FileOf(states[k], n) == Some(f);
    var m := StepKeepsFile(states[k], acts[k], n, f);
  }

  lemma {:induction false} FileStays(states: seq<Fs>, i: nat, j: nat, f: nat)
    requires i <= j < |states| && HasFile(states[i], f)
    requires forall k :: i <= k < j && HasFile(states[k], f) ==> HasFile(states[k + 1], f)
    ensures HasFile(states[j], f)
    decreases j
  {
    if i < j { FileStays(states, i, j - 1, f); }
  }

  /** Over any run of coherent actions, through failing calls, crashes and recovery cut short: a file that
      no action deletes, replaces or exposes stays, under exactly one name. */
  lemma FileSurvives(states: seq<Fs>, acts: seq<Action>, i: nat, j: nat, n: Name, f: nat) returns (m: Name)
    requires IsRun(states, acts) && i <= j <= |acts| && FileOf(states[i], n) == Some(f)
    requires CoherentTo(states, acts, j) && forall k :: i <= k < j ==> Spares(states[k], acts[k], f)
    ensures FileOf(states[j], m) == Some(f) && forall x :: FileOf(states[j], x) == Some(f) ==> x == m
  {
    assert HasFile(states[i], f);
    forall k | i <= k < j && HasFile(states[k], f) ensures HasFile(states[k + 1], f) {
      ActionKeepsFile(states, acts, k, f);
    }
    FileStays(states, i, j, f);
    m :| FileOf(states[j], m) == Some(f);
    RunKeepsInv(states, acts, j);
    NamedOnce(states[j], m);
  }

  // ---- The states a single rename exposes ----

  /** A state of the two names inside a rename: during the validation of the old name, during that of
      the new one, or between two steps of the branch taken. */
  ghost predicate Shown(fs: Fs, a: Action, r: Names)
    requires a.Rename? && Enabled(fs, a)
  {
    || (exists k: nat :: r == Names(Partly(Entries(fs, a.n), fs.cache[a.n].ids, k), Entries(fs, a.onto)))
    || (Live(fs, a.onto)
        && exists k: nat :: r == Names(Validated(fs, a.n), Partly(Entries(fs, a.onto), fs.cache[a.onto].ids, k)))
    || (exists k: nat :: r == RunTo(NamesOf(fs, a), PlanOf(fs, a), k))
  }

  /** A pass, finished or not, over a name whose directory is then marked leaves it its file. */
  lemma MarkedCutKeepsFile(fs: Fs, n: Name, k: nat, part: int)
    requires Inv(fs) && 0 <= part < fs.parts
    ensures var v, normal := Cut(Entries(fs, n), Normal(fs, n.dir), fs.parts, k), Normal(fs, n.dir);
            && Resolved(v, normal, fs.parts) == FileOf(fs, n)
            && Resolved(v, Marked(normal, part, fs.parts), fs.parts) == FileOf(fs, n)
  {
    CutKeepsFile(fs, n, k);
    var f := NameStands(fs, n);
    var w, normal := Entries(fs, n), Normal(fs, n.dir);
    CutKeepsMeaning(w, normal, fs.parts, k, f);
    var v := Cut(w, normal, fs.parts, k);
    OpsKeepFiles(w, Upto(Lookup(w, normal, fs.parts).ops, k));
    MarkingKeepsView(v, normal, part, fs.parts);
    SameMeaning(v, normal, Marked(normal, part, fs.parts), f);
    LookupResolves(v, Marked(normal, part, fs.parts), fs.parts, f);
  }

  lemma ValidatingKeepsFile(fs: Fs, a: Action, j: nat, k: nat)
    requires Inv(fs) && a.Rename? && Enabled(fs, a)
    ensures var call := CallOf(fs, a);
            var r := Names(Cut(Entries(fs, a.n), Normal(fs, a.n.dir), fs.parts, j),
                           Cut(Entries(fs, a.onto), Normal(fs, a.onto.dir), fs.parts, k));
            OldName(call, r) == FileOf(fs, a.n) && NewName(call, r) == FileOf(fs, a.onto) != FileOf(fs, a.n)
  {
    CallReady(fs, a);
    MarkedCutKeepsFile(fs, a.n, j, CallOf(fs, a).from.replica);
    MarkedCutKeepsFile(fs, a.onto, k, CallOf(fs, a).from.replica);
    NamedOnce(fs, a.n);
  }

  lemma CutEnds(v: View, normal: set<int>, n: nat)
    ensures Cut(v, normal, n, 0) == v && Cut(v, normal, n, |Lookup(v, normal, n).ops|) == Recovered(v, normal, n)
  {
    var ops := Lookup(v, normal, n).ops;
    assert ops[..0] == [] && ops[..|ops|] == ops;
  }

  /** In each of them exactly one of the names has the file, unless the call exposes, severs or covers
      it. */
  lemma ShownIsSafe(fs: Fs, a: Action, r: Names)
    requires Inv(fs) && a.Rename? && Enabled(fs, a) && Shown(fs, a, r)
    requires var call, s := CallOf(fs, a), NamesOf(fs, a);
             !Exposed(call, s) && !Severs(call, s) && !Covered(call, s)
    ensures var call := CallOf(fs, a);
            (OldName(call, r) == FileOf(fs, a.n)) != (NewName(call, r) == FileOf(fs, a.n))
  {
    var call, s := CallOf(fs, a), NamesOf(fs, a);
    if k: nat :| r == Names(Partly(Entries(fs, a.n), fs.cache[a.n].ids, k), Entries(fs, a.onto)) {
      OldShown(fs, a, k);
    } else if k: nat :| r == RunTo(s, PlanOf(fs, a), k) {
      CallReady(fs, a);
      assert After(call, s, a.faults, k, []) == r;
      SourceOutcome(call, s, FileOf(fs, a.n).value, a.faults, k, []);
    } else {
      var k: nat :| r == Names(Validated(fs, a.n), Partly(Entries(fs, a.onto), fs.cache[a.onto].ids, k));
      NewShown(fs, a, k);
    }
  }

  lemma OldShown(fs: Fs, a: Action, k: nat)
    requires Inv(fs) && a.Rename? && Enabled(fs, a)
    ensures var call, r := CallOf(fs, a), Names(Partly(Entries(fs, a.n), fs.cache[a.n].ids, k), Entries(fs, a.onto));
            OldName(call, r) == FileOf(fs, a.n) != NewName(call, r)
  {
    var f := NameStands(fs, a.n);
    PartlyIsCut(Entries(fs, a.n), Normal(fs, a.n.dir), fs.parts, fs.cache[a.n].ids, k);
    CutEnds(Entries(fs, a.onto), Normal(fs, a.onto.dir), fs.parts);
    ValidatingKeepsFile(fs, a, k, 0);
  }

  lemma NewShown(fs: Fs, a: Action, k: nat)
    requires Inv(fs) && a.Rename? && Enabled(fs, a) && Live(fs, a.onto)
    ensures var call := CallOf(fs, a);
            var r := Names(Validated(fs, a.n), Partly(Entries(fs, a.onto), fs.cache[a.onto].ids, k));
            OldName(call, r) == FileOf(fs, a.n) != NewName(call, r)
  {
    var v, normal := Entries(fs, a.n), Normal(fs, a.n.dir);
    var f := NameStands(fs, a.onto);
    NameValidated(fs, a.n);
    CutEnds(v, normal, fs.parts);
    PartlyIsCut(Entries(fs, a.onto), Normal(fs, a.onto.dir), fs.parts, fs.cache[a.onto].ids, k);
    ValidatingKeepsFile(fs, a, |Lookup(v, normal, fs.parts).ops|, k);
  }
}
