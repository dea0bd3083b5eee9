/** Runs in which no operation fails half-way: they leave no left-overs, and no dentry goes wrong. */
module SfsCleanRuns {
  import opened Options
  import opened SfsView
  import opened SfsRename
  import opened SfsCall
  import opened SfsTheorems
  import opened SfsRecovery
  import opened SfsComplete
  import opened SfsLeftOver
  import opened SfsDentry
  import opened SfsRuns

  /** The name has exactly the entries of its file, and its dentry, if it is cached, has the file's ids. */
  ghost predicate CleanAs(v: View, normal: set<int>, c: Option<Cached>, f: Option<File>, id: Option<nat>) {
    IsFileOrAbsent(v, normal, f, id) && LeftOvers(v, f) == map[] && (c.Some? ==> c.value == AsCached(f))
  }

  ghost predicate Clean(v: View, normal: set<int>, c: Option<Cached>) {
    exists f: Option<File>, id: Option<nat> :: CleanAs(v, normal, c, f, id)
  }

  ghost predicate CleanAt(fs: Fs, n: Name) { Clean(Entries(fs, n), Normal(fs, n.dir), CacheAt(fs, n)) }

  ghost predicate AllClean(fs: Fs) { forall n {:trigger CleanAt(fs, n)} :: CleanAt(fs, n) }

  /** The action runs to its end and nothing fails.  A lookup, a validation or a crash in between may. */
  ghost predicate Completes(fs: Fs, a: Action) {
    (a.Delete? ==> a.ops >= 2) && (a.Rename? ==> a.faults == {} && a.cut.None?)
  }

  /** A pass over a well-formed name finds its file, and changes at most the link back. */
  lemma FilePass(v: View, normal: set<int>, n: nat, f: Option<File>, id: Option<nat>, k: nat)
    requires InRange(normal, n) && IsFileOrAbsent(v, normal, f, id)
    ensures Found(v, normal, n) == f && Resolved(v, normal, n) == id && Answer(v, normal, n) == AsCached(f)
    ensures Recovered(v, normal, n).Keys == v.Keys && IsFileOrAbsent(Recovered(v, normal, n), normal, f, id)
    ensures Cut(v, normal, n, k) == v || Cut(v, normal, n, k) == Recovered(v, normal, n)
  {
    if f.None? {
      FirstIsNone(v, normal, n);
    } else {
      var x := Visible(f.value);
      FirstIsLone(v, normal, n, x);
      var ops := Lookup(v, normal, n).ops;
      assert ops == [] || ops == [Put(f.value.replica, Record(x, -1, -1, -1))];
      if ops != [] {
        RunOne(v, ops[0]);
        assert k == 0 ==> ops[..k] == [];
        assert k == 1 ==> ops[..k] == ops;
      }
    }
  }

  lemma SameKeysClean(v: View, w: View, f: Option<File>)
    requires v.Keys == w.Keys && LeftOvers(v, f) == map[]
    ensures LeftOvers(w, f) == map[]
  {
    NothingElse(v, f);
    assert forall p :: p in w ==> p in v;
    assert forall p :: p !in LeftOvers(w, f);
    assert LeftOvers(w, f).Keys == {};
  }

  /** A pass, finished or not, over a clean name. */
  lemma CutIsClean(v: View, normal: set<int>, n: nat, c: Option<Cached>, k: nat)
    requires InRange(normal, n) && Clean(v, normal, c)
    ensures Clean(Cut(v, normal, n, k), normal, c)
    ensures Clean(Cut(v, normal, n, k), normal, Some(Answer(v, normal, n)))
  {
    var f: Option<File>, id: Option<nat> :| CleanAs(v, normal, c, f, id);
    FilePass(v, normal, n, f, id, k);
    SameKeysClean(v, Recovered(v, normal, n), f);
    assert CleanAs(Cut(v, normal, n, k), normal, c, f, id);
    assert CleanAs(Cut(v, normal, n, k), normal, Some(Answer(v, normal, n)), f, id);
  }

  /** A cached name of a clean state: validation finds what the dentry knows. */
  lemma CleanName(fs: Fs, n: Name)
    requires Inv(fs) && AllClean(fs) && (CacheAt(fs, n) == Some(Negative) || Live(fs, n))
    ensures CleanAs(Validated(fs, n), Normal(fs, n.dir), CacheAt(fs, n), IdsOf(fs, n), FileOf(fs, n))
    ensures IdsOf(fs, n) == FoundAt(fs, n) && CacheAt(fs, n) == Some(AsCached(IdsOf(fs, n)))
    ensures IdsOf(fs, n).None? ==> Entries(fs, n) == map[]
  {
    var v, normal := Entries(fs, n), Normal(fs, n.dir);
    assert CleanAt(fs, n) && DirOk(fs, n.dir);
    var f: Option<File>, id: Option<nat> :| CleanAs(v, normal, CacheAt(fs, n), f, id);
    FilePass(v, normal, fs.parts, f, id, 0);
    if f.Some? {
      NameValidated(fs, n);
      SameKeysClean(v, Validated(fs, n), f);
    }
  }

  lemma NamesStayClean(fs: Fs, n: Name, v: View, c: Option<Cached>)
    requires AllClean(fs) && Clean(v, Normal(fs, n.dir), c)
    ensures AllClean(With(fs, n, v, c))
  {
    var next := With(fs, n, v, c);
    forall m ensures CleanAt(next, m) { assert CleanAt(fs, m); }
  }

  lemma ForgottenIsClean(fs: Fs, cache: map<Name, Cached>)
    requires AllClean(fs) && forall m :: m in cache ==> m in fs.cache && cache[m] == fs.cache[m]
    ensures AllClean(fs.(cache := cache))
  {
    var next := fs.(cache := cache);
    forall m ensures CleanAt(next, m) {
      assert CleanAt(fs, m);
      var f: Option<File>, id: Option<nat> :| CleanAs(Entries(fs, m), Normal(fs, m.dir), CacheAt(fs, m), f, id);
      assert CleanAs(Entries(next, m), Normal(next, m.dir), CacheAt(next, m), f, id);
    }
  }

  lemma SameShowClean(v: View, normal: set<int>, more: set<int>, c: Option<Cached>)
    requires SameShow(v, normal, more) && Clean(v, normal, c)
    ensures Clean(v, more, c)
  {
    var f: Option<File>, id: Option<nat> :| CleanAs(v, normal, c, f, id);
    assert CleanAs(v, more, c, f, id);
  }

  lemma MarkKeepsClean(fs: Fs, dir: nat, part: int)
    requires Inv(fs) && AllClean(fs)
    ensures AllClean(MarkIn(fs, dir, part))
  {
    var next := MarkIn(fs, dir, part);
    forall n ensures CleanAt(next, n) {
      assert CleanAt(fs, n) && NameOk(fs, n);
      MarkingKeepsView(Entries(fs, n), Normal(fs, n.dir), part, fs.parts);
      SameShowClean(Entries(fs, n), Normal(fs, n.dir), Normal(next, n.dir), CacheAt(fs, n));
    }
  }

  lemma LookKeepsClean(fs: Fs, n: Name, k: nat)
    requires Inv(fs) && AllClean(fs) && Enabled(fs, Look(n, k))
    ensures AllClean(Next(fs, Look(n, k)))
  {
    var v, normal := Entries(fs, n), Normal(fs, n.dir);
    assert CleanAt(fs, n) && DirOk(fs, n.dir);
    CutIsClean(v, normal, fs.parts, None, k);
    NamesStayClean(fs, n, Cut(v, normal, fs.parts, k),
        if k < |Lookup(v, normal, fs.parts).ops| then None else Some(Answer(v, normal, fs.parts)));
  }

  lemma RevalidateKeepsClean(fs: Fs, n: Name, k: nat)
    requires Inv(fs) && AllClean(fs) && Enabled(fs, Revalidate(n, k))
    ensures AllClean(Next(fs, Revalidate(n, k)))
  {
    var v, normal, f := Entries(fs, n), Normal(fs, n.dir), fs.cache[n].ids;
    assert CleanAt(fs, n) && DirOk(fs, n.dir) && NameOk(fs, n);
    CleanName(fs, n);
    PartlyIsCut(v, normal, fs.parts, f, k);
    CutIsClean(v, normal, fs.parts, CacheAt(fs, n), k);
    NamesStayClean(fs, n, Partly(v, f, k), Some(Positive(f)));
  }

  lemma MadeIsClean(normal: set<int>, part: int, id: nat)
    requires part in normal && part >= 0
    ensures Clean(map[part := Entry(id, None)], normal, Some(Positive(File(part, -1))))
  {
    var v, f := map[part := Entry(id, None)], Some(File(part, -1));
    assert LeftOvers(v, f) == map[];
    assert CleanAs(v, normal, Some(AsCached(f)), f, Some(id));
  }

  lemma MakeKeepsClean(fs: Fs, n: Name, part: int, id: nat)
    requires Inv(fs) && AllClean(fs) && Enabled(fs, Make(n, part, id))
    ensures AllClean(Next(fs, Make(n, part, id)))
  {
    CleanName(fs, n);
    MarkKeepsClean(fs, n.dir, part);
    var marked := MarkIn(fs, n.dir, part);
    MadeIsClean(Normal(marked, n.dir), part, id);
    NamesStayClean(marked, n, map[part := Entry(id, None)], Some(Positive(File(part, -1))));
  }

  lemma DeleteEmpties(v: View, normal: set<int>, f: File, id: nat)
    requires IsFile(v, normal, f, id) && LeftOvers(v, Some(f)) == map[]
    ensures RunOps(v, DeleteOps(f)) == map[]
  {
    NothingElse(v, Some(f));
    if f.meta == -1 {
      assert DeleteOps(f) == [Unlink(f.replica)];
      RunOne(v, Unlink(f.replica));
    } else {
      assert DeleteOps(f) == [Unlink(f.replica), Unlink(f.meta)];
      RunTwo(v, Unlink(f.replica), Unlink(f.meta));
    }
  }

  lemma DeleteKeepsClean(fs: Fs, n: Name, k: nat)
    requires Inv(fs) && AllClean(fs) && Enabled(fs, Delete(n, k)) && k >= 2
    ensures AllClean(Next(fs, Delete(n, k)))
  {
    CleanName(fs, n);
    var f := IdsOf(fs, n).value;
    assert Upto(DeleteOps(f), k) == DeleteOps(f);
    DeleteEmpties(Validated(fs, n), Normal(fs, n.dir), f, FileOf(fs, n).value);
    assert CleanAs(map[], Normal(fs, n.dir), Some(Negative), None, None);
    NamesStayClean(fs, n, map[], Some(Negative));
  }

  /** In a clean state the ids that a rename works with are those of the files. */
  lemma CleanCall(fs: Fs, a: Action)
    requires Inv(fs) && AllClean(fs) && a.Rename? && Enabled(fs, a)
    ensures var call, s := CallOf(fs, a), NamesOf(fs, a);
            && FileOf(fs, a.n).Some? && Ready(call, s, FileOf(fs, a.n).value) && Accurate(call, s)
            && LeftOvers(s.src, Some(call.from)) == map[] && LeftOvers(s.dst, call.onto) == map[]
  {
    CallReady(fs, a);
    CleanName(fs, a.n);
    CleanName(fs, a.onto);
    ReadyName(fs, a.onto, CallOf(fs, a).from.replica);
  }

  lemma CleanIsCoherent(fs: Fs, a: Action)
    requires Inv(fs) && AllClean(fs) && Enabled(fs, a)
    ensures Coherent(fs, a)
  {
    if a.Make? {
      CleanName(fs, a.n);
    } else if a.Rename? {
      CleanCall(fs, a);
      NothingForced(CallOf(fs, a), NamesOf(fs, a), FileOf(fs, a.n).value);
    }
  }

  /** The two names after a completed rename. */
  lemma CompletedNames(fs: Fs, a: Action)
    requires Inv(fs) && AllClean(fs) && a.Rename? && Enabled(fs, a) && Completes(fs, a)
    ensures var call, r := CallOf(fs, a), Result(fs, a);
            && Renames(fs, a) && CleanAs(r.src, call.srcNormal, None, None, None)
            && CleanAs(r.dst, call.dstNormal, Some(Positive(Renamed(call))), Some(Renamed(call)), FileOf(fs, a.n))
  {
    var call, s := CallOf(fs, a), NamesOf(fs, a);
    CleanCall(fs, a);
    var file := FileOf(fs, a.n).value;
    NothingForced(call, s, file);
    ProceedsMoves(call, s);
    RunToEnd(s, PlanOf(fs, a), CutAt(fs, a));
    RenameCompletes(call, s, file);
  }

  lemma RenameKeepsClean(fs: Fs, a: Action)
    requires Inv(fs) && AllClean(fs) && a.Rename? && Enabled(fs, a) && Completes(fs, a)
    ensures AllClean(Next(fs, a))
  {
    var call, r := CallOf(fs, a), Result(fs, a);
    CompletedNames(fs, a);
    MarkKeepsClean(fs, a.onto.dir, call.from.replica);
    MarkedNormals(fs, a);
    var marked := MarkIn(fs, a.onto.dir, call.from.replica);
    NamesStayClean(marked, a.n, r.src, None);
    var half := With(marked, a.n, r.src, None);
    NamesStayClean(half, a.onto, r.dst, Some(Positive(Renamed(call))));
    assert Next(fs, a) == With(half, a.onto, r.dst, Some(Positive(Renamed(call))));
  }

  /** A completed rename gives the file to the new name. */
  lemma RenameMovesFile(fs: Fs, a: Action)
    requires Inv(fs) && AllClean(fs) && a.Rename? && Enabled(fs, a) && Completes(fs, a)
    ensures FileOf(Next(fs, a), a.onto) == FileOf(fs, a.n) && FileOf(Next(fs, a), a.n) == None
  {
    var call, r := CallOf(fs, a), Result(fs, a);
    CallReady(fs, a);
    CompletedNames(fs, a);
    FilePass(r.dst, call.dstNormal, fs.parts, Some(Renamed(call)), FileOf(fs, a.n), 0);
    FilePass(r.src, call.srcNormal, fs.parts, None, None, 0);
  }

  lemma StepKeepsClean(fs: Fs, a: Action)
    requires Inv(fs) && AllClean(fs) && Enabled(fs, a) && Completes(fs, a)
    ensures AllClean(Next(fs, a))
  {
    match a
    case Look(n, k) => LookKeepsClean(fs, n, k);
    case Evict(n) => ForgottenIsClean(fs, fs.cache - {n});
    case Crash => ForgottenIsClean(fs, map[]);
    case Revalidate(n, k) => RevalidateKeepsClean(fs, n, k);
    case Make(n, part, id) => MakeKeepsClean(fs, n, part, id);
    case Delete(n, k) => DeleteKeepsClean(fs, n, k);
    case Rename(_, _, _, _, _, _) => RenameKeepsClean(fs, a);
  }

  lemma TakenCleanly(fs: Fs, a: Action, next: Fs)
    requires Inv(fs) && AllClean(fs) && Takes(fs, a, next) && Completes(fs, a)
    ensures Inv(next) && AllClean(next) && Coherent(fs, a)
  {
    CleanIsCoherent(fs, a);
    StepKeepsInv(fs, a);
    StepKeepsClean(fs, a);
  }

  ghost predicate CleanTo(states: seq<Fs>, acts: seq<Action>, i: nat)
    requires |states| > |acts| >= i
  {
    Inv(states[i]) && AllClean(states[i]) && CoherentTo(states, acts, i)
  }

  lemma OneMoreCoherent(states: seq<Fs>, acts: seq<Action>, i: nat)
    requires i < |acts| < |states| && CoherentTo(states, acts, i) && Coherent(states[i], acts[i])
    ensures CoherentTo(states, acts, i + 1)
  {
  }

  lemma OneMoreClean(states: seq<Fs>, acts: seq<Action>, i: nat)
    requires i < |acts| < |states| && CleanTo(states, acts, i)
    requires Takes(states[i], acts[i], states[i + 1]) && Completes(states[i], acts[i])
    ensures CleanTo(states, acts, i + 1)
  {
    TakenCleanly(states[i], acts[i], states[i + 1]);
    OneMoreCoherent(states, acts, i);
  }

  /** Over any run of completed operations every name has exactly the entries of a well-formed file,
      every cached dentry has the ids of its file, and every action is coherent. */
  lemma {:induction false} CompletedRunIsClean(states: seq<Fs>, acts: seq<Action>, i: nat)
    requires IsRun(states, acts) && i <= |acts|
    requires forall k {:trigger acts[k]} :: 0 <= k < i ==> Completes(states[k], acts[k])
    ensures CleanTo(states, acts, i)
  {
    if i == 0 {
      EmptyOk(states[0]);
      EmptyIsClean(states[0]);
    } else {
      CompletedRunIsClean(states, acts, i - 1);
      OneMoreClean(states, acts, i - 1);
    }
  }

  lemma EmptyIsClean(fs: Fs)
    requires IsEmpty(fs)
    ensures AllClean(fs)
  {
    forall n ensures CleanAt(fs, n) {
      assert CleanAs(Entries(fs, n), Normal(fs, n.dir), CacheAt(fs, n), None, None);
    }
  }
}
