/** Runs that lose a file: through a dentry that is wrong about it, and through a left-over. */
module SfsLosses {
  import opened Options
  import opened SfsView
  import opened SfsRename
  import opened SfsCall
  import opened SfsDescent
  import opened SfsTheorems
  import opened SfsRecovery
  import opened SfsComplete
  import opened SfsLeftOver
  import opened SfsDentry
  import opened SfsRuns
  import opened SfsCleanRuns

  // ---- What a rename does to the whole file system ----

  /** A file that is under neither name of a rename is under no name at all. */
  lemma LostEverywhere(fs: Fs, a: Action)
    requires Inv(fs) && a.Rename? && Enabled(fs, a) && a.faults == {}
    requires FileOf(fs, a.n).Some? && Loses(CallOf(fs, a), NamesOf(fs, a), FileOf(fs, a.n).value, CutAt(fs, a))
    ensures !HasFile(Next(fs, a), FileOf(fs, a.n).value)
  {
    var call, s := CallOf(fs, a), NamesOf(fs, a);
    assert After(call, s, {}, CutAt(fs, a), []) == Result(fs, a);
    NamedOnce(fs, a.n);
    MarkedNormals(fs, a);
    forall m ensures FileOf(Next(fs, a), m) != FileOf(fs, a.n) {
      if m != a.n && m != a.onto { OthersKeepFiles(fs, a, m); }
    }
  }

  /** A rename that severs or covers the file loses it, though nothing fails and no crash comes. */
  lemma IncoherentLoses(fs: Fs, a: Action)
    requires Inv(fs) && a.Rename? && Enabled(fs, a) && a.faults == {} && a.cut.None?
    requires Severs(CallOf(fs, a), NamesOf(fs, a)) || Covered(CallOf(fs, a), NamesOf(fs, a))
    ensures FileOf(fs, a.n).Some? && !HasFile(Next(fs, a), FileOf(fs, a.n).value)
  {
    var call, s := CallOf(fs, a), NamesOf(fs, a);
    CallReady(fs, a);
    var file := FileOf(fs, a.n).value;
    if Severs(call, s) { SeveredIsLost(call, s, file); } else { CoveredIsLost(call, s, file); }
    LostEverywhere(fs, a);
  }

  /** A crash right after the mark loses a file that is exposed. */
  lemma ExposedLoses(fs: Fs, a: Action)
    requires Inv(fs) && a.Rename? && Enabled(fs, a) && a.faults == {} && CutAt(fs, a) == MarkAt(CallOf(fs, a))
    requires Exposed(CallOf(fs, a), NamesOf(fs, a))
    ensures FileOf(fs, a.n).Some? && !HasFile(Next(fs, a), FileOf(fs, a.n).value)
  {
    CallReady(fs, a);
    ExposedIsLost(CallOf(fs, a), NamesOf(fs, a), FileOf(fs, a.n).value);
    LostEverywhere(fs, a);
  }

  lemma OthersArrive(fs: Fs, a: Action)
    requires Inv(fs) && a.Rename? && Enabled(fs, a) && a.faults == {} && a.cut.None?
    requires !Severs(CallOf(fs, a), NamesOf(fs, a)) && !Covered(CallOf(fs, a), NamesOf(fs, a))
    requires Proceeds(CallOf(fs, a), NamesOf(fs, a)) || !Exposed(CallOf(fs, a), NamesOf(fs, a))
    ensures FileOf(fs, a.n).Some? && HasFile(Next(fs, a), FileOf(fs, a.n).value)
  {
    var call, s, k := CallOf(fs, a), NamesOf(fs, a), CutAt(fs, a);
    CallReady(fs, a);
    var file := FileOf(fs, a.n).value;
    ProceedsMoves(call, s);
    RunToEnd(s, PlanOf(fs, a), k);
    SourceOutcome(call, s, file, {}, k, []);
    assert After(call, s, {}, k, []) == Result(fs, a);
    MarkedNormals(fs, a);
    assert FileOf(Next(fs, a), if Renames(fs, a) then a.onto else a.n) == Some(file);
  }

  lemma StopsAtMark(call: Call, s: Names)
    requires !Proceeds(call, s) && Exposed(call, s)
    ensures Length(Taken(call, s, {})) == MarkAt(call)
  {
  }

  /** A rename in which nothing fails and no crash comes, but for calls on entries that are not there:
      exactly when it loses the file. */
  lemma RenameLosesIff(fs: Fs, a: Action)
    requires Inv(fs) && a.Rename? && Enabled(fs, a) && a.faults == {} && a.cut.None?
    ensures FileOf(fs, a.n).Some?
    ensures var call, s := CallOf(fs, a), NamesOf(fs, a);
            HasFile(Next(fs, a), FileOf(fs, a.n).value) <==>
            !Severs(call, s) && !Covered(call, s) && (Proceeds(call, s) || !Exposed(call, s))
  {
    var call, s := CallOf(fs, a), NamesOf(fs, a);
    if Severs(call, s) || Covered(call, s) {
      IncoherentLoses(fs, a);
    } else if !Proceeds(call, s) && Exposed(call, s) {
      StopsAtMark(call, s);
      ExposedLoses(fs, a);
    } else {
      OthersArrive(fs, a);
    }
  }

  // ---- Building runs ----

  /** A state that coherent actions lead to. */
  ghost predicate Reached(fs: Fs) {
    exists states, acts :: IsRun(states, acts) && CoherentTo(states, acts, |acts|) && states[|acts|] == fs
  }

  lemma ReachedOk(fs: Fs)
    requires Reached(fs)
    ensures Inv(fs)
  {
    var states, acts :| IsRun(states, acts) && CoherentTo(states, acts, |acts|) && states[|acts|] == fs;
    RunKeepsInv(states, acts, |acts|);
  }

  lemma LongerRun(states: seq<Fs>, acts: seq<Action>, a: Action)
    requires IsRun(states, acts) && CoherentTo(states, acts, |acts|) && Enabled(states[|acts|], a)
    ensures IsRun(states + [Next(states[|acts|], a)], acts + [a])
    ensures CoherentTo(states + [Next(states[|acts|], a)], acts + [a], |acts|)
    ensures Coherent(states[|acts|], a) ==>
            CoherentTo(states + [Next(states[|acts|], a)], acts + [a], |acts| + 1)
  {
    var ss, aa := states + [Next(states[|acts|], a)], acts + [a];
    forall i | 0 <= i < |aa| ensures Takes(ss[i], aa[i], ss[i + 1]) {
      if i < |acts| { assert Takes(states[i], acts[i], states[i + 1]); }
    }
    forall i | 0 <= i < |acts| ensures Coherent(ss[i], aa[i]) { assert Coherent(states[i], acts[i]); }
  }

  lemma ReachNext(fs: Fs, a: Action)
    requires Reached(fs) && Enabled(fs, a) && Coherent(fs, a)
    ensures Reached(Next(fs, a))
  {
    var states, acts :| IsRun(states, acts) && CoherentTo(states, acts, |acts|) && states[|acts|] == fs;
    LongerRun(states, acts, a);
    var ss, aa := states + [Next(fs, a)], acts + [a];
    assert IsRun(ss, aa) && CoherentTo(ss, aa, |aa|) && ss[|aa|] == Next(fs, a);
  }

  ghost predicate IdsBelow(fs: Fs, limit: nat) {
    forall n, p, id: nat {:trigger EntryOf(fs.names, n, p, id)} :: EntryOf(fs.names, n, p, id) ==> id < limit
  }

  lemma NextIsUnused(fs: Fs, limit: nat)
    requires IdsBelow(fs, limit)
    ensures Unused(fs, limit)
  {
    forall n, p ensures !EntryOf(fs.names, n, p, limit) {
      assert EntryOf(fs.names, n, p, limit) ==> limit < limit;
    }
  }

  /** A rename adds at most the id of the meta file it may create. */
  lemma RenameIds(fs: Fs, a: Action, limit: nat, next: Fs)
    requires Inv(fs) && a.Rename? && Enabled(fs, a) && IdsBelow(fs, limit) && a.newId == limit
    requires next == Next(fs, a)
    ensures IdsBelow(next, limit + 1)
  {
    var call, s, r := CallOf(fs, a), NamesOf(fs, a), Result(fs, a);
    CallReady(fs, a);
    AfterDescends(call, s, FileOf(fs, a.n).value, a.faults, CutAt(fs, a), []);
    assert After(call, s, a.faults, CutAt(fs, a), []) == r;
    ReadyName(fs, a.n, call.from.replica);
    ReadyName(fs, a.onto, call.from.replica);
    forall n, p, id: nat | EntryOf(next.names, n, p, id) ensures id < limit + 1 {
      assert id == limit || EntryOf(fs.names, n, p, id) || EntryOf(fs.names, a.n, call.from.replica, id);
    }
  }

  /** A reached state without left-overs, whose file ids are below `limit`. */
  ghost predicate Good(fs: Fs, limit: nat) { Reached(fs) && AllClean(fs) && IdsBelow(fs, limit) }

  predicate Fresh(fs: Fs, n: Name) { n !in fs.names && n !in fs.cache }

  /** A lookup that finds nothing. */
  function Missed(fs: Fs, n: Name): Fs { With(fs, n, map[], Some(Negative)) }

  lemma LookMisses(fs: Fs, n: Name)
    requires Reached(fs) && Fresh(fs, n)
    ensures Enabled(fs, Look(n, 0)) && Next(fs, Look(n, 0)) == Missed(fs, n) && Reached(Missed(fs, n))
  {
    ReachedOk(fs);
    assert DirOk(fs, n.dir);
    FirstIsNone(map[], Normal(fs, n.dir), fs.parts);
    ReachNext(fs, Look(n, 0));
  }

  lemma MissedIsGood(fs: Fs, n: Name, limit: nat)
    requires Good(fs, limit) && Fresh(fs, n)
    ensures Good(Missed(fs, n), limit)
  {
    ReachedOk(fs);
    LookMisses(fs, n);
    StepKeepsClean(fs, Look(n, 0));
    var next := Missed(fs, n);
    forall m, p, id: nat | EntryOf(next.names, m, p, id) ensures id < limit { assert EntryOf(fs.names, m, p, id); }
  }

  function Added(fs: Fs, n: Name, part: int, id: nat): Fs {
    Fs(fs.parts, fs.normal[n.dir := Normal(fs, n.dir) + {part}], fs.names[n := map[part := Entry(id, None)]],
        fs.cache[n := Positive(File(part, -1))])
  }

  lemma MadeNext(fs: Fs, n: Name, part: int, id: nat)
    requires Fresh(fs, n) && 0 <= part < fs.parts && CanTurn(Normal(fs, n.dir), part, fs.parts)
    requires Unused(Missed(fs, n), id)
    ensures var mid, make := Missed(fs, n), Make(n, part, id);
            Enabled(mid, make) && Coherent(mid, make) && Next(mid, make) == Added(fs, n, part, id)
  {
    var mid, v: View := Missed(fs, n), map[];
    assert Entries(mid, n) == v && CacheAt(mid, n) == Some(Negative) && Normal(mid, n.dir) == Normal(fs, n.dir);
    var w := v[part := Entry(id, None)];
    assert mid.names[n := w] == fs.names[n := w];
    assert mid.cache[n := Positive(File(part, -1))] == fs.cache[n := Positive(File(part, -1))];
  }

  /** Looking up a new name and creating it. */
  lemma AddFile(fs: Fs, n: Name, part: int, id: nat)
    requires Good(fs, id) && Fresh(fs, n) && 0 <= part < fs.parts && CanTurn(Normal(fs, n.dir), part, fs.parts)
    ensures Good(Added(fs, n, part, id), id + 1)
  {
    var mid, next, make := Missed(fs, n), Added(fs, n, part, id), Make(n, part, id);
    MissedIsGood(fs, n, id);
    NextIsUnused(mid, id);
    MadeNext(fs, n, part, id);
    ReachedOk(mid);
    ReachNext(mid, make);
    StepKeepsClean(mid, make);
    forall m, p, i: nat | EntryOf(next.names, m, p, i) ensures i < id + 1 {
      assert m != n ==> EntryOf(mid.names, m, p, i);
    }
  }

  lemma OneMoreFile(fs: Fs, n: Name, part: int, id: nat, limit: nat) returns (next: Fs)
    requires Good(fs, id) && Fresh(fs, n) && 0 <= part < fs.parts && |Normal(fs, n.dir)| < Threshold(fs.parts)
    requires limit == id + 1
    ensures Good(next, limit) && next == Added(fs, n, part, id)
  {
    AddFile(fs, n, part, id);
    next := Added(fs, n, part, id);
  }

  // ---- Full directories ----

  function Range(lo: int, k: nat): (r: set<int>)
    ensures forall x :: x in r <==> lo <= x < lo + k
  {
    if k == 0 then {} else Range(lo, k - 1) + {lo + k - 1}
  }

  lemma {:induction false} RangeSize(lo: int, k: nat)
    ensures |Range(lo, k)| == k
  {
    if k > 0 { RangeSize(lo, k - 1); }
  }

  function Filler(dir: nat, k: nat): Name { Name(dir, seq(k, _ => 'f')) }

  /** One of the first `k` of them. */
  predicate IsFiller(n: Name, dir: nat, k: nat) { |n.name| < k && n == Filler(dir, |n.name|) }

  predicate SameAt(fs: Fs, next: Fs, n: Name) {
    Entries(next, n) == Entries(fs, n) && CacheAt(next, n) == CacheAt(fs, n)
  }

  /** `k` files in directory `dir`, in the partitions from `lo` on, and nothing else new. */
  ghost predicate Filled(fs: Fs, next: Fs, dir: nat, lo: nat, k: nat, id: nat) {
    && next.parts == fs.parts && Normal(next, dir) == Range(lo, k)
    && (forall d :: d != dir ==> Normal(next, d) == Normal(fs, d) && (d in next.normal ==> d in fs.normal))
    && (forall n {:trigger Fresh(next, n)} :: Fresh(fs, n) && !IsFiller(n, dir, k) ==> Fresh(next, n))
    && (forall n {:trigger Fresh(fs, n)} :: !Fresh(fs, n) ==> SameAt(fs, next, n))
    && (k > 0 ==> Has(next, Filler(dir, 0), lo, id))
  }

  /** The name has a plain file, and its dentry knows. */
  predicate Has(fs: Fs, n: Name, part: int, id: nat) {
    Entries(fs, n) == map[part := Entry(id, None)] && CacheAt(fs, n) == Some(Positive(File(part, -1)))
  }

  ghost predicate NoneIn(fs: Fs, dir: nat) { forall n: Name {:trigger Fresh(fs, n)} :: n.dir == dir ==> Fresh(fs, n) }

  /** Every other name, and every other directory, is as it was. */
  ghost predicate OnlyAt(fs: Fs, next: Fs, n: Name) {
    && next.parts == fs.parts
    && (forall m {:trigger Fresh(next, m)} :: m != n && Fresh(fs, m) ==> Fresh(next, m))
    && (forall m {:trigger SameAt(fs, next, m)} :: m != n ==> SameAt(fs, next, m))
    && (forall d :: d != n.dir ==> Normal(next, d) == Normal(fs, d) && (d in next.normal ==> d in fs.normal))
  }

  lemma AddedOnly(fs: Fs, n: Name, part: int, id: nat)
    ensures var next := Added(fs, n, part, id);
            OnlyAt(fs, next, n) && Has(next, n, part, id) && Normal(next, n.dir) == Normal(fs, n.dir) + {part}
  {
  }

  lemma OneMoreFilled(fs: Fs, before: Fs, dir: nat, lo: nat, k: nat, id: nat)
    requires k > 0 && Filled(fs, before, dir, lo, k - 1, id) && NoneIn(fs, dir)
    ensures Fresh(before, Filler(dir, k - 1))
    ensures Filled(fs, Added(before, Filler(dir, k - 1), lo + k - 1, id + k - 1), dir, lo, k, id)
  {
    var n := Filler(dir, k - 1);
    assert Fresh(fs, n) && !IsFiller(n, dir, k - 1);
    assert Fresh(before, n);
    AddedOnly(before, n, lo + k - 1, id + k - 1);
    StillFilled(fs, before, Added(before, n, lo + k - 1, id + k - 1), n, dir, lo, k, id);
  }

  lemma StillFilled(fs: Fs, before: Fs, next: Fs, n: Name, dir: nat, lo: nat, k: nat, id: nat)
    requires k > 0 && Filled(fs, before, dir, lo, k - 1, id) && n == Filler(dir, k - 1) && Fresh(fs, n)
    requires OnlyAt(before, next, n) && Has(next, n, lo + k - 1, id + k - 1)
    requires Normal(next, dir) == Normal(before, dir) + {lo + k - 1}
    ensures Filled(fs, next, dir, lo, k, id)
  {
    forall m | Fresh(fs, m) && !IsFiller(m, dir, k) ensures Fresh(next, m) {
      assert Fresh(before, m) && m != n;
    }
    forall m | !Fresh(fs, m) ensures SameAt(fs, next, m) {
      assert m != n && SameAt(fs, before, m) && SameAt(before, next, m);
    }
    if k > 1 {
      assert |Filler(dir, 0).name| != |n.name|;
      assert SameAt(before, next, Filler(dir, 0));
    }
  }

  function Fill(fs: Fs, dir: nat, lo: nat, k: nat, id: nat): Fs {
    if k == 0 then fs else Added(Fill(fs, dir, lo, k - 1, id), Filler(dir, k - 1), lo + k - 1, id + k - 1)
  }

  lemma {:induction false} FillFills(fs: Fs, dir: nat, lo: nat, k: nat, id: nat)
    requires dir !in fs.normal && NoneIn(fs, dir)
    ensures Filled(fs, Fill(fs, dir, lo, k, id), dir, lo, k, id)
  {
    if k > 0 {
      FillFills(fs, dir, lo, k - 1, id);
      OneMoreFilled(fs, Fill(fs, dir, lo, k - 1, id), dir, lo, k, id);
    }
  }

  lemma {:induction false} FillIsGood(fs: Fs, dir: nat, lo: nat, k: nat, id: nat, limit: nat)
    requires Good(fs, id) && lo + k <= fs.parts && k <= Threshold(fs.parts) && limit == id + k
    requires dir !in fs.normal && NoneIn(fs, dir)
    ensures Good(Fill(fs, dir, lo, k, id), limit)
  {
    if k > 0 {
      var before, n := Fill(fs, dir, lo, k - 1, id), Filler(dir, k - 1);
      FillIsGood(fs, dir, lo, k - 1, id, limit - 1);
      FillLeavesRoom(fs, dir, lo, k, id);
      var next := OneMoreFile(before, n, lo + k - 1, limit - 1, limit);
      assert next == Fill(fs, dir, lo, k, id);
    }
  }

  lemma FillLeavesRoom(fs: Fs, dir: nat, lo: nat, k: nat, id: nat)
    requires k > 0 && dir !in fs.normal && NoneIn(fs, dir)
    ensures var before := Fill(fs, dir, lo, k - 1, id);
            Fresh(before, Filler(dir, k - 1)) && |Normal(before, dir)| == k - 1 && before.parts == fs.parts
  {
    FillFills(fs, dir, lo, k - 1, id);
    OneMoreFilled(fs, Fill(fs, dir, lo, k - 1, id), dir, lo, k, id);
    RangeSize(lo, k - 1);
  }

  // ---- The states the runs go through ----

  const E := Name(1, "e")
  const X := Name(0, "x")

  /** The 20 partitions from `lo` on. */
  ghost predicate IsFull(normal: set<int>, lo: int) {
    |normal| == 20 && forall x :: x in normal <==> lo <= x < lo + 20
  }

  lemma EmptyIsGood(fs: Fs)
    requires IsEmpty(fs)
    ensures Good(fs, 0)
  {
    var states, acts: seq<Action> := [fs], [];
    assert IsRun(states, acts) && CoherentTo(states, acts, |acts|) && states[|acts|] == fs;
    EmptyIsClean(fs);
  }

  /** A file in each of 20 partitions, all in a directory that had none. */
  lemma FillUp(fs: Fs, dir: nat, lo: nat, id: nat, limit: nat) returns (next: Fs)
    requires Good(fs, id) && fs.parts == 22 && lo <= 2 && limit == id + 20
    requires dir !in fs.normal && NoneIn(fs, dir)
    ensures Good(next, limit) && next.parts == 22 && IsFull(Normal(next, dir), lo)
    ensures forall d :: d != dir ==> Normal(next, d) == Normal(fs, d) && (d in next.normal ==> d in fs.normal)
    ensures Has(next, Filler(dir, 0), lo, id)
    ensures forall n {:trigger Fresh(next, n)} :: Fresh(fs, n) && !IsFiller(n, dir, 20) ==> Fresh(next, n)
    ensures forall n {:trigger Fresh(fs, n)} :: !Fresh(fs, n) ==> SameAt(fs, next, n)
  {
    var k: nat :| k == 20;
    FillIsGood(fs, dir, lo, k, id, limit);
    FillFills(fs, dir, lo, k, id);
    RangeSize(lo, k);
    next := Fill(fs, dir, lo, k, id);
  }

  /** The dentry of a plain file in a normal partition. */
  lemma PlainFile(fs: Fs, n: Name, part: int, id: nat)
    requires Inv(fs) && Has(fs, n, part, id) && part in Normal(fs, n.dir)
    ensures Live(fs, n) && IdsOf(fs, n) == Some(File(part, -1)) && Validated(fs, n) == Entries(fs, n)
    ensures FoundAt(fs, n).Some? && FileOf(fs, n) == Some(id)
  {
    assert DirOk(fs, n.dir);
    FirstIsLone(Entries(fs, n), Normal(fs, n.dir), fs.parts, part);
  }

  lemma FullMarks(normal: set<int>, part: int)
    requires IsFull(normal, 0) && part >= 20
    ensures Marked(normal, part, 22) == normal
  {
  }

  /** The last action of a run whose other actions are coherent. */
  lemma Conclude(fs: Fs, a: Action) returns (states: seq<Fs>, acts: seq<Action>)
    requires Reached(fs) && Enabled(fs, a)
    ensures |acts| > 0 && IsRun(states, acts) && CoherentTo(states, acts, |acts| - 1)
    ensures states[|acts| - 1] == fs && acts[|acts| - 1] == a && states[|acts|] == Next(fs, a)
    ensures Coherent(fs, a) ==> CoherentTo(states, acts, |acts|)
  {
    states, acts :| IsRun(states, acts) && CoherentTo(states, acts, |acts|) && states[|acts|] == fs;
    LongerRun(states, acts, a);
    states, acts := states + [Next(fs, a)], acts + [a];
  }

  // ---- A dentry that does not know of an entry ----

  /** A file in partition 20, and a free name in the full directory. */
  ghost predicate Split0(fs: Fs, limit: nat, left: View) {
    && Reached(fs) && fs.parts == 22 && IsFull(Normal(fs, 0), 0) && Normal(fs, 1) == {20}
    && Has(fs, E, 20, 20) && CacheAt(fs, X) == Some(Negative) && Entries(fs, X) == left
    && IdsBelow(fs, limit)
  }

  function SplitX(meta: int, newId: nat, faults: set<nat>): Action { Rename(E, X, meta, newId, faults, None) }

  lemma SplitCall(fs: Fs, meta: int, newId: nat, faults: set<nat>, left: View)
    requires Split0(fs, newId, left) && 0 <= meta < 20
    ensures var a := SplitX(meta, newId, faults);
            && Enabled(fs, a) && IdsOf(fs, a.n).Some? && FileOf(fs, E) == Some(20)
            && CallOf(fs, a) == Call({20}, Normal(fs, 0), 22, File(20, -1), None, meta, newId, false)
            && NamesOf(fs, a) == Names(map[20 := Entry(20, None)], left)
  {
    ReachedOk(fs);
    PlainFile(fs, E, 20, 20);
    FullMarks(Normal(fs, 0), 20);
    NextIsUnused(fs, newId);
  }

  lemma SplitStart() returns (fs: Fs)
    ensures Good(fs, 21) && Split0(fs, 21, map[])
    ensures forall n: Name {:trigger Fresh(fs, n)} :: n.dir > 1 ==> Fresh(fs, n)
    ensures forall d :: d > 1 ==> d !in fs.normal
    ensures Has(fs, Filler(0, 0), 0, 0)
  {
    var empty := Fs(22, map[], map[], map[]);
    EmptyIsGood(empty);
    var full := FillUp(empty, 0, 0, 0, 20);
    assert forall n {:trigger Fresh(empty, n)} :: Fresh(empty, n);
    assert Filler(0, 1).name[0] == 'f';
    assert !IsFiller(X, 0, 20) && !IsFiller(E, 0, 20);
    assert Fresh(full, E) && Fresh(full, X);
    AddFile(full, E, 20, 20);
    var added := Added(full, E, 20, 20);
    MissedIsGood(added, X, 21);
    fs := Missed(added, X);
    forall n: Name | n.dir > 1 ensures Fresh(fs, n) { assert Fresh(full, n); }
  }

  /** The rename fails on the record of its new meta file, which stays behind. */
  lemma SplitFails(fs: Fs) returns (next: Fs)
    requires Good(fs, 21) && Split0(fs, 21, map[])
    ensures Split0(next, 22, map[0 := Entry(21, None)])
  {
    var a := SplitX(0, 21, {1});
    SplitCall(fs, 0, 21, {1}, map[]);
    ReachedOk(fs);
    CleanIsCoherent(fs, a);
    ReachNext(fs, a);
    next := Next(fs, a);
    RenameIds(fs, a, 21, next);
    assert Forced(CallOf(fs, a), NamesOf(fs, a)) == {};
    assert {1} + {} == {1};
    assert PlanOf(fs, a) == Then(Create(0, 21), Done);
    assert Result(fs, a) == ApplyStep(NamesOf(fs, a), Create(0, 21));
  }

  /** A rename to a free name of a full directory fails half-way.  Repeated, it succeeds, and the file can
      no longer be found on disk: its name resolves to the meta file that the first attempt left. */
  lemma RepeatedRenameCoversFile() returns (states: seq<Fs>, acts: seq<Action>)
    ensures |acts| > 0 && IsRun(states, acts) && CoherentTo(states, acts, |acts| - 1)
    ensures var a := acts[|acts| - 1];
            && a.Rename? && a.faults == {} && a.cut.None?
            && FileOf(states[|acts| - 1], a.n) == Some(20) && !HasFile(states[|acts|], 20)
  {
    var start := SplitStart();
    var fs := SplitFails(start);
    var a, left := SplitX(1, 22, {}), map[0 := Entry(21, None)];
    SplitCall(fs, 1, 22, {}, left);
    ReachedOk(fs);
    assert 0 in left && Covered(CallOf(fs, a), NamesOf(fs, a));
    IncoherentLoses(fs, a);
    states, acts := Conclude(fs, a);
  }

  // ---- A dentry that is wrong about its meta file ----

  const A := Name(2, "a")

  /** A partitioned file with its data in partition 20 and its meta file in partition 0. */
  predicate IsSplit(w: View) {
    && w.Keys == {0, 20} && w[0].link == Some(Link(20, -1)) && w[20].file == 20 && PointsBack(w, 20, 0)
  }

  /** The rename succeeds. */
  lemma SplitSucceeds(fs: Fs) returns (next: Fs)
    requires Good(fs, 21) && Split0(fs, 21, map[])
    ensures Good(next, 22) && next.parts == 22 && next.normal == fs.normal[0 := Normal(fs, 0)]
    ensures IsSplit(Entries(next, X)) && CacheAt(next, X) == Some(Positive(File(20, 0)))
    ensures forall n :: n != E && n != X ==> SameAt(fs, next, n) && (Fresh(fs, n) ==> Fresh(next, n))
  {
    var a := SplitX(0, 21, {});
    SplitCall(fs, 0, 21, {}, map[]);
    RenameIsGood(fs, a, 21);
    SplitResult(fs, a);
    CompletedNames(fs, a);
    next := Next(fs, a);
    RenameFrame(fs, a, next);
  }

  lemma RenameFrame(fs: Fs, a: Action, next: Fs)
    requires a.Rename? && Enabled(fs, a) && a.cut.None? && Renames(fs, a) && next == Next(fs, a)
    ensures forall n :: n != a.n && n != a.onto ==> SameAt(fs, next, n) && (Fresh(fs, n) ==> Fresh(next, n))
    ensures Entries(next, a.onto) == Result(fs, a).dst
    ensures CacheAt(next, a.onto) == Some(Positive(Renamed(CallOf(fs, a))))
  {
    MapsChange(fs, a.n, a.onto, Result(fs, a), Renamed(CallOf(fs, a)), next);
  }

  lemma MapsChange(fs: Fs, n: Name, onto: Name, r: Names, f: File, next: Fs)
    requires n != onto && next.names == fs.names[n := r.src][onto := r.dst]
    requires next.cache == (fs.cache - {n})[onto := Positive(f)]
    ensures forall m :: m != n && m != onto ==> SameAt(fs, next, m) && (Fresh(fs, m) ==> Fresh(next, m))
    ensures Entries(next, onto) == r.dst && CacheAt(next, onto) == Some(Positive(f))
  {
  }

  lemma RenameIsGood(fs: Fs, a: Action, limit: nat)
    requires Good(fs, limit) && a.Rename? && Enabled(fs, a) && a.newId == limit && Completes(fs, a)
    ensures Inv(fs) && Good(Next(fs, a), limit + 1)
  {
    ReachedOk(fs);
    CleanIsCoherent(fs, a);
    ReachNext(fs, a);
    StepKeepsClean(fs, a);
    RenameIds(fs, a, limit, Next(fs, a));
  }

  lemma SplitResult(fs: Fs, a: Action)
    requires Good(fs, 21) && Split0(fs, 21, map[]) && a == SplitX(0, 21, {}) && Enabled(fs, a)
    ensures IsSplit(Result(fs, a).dst)
  {
    SplitCall(fs, 0, 21, {}, map[]);
    ReachedOk(fs);
    CleanCall(fs, a);
    SplitEnds(CallOf(fs, a), NamesOf(fs, a));
  }

  lemma SplitEnds(call: Call, s: Names)
    requires Ready(call, s, 20) && Accurate(call, s) && s.dst == map[] && call.onto.None? && !call.CanTurn()
    requires call.from == File(20, -1) && call.meta == 0
    ensures IsSplit(RunTo(s, Taken(call, s, {}), Length(Taken(call, s, {}))).dst)
  {
    var steps := Taken(call, s, {});
    RenameCompletes(call, s, 20);
    RunToEnd(s, steps, Length(steps));
    var w := Run(s, steps).dst;
    assert LeftOvers(map[], None) - {20} == map[];
    NothingElse(w, Some(File(20, 0)));
    assert w.Keys == {0, 20};
  }

  /** A file in partition 21, and a partitioned one in the full directory whose meta file has record `r`. */
  ghost predicate Onto0(fs: Fs, limit: nat, w: View, r: Record) {
    && Reached(fs) && fs.parts == 22 && IsFull(Normal(fs, 0), 0) && Normal(fs, 2) == {21}
    && Has(fs, A, 21, 22) && CacheAt(fs, X) == Some(Positive(File(20, 0))) && IdsBelow(fs, limit)
    && IsSplit(w) && Entries(fs, X) == w[0 := w[0].(link := Some(r))]
  }

  function OntoX(newId: nat, faults: set<nat>): Action { Rename(A, X, 0, newId, faults, None) }

  lemma OntoCall(fs: Fs, newId: nat, faults: set<nat>, w: View, r: Record)
    requires Onto0(fs, newId, w, r) && (r == Link(20, -1) || r == Link(-1, 21))
    ensures var a, onto := OntoX(newId, faults), if r == Link(20, -1) then File(20, 0) else File(0, 0);
            && Enabled(fs, a) && IdsOf(fs, a.n).Some? && FileOf(fs, A) == Some(22)
            && CallOf(fs, a) == Call({21}, Normal(fs, 0), 22, File(21, -1), Some(onto), 0, newId, false)
            && NamesOf(fs, a).src == map[21 := Entry(22, None)]
            && NamesOf(fs, a).dst == if r == Link(20, -1) then w else w[0 := w[0].(link := Some(EMPTY))]
  {
    ReachedOk(fs);
    PlainFile(fs, A, 21, 22);
    FullMarks(Normal(fs, 0), 21);
    NextIsUnused(fs, newId);
    var v := Entries(fs, X);
    if r == Link(20, -1) {
      assert v == w;
      assert Check(v, File(20, 0)) == Plan([], 20, 0);
    } else {
      assert Check(v, File(20, 0)) == Plan([Put(0, EMPTY)], 0, -1);
      RunOne(v, Put(0, EMPTY));
    }
  }

  lemma OntoStart() returns (fs: Fs, w: View)
    ensures Good(fs, 23) && Onto0(fs, 23, w, Link(20, -1))
  {
    var start := SplitStart();
    var next := SplitSucceeds(start);
    w := Entries(next, X);
    assert Fresh(start, A) && Fresh(next, A);
    AddFile(next, A, 21, 22);
    fs := Added(next, A, 21, 22);
    assert w == w[0 := w[0].(link := Some(Link(20, -1)))];
  }

  /** The rename fails on the source's record, when the meta file has lost its link already. */
  lemma OntoFails(fs: Fs, w: View) returns (next: Fs)
    requires Good(fs, 23) && Onto0(fs, 23, w, Link(20, -1))
    ensures Onto0(next, 24, w, Link(-1, 21))
  {
    var a := OntoX(23, {1});
    OntoCall(fs, 23, {1}, w, Link(20, -1));
    ReachedOk(fs);
    CleanIsCoherent(fs, a);
    ReachNext(fs, a);
    next := Next(fs, a);
    RenameIds(fs, a, 23, next);
    assert Forced(CallOf(fs, a), NamesOf(fs, a)) == {};
    assert {1} + {} == {1};
    assert PlanOf(fs, a) == Then(OnDst(Put(0, Link(-1, 21))), Done);
    assert Result(fs, a) == ApplyStep(NamesOf(fs, a), OnDst(Put(0, Link(-1, 21))));
  }

  /** A rename onto a partitioned file fails half-way.  Repeated, it succeeds, and the file is under neither
      name: validation leaves the destination's dentry with doubled ids, and the rename deletes the visible
      entry of the new name as its old data. */
  lemma RepeatedRenameSeversFile() returns (states: seq<Fs>, acts: seq<Action>)
    ensures |acts| > 0 && IsRun(states, acts) && CoherentTo(states, acts, |acts| - 1)
    ensures var a := acts[|acts| - 1];
            && a.Rename? && a.faults == {} && a.cut.None?
            && FileOf(states[|acts| - 1], a.n) == Some(22) && !HasFile(states[|acts|], 22)
  {
    var start, w := OntoStart();
    var fs := OntoFails(start, w);
    var a := OntoX(24, {});
    OntoCall(fs, 24, {}, w, Link(-1, 21));
    ReachedOk(fs);
    assert Severs(CallOf(fs, a), NamesOf(fs, a));
    IncoherentLoses(fs, a);
    states, acts := Conclude(fs, a);
  }

  // ---- A left-over ----

  const Y := Name(3, "y")

  /** Two full directories: one with a plain file in partition 0 and a partitioned one with its meta file
      there, the other without that partition. */
  ghost predicate Crash0(fs: Fs, w: View) {
    && Good(fs, 42) && fs.parts == 22 && IsFull(Normal(fs, 0), 0) && IsFull(Normal(fs, 3), 1)
    && Has(fs, Filler(0, 0), 0, 0) && CacheAt(fs, X) == Some(Positive(File(20, 0)))
    && IsSplit(w) && Entries(fs, X) == w && Fresh(fs, Y)
  }

  lemma CrashStart() returns (fs: Fs, w: View)
    ensures Crash0(fs, w)
  {
    var start := SplitStart();
    var next := SplitSucceeds(start);
    w := Entries(next, X);
    forall n: Name | n.dir == 3 ensures Fresh(next, n) { assert Fresh(start, n); }
    assert SameAt(start, next, Filler(0, 0));
    fs := FillUp(next, 3, 1, 22, 42);
    assert !Fresh(next, X) && !Fresh(next, Filler(0, 0));
    assert Fresh(next, Y) && Filler(3, 1).name[0] == 'f';
    assert !IsFiller(Y, 3, 20);
    assert Fresh(fs, Y);
  }

  /** The state after the plain file has been moved onto the meta file, and the machine has crashed. */
  ghost predicate Crash1(fs: Fs, w: View, r: Record) {
    && Reached(fs) && fs.parts == 22 && IsFull(Normal(fs, 0), 0) && IsFull(Normal(fs, 3), 1) && IdsBelow(fs, 43)
    && IsSplit(w) && Entries(fs, X) == w[0 := Entry(0, Some(r))] && Fresh(fs, Y)
  }

  lemma FirstCrash(fs: Fs, w: View) returns (next: Fs)
    requires Crash0(fs, w)
    ensures Crash1(next, w, Link(-1, 0)) && next.cache == map[]
  {
    var b := Filler(0, 0);
    var a := Rename(b, X, 0, 42, {}, Some(2));
    assert b.name != X.name;
    ReachedOk(fs);
    PlainFile(fs, b, 0, 0);
    assert Normal(fs, 0) + {0} == Normal(fs, 0);
    NextIsUnused(fs, 42);
    assert Check(w, File(20, 0)) == Plan([], 20, 0);
    assert CallOf(fs, a) == Call(Normal(fs, 0), Normal(fs, 0), 22, File(0, -1), Some(File(20, 0)), 0, 42, true);
    assert Enabled(fs, a);
    CleanIsCoherent(fs, a);
    ReachNext(fs, a);
    next := Next(fs, a);
    RenameIds(fs, a, 42, next);
    assert Forced(CallOf(fs, a), NamesOf(fs, a)) == {};
    FirstSteps(CallOf(fs, a), NamesOf(fs, a));
    assert Result(fs, a).dst == w[0 := Entry(0, Some(Link(-1, 0)))];
  }

  /** A lookup of the name puts the record right, and leaves the old data in partition 20. */
  lemma Mends(fs: Fs, w: View) returns (next: Fs)
    requires Crash1(fs, w, Link(-1, 0)) && fs.cache == map[]
    ensures Crash1(next, w, EMPTY) && CacheAt(next, X) == Some(Positive(File(0, -1)))
  {
    var a, v := Look(X, 1), Entries(fs, X);
    ReachedOk(fs);
    assert DirOk(fs, 0);
    FirstIsLone(v, Normal(fs, 0), 22, 0);
    assert Lookup(v, Normal(fs, 0), 22) == Plan([Put(0, EMPTY)], 0, -1);
    assert [Put(0, EMPTY)][..1] == [Put(0, EMPTY)];
    RunOne(v, Put(0, EMPTY));
    ReachNext(fs, a);
    next := Next(fs, a);
    forall n, p, id: nat | EntryOf(next.names, n, p, id) ensures id < 43 { assert EntryOf(fs.names, n, p, id); }
  }

  /** Two crashes lose a file, though every dentry is coherent: the first one leaves old data behind, the
      second one lets recovery take it for the file. */
  lemma TwoCrashesLoseFile() returns (states: seq<Fs>, acts: seq<Action>)
    ensures |acts| > 0 && IsRun(states, acts) && CoherentTo(states, acts, |acts|)
    ensures var a := acts[|acts| - 1];
            && a.Rename? && a.faults == {} && FileOf(states[|acts| - 1], a.n) == Some(0)
            && !HasFile(states[|acts|], 0)
  {
    var start, w := CrashStart();
    var crashed := FirstCrash(start, w);
    var mended := Mends(crashed, w);
    LookMisses(mended, Y);
    var fs := Missed(mended, Y);
    var a := Rename(X, Y, 20, 43, {}, Some(3));
    forall n, p, id: nat | EntryOf(fs.names, n, p, id) ensures id < 43 { assert EntryOf(mended.names, n, p, id); }
    SecondCall(fs, w, a);
    ReachedOk(fs);
    ExposedLoses(fs, a);
    states, acts := Conclude(fs, a);
  }

  lemma SecondCall(fs: Fs, w: View, a: Action)
    requires Reached(fs) && fs.parts == 22 && IsFull(Normal(fs, 0), 0) && IsFull(Normal(fs, 3), 1) && IdsBelow(fs, 43)
    requires IsSplit(w) && Entries(fs, X) == w[0 := Entry(0, Some(EMPTY))]
    requires CacheAt(fs, X) == Some(Positive(File(0, -1)))
    requires CacheAt(fs, Y) == Some(Negative) && Entries(fs, Y) == map[] && a == Rename(X, Y, 20, 43, {}, Some(3))
    ensures Enabled(fs, a) && Coherent(fs, a) && FileOf(fs, X) == Some(0)
    ensures CutAt(fs, a) == MarkAt(CallOf(fs, a)) && Exposed(CallOf(fs, a), NamesOf(fs, a))
  {
    var v := Entries(fs, X);
    ReachedOk(fs);
    assert DirOk(fs, 0);
    FirstIsLone(v, Normal(fs, 0), 22, 0);
    NextIsUnused(fs, 43);
    assert Check(v, File(0, -1)) == Plan([], 0, -1);
    assert CallOf(fs, a) == Call(Normal(fs, 0), Normal(fs, 3), 22, File(0, -1), None, 20, 43, false);
  }
}
