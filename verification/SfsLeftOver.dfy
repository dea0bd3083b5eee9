/** Where left-overs come from, and what the next crash can do with one. */
module SfsLeftOver {
  import opened Options
  import opened SfsView
  import opened SfsRename
  import opened SfsCall
  import opened SfsDescent
  import opened SfsCrash
  import opened SfsTheorems
  import opened SfsRecovery
  import opened SfsComplete

  // ---- When a crash leaves something over ----

  /** Neither name has left-overs to begin with. */
  predicate Tidy(call: Call, s: Names) {
    LeftOvers(s.src, Some(call.from)) == map[] && LeftOvers(s.dst, call.onto) == map[]
  }

  /** What a complete pass over the name leaves beside its file. */
  function Remains(v: View, normal: set<int>, n: nat): View {
    LeftOvers(Recovered(v, normal, n), Found(v, normal, n))
  }

  ghost predicate LeavesSome(call: Call, s: Names) {
    exists faults: set<nat>, k: nat, passes: seq<Pass> {:trigger After(call, s, faults, k, passes)} ::
      var r := After(call, s, faults, k, passes);
      Remains(r.src, call.srcNormal, call.parts) != map[] || Remains(r.dst, call.dstNormal, call.parts) != map[]
  }

  /** The destination is partitioned, with its data in another partition than the source's. */
  predicate Scatters(call: Call) {
    call.onto.Some? && call.onto.value.meta != -1 && call.onto.value.replica != call.from.replica
  }

  lemma PassKeepsFiles(v: View, normal: set<int>, n: nat)
    ensures forall p :: p in Recovered(v, normal, n) ==> p in v && Recovered(v, normal, n)[p].file == v[p].file
  {
    OpsKeepFiles(v, Lookup(v, normal, n).ops);
  }

  lemma NothingElse(v: View, f: Option<File>)
    requires LeftOvers(v, f) == map[]
    ensures forall p :: p in v ==> f.Some? && p in Parts(f.value)
  {
    assert f.Some? ==> forall p :: p in v && p !in Parts(f.value) ==> p in LeftOvers(v, f);
  }

  /** All entries but the one in partition `d` are visible, and `d` is the file's data if it is not. */
  lemma AllBelong(v: View, normal: set<int>, f: Option<File>, id: Option<nat>, d: int)
    requires IsFileOrAbsent(v, normal, f, id) && forall p :: p in v ==> p in normal || p == d
    requires d in v && d !in normal ==> f.Some? && f.value.replica == d
    ensures LeftOvers(v, f) == map[]
  {
    assert if f.Some? then forall p :: p in v ==> p in Parts(f.value) else forall p :: p !in v;
    assert forall p :: p !in LeftOvers(v, f);
    assert LeftOvers(v, f).Keys == {};
  }

  /** The old name never keeps anything but its file. */
  lemma SourceLeavesNone(call: Call, s: Names, file: nat, faults: set<nat>, k: nat, passes: seq<Pass>)
    requires Ready(call, s, file) && Accurate(call, s) && Tidy(call, s)
    ensures Remains(After(call, s, faults, k, passes).src, call.srcNormal, call.parts) == map[]
  {
    var v := After(call, s, faults, k, passes).src;
    var w, found := Recovered(v, call.srcNormal, call.parts), Found(v, call.srcNormal, call.parts);
    AfterDescends(call, s, file, faults, k, passes);
    NothingForced(call, s, file);
    CrashOutcome(call, s, file, faults, k, passes);
    CrashLeavesFiles(call, s, file, faults, k, passes, true);
    PassKeepsFiles(v, call.srcNormal, call.parts);
    NothingElse(s.src, Some(call.from));
    assert !Exposed(call, s);
    var d := call.from.replica;
    assert forall p :: p in w ==> p in call.srcNormal || p == d;
    if d in w && d !in call.srcNormal {
      assert found.Some? && w[found.value.replica].file == file;
    }
    AllBelong(w, call.srcNormal, found, Resolved(v, call.srcNormal, call.parts), d);
  }

  /** A tidy destination with its data in the source's partition, if that is not visible. */
  lemma TidyDestination(call: Call, s: Names, file: nat)
    requires Ready(call, s, file) && Accurate(call, s) && Tidy(call, s) && !Scatters(call)
    ensures var d := call.from.replica;
            && (forall p :: p in s.dst ==> p in call.dstNormal || p == d)
            && (d in s.dst && d !in call.dstNormal ==>
                  && NewName(call, s) == Some(s.dst[d].file)
                  && forall f :: f in Detours(call, s) ==> f == Some(s.dst[d].file))
  {
    NothingElse(s.dst, call.onto);
    KnownMeans(call, s, file);
  }

  /** The data that arrives there is found. */
  lemma DataIsFound(call: Call, s: Names, file: nat, faults: set<nat>, k: nat, passes: seq<Pass>)
    requires Ready(call, s, file) && Accurate(call, s) && Tidy(call, s) && !Scatters(call)
    ensures var v, d := After(call, s, faults, k, passes).dst, call.from.replica;
            d in v && d !in call.dstNormal ==> NewName(call, After(call, s, faults, k, passes)) == Some(v[d].file)
  {
    AfterDescends(call, s, file, faults, k, passes);
    NothingForced(call, s, file);
    TidyDestination(call, s, file);
    CrashOutcome(call, s, file, faults, k, passes);
    if Moved(call, s, faults, k) {
      var v := After(call, s, faults, k, passes).dst;
      CrashLeavesFiles(call, s, file, faults, k, passes, false);
      PassKeepsFiles(v, call.dstNormal, call.parts);
      assert v[Found(v, call.dstNormal, call.parts).value.replica].file == file;
    }
  }

  /** Nor does the new name, unless the destination was scattered. */
  lemma DestinationLeavesNone(call: Call, s: Names, file: nat, faults: set<nat>, k: nat, passes: seq<Pass>)
    requires Ready(call, s, file) && Accurate(call, s) && Tidy(call, s) && !Scatters(call)
    ensures Remains(After(call, s, faults, k, passes).dst, call.dstNormal, call.parts) == map[]
  {
    var v, d := After(call, s, faults, k, passes).dst, call.from.replica;
    var w, found := Recovered(v, call.dstNormal, call.parts), Found(v, call.dstNormal, call.parts);
    AfterDescends(call, s, file, faults, k, passes);
    TidyDestination(call, s, file);
    DataIsFound(call, s, file, faults, k, passes);
    NothingForced(call, s, file);
    CrashLeavesFiles(call, s, file, faults, k, passes, false);
    PassKeepsFiles(v, call.dstNormal, call.parts);
    assert forall p :: p in w ==> p in call.dstNormal || p == d;
    if d in w && d !in call.dstNormal {
      assert found.Some? && v[found.value.replica].file == v[d].file;
      assert found.value.replica == d;
    }
    AllBelong(w, call.dstNormal, found, Resolved(v, call.dstNormal, call.parts), d);
  }

  /** From names without left-overs, some crash leaves one if and only if the destination is
      partitioned with its data elsewhere. */
  lemma LeavesSomeIff(call: Call, s: Names, file: nat)
    requires Ready(call, s, file) && Accurate(call, s) && Tidy(call, s)
    ensures LeavesSome(call, s) <==> Scatters(call)
  {
    if Scatters(call) {
      ScatteredIsLeft(call, s, file);
      var r := After(call, s, {}, LeftAt(call), []);
      assert Remains(r.dst, call.dstNormal, call.parts) != map[];
    } else {
      forall faults: set<nat>, k: nat, passes: seq<Pass>
        ensures var r := After(call, s, faults, k, passes);
                Remains(r.src, call.srcNormal, call.parts) == map[] == Remains(r.dst, call.dstNormal, call.parts)
      {
        SourceLeavesNone(call, s, file, faults, k, passes);
        DestinationLeavesNone(call, s, file, faults, k, passes);
      }
    }
  }

  /** How many steps it takes until the record that led to the data is gone. */
  function LeftAt(call: Call): nat { if call.CanTurn() then 2 else 1 }

  /** A crash there leaves the old data behind: recovery takes the visible entry for a plain file. */
  lemma ScatteredIsLeft(call: Call, s: Names, file: nat)
    requires Ready(call, s, file) && Accurate(call, s) && Scatters(call)
    requires !call.CanTurn() ==> call.from.replica !in s.dst
    ensures var x, e := Visible(call.onto.value), call.onto.value.replica;
            var v := After(call, s, {}, LeftAt(call), []).dst;
            && Found(v, call.dstNormal, call.parts) == Some(File(x, -1))
            && Recovered(v, call.dstNormal, call.parts) == v[x := v[x].(link := Some(EMPTY))]
            && v == s.dst[x := v[x]] && e in Remains(v, call.dstNormal, call.parts)
            && v[x].file == if Overwrites(call) then file else s.dst[x].file
  {
    var x, e, d := Visible(call.onto.value), call.onto.value.replica, call.from.replica;
    NothingForced(call, s, file);
    FirstSteps(call, s);
    var v := After(call, s, {}, LeftAt(call), []).dst;
    FirstIsLone(v, call.dstNormal, call.parts, x);
    assert Lookup(v, call.dstNormal, call.parts) == Plan([Put(x, EMPTY)], x, -1);
    RunOne(v, Put(x, EMPTY));
  }

  // ---- What the next crash does with it ----

  /** A second rename, into a directory with normal set `normal`, of a file that was renamed onto the
      meta file of a partitioned destination: to a free name that gets its meta file in the left-over's
      partition or, if the data can become visible there, onto a file in that partition. */
  function NextCall(call: Call, file: nat, normal: set<int>): Call
    requires call.onto.Some?
  {
    var d, e := call.from.replica, call.onto.value.replica;
    Call(call.dstNormal, normal, call.parts, File(d, -1), if d in normal then Some(File(e, -1)) else None, e, file + 2,
        false)
  }

  function NextNames(call: Call, v: View, file: nat, normal: set<int>): Names
    requires call.onto.Some?
  {
    Names(v, if call.from.replica in normal then map[call.onto.value.replica := Entry(file + 1, None)] else map[])
  }

  /** Two crashes lose a file: the first one leaves a left-over, the second one lets recovery take the
      left-over for the file, or delete the file as the data of a left-over that points back at it. */
  lemma SecondCrashLosesFile(call: Call, s: Names, file: nat, normal: set<int>)
    requires Ready(call, s, file) && Accurate(call, s) && Overwrites(call) && Scatters(call)
    requires InRange(normal, call.parts) && call.onto.value.replica in normal
    requires call.from.replica in normal ==> PointsBack(s.dst, call.onto.value.replica, call.from.replica)
    ensures var v := Recovered(After(call, s, {}, 2, []).dst, call.dstNormal, call.parts);
            var next, t := NextCall(call, file, normal), NextNames(call, v, file, normal);
            && Ready(next, t, file) && Accurate(next, t) && Resolved(v, call.dstNormal, call.parts) == Some(file)
            && Loses(next, t, file, MarkAt(next))
  {
    var d, e := call.from.replica, call.onto.value.replica;
    ScatteredIsLeft(call, s, file);
    var v := Recovered(After(call, s, {}, 2, []).dst, call.dstNormal, call.parts);
    var next, t := NextCall(call, file, normal), NextNames(call, v, file, normal);
    assert v == s.dst[d := Entry(file, Some(EMPTY))] && e in v;
    assert IsFile(v, call.dstNormal, File(d, -1), file);
    FileMeans(v, call.dstNormal, File(d, -1), file);
    LookupResolves(v, call.dstNormal, call.parts, Some(file));
    assert Exposed(next, t);
    ExposedIsLost(next, t, file);
  }
}
