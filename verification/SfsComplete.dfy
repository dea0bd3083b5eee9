/** A rename that is not interrupted leaves both names well formed again, and their left-overs
    alone. */
module SfsComplete {
  import opened Options
  import opened SfsView
  import opened SfsRename
  import opened SfsCall
  import opened SfsTheorems

  /** Where the file lives afterwards. */
  function Renamed(call: Call): File {
    if call.CanTurn() then File(call.from.replica, -1)
    else File(call.from.replica, if call.onto.Some? then Visible(call.onto.value) else call.meta)
  }

  /** `r` is what the names `s` should be after the call. */
  ghost predicate Finished(call: Call, s: Names, file: nat, r: Names) {
    && r.src == LeftOvers(s.src, Some(call.from)) && IsFile(r.dst, call.dstNormal, Renamed(call), file)
    && (!call.CanTurn() ==> PointsBack(r.dst, call.from.replica, Renamed(call).meta))
    && LeftOvers(r.dst, Some(Renamed(call))) == LeftOvers(s.dst, call.onto) - {call.from.replica}
  }

  /** Accurate dentries lead no call to an entry that is not there. */
  lemma NothingForced(call: Call, s: Names, file: nat)
    requires Ready(call, s, file) && Accurate(call, s)
    ensures Forced(call, s) == {} && Proceeds(call, s) && Sound(call, s)
    ensures forall faults :: Taken(call, s, faults) == call.Plan(faults)
  {
    assert forall faults: set<nat> :: faults + {} == faults;
  }

  lemma RunTry(s: Names, step: Step, ok: Steps, bad: Steps)
    ensures Run(s, Try(step, false, ok, bad)) == Run(ApplyStep(s, step), ok)
  {
  }

  /** The source's own meta file goes last. */
  lemma DropCompletes(call: Call, s: Names, t: Names, file: nat)
    requires IsFile(s.src, call.srcNormal, call.from, file) && t.src == s.src - {call.from.replica}
    requires IsFile(t.dst, call.dstNormal, Renamed(call), file)
    requires !call.CanTurn() ==> PointsBack(t.dst, call.from.replica, Renamed(call).meta)
    requires LeftOvers(t.dst, Some(Renamed(call))) == LeftOvers(s.dst, call.onto) - {call.from.replica}
    ensures Finished(call, s, file, Run(t, DropOldMeta(call.from, {})))
  {
    if call.from.meta != -1 {
      RunTry(t, OnSrc(Unlink(call.from.meta)), Done, Done);
    }
  }

  /** The data entry leaves the old name and arrives under the new one with record `r`. */
  lemma MovedAway(call: Call, s: Names, file: nat, r: Record)
    requires IsFile(s.src, call.srcNormal, call.from, file)
    ensures var d := call.from.replica;
            var t := ApplyStep(ApplyStep(s, OnSrc(Put(d, r))), Move(d));
            t.src == s.src - {d} && t.dst == s.dst[d := Entry(file, Some(r))]
    ensures var t := ApplyStep(s, Move(call.from.replica));
            t.src == s.src - {call.from.replica} && t.dst == s.dst[call.from.replica := s.src[call.from.replica]]
  {
    var d := call.from.replica;
    assert s.src[d := Entry(file, Some(r))] - {d} == s.src - {d};
  }

  lemma TurnCompletes(call: Call, s: Names, file: nat)
    requires Ready(call, s, file) && Accurate(call, s) && call.onto.None? && call.CanTurn()
    ensures Finished(call, s, file, Run(s, TurnSteps(call.from, {})))
  {
    var d, drop := call.from.replica, DropOldMeta(call.from, {});
    MovedAway(call, s, file, Link(-1, d));
    if call.from.meta == -1 {
      RunTry(s, Move(d), drop, Done);
      DropCompletes(call, s, ApplyStep(s, Move(d)), file);
    } else {
      var s1 := ApplyStep(s, OnSrc(Put(d, Link(-1, d))));
      var s2 := ApplyStep(s1, Move(d));
      var reset := Try(OnDst(Put(d, EMPTY)), false, drop, drop);
      RunTry(s, OnSrc(Put(d, Link(-1, d))), Try(Move(d), false, reset, Done), Done);
      RunTry(s1, Move(d), reset, Done);
      RunTry(s2, OnDst(Put(d, EMPTY)), drop, drop);
      DropCompletes(call, s, ApplyStep(s2, OnDst(Put(d, EMPTY))), file);
    }
  }

  lemma SplitCompletes(call: Call, s: Names, file: nat)
    requires Ready(call, s, file) && Accurate(call, s) && call.onto.None? && !call.CanTurn()
    ensures Finished(call, s, file, Run(s, SplitSteps(call.from, call.meta, call.newId, {})))
  {
    var d, m, drop := call.from.replica, call.meta, DropOldMeta(call.from, {});
    var make, fwd := Create(m, call.newId), OnDst(Put(m, Link(d, -1)));
    var mark, back := OnSrc(Put(d, Link(-1, m))), OnDst(Put(d, Link(m, -1)));
    var s1 := ApplyStep(s, make);
    var s2 := ApplyStep(s1, fwd);
    MovedAway(call, s2, file, Link(-1, m));
    var s3 := ApplyStep(s2, mark);
    var s4 := ApplyStep(s3, Move(d));
    var last := Try(back, false, drop, drop);
    var move := Try(Move(d), false, last, Done);
    RunTry(s, make, Try(fwd, false, Try(mark, false, move, Done), Done), Done);
    RunTry(s1, fwd, Try(mark, false, move, Done), Done);
    RunTry(s2, mark, move, Done);
    RunTry(s3, Move(d), last, Done);
    RunTry(s4, back, drop, drop);
    DropCompletes(call, s, ApplyStep(s4, back), file);
  }

  lemma OverwriteCompletes(call: Call, s: Names, file: nat, e: File)
    requires Ready(call, s, file) && Accurate(call, s) && call.onto == Some(e) && call.CanTurn()
    requires e.replica == call.from.replica || e.meta == call.from.replica
    ensures Finished(call, s, file, Run(s, OverwriteSteps(call.from, e, {})))
  {
    var d, drop := call.from.replica, DropOldMeta(call.from, {});
    var mark, reset := OnSrc(Put(d, Link(-1, d))), OnDst(Put(d, EMPTY));
    MovedAway(call, s, file, Link(-1, d));
    var s1 := ApplyStep(s, mark);
    var s2 := ApplyStep(s1, Move(d));
    var cleanup, revert := OverwriteCleanup(call.from, e, {}), Try(OnSrc(Put(d, EMPTY)), false, Done, Done);
    RunTry(s, mark, Try(Move(d), false, cleanup, revert), Done);
    RunTry(s1, Move(d), cleanup, revert);
    var s3 := if d == e.meta then ApplyStep(s2, OnDst(Unlink(e.replica))) else s2;
    if d == e.meta {
      RunTry(s2, OnDst(Unlink(e.replica)), Try(reset, false, drop, drop), drop);
    }
    RunTry(s3, reset, drop, drop);
    DropCompletes(call, s, ApplyStep(s3, reset), file);
  }

  lemma HideCompletes(call: Call, s: Names, file: nat, e: File)
    requires Ready(call, s, file) && Accurate(call, s) && call.onto == Some(e) && call.CanTurn()
    requires e.replica != call.from.replica && e.meta != call.from.replica
    ensures Finished(call, s, file, Run(s, HideSteps(call.from, e, {})))
  {
    var d, h, drop := call.from.replica, Visible(e), DropOldMeta(call.from, {});
    var stale, hidden := Record(-1, -1, -1, h), Record(-1, -1, d, -1);
    var s1 := ApplyStep(s, OnSrc(Put(d, stale)));
    var s2 := ApplyStep(s1, OnDst(Put(h, hidden)));
    var s3 := ApplyStep(s2, Move(d));
    MovedAway(call, ApplyStep(s, OnDst(Put(h, hidden))), file, stale);
    assert s3 == ApplyStep(ApplyStep(ApplyStep(s, OnDst(Put(h, hidden))), OnSrc(Put(d, stale))), Move(d));
    var cleanup, revert := HideCleanup(call.from, e, {}), HideRevert(d, h, {});
    var move := Try(Move(d), false, cleanup, revert);
    RunTry(s, OnSrc(Put(d, stale)), Try(OnDst(Put(h, hidden)), false, move, Done), Done);
    RunTry(s1, OnDst(Put(h, hidden)), move, Done);
    RunTry(s2, Move(d), cleanup, revert);
    var reset := OnDst(Put(d, EMPTY));
    var data := Try(OnDst(Unlink(e.replica)), false, Try(reset, false, drop, drop), drop);
    var s4 := if e.meta != -1 then ApplyStep(s3, OnDst(Unlink(e.meta))) else s3;
    if e.meta != -1 {
      RunTry(s3, OnDst(Unlink(e.meta)), data, drop);
    }
    var s5 := ApplyStep(s4, OnDst(Unlink(e.replica)));
    RunTry(s4, OnDst(Unlink(e.replica)), Try(reset, false, drop, drop), drop);
    RunTry(s5, reset, drop, drop);
    DropCompletes(call, s, ApplyStep(s5, reset), file);
  }

  lemma RedirectCompletes(call: Call, s: Names, file: nat, e: File)
    requires Ready(call, s, file) && Accurate(call, s) && call.onto == Some(e) && !call.CanTurn()
    ensures Finished(call, s, file, Run(s, RedirectSteps(call.from, e, {})))
  {
    var d, x, drop := call.from.replica, Visible(e), DropOldMeta(call.from, {});
    var tmp, mark := OnDst(Put(x, Link(-1, d))), OnSrc(Put(d, Link(-1, x)));
    var s1 := ApplyStep(s, tmp);
    var s2 := ApplyStep(s1, mark);
    var s3 := ApplyStep(s2, Move(d));
    MovedAway(call, s1, file, Link(-1, x));
    var cleanup := RedirectCleanup(call.from, e, {});
    RunTry(s, tmp, Try(mark, false, Try(Move(d), false, cleanup, Done), Done), Done);
    RunTry(s1, mark, Try(Move(d), false, cleanup, Done), Done);
    RunTry(s2, Move(d), cleanup, Done);
    var back, fwd := OnDst(Put(d, Link(x, -1))), OnDst(Put(x, Link(d, -1)));
    var last := Try(fwd, false, drop, drop);
    var s4 := if e.meta != -1 && e.replica != d then ApplyStep(s3, OnDst(Unlink(e.replica))) else s3;
    if e.meta != -1 && e.replica != d {
      RunTry(s3, OnDst(Unlink(e.replica)), Try(back, false, last, last), drop);
    }
    var s5 := ApplyStep(s4, back);
    RunTry(s4, back, last, last);
    RunTry(s5, fwd, drop, drop);
    DropCompletes(call, s, ApplyStep(s5, fwd), file);
  }

  /** Nothing is left under the old name, and the new one has exactly the source's file: its
      data entry, and a meta entry if and only if the data could not become visible. */
  lemma RenameCompletes(call: Call, s: Names, file: nat)
    requires Ready(call, s, file) && Accurate(call, s)
    ensures Finished(call, s, file, Run(s, Taken(call, s, {})))
  {
    NothingForced(call, s, file);
    match call.onto
    case None =>
      if call.CanTurn() { TurnCompletes(call, s, file); } else { SplitCompletes(call, s, file); }
    case Some(e) =>
      if !call.CanTurn() { RedirectCompletes(call, s, file, e); }
      else if e.replica == call.from.replica || e.meta == call.from.replica { OverwriteCompletes(call, s, file, e); }
      else { HideCompletes(call, s, file, e); }
  }

  // ---- With dentries that are wrong about their files ----

  lemma ProceedsMoves(call: Call, s: Names)
    requires call.from.replica in s.src
    ensures Moves(Taken(call, s, {})) <==> Proceeds(call, s)
  {
    var faults := {} + Forced(call, s);
    match call.onto
    case None =>
      if Creates(call) {
        var mark := Then(OnSrc(Put(call.from.replica, Link(-1, call.meta))), SplitMove(call.from, call.meta, faults));
        assert Moves(SplitMove(call.from, call.meta, faults)) && Moves(mark);
      }
    case Some(e) =>
      assert Moves(HideMove(call.from, e, faults)) || !call.CanTurn() || Overwrites(call);
      assert Moves(RedirectMove(call.from, e, faults)) || call.CanTurn();
  }

  /** A rename in which no call fails that could have succeeded moves the file to the new name, whatever
      the dentries hold, unless it severs or covers it; or it fails, if the destination is gone or the
      meta file is there already, and then the old name keeps the file. */
  lemma RenameArrives(call: Call, s: Names, file: nat)
    requires Ready(call, s, file) && !Severs(call, s) && !Covered(call, s) && !Exposed(call, s)
    ensures var r := Run(s, Taken(call, s, {}));
            if Proceeds(call, s) then OldName(call, r) == None && NewName(call, r) == Some(file)
            else OldName(call, r) == Some(file) != NewName(call, r)
  {
    var steps := Taken(call, s, {});
    ProceedsMoves(call, s);
    RunToEnd(s, steps, Length(steps));
    assert After(call, s, {}, Length(steps), []) == Run(s, steps);
    SourceOutcome(call, s, file, {}, Length(steps), []);
  }
}
