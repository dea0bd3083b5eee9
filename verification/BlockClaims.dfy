/** What becomes of a claim, told from the actions of a run alone; and that everything that was opened or
    claimed can be given back. */
module BlockClaims {
  import opened Options
  import opened BlockDevice

  function GrantsOf(s: State, d: Device): seq<nat>
    requires Has(s, d)
  {
    if d.OfPart? then s.parts[d.i].grants else s.disk.grants
  }

  // ---- The open of a claim, among the actions ----

  /** The action opens a device on behalf of the claim in progress, or begins to. */
  predicate ForClaim(a: Action) { (a.OpenDisk? || a.OpenAgain? || a.OpenFirst?) && a.claimed }

  /** The action ends a first open of partition `x`. */
  predicate Completes(a: Action, x: nat) {
    a == GetDisk(x, false) || a == FinishOpen(x, false) || a == FinishOpen(x, true)
  }

  /** At time `j` the first open of partition `x` that action `m` began for the claim has not come to its end. */
  ghost predicate Pending(acts: seq<Action>, x: nat, i: nat, m: nat, j: nat)
    requires j <= |acts|
  {
    i < m < j && acts[m] == OpenFirst(x, true) && forall l {:trigger acts[l]} :: m < l < j ==> !Completes(acts[l], x)
  }

  ghost predicate AnyPending(acts: seq<Action>, x: nat, i: nat, j: nat)
    requires j <= |acts|
  {
    exists m: nat :: Pending(acts, x, i, m, j)
  }

  lemma PendingNext(acts: seq<Action>, x: nat, i: nat, j: nat)
    requires i < j < |acts|
    ensures AnyPending(acts, x, i, j + 1) <==>
            acts[j] == OpenFirst(x, true) || (AnyPending(acts, x, i, j) && !Completes(acts[j], x))
  {
    var next := j + 1;
    if acts[j] == OpenFirst(x, true) {
      assert Pending(acts, x, i, j, next);
    } else if m: nat :| Pending(acts, x, i, m, j) && !Completes(acts[j], x) {
      assert Pending(acts, x, i, m, next);
    }
    if m: nat :| Pending(acts, x, i, m, next) {
      assert m < j ==> Pending(acts, x, i, m, j);
    }
  }

  /** Action `k` ends the open of the claim on `d` that action `i` started, and it succeeded or not. */
  ghost predicate Settles(acts: seq<Action>, d: Device, i: nat, k: nat, ok: bool)
    requires k < |acts|
  {
    && i < k
    && match d
       case OfDisk => acts[k] == OpenDisk(true, ok)
       case OfPart(x) =>
         || (acts[k] == OpenAgain(x, true) && ok)
         || (Completes(acts[k], x) && acts[k].ok == ok && AnyPending(acts, x, i, k))
  }

  ghost predicate Settled(acts: seq<Action>, d: Device, i: nat, j: nat, ok: bool)
    requires j <= |acts|
  {
    exists k: nat {:trigger Settles(acts, d, i, k, ok)} :: k < j && Settles(acts, d, i, k, ok)
  }

  /** What the actions since the start of the claim say about its stage at time `j`. */
  ghost predicate Tells(acts: seq<Action>, d: Device, i: nat, j: nat, st: Stage)
    requires j <= |acts|
  {
    match st
    case Started => forall m :: i < m < j ==> !ForClaim(acts[m])
    case InOpen =>
      && d.OfPart? && !Settled(acts, d, i, j, true) && !Settled(acts, d, i, j, false)
      && AnyPending(acts, d.i, i, j)
    case Opened(ok) =>
      && Settled(acts, d, i, j, ok) && !Settled(acts, d, i, j, !ok)
      && (d.OfPart? ==> !AnyPending(acts, d.i, i, j))
  }

  // ---- Claimed first opens are those of the claim in progress ----

  predicate IsClaimed(p: Part) { p.phase == Opening(true) || p.phase == Counted(true) }

  ghost predicate PhasesOk(s: State) {
    && (s.claim.None? <==> s.claiming.None?)
    && (s.claim.Some? ==> Has(s, s.claim.value.dev))
    && (forall i :: 0 <= i < |s.parts| && IsClaimed(s.parts[i]) ==>
          s.claim.Some? && s.claim.value.dev == OfPart(i) && s.claim.value.stage == InOpen)
    && (s.claim.Some? && s.claim.value.stage == InOpen ==>
          s.claim.value.dev.OfPart? && IsClaimed(s.parts[s.claim.value.dev.i]))
  }

  lemma StepKeepsPhases(s: State, a: Action)
    requires PhasesOk(s) && Enabled(s, a)
    ensures PhasesOk(Step(s, a)) && |Step(s, a).parts| == |s.parts|
  {
  }

  lemma {:induction false} RunKeepsPhases(states: seq<State>, acts: seq<Action>, j: nat)
    requires IsRun(states, acts, false) && j < |states|
    ensures PhasesOk(states[j])
  {
    if j > 0 {
      RunKeepsPhases(states, acts, j - 1);
      StepKeepsPhases(states[j - 1], acts[j - 1]);
    }
  }

  // ---- The stage of a claim follows from the actions ----

  predicate Opens(a: Action, d: Device) {
    if d.OfPart? then (a.OpenAgain? || a.OpenFirst?) && a.i == d.i else a.OpenDisk?
  }

  function NextStage(st: Stage, a: Action, d: Device): Stage {
    if st == Started && ForClaim(a) then if a.OpenFirst? then InOpen else Opened(if a.OpenDisk? then a.ok else true)
    else if st == InOpen && d.OfPart? && Completes(a, d.i) then Opened(a.ok)
    else st
  }

  lemma StageStep(s: State, a: Action, d: Device, h: nat, st: Stage)
    requires PhasesOk(s) && Enabled(s, a) && !a.FinishClaim? && s.claim == Some(Claim(d, h, st))
    ensures Step(s, a).claim == Some(Claim(d, h, NextStage(st, a, d)))
    ensures ForClaim(a) ==> st == Started && Opens(a, d)
  {
  }

  lemma SettledNext(acts: seq<Action>, d: Device, i: nat, j: nat, ok: bool)
    requires j < |acts|
    ensures Settled(acts, d, i, j + 1, ok) <==> Settled(acts, d, i, j, ok) || Settles(acts, d, i, j, ok)
  {
  }

  lemma StartedTells(acts: seq<Action>, d: Device, i: nat, j: nat, ok: bool)
    requires i < j < |acts| && Tells(acts, d, i, j, Started)
    ensures !Settled(acts, d, i, j, ok)
    ensures Settles(acts, d, i, j, ok) ==> ForClaim(acts[j])
    ensures d.OfPart? ==> !AnyPending(acts, d.i, i, j)
  {
  }

  lemma FromStarted(acts: seq<Action>, d: Device, i: nat, j: nat)
    requires i < j < |acts| && Tells(acts, d, i, j, Started) && (ForClaim(acts[j]) ==> Opens(acts[j], d))
    ensures Tells(acts, d, i, j + 1, NextStage(Started, acts[j], d))
  {
    var a := acts[j];
    SettledNext(acts, d, i, j, true);
    SettledNext(acts, d, i, j, false);
    StartedTells(acts, d, i, j, true);
    StartedTells(acts, d, i, j, false);
    if d.OfPart? { PendingNext(acts, d.i, i, j); }
  }

  lemma FromInOpen(acts: seq<Action>, d: Device, i: nat, j: nat)
    requires i < j < |acts| && Tells(acts, d, i, j, InOpen) && !ForClaim(acts[j])
    ensures Tells(acts, d, i, j + 1, NextStage(InOpen, acts[j], d))
  {
    SettledNext(acts, d, i, j, true);
    SettledNext(acts, d, i, j, false);
    PendingNext(acts, d.i, i, j);
  }

  lemma FromOpened(acts: seq<Action>, d: Device, i: nat, j: nat, ok: bool)
    requires i < j < |acts| && Tells(acts, d, i, j, Opened(ok)) && !ForClaim(acts[j])
    ensures Tells(acts, d, i, j + 1, Opened(ok))
  {
    SettledNext(acts, d, i, j, true);
    SettledNext(acts, d, i, j, false);
    if d.OfPart? { PendingNext(acts, d.i, i, j); }
  }

  lemma TellsNext(acts: seq<Action>, d: Device, i: nat, j: nat, st: Stage)
    requires i < j < |acts| && Tells(acts, d, i, j, st) && (ForClaim(acts[j]) ==> st == Started && Opens(acts[j], d))
    ensures Tells(acts, d, i, j + 1, NextStage(st, acts[j], d))
  {
    match st
    case Started => FromStarted(acts, d, i, j);
    case InOpen => FromInOpen(acts, d, i, j);
    case Opened(ok) => FromOpened(acts, d, i, j, ok);
  }

  ghost predicate Told(s: State, acts: seq<Action>, d: Device, h: nat, i: nat, j: nat)
    requires j <= |acts|
  {
    && PhasesOk(s) && s.claim.Some? && s.claim.value == Claim(d, h, s.claim.value.stage)
    && Tells(acts, d, i, j, s.claim.value.stage)
  }

  lemma ToldNext(s: State, acts: seq<Action>, d: Device, h: nat, i: nat, j: nat, t: State)
    requires i < j < |acts| && Told(s, acts, d, h, i, j) && Enabled(s, acts[j]) && !acts[j].FinishClaim?
    requires t == Step(s, acts[j])
    ensures Told(t, acts, d, h, i, j + 1)
  {
    var st := s.claim.value.stage;
    StepKeepsPhases(s, acts[j]);
    StageStep(s, acts[j], d, h, st);
    TellsNext(acts, d, i, j, st);
  }

  /** Between the start of a claim and its end there is exactly this claim, at the stage that the actions tell. */
  lemma {:induction false} StageIsTold(states: seq<State>, acts: seq<Action>, d: Device, h: nat, i: nat, j: nat)
    requires IsRun(states, acts, false) && i < j < |states| && acts[i] == StartClaim(d, h)
    requires forall m :: i < m < j ==> !acts[m].FinishClaim?
    ensures Told(states[j], acts, d, h, i, j)
    decreases j
  {
    if j == i + 1 {
      RunKeepsPhases(states, acts, j);
    } else {
      StageIsTold(states, acts, d, h, i, j - 1);
      ToldNext(states[j - 1], acts, d, h, i, j - 1, states[j]);
    }
  }

  /** The end of a claim, in every run: exactly one action has settled its open.  If that succeeded, the holder
      is added to those for whom the device is exclusively open, and is recorded as holding it; otherwise nothing
      but the claim itself goes. */
  lemma ClaimIsSettled(states: seq<State>, acts: seq<Action>, d: Device, h: nat, i: nat, j: nat)
    requires IsRun(states, acts, false) && i < j < |acts| && acts[i] == StartClaim(d, h) && acts[j] == FinishClaim
    requires forall m :: i < m < j ==> !acts[m].FinishClaim?
    ensures Settled(acts, d, i, j, true) != Settled(acts, d, i, j, false)
    ensures var s, t := states[j], states[j + 1];
            && |t.parts| == |s.parts| && Has(s, d)
            && (Settled(acts, d, i, j, true) ==>
                  && GrantsOf(t, d) == GrantsOf(s, d) + [h] && HolderOf(t, d) == By(h)
                  && forall e :: Has(s, e) && e != d ==> GrantsOf(t, e) == GrantsOf(s, e))
            && (Settled(acts, d, i, j, false) ==> t == s.(claiming := None, claim := None))
  {
    StageIsTold(states, acts, d, h, i, j);
    assert states[j].claim.value.stage.Opened?;
  }

  /** Who holds what changes only when a claim ends or an exclusive open is given up. */
  lemma OnlyClaimsGrant(s: State, a: Action, d: Device)
    requires PhasesOk(s) && Enabled(s, a) && Has(s, d) && !a.FinishClaim?
    ensures |Step(s, a).parts| == |s.parts|
    ensures GrantsOf(Step(s, a), d) ==
            if a.Release? && a.d == d then GrantsOf(s, d)[..a.k] + GrantsOf(s, d)[a.k + 1..] else GrantsOf(s, d)
  {
  }

  // ---- Opens, told from the actions ----

  /** What an action does to the number of opens of a device. */
  function Change(a: Action, d: Device): int {
    match d
    case OfDisk => if a.OpenDisk? && a.ok then 1 else if a.CloseDisk? then -1 else 0
    case OfPart(x) =>
      if (a.OpenAgain? && a.i == x) || a == FinishOpen(x, true) then 1 else if a == ClosePart(x) then -1 else 0
  }

  function Balance(acts: seq<Action>, d: Device): int {
    if acts == [] then 0 else Balance(acts[..|acts| - 1], d) + Change(acts[|acts| - 1], d)
  }

  function OpensOf(s: State, d: Device): int
    requires Has(s, d)
  {
    if d.OfPart? then s.parts[d.i].openers else s.disk.direct
  }

  lemma StepOpens(s: State, a: Action, d: Device)
    requires OpensInv(s) && Enabled(s, a) && Has(s, d)
    ensures Has(Step(s, a), d) && OpensOf(Step(s, a), d) == OpensOf(s, d) + Change(a, d)
  {
    if d.OfPart? { assert CountsOk(s.parts[d.i]); }
  }

  lemma {:induction false} RunKeepsParts(states: seq<State>, acts: seq<Action>, j: nat)
    requires IsRun(states, acts, false) && j < |states|
    ensures |states[j].parts| == |states[0].parts|
  {
    if j > 0 {
      RunKeepsParts(states, acts, j - 1);
      RunKeepsPhases(states, acts, j - 1);
      StepKeepsPhases(states[j - 1], acts[j - 1]);
    }
  }

  /** In every run a device is open exactly as often as it was opened with success and not closed. */
  lemma {:induction false} OpensAreTold(states: seq<State>, acts: seq<Action>, d: Device, j: nat)
    requires IsRun(states, acts, false) && j < |states| && Has(states[0], d)
    ensures Has(states[j], d) && OpensOf(states[j], d) == Balance(acts[..j], d)
  {
    RunKeepsParts(states, acts, j);
    if j == 0 {
      assert acts[..0] == [];
    } else {
      OpensAreTold(states, acts, d, j - 1);
      RunKeepsOpens(states, acts, j - 1);
      StepOpens(states[j - 1], acts[j - 1], d);
      assert acts[..j][..j - 1] == acts[..j - 1];
    }
  }

  // ---- Everything can be given back ----

  /** The actions, none of which is misled, lead from `s` to a state in which nothing is open or claimed. */
  ghost predicate LeadsToClosed(s: State, acts: seq<Action>)
    decreases |acts|
  {
    if acts == [] then Closed(s)
    else Enabled(s, acts[0]) && Sound(s, acts[0]) && LeadsToClosed(Step(s, acts[0]), acts[1..])
  }

  ghost predicate CanClose(s: State) { exists acts :: LeadsToClosed(s, acts) }

  lemma CloseAfter(s: State, a: Action)
    requires Enabled(s, a) && Sound(s, a) && CanClose(Step(s, a))
    ensures CanClose(s)
  {
    var rest :| LeadsToClosed(Step(s, a), rest);
    var acts := [a] + rest;
    assert acts[0] == a && acts[1..] == rest;
    assert LeadsToClosed(s, acts);
  }

  /** How much there is to give back. */
  function PartWeight(p: Part): nat {
    (if p.phase == Idle then 0 else 1) + |p.grants| + p.pending + 2 * if p.openers > 0 then p.openers else 0
  }

  function SumWeight(ps: seq<Part>): nat { if ps == [] then 0 else PartWeight(ps[0]) + SumWeight(ps[1..]) }

  function ClaimWeight(c: Option<Claim>): nat {
    match c
    case None => 0
    case Some(c) => match c.stage { case Started => 9 case InOpen => 6 case Opened(_) => 3 }
  }

  function DiskWeight(d: Disk): nat { |d.grants| + if d.direct > 0 then d.direct else 0 }

  function Weight(s: State): nat { SumWeight(s.parts) + ClaimWeight(s.claim) + DiskWeight(s.disk) }

  lemma {:induction false} WeightChanges(ps: seq<Part>, i: nat, p: Part)
    requires i < |ps|
    ensures SumWeight(ps[i := p]) == SumWeight(ps) - PartWeight(ps[i]) + PartWeight(p)
    decreases |ps|
  {
    if i > 0 {
      assert ps[i := p][1..] == ps[1..][i - 1 := p];
      WeightChanges(ps[1..], i - 1, p);
    } else {
      assert ps[i := p][1..] == ps[1..];
    }
  }

  lemma OneChanges(ps: seq<Part>, next: seq<Part>, i: nat)
    requires i < |ps| == |next| && next == ps[i := next[i]]
    ensures SumWeight(next) == SumWeight(ps) - PartWeight(ps[i]) + PartWeight(next[i])
  {
    WeightChanges(ps, i, next[i]);
  }

  /** What a partition can give back next. */
  function PartBack(p: Part, i: nat): Action {
    if p.phase.Opening? then GetDisk(i, false)
    else if p.phase.Counted? then FinishOpen(i, false)
    else if p.grants != [] then Release(OfPart(i), 0)
    else if p.openers > 0 then ClosePart(i) else PutDisk(i)
  }

  lemma PartGivesBack(s: State, i: nat)
    requires Inv(s) && i < |s.parts| && PartWeight(s.parts[i]) > 0
    requires s.parts[i].phase == Idle ==> s.claim.None?
    ensures var a := PartBack(s.parts[i], i);
            Enabled(s, a) && Sound(s, a) && Weight(Step(s, a)) < Weight(s)
  {
    assert PartOk(s.parts[i]);
    var a := PartBack(s.parts[i], i);
    var t := Step(s, a);
    assert PartWeight(t.parts[i]) < PartWeight(s.parts[i]);
    OneChanges(s.parts, t.parts, i);
  }

  /** How the claim in progress goes on, when nobody is in the middle of opening a partition. */
  function ClaimOn(s: State): Action
    requires s.claim.Some?
  {
    var c := s.claim.value;
    if c.stage.Opened? then FinishClaim
    else match c.dev
         case OfDisk => OpenDisk(true, false)
         case OfPart(i) => if i < |s.parts| && s.parts[i].openers > 0 then OpenAgain(i, true) else OpenFirst(i, true)
  }

  lemma ClaimGoesOn(s: State)
    requires Inv(s) && s.claim.Some? && forall i :: 0 <= i < |s.parts| ==> s.parts[i].phase == Idle
    ensures Enabled(s, ClaimOn(s)) && Weight(Step(s, ClaimOn(s))) < Weight(s)
  {
    var c, t := s.claim.value, Step(s, ClaimOn(s));
    assert c.stage != InOpen;
    if c.dev.OfPart? {
      assert PartOk(s.parts[c.dev.i]);
      if c.stage != Opened(false) { OneChanges(s.parts, t.parts, c.dev.i); }
    }
  }

  /** Something can be given back until nothing is open or claimed. */
  lemma GivesBack(s: State) returns (a: Action)
    requires Inv(s) && !Closed(s)
    ensures Enabled(s, a) && Sound(s, a) && Weight(Step(s, a)) < Weight(s)
  {
    if i :| 0 <= i < |s.parts| && s.parts[i].phase != Idle {
      PartGivesBack(s, i);
      a := PartBack(s.parts[i], i);
    } else if s.claim.Some? {
      ClaimGoesOn(s);
      a := ClaimOn(s);
    } else if i :| 0 <= i < |s.parts| && PartWeight(s.parts[i]) > 0 {
      PartGivesBack(s, i);
      a := PartBack(s.parts[i], i);
    } else {
      PartsClosed(s);
      a := if s.disk.grants != [] then Release(OfDisk, 0) else CloseDisk;
    }
  }

  lemma PartsClosed(s: State)
    requires Inv(s) && s.claim.None? && forall i :: 0 <= i < |s.parts| ==> PartWeight(s.parts[i]) == 0
    ensures forall i :: 0 <= i < |s.parts| ==> s.parts[i] == Part(0, Nil, Free, 0, [], Idle, 0)
    ensures SumBusy(s.parts) == 0 && SumHolders(s.parts) == 0
  {
    forall i | 0 <= i < |s.parts| ensures s.parts[i] == Part(0, Nil, Free, 0, [], Idle, 0) {
      assert PartOk(s.parts[i]) && PartWeight(s.parts[i]) == 0;
    }
    ClosedSums(s.parts);
  }

  lemma {:induction false} InvCanClose(s: State)
    requires Inv(s)
    ensures CanClose(s)
    decreases Weight(s)
  {
    if Closed(s) {
      assert LeadsToClosed(s, []);
    } else {
      var a := GivesBack(s);
      StepKeepsInv(s, a);
      InvCanClose(Step(s, a));
      CloseAfter(s, a);
    }
  }

  /** From every state of every sound run all opens and claims can be given back, and then anybody can claim
      any device. */
  lemma AlwaysCanClose(states: seq<State>, acts: seq<Action>, j: nat)
    requires IsRun(states, acts, true) && j < |states|
    ensures CanClose(states[j])
  {
    RunKeepsInv(states, acts, j);
    InvCanClose(states[j]);
  }

  lemma ClosedIsFree(s: State, d: Device, h: nat)
    requires Closed(s) && Has(s, d)
    ensures Enabled(s, StartClaim(d, h)) && Sound(s, StartClaim(d, h))
  {
  }
}
