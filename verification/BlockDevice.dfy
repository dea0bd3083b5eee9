/** Opening and exclusively claiming a disk and its partitions, as a state machine.  Each action is
    one section under the device's mutex or the global claim lock.

    `contains` is `bd_contains`: during the first open of a partition it briefly points to the
    partition itself, as it does for a whole disk. */
module BlockDevice {
  import opened Options

  /** `bd_holder`: nobody, the mark of a disk with claimed partitions, or a holder. */
  datatype Holder = Free | Marker | By(h: nat)

  datatype Link = Nil | Self | Whole

  /** What a thread inside the first open of a partition has done so far. */
  datatype Phase = Idle | Opening(claimed: bool) | Counted(claimed: bool)

  /** `direct` counts the opens of the disk itself; `grants` lists the holders on whose behalf it is
      exclusively open. */
  datatype Disk = Disk(openers: int, partCount: int, contains: Link, holder: Holder, holders: int, direct: int,
      grants: seq<nat>)

  /** `pending`: closes that have yet to drop the partition's hold on the disk. */
  datatype Part = Part(openers: int, contains: Link, holder: Holder, holders: int, grants: seq<nat>, phase: Phase,
      pending: nat)

  datatype Device = OfDisk | OfPart(i: nat)

  datatype Stage = Started | InOpen | Opened(ok: bool)

  datatype Claim = Claim(dev: Device, h: nat, stage: Stage)

  /** `claiming` is `bd_claiming`; `claim` is the exclusive open in progress. */
  datatype State = State(disk: Disk, parts: seq<Part>, claiming: Option<nat>, claim: Option<Claim>)

  predicate Has(s: State, d: Device) { d.OfPart? ==> d.i < |s.parts| }

  function HolderOf(s: State, d: Device): Holder
    requires Has(s, d)
  {
    if d.OfPart? then s.parts[d.i].holder else s.disk.holder
  }

  function ContainsOf(s: State, d: Device): Link
    requires Has(s, d)
  {
    if d.OfPart? then s.parts[d.i].contains else s.disk.contains
  }

  /** `bd_may_claim`. */
  predicate MayClaim(s: State, d: Device, h: nat)
    requires Has(s, d)
  {
    if HolderOf(s, d) == By(h) then true
    else if HolderOf(s, d) != Free then false
    else if ContainsOf(s, d) == Self then true
    else if s.disk.holder == Marker then true
    else s.disk.holder == Free
  }

  datatype Action =
    | StartClaim(d: Device, h: nat)
    | OpenDisk(claimed: bool, ok: bool)
    | OpenAgain(i: nat, claimed: bool)   // a partition that is open already
    | OpenFirst(i: nat, claimed: bool)   // first open of a partition: it contains itself for now
    | GetDisk(i: nat, ok: bool)          // ... the disk is opened on its behalf
    | FinishOpen(i: nat, ok: bool)       // ... and the open succeeds or is undone
    | FinishClaim
    | Release(d: Device, k: nat)         // the first half of closing the k-th exclusive open
    | CloseDisk
    | ClosePart(i: nat)
    | PutDisk(i: nat)

  predicate ClaimAt(s: State, d: Device, st: Stage) {
    s.claim.Some? && s.claim.value.dev == d && s.claim.value.stage == st
  }

  /** An exclusive open that has succeeded but whose claim is not finished yet. */
  function Unfinished(s: State, d: Device): int { if ClaimAt(s, d, Opened(true)) then 1 else 0 }

  predicate Enabled(s: State, a: Action) {
    match a
    case StartClaim(d, h) => Has(s, d) && s.claiming.None? && MayClaim(s, d, h)
    case OpenDisk(claimed, ok) => claimed ==> ClaimAt(s, OfDisk, Started)
    case OpenAgain(i, claimed) =>
      i < |s.parts| && s.parts[i].phase == Idle && s.parts[i].openers > 0
          && (claimed ==> ClaimAt(s, OfPart(i), Started))
    case OpenFirst(i, claimed) =>
      i < |s.parts| && s.parts[i].phase == Idle && s.parts[i].openers == 0
          && (claimed ==> ClaimAt(s, OfPart(i), Started))
    case GetDisk(i, ok) => i < |s.parts| && s.parts[i].phase.Opening?
    case FinishOpen(i, ok) => i < |s.parts| && s.parts[i].phase.Counted?
    case FinishClaim => s.claim.Some? && s.claim.value.stage.Opened? && Has(s, s.claim.value.dev)
    case Release(d, k) =>
      && Has(s, d)
      && match d {
           case OfDisk => k < |s.disk.grants|
           case OfPart(i) => s.parts[i].phase == Idle && k < |s.parts[i].grants|
         }
    case CloseDisk => s.disk.direct - |s.disk.grants| - Unfinished(s, OfDisk) > 0
    case ClosePart(i) =>
        i < |s.parts| && s.parts[i].phase == Idle
            && s.parts[i].openers - s.parts[i].holders - Unfinished(s, OfPart(i)) > 0
    case PutDisk(i) => i < |s.parts| && s.parts[i].pending > 0
  }

  function SetPart(s: State, i: nat, p: Part): State
    requires i < |s.parts|
  {
    s.(parts := s.parts[i := p])
  }

  function AtStage(s: State, claimed: bool, st: Stage): State {
    if claimed && s.claim.Some? then s.(claim := Some(s.claim.value.(stage := st))) else s
  }

  /** `__blkdev_get` and `__blkdev_put` on the disk. */
  function GetOn(d: Disk, forPart: bool): Disk {
    d.(openers := d.openers + 1, contains := Self, partCount := d.partCount + (if forPart then 1 else 0),
        direct := d.direct + (if forPart then 0 else 1))
  }

  function FailOn(d: Disk): Disk { if d.openers == 0 then d.(contains := Nil) else d }

  function PutOn(d: Disk, forPart: bool): Disk {
    FailOn(d.(openers := d.openers - 1, partCount := d.partCount - (if forPart then 1 else 0),
        direct := d.direct - (if forPart then 0 else 1)))
  }

  /** The claim is recorded: twice on the disk if it is the disk that is claimed. */
  function Hold(s: State, d: Device, h: nat): State
    requires Has(s, d)
  {
    match d
    case OfDisk => s.(disk := s.disk.(holders := s.disk.holders + 2, holder := By(h), grants := s.disk.grants + [h]))
    case OfPart(i) =>
      var s' := s.(disk := s.disk.(holders := s.disk.holders + 1, holder := Marker));
      SetPart(s', i, s.parts[i].(holders := s.parts[i].holders + 1, holder := By(h), grants := s.parts[i].grants + [h]))
  }

  function RemoveAt(s: seq<nat>, k: nat): seq<nat>
    requires k < |s|
  {
    s[..k] + s[k + 1..]
  }

  function Unhold(s: State, d: Device, k: nat): State
    requires Enabled(s, Release(d, k))
  {
    match d
    case OfDisk =>
      var n := s.disk.holders - 2;
      s.(disk := s.disk.(holders := n, holder := if n == 0 then Free else s.disk.holder,
          grants := RemoveAt(s.disk.grants, k)))
    case OfPart(i) =>
      var p, n, all := s.parts[i], s.parts[i].holders - 1, s.disk.holders - 1;
      SetPart(s.(disk := s.disk.(holders := all, holder := if all == 0 then Free else s.disk.holder)), i,
              p.(holders := n, holder := if n == 0 then Free else p.holder, grants := RemoveAt(p.grants, k)))
  }

  function Step(s: State, a: Action): State
    requires Enabled(s, a)
  {
    match a
    case StartClaim(d, h) => s.(claiming := Some(h), claim := Some(Claim(d, h, Started)))
    case OpenDisk(claimed, ok) =>
        AtStage(s.(disk := if ok then GetOn(s.disk, false) else FailOn(s.disk)), claimed, Opened(ok))
    case OpenAgain(i, claimed) =>
        AtStage(SetPart(s, i, s.parts[i].(openers := s.parts[i].openers + 1)), claimed, Opened(true))
    case OpenFirst(i, claimed) =>
        AtStage(SetPart(s, i, s.parts[i].(contains := Self, phase := Opening(claimed))), claimed, InOpen)
    case GetDisk(i, ok) =>
      var p := s.parts[i];
      if ok then SetPart(s.(disk := GetOn(s.disk, true)), i, p.(contains := Whole, phase := Counted(p.phase.claimed)))
      else AtStage(SetPart(s.(disk := FailOn(s.disk)), i, p.(contains := Nil, phase := Idle)), p.phase.claimed,
          Opened(false))
    case FinishOpen(i, ok) =>
      var p := s.parts[i];
      if ok then AtStage(SetPart(s, i, p.(openers := 1, phase := Idle)), p.phase.claimed, Opened(true))
      else AtStage(SetPart(s.(disk := PutOn(s.disk, true)), i, p.(contains := Nil, phase := Idle)), p.phase.claimed,
          Opened(false))
    case FinishClaim =>
      var c := s.claim.value;
      (if c.stage.ok then Hold(s, c.dev, c.h) else s).(claiming := None, claim := None)
    case Release(d, k) => Unhold(s, d, k)
    case CloseDisk => s.(disk := PutOn(s.disk, false))
    case ClosePart(i) =>
      var p := s.parts[i].(openers := s.parts[i].openers - 1);
      SetPart(s, i, if p.openers == 0 then p.(contains := Nil, pending := p.pending + 1) else p)
    case PutDisk(i) => SetPart(s.(disk := PutOn(s.disk, true)), i, s.parts[i].(pending := s.parts[i].pending - 1))
  }

  /** The checks at the end of `blkdev_get` fire. */
  predicate Bug(s: State, a: Action)
    requires Enabled(s, a)
  {
    a.FinishClaim? &&
    var c := s.claim.value;
    (c.stage.ok && !MayClaim(s, c.dev, c.h)) || s.claiming != Some(c.h)
  }

  // ---- What holds ----

  /** The partition's hold on the disk: one while it is open or being opened, and one for every
      close under way. */
  function Busy(p: Part): int { (if p.openers > 0 || p.phase.Counted? then 1 else 0) + p.pending }

  function SumBusy(ps: seq<Part>): int { if ps == [] then 0 else Busy(ps[0]) + SumBusy(ps[1..]) }

  function SumHolders(ps: seq<Part>): int { if ps == [] then 0 else ps[0].holders + SumHolders(ps[1..]) }

  ghost predicate PartOk(p: Part) {
    && p.holders == |p.grants| <= p.openers
    && (p.holders > 0 <==> p.holder.By?) && p.holder != Marker
    && (forall k :: 0 <= k < |p.grants| ==> p.holder == By(p.grants[k]))
    && (match p.phase
        case Idle => p.contains == if p.openers > 0 then Whole else Nil
        case Opening(_) => p.openers == 0 && p.contains == Self
        case Counted(_) => p.openers == 0 && p.contains == Whole)
  }

  ghost predicate OpensOk(s: State) {
    && s.disk.partCount == SumBusy(s.parts)
    && s.disk.openers == s.disk.direct + s.disk.partCount
    && s.disk.direct >= 0 && (s.disk.contains == if s.disk.openers > 0 then Self else Nil)
  }

  ghost predicate HoldersOk(s: State) {
    var sum := SumHolders(s.parts);
    && |s.disk.grants| <= s.disk.direct
    && s.disk.holders == 2 * |s.disk.grants| + sum
    && !(|s.disk.grants| > 0 && sum > 0)
    && (s.disk.holder.By? <==> |s.disk.grants| > 0)
    && (forall k :: 0 <= k < |s.disk.grants| ==> s.disk.holder == By(s.disk.grants[k]))
    && (s.disk.holder == Marker <==> sum > 0)
  }

  /** The claim in progress can still be granted: neither its device nor, for a partition, the
      disk has been claimed by anybody else. */
  ghost predicate Grantable(s: State, d: Device, h: nat)
    requires Has(s, d)
  {
    && (HolderOf(s, d) == Free || HolderOf(s, d) == By(h))
    && (d.OfPart? ==> !s.disk.holder.By?)
  }

  ghost predicate ClaimOk(s: State) {
    match s.claim
    case None => s.claiming.None? && forall i :: 0 <= i < |s.parts| ==>
        s.parts[i].phase != Opening(true) && s.parts[i].phase != Counted(true)
    case Some(c) =>
      && s.claiming == Some(c.h) && Has(s, c.dev) && Grantable(s, c.dev, c.h)
      && (forall i :: 0 <= i < |s.parts| ==>
            (s.parts[i].phase == Opening(true) || s.parts[i].phase == Counted(true) ==>
               c.dev == OfPart(i) && c.stage == InOpen))
      && (c.stage == InOpen ==>
          c.dev.OfPart? && (s.parts[c.dev.i].phase == Opening(true) || s.parts[c.dev.i].phase == Counted(true)))
      && (c.stage == Opened(true) ==> match c.dev
            case OfDisk => |s.disk.grants| < s.disk.direct
            case OfPart(i) => s.parts[i].phase == Idle && s.parts[i].holders < s.parts[i].openers)
  }

  ghost predicate Inv(s: State) {
    && (forall i :: 0 <= i < |s.parts| ==> PartOk(s.parts[i]))
    && OpensOk(s) && HoldersOk(s) && ClaimOk(s)
  }

  lemma {:induction false} SumUpdate(ps: seq<Part>, i: nat, p: Part)
    requires i < |ps|
    ensures SumBusy(ps[i := p]) == SumBusy(ps) - Busy(ps[i]) + Busy(p)
    ensures SumHolders(ps[i := p]) == SumHolders(ps) - ps[i].holders + p.holders
    decreases |ps|
  {
    if i > 0 {
      assert ps[i := p][1..] == ps[1..][i - 1 := p];
      SumUpdate(ps[1..], i - 1, p);
    } else {
      assert ps[i := p][1..] == ps[1..];
    }
  }

  lemma {:induction false} SumAtLeast(ps: seq<Part>)
    requires forall i :: 0 <= i < |ps| ==> PartOk(ps[i])
    ensures SumHolders(ps) >= 0 && SumBusy(ps) >= 0
    ensures forall i :: 0 <= i < |ps| ==> ps[i].holders <= SumHolders(ps) && Busy(ps[i]) <= SumBusy(ps)
    decreases |ps|
  {
    if ps != [] {
      SumAtLeast(ps[1..]);
      forall i | 0 <= i < |ps| ensures ps[i].holders <= SumHolders(ps) && Busy(ps[i]) <= SumBusy(ps) {
        if i > 0 { assert ps[i] == ps[1..][i - 1]; }
      }
    }
  }

  /** A claim admitted only because the partition, in the middle of its first open, still seems to
      contain itself, although somebody holds the disk. */
  predicate Misled(s: State, d: Device) {
    d.OfPart? && d.i < |s.parts| && s.parts[d.i].contains == Self && s.disk.holder.By?
  }

  predicate Sound(s: State, a: Action) { a.StartClaim? ==> !Misled(s, a.d) }

  lemma MayClaimIsGrantable(s: State, d: Device, h: nat)
    requires Inv(s) && Has(s, d) && MayClaim(s, d, h) && !Misled(s, d)
    ensures Grantable(s, d, h)
  {
    SumAtLeast(s.parts);
    if d.OfPart? { assert PartOk(s.parts[d.i]); }
  }

  /** A claim that can be granted passes the check at its end. */
  lemma GrantableMayClaim(s: State, d: Device, h: nat)
    requires Inv(s) && Has(s, d) && Grantable(s, d, h)
             && (d.OfPart? ==> s.parts[d.i].phase == Idle && s.parts[d.i].openers > 0)
    ensures MayClaim(s, d, h)
  {
  }

  /** One partition changes and the disk's open counts with it; claims are not involved. */
  lemma PartChanges(s: State, i: nat, p: Part, disk: Disk)
    requires Inv(s) && i < |s.parts| && PartOk(p)
    requires p.holder == s.parts[i].holder && p.holders == s.parts[i].holders && p.grants == s.parts[i].grants
    requires disk.holder == s.disk.holder && disk.holders == s.disk.holders && disk.direct == s.disk.direct
             && disk.grants == s.disk.grants
    requires disk.partCount == s.disk.partCount - Busy(s.parts[i]) + Busy(p)
             && disk.openers == disk.direct + disk.partCount
    requires disk.contains == if disk.openers > 0 then Self else Nil
    ensures var t := SetPart(s.(disk := disk), i, p);
            (forall k :: 0 <= k < |t.parts| ==> PartOk(t.parts[k])) && OpensOk(t) && HoldersOk(t)
  {
    SumUpdate(s.parts, i, p);
  }

  lemma OpenAgainKeepsInv(s: State, i: nat, claimed: bool)
    requires Inv(s) && Enabled(s, OpenAgain(i, claimed))
    ensures Inv(Step(s, OpenAgain(i, claimed)))
  {
    PartChanges(s, i, Step(s, OpenAgain(i, claimed)).parts[i], s.disk);
  }

  lemma OpenFirstKeepsInv(s: State, i: nat, claimed: bool)
    requires Inv(s) && Enabled(s, OpenFirst(i, claimed))
    ensures Inv(Step(s, OpenFirst(i, claimed)))
  {
    PartChanges(s, i, Step(s, OpenFirst(i, claimed)).parts[i], s.disk);
  }

  lemma GotDiskKeepsInv(s: State, i: nat)
    requires Inv(s) && Enabled(s, GetDisk(i, true))
    ensures Inv(Step(s, GetDisk(i, true)))
  {
    var t := Step(s, GetDisk(i, true));
    SumAtLeast(s.parts);
    PartChanges(s, i, t.parts[i], t.disk);
  }

  lemma NoDiskKeepsClaim(s: State, i: nat)
    requires Inv(s) && Enabled(s, GetDisk(i, false))
    ensures ClaimOk(Step(s, GetDisk(i, false)))
  {
  }

  lemma NoDiskKeepsInv(s: State, i: nat)
    requires Inv(s) && Enabled(s, GetDisk(i, false))
    ensures Inv(Step(s, GetDisk(i, false)))
  {
    NoDiskKeepsClaim(s, i);
    var t := Step(s, GetDisk(i, false));
    PartChanges(s, i, t.parts[i], t.disk);
  }

  lemma OpenSucceedsKeepsClaim(s: State, i: nat)
    requires Inv(s) && Enabled(s, FinishOpen(i, true))
    ensures ClaimOk(Step(s, FinishOpen(i, true)))
  {
  }

  lemma OpenSucceedsKeepsInv(s: State, i: nat)
    requires Inv(s) && Enabled(s, FinishOpen(i, true))
    ensures Inv(Step(s, FinishOpen(i, true)))
  {
    OpenSucceedsKeepsClaim(s, i);
    PartChanges(s, i, Step(s, FinishOpen(i, true)).parts[i], s.disk);
  }

  lemma OpenFailsKeepsClaim(s: State, i: nat)
    requires Inv(s) && Enabled(s, FinishOpen(i, false))
    ensures ClaimOk(Step(s, FinishOpen(i, false)))
  {
  }

  lemma OpenFailsKeepsInv(s: State, i: nat)
    requires Inv(s) && Enabled(s, FinishOpen(i, false))
    ensures Inv(Step(s, FinishOpen(i, false)))
  {
    OpenFailsKeepsClaim(s, i);
    var t := Step(s, FinishOpen(i, false));
    SumAtLeast(s.parts);
    PartChanges(s, i, t.parts[i], t.disk);
  }

  lemma ClosePartKeepsInv(s: State, i: nat)
    requires Inv(s) && Enabled(s, ClosePart(i))
    ensures Inv(Step(s, ClosePart(i)))
  {
    PartChanges(s, i, Step(s, ClosePart(i)).parts[i], s.disk);
  }

  lemma PutDiskKeepsInv(s: State, i: nat)
    requires Inv(s) && Enabled(s, PutDisk(i))
    ensures Inv(Step(s, PutDisk(i)))
  {
    var t := Step(s, PutDisk(i));
    SumAtLeast(s.parts);
    PartChanges(s, i, t.parts[i], t.disk);
  }

  lemma DiskOpensKeepInv(s: State, a: Action)
    requires Inv(s) && Enabled(s, a) && (a.OpenDisk? || a.CloseDisk?)
    ensures Inv(Step(s, a))
  {
    SumAtLeast(s.parts);
  }

  lemma StartClaimKeepsInv(s: State, d: Device, h: nat)
    requires Inv(s) && Enabled(s, StartClaim(d, h)) && Sound(s, StartClaim(d, h))
    ensures Inv(Step(s, StartClaim(d, h)))
  {
    MayClaimIsGrantable(s, d, h);
  }

  lemma FinishClaimKeepsInv(s: State)
    requires Inv(s) && Enabled(s, FinishClaim)
    ensures Inv(Step(s, FinishClaim)) && !Bug(s, FinishClaim)
  {
    var c, t := s.claim.value, Step(s, FinishClaim);
    SumAtLeast(s.parts);
    if c.stage.ok {
      GrantableMayClaim(s, c.dev, c.h);
      if c.dev.OfPart? {
        SumUpdate(s.parts, c.dev.i, t.parts[c.dev.i]);
      }
    }
  }

  lemma ReleaseKeepsInv(s: State, d: Device, k: nat)
    requires Inv(s) && Enabled(s, Release(d, k))
    ensures Inv(Step(s, Release(d, k)))
  {
    var t := Step(s, Release(d, k));
    SumAtLeast(s.parts);
    if d.OfPart? {
      SumUpdate(s.parts, d.i, t.parts[d.i]);
    }
  }

  lemma StepKeepsInv(s: State, a: Action)
    requires Inv(s) && Enabled(s, a) && Sound(s, a)
    ensures Inv(Step(s, a)) && !Bug(s, a)
  {
    match a
    case StartClaim(d, h) => StartClaimKeepsInv(s, d, h);
    case OpenDisk(_, _) => DiskOpensKeepInv(s, a);
    case OpenAgain(i, claimed) => OpenAgainKeepsInv(s, i, claimed);
    case OpenFirst(i, claimed) => OpenFirstKeepsInv(s, i, claimed);
    case GetDisk(i, ok) => if ok { GotDiskKeepsInv(s, i); } else { NoDiskKeepsInv(s, i); }
    case FinishOpen(i, ok) => if ok { OpenSucceedsKeepsInv(s, i); } else { OpenFailsKeepsInv(s, i); }
    case FinishClaim => FinishClaimKeepsInv(s);
    case Release(d, k) => ReleaseKeepsInv(s, d, k);
    case CloseDisk => DiskOpensKeepInv(s, a);
    case ClosePart(i) => ClosePartKeepsInv(s, i);
    case PutDisk(i) => PutDiskKeepsInv(s, i);
  }

  // ---- Open counts, whatever happens to claims ----

  ghost predicate CountsOk(p: Part) {
    p.openers >= 0 && p.holders == |p.grants| && (p.phase != Idle ==> p.openers == 0)
  }

  ghost predicate OpensInv(s: State) {
    OpensOk(s) && forall i :: 0 <= i < |s.parts| ==> CountsOk(s.parts[i])
  }

  lemma {:induction false} BusyAtLeast(ps: seq<Part>, i: nat)
    requires i < |ps|
    ensures 0 <= Busy(ps[i]) <= SumBusy(ps)
  {
    if i > 0 { BusyAtLeast(ps[1..], i - 1); } else { BusyNonNegative(ps[1..]); }
  }

  lemma {:induction false} BusyNonNegative(ps: seq<Part>)
    ensures SumBusy(ps) >= 0
  {
    if ps != [] { BusyNonNegative(ps[1..]); }
  }

  lemma PartKeepsOpens(s: State, i: nat, p: Part, disk: Disk)
    requires OpensInv(s) && i < |s.parts| && CountsOk(p)
    requires disk.direct == s.disk.direct && disk.partCount == s.disk.partCount - Busy(s.parts[i]) + Busy(p)
    requires disk.openers == disk.direct + disk.partCount && (disk.contains == if disk.openers > 0 then Self else Nil)
    ensures OpensInv(SetPart(s.(disk := disk), i, p))
  {
    SumUpdate(s.parts, i, p);
  }

  lemma PartStepKeepsOpens(s: State, a: Action, i: nat)
    requires OpensInv(s) && Enabled(s, a)
    requires a == ClosePart(i) || a == PutDisk(i) || a == OpenAgain(i, false) || a == OpenAgain(i, true)
             || a == OpenFirst(i, false) || a == OpenFirst(i, true)
    ensures OpensInv(Step(s, a))
  {
    var t := Step(s, a);
    BusyAtLeast(s.parts, i);
    PartKeepsOpens(s, i, t.parts[i], t.disk);
  }

  lemma FirstOpenKeepsOpens(s: State, a: Action, i: nat)
    requires OpensInv(s) && Enabled(s, a)
    requires a == GetDisk(i, false) || a == GetDisk(i, true) || a == FinishOpen(i, false) || a == FinishOpen(i, true)
    ensures OpensInv(Step(s, a))
  {
    var t := Step(s, a);
    BusyAtLeast(s.parts, i);
    PartKeepsOpens(s, i, t.parts[i], t.disk);
  }

  lemma ClaimStepKeepsOpens(s: State, a: Action)
    requires OpensInv(s) && Enabled(s, a) && (a.StartClaim? || a.FinishClaim? || a.Release?)
    ensures OpensInv(Step(s, a))
  {
    var t := Step(s, a);
    var d := match a case Release(d, _) => d case _ => if s.claim.Some? then s.claim.value.dev else OfDisk;
    if !a.StartClaim? && d.OfPart? {
      PartKeepsOpens(s, d.i, t.parts[d.i], t.disk);
    }
  }

  lemma StepKeepsOpens(s: State, a: Action)
    requires OpensInv(s) && Enabled(s, a)
    ensures OpensInv(Step(s, a))
  {
    match a
    case OpenDisk(_, _) => BusyNonNegative(s.parts);
    case CloseDisk => BusyNonNegative(s.parts);
    case OpenAgain(i, _) => PartStepKeepsOpens(s, a, i);
    case OpenFirst(i, _) => PartStepKeepsOpens(s, a, i);
    case ClosePart(i) => PartStepKeepsOpens(s, a, i);
    case PutDisk(i) => PartStepKeepsOpens(s, a, i);
    case GetDisk(i, _) => FirstOpenKeepsOpens(s, a, i);
    case FinishOpen(i, _) => FirstOpenKeepsOpens(s, a, i);
    case _ => ClaimStepKeepsOpens(s, a);
  }

  // ---- Runs ----

  ghost predicate Closed(s: State) {
    && s.disk == Disk(0, 0, Nil, Free, 0, 0, []) && s.claiming.None? && s.claim.None?
    && forall i :: 0 <= i < |s.parts| ==> s.parts[i] == Part(0, Nil, Free, 0, [], Idle, 0)
  }

  lemma {:induction false} ClosedSums(ps: seq<Part>)
    requires forall i :: 0 <= i < |ps| ==> ps[i] == Part(0, Nil, Free, 0, [], Idle, 0)
    ensures SumBusy(ps) == 0 && SumHolders(ps) == 0
  {
    if ps != [] { ClosedSums(ps[1..]); }
  }

  /** A run from the state in which nothing is open.  `sound`: no claim on a partition is admitted
      in the window of its first open while somebody holds the disk. */
  ghost predicate IsRun(states: seq<State>, acts: seq<Action>, sound: bool) {
    && |states| == |acts| + 1 && Closed(states[0])
    && forall i {:trigger acts[i]} :: 0 <= i < |acts| ==> Takes(states[i], acts[i], states[i + 1], sound)
  }

  ghost predicate Takes(s: State, a: Action, t: State, sound: bool) {
    Enabled(s, a) && t == Step(s, a) && (sound ==> Sound(s, a))
  }

  lemma {:induction false} RunKeepsInv(states: seq<State>, acts: seq<Action>, i: nat)
    requires IsRun(states, acts, true) && i < |states|
    ensures Inv(states[i])
  {
    if i == 0 {
      ClosedSums(states[0].parts);
    } else {
      RunKeepsInv(states, acts, i - 1);
      StepKeepsInv(states[i - 1], acts[i - 1]);
    }
  }

  lemma {:induction false} RunKeepsOpens(states: seq<State>, acts: seq<Action>, i: nat)
    requires IsRun(states, acts, false) && i < |states|
    ensures OpensInv(states[i])
  {
    if i == 0 {
      ClosedSums(states[0].parts);
    } else {
      RunKeepsOpens(states, acts, i - 1);
      StepKeepsOpens(states[i - 1], acts[i - 1]);
    }
  }

  /** In every sound run: the checks at the end of a claim never fire; a device is exclusively
      open for at most one holder; a disk and one of its partitions are never both exclusively
      open; and the disk counts each of its partitions' claims once and each of its own twice. */
  lemma ClaimsAreExclusive(states: seq<State>, acts: seq<Action>, i: nat)
    requires IsRun(states, acts, true) && i < |states|
    ensures var s := states[i];
            && (i < |acts| ==> !Bug(s, acts[i]))
            && (forall j, k :: 0 <= j < |s.disk.grants| && 0 <= k < |s.disk.grants| ==>
                s.disk.grants[j] == s.disk.grants[k])
            && (forall p, j, k :: 0 <= p < |s.parts| && 0 <= j < |s.parts[p].grants| && 0 <= k < |s.parts[p].grants|
                  ==> s.parts[p].grants[j] == s.parts[p].grants[k])
            && (forall p :: 0 <= p < |s.parts| && s.disk.grants != [] ==> s.parts[p].grants == [])
            && s.disk.holders == SumHolders(s.parts) + 2 * |s.disk.grants|
            && (forall p :: 0 <= p < |s.parts| ==> s.parts[p].holders == |s.parts[p].grants|)
  {
    RunKeepsInv(states, acts, i);
    var s := states[i];
    SumAtLeast(s.parts);
    if i < |acts| { StepKeepsInv(s, acts[i]); }
    forall p, j, k | 0 <= p < |s.parts| && 0 <= j < |s.parts[p].grants| && 0 <= k < |s.parts[p].grants|
      ensures s.parts[p].grants[j] == s.parts[p].grants[k]
    {
      assert PartOk(s.parts[p]);
    }
  }

  function OpenParts(ps: seq<Part>): int { if ps == [] then 0
      else (if ps[0].openers > 0 then 1 else 0) + OpenParts(ps[1..]) }

  ghost predicate AtRest(ps: seq<Part>) { forall i :: 0 <= i < |ps| ==> ps[i].phase == Idle && ps[i].pending == 0 }

  lemma {:induction false} BusyAtRest(ps: seq<Part>)
    requires AtRest(ps)
    ensures SumBusy(ps) == OpenParts(ps)
  {
    if ps != [] { BusyAtRest(ps[1..]); }
  }

  /** In every run the disk's open count is its direct opens plus its partition count, which
      counts the partitions that are open, being opened, or being closed;
      and whenever no partition is in the middle of being opened or closed, the partition count
      is the number of partitions that are open. */
  lemma OpensNest(states: seq<State>, acts: seq<Action>, i: nat)
    requires IsRun(states, acts, false) && i < |states|
    ensures var s := states[i];
            && s.disk.partCount == SumBusy(s.parts) && s.disk.openers == s.disk.direct + s.disk.partCount
            && (AtRest(s.parts) ==> s.disk.partCount == OpenParts(s.parts))
  {
    RunKeepsOpens(states, acts, i);
    if AtRest(states[i].parts) { BusyAtRest(states[i].parts); }
  }

  // ---- The window in the first open of a partition ----

  /** From `s`, the actions `acts`, themselves sound, lead to the check firing. */
  ghost predicate LeadsToBug(s: State, acts: seq<Action>)
    decreases |acts|
  {
    if acts == [] then Enabled(s, FinishClaim) && Bug(s, FinishClaim)
    else Enabled(s, acts[0]) && Sound(s, acts[0]) && LeadsToBug(Step(s, acts[0]), acts[1..])
  }

  ghost predicate CanBug(s: State) { exists acts :: LeadsToBug(s, acts) }

  lemma {:induction false} NeverLeadsToBug(s: State, acts: seq<Action>)
    requires Inv(s)
    ensures !LeadsToBug(s, acts)
    decreases |acts|
  {
    if acts == [] {
      if Enabled(s, FinishClaim) { FinishClaimKeepsInv(s); }
    } else if Enabled(s, acts[0]) && Sound(s, acts[0]) {
      StepKeepsInv(s, acts[0]);
      NeverLeadsToBug(Step(s, acts[0]), acts[1..]);
    }
  }

  /** The other open completes, the claiming thread opens the partition too, and finishes. */
  lemma MisledLeadsToBug(s: State, i: nat, h: nat)
    requires Inv(s) && Enabled(s, StartClaim(OfPart(i), h)) && Misled(s, OfPart(i))
    ensures CanBug(Step(s, StartClaim(OfPart(i), h)))
  {
    SumAtLeast(s.parts);
    assert PartOk(s.parts[i]);
    var s0 := Step(s, StartClaim(OfPart(i), h));
    var a, b, c := GetDisk(i, true), FinishOpen(i, true), OpenAgain(i, true);
    var s1 := Step(s0, a);
    var s2 := Step(s1, b);
    var s3 := Step(s2, c);
    assert [a, b, c][1..] == [b, c] && [b, c][1..] == [c] && [c][1..] == [];
    assert Bug(s3, FinishClaim);
    assert LeadsToBug(s3, []);
    assert LeadsToBug(s2, [c]);
    assert LeadsToBug(s1, [b, c]);
    assert LeadsToBug(s0, [a, b, c]);
  }

  /** Exactly when a claim that is started can run into the check at its end. */
  lemma ClaimUnsafeIff(s: State, d: Device, h: nat)
    requires Inv(s) && Enabled(s, StartClaim(d, h))
    ensures CanBug(Step(s, StartClaim(d, h))) <==> Misled(s, d)
  {
    var s0 := Step(s, StartClaim(d, h));
    if Misled(s, d) {
      assert d == OfPart(d.i);
      MisledLeadsToBug(s, d.i, h);
    } else {
      StartClaimKeepsInv(s, d, h);
      forall acts ensures !LeadsToBug(s0, acts) { NeverLeadsToBug(s0, acts); }
    }
  }

  /** The window is real: from a closed disk with one partition, a holder claims the disk, somebody
      opens the partition, and in the middle of that a second holder starts a claim on it. */
  lemma WindowIsReachable() returns (states: seq<State>, acts: seq<Action>)
    ensures IsRun(states, acts, false) && |acts| == 4
    ensures Enabled(states[4], StartClaim(OfPart(0), 2)) && Misled(states[4], OfPart(0))
  {
    var s0 := State(Disk(0, 0, Nil, Free, 0, 0, []), [Part(0, Nil, Free, 0, [], Idle, 0)], None, None);
    acts := [StartClaim(OfDisk, 1), OpenDisk(true, true), FinishClaim, OpenFirst(0, false)];
    var s1 := Step(s0, acts[0]);
    var s2 := Step(s1, acts[1]);
    var s3 := Step(s2, acts[2]);
    var s4 := Step(s3, acts[3]);
    states := [s0, s1, s2, s3, s4];
  }
}
