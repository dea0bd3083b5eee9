/** Completion of asynchronous page reads and writes, as a state machine.

    The submitting thread marks the buffers that take part and then submits them one by one;
    each completion first records its result, then, under the page's buffer lock, clears its
    mark and looks for others still marked; whoever finds none ends the page's I/O. */
module PageCompletion {

  datatype Mode = Read | Write

  /** The I/O of one buffer: none; marked but not submitted; submitted; result recorded; chosen to
      end the page's I/O, having found all buffers uptodate or not; over. */
  datatype Io = Quiet | Marked | InFlight | Recorded | Closing(allUptodate: bool) | Over

  datatype Buffer = Buffer(uptodate: bool, async: bool, locked: bool, io: Io)

  /** `ends` counts how often the page was unlocked (read) or its writeback ended (write). */
  datatype Page = Page(mode: Mode, bufs: seq<Buffer>, next: nat, underway: nat, returned: bool,
                       error: bool, uptodate: bool, ends: nat)

  // ---- Choosing the buffers ----

  /** A buffer of a page to be read: what `get_block` says of it if it is not mapped, and whether
      somebody else brings it uptodate before it is locked. */
  datatype Lookup = Hole | Error | Found | FoundUptodate
  datatype Source = Source(uptodate: bool, mapped: bool, inFile: bool, lookup: Lookup, raced: bool)

  function Asked(s: Source): bool { !s.uptodate && !s.mapped && s.inFile }

  /** `block_read_full_page`, stages one and two, for one buffer. */
  function SelectRead(s: Source): Buffer {
    if s.uptodate then Buffer(true, false, false, Quiet)
    else if !s.mapped && (!s.inFile || s.lookup == Hole) then Buffer(true, false, false, Quiet)
    else if !s.mapped && s.lookup == Error then Buffer(false, false, false, Quiet)
    else if !s.mapped && s.lookup == FoundUptodate then Buffer(true, false, false, Quiet)
    else Buffer(s.raced, true, true, Marked)
  }

  predicate Failed(s: Source) { Asked(s) && s.lookup == Error }

  predicate AnyAsync(bufs: seq<Buffer>) { exists i :: 0 <= i < |bufs| && bufs[i].async }

  predicate AllUptodate(bufs: seq<Buffer>) { forall i :: 0 <= i < |bufs| ==> bufs[i].uptodate }

  /** A page read as far as the start of submission.  With nothing to read the page is unlocked at
      once. */
  function StartRead(srcs: seq<Source>, error: bool): Page {
    var bufs := seq(|srcs|, i requires 0 <= i < |srcs| => SelectRead(srcs[i]));
    var bad := error || exists i :: 0 <= i < |srcs| && Failed(srcs[i]);
    if AnyAsync(bufs) then Page(Read, bufs, 0, 0, false, bad, false, 0)
    else Page(Read, bufs, |bufs|, 0, true, bad, !bad, 1)
  }

  /** A buffer of a page to be written back; `lockable` is false if a non-blocking write finds it
      locked. */
  datatype Target = Target(uptodate: bool, mapped: bool, dirty: bool, lockable: bool)

  function SelectWrite(t: Target): Buffer {
    if t.mapped && t.lockable && t.dirty then Buffer(t.uptodate, true, true, Marked)
    else Buffer(t.uptodate, false, false, Quiet)
  }

  function StartWrite(targets: seq<Target>, error: bool, uptodate: bool): Page {
    Page(Write, seq(|targets|, i requires 0 <= i < |targets| => SelectWrite(targets[i])), 0, 0, false, error,
        uptodate, 0)
  }

  // ---- Submission and completion ----

  datatype Action =
    | Submit             // the submitter deals with the next buffer
    | Return             // the submitter is through
    | Record(i: nat, ok: bool)
    | Settle(i: nat)     // under the buffer lock
    | Close(i: nat)

  predicate Enabled(p: Page, a: Action) {
    match a
    case Submit => !p.returned && p.next < |p.bufs|
    case Return => !p.returned && p.next == |p.bufs|
    case Record(i, ok) => i < |p.bufs| && p.bufs[i].io == InFlight
    case Settle(i) => i < |p.bufs| && p.bufs[i].io == Recorded
    case Close(i) => i < |p.bufs| && p.bufs[i].io.Closing?
  }

  function Set(p: Page, i: nat, b: Buffer): Page
    requires i < |p.bufs|
  {
    p.(bufs := p.bufs[i := b])
  }

  function Step(p: Page, a: Action): Page
    requires Enabled(p, a)
  {
    match a
    case Submit =>
      var b := p.bufs[p.next];
      var p' := p.(next := p.next + 1);
      if b.io != Marked then p'
      else if p.mode == Read && b.uptodate then Set(p', p.next, b.(io := Recorded))
      else Set(p', p.next, b.(io := InFlight)).(underway := p.underway + 1)
    case Return =>
      var p' := p.(returned := true);
      if p.mode == Write && p.underway == 0 then p'.(ends := p.ends + 1) else p'
    case Record(i, ok) =>
      Set(p, i, p.bufs[i].(uptodate := ok, io := Recorded)).(error := p.error || !ok)
    case Settle(i) =>
      var b := p.bufs[i].(async := false, locked := false);
      var bufs := p.bufs[i := b];
      if AnyAsync(bufs) then Set(p, i, b.(io := Over)) else Set(p, i, b.(io := Closing(AllUptodate(bufs))))
    case Close(i) =>
      var p' := Set(p, i, p.bufs[i].(io := Over)).(ends := p.ends + 1);
      if p.mode == Read && p.bufs[i].io.allUptodate && !p.error then p'.(uptodate := true) else p'
  }

  // ---- What every state satisfies ----

  ghost predicate BufferOk(b: Buffer) {
    && (b.async <==> b.io == Marked || b.io == InFlight || b.io == Recorded)
    && (b.async ==> b.locked)
  }

  ghost predicate AnyClosing(bufs: seq<Buffer>) { exists i :: 0 <= i < |bufs| && bufs[i].io.Closing? }

  ghost predicate AnyPart(bufs: seq<Buffer>) { exists i :: 0 <= i < |bufs| && bufs[i].io != Quiet }

  ghost predicate Shape(p: Page) {
    && p.next <= |p.bufs| && (p.returned ==> p.next == |p.bufs|)
    && (forall i :: 0 <= i < |p.bufs| ==> BufferOk(p.bufs[i]))
    && (forall i :: 0 <= i < p.next ==> p.bufs[i].io != Marked)
    && (forall i :: p.next <= i < |p.bufs| ==> p.bufs[i].io == Quiet || p.bufs[i].io == Marked)
    && (forall i, j :: 0 <= i < j < |p.bufs| ==> !(p.bufs[i].io.Closing? && p.bufs[j].io.Closing?))
    && (p.mode == Write ==> (p.underway == 0 <==> forall i :: 0 <= i < p.next ==> p.bufs[i].io == Quiet))
  }

  /** While a buffer is under I/O nobody ends the page; when the last one is done exactly one
      completion is chosen, with the right verdict, and it ends the page once. */
  ghost predicate Ending(p: Page) {
    && (AnyPart(p.bufs) ==> p.ends + (if AnyClosing(p.bufs) then 1 else 0) == if AnyAsync(p.bufs) then 0 else 1)
    && (!AnyPart(p.bufs) ==> p.ends == if p.returned then 1 else 0)
    && (p.mode == Read && !AnyPart(p.bufs) ==> p.returned)
    && (forall i :: 0 <= i < |p.bufs| && p.bufs[i].io.Closing? ==> p.bufs[i].io.allUptodate == AllUptodate(p.bufs))
    && (p.mode == Read ==> (p.uptodate <==> p.ends == 1 && AllUptodate(p.bufs) && !p.error))
  }

  ghost predicate Inv(p: Page) { Shape(p) && Ending(p) }

  lemma StartsInv(srcs: seq<Source>, targets: seq<Target>, error: bool, uptodate: bool)
    ensures Inv(StartRead(srcs, error))
    ensures Inv(StartWrite(targets, error, uptodate))
  {
    var p := StartRead(srcs, error);
    assert AnyAsync(p.bufs) ==> AnyPart(p.bufs);
  }

  /** One buffer changes: what can be said of the page's buffers as a whole. */
  lemma OneChanges(bufs: seq<Buffer>, i: nat, b: Buffer)
    requires i < |bufs|
    ensures (bufs[i].io == Quiet) == (b.io == Quiet) ==> AnyPart(bufs[i := b]) == AnyPart(bufs)
    ensures b.async ==> AnyAsync(bufs[i := b])
    ensures bufs[i].async == b.async ==> AnyAsync(bufs[i := b]) == AnyAsync(bufs)
    ensures bufs[i].io.Closing? == b.io.Closing? ==> AnyClosing(bufs[i := b]) == AnyClosing(bufs)
    ensures b.io.Closing? ==> AnyClosing(bufs[i := b])
    ensures bufs[i].uptodate == b.uptodate ==> AllUptodate(bufs[i := b]) == AllUptodate(bufs)
  {
    var next := bufs[i := b];
    assert next[i] == b && forall k :: 0 <= k < |bufs| && k != i ==> next[k] == bufs[k];
    if AnyPart(bufs) && b.io != Quiet { assert next[i].io != Quiet; }
    if k :| 0 <= k < |bufs| && bufs[k].io != Quiet { assert k != i ==> next[k].io != Quiet; }
    if k :| 0 <= k < |bufs| && bufs[k].async { assert k != i ==> next[k].async; }
    if k :| 0 <= k < |bufs| && bufs[k].io.Closing? { assert k != i ==> next[k].io.Closing?; }
  }

  lemma SubmitKeepsInv(p: Page)
    requires Inv(p) && Enabled(p, Submit)
    ensures Inv(Step(p, Submit))
  {
    var p', i := Step(p, Submit), p.next;
    OneChanges(p.bufs, i, p'.bufs[i]);
    assert p.bufs[i := p'.bufs[i]] == p'.bufs;
  }

  lemma ReturnKeepsInv(p: Page)
    requires Inv(p) && Enabled(p, Return)
    ensures Inv(Step(p, Return))
  {
  }

  lemma RecordKeepsInv(p: Page, i: nat, ok: bool)
    requires Inv(p) && Enabled(p, Record(i, ok))
    ensures Inv(Step(p, Record(i, ok)))
  {
    var p' := Step(p, Record(i, ok));
    OneChanges(p.bufs, i, p'.bufs[i]);
    assert p.bufs[i].async && AnyAsync(p.bufs);
  }

  /** A completion that finds another buffer still marked. */
  lemma BusyKeepsInv(p: Page, i: nat)
    requires Inv(p) && Enabled(p, Settle(i)) && Step(p, Settle(i)).bufs[i].io == Over
    ensures Inv(Step(p, Settle(i)))
  {
    var p', b := Step(p, Settle(i)), Buffer(p.bufs[i].uptodate, false, false, Over);
    assert p.bufs[i].async && AnyAsync(p.bufs);
    OneChanges(p.bufs, i, b);
    assert p'.bufs == p.bufs[i := b];
    assert AnyAsync(p'.bufs) by {
      var k :| 0 <= k < |p.bufs| && p.bufs[i := p.bufs[i].(async := false, locked := false)][k].async;
      assert p'.bufs[k].async;
    }
  }

  /** The completion that finds none. */
  lemma LastKeepsShape(p: Page, i: nat)
    requires Inv(p) && Enabled(p, Settle(i)) && Step(p, Settle(i)).bufs[i].io.Closing?
    ensures Shape(Step(p, Settle(i)))
  {
    var p' := Step(p, Settle(i));
    assert p.bufs[i].async && AnyAsync(p.bufs) && !AnyClosing(p.bufs);
    assert forall k :: 0 <= k < |p.bufs| && k != i ==> p'.bufs[k] == p.bufs[k];
  }

  lemma LastKeepsEnding(p: Page, i: nat)
    requires Inv(p) && Enabled(p, Settle(i)) && Step(p, Settle(i)).bufs[i].io.Closing?
    ensures Ending(Step(p, Settle(i)))
  {
    var p', b := Step(p, Settle(i)), p.bufs[i].(async := false, locked := false);
    assert p.bufs[i].async && AnyAsync(p.bufs) && !AnyClosing(p.bufs);
    assert AllUptodate(p.bufs[i := b]) == AllUptodate(p.bufs) == AllUptodate(p'.bufs) by {
      OneChanges(p.bufs, i, b);
      OneChanges(p.bufs, i, p'.bufs[i]);
    }
    assert !AnyAsync(p'.bufs) by {
      assert forall k :: 0 <= k < |p.bufs| ==> p'.bufs[k].async == p.bufs[i := b][k].async;
    }
    assert AnyPart(p.bufs) && AnyPart(p'.bufs) && AnyClosing(p'.bufs) by {
      assert p.bufs[i].io != Quiet && p'.bufs[i].io.Closing?;
    }
  }

  lemma CloseKeepsInv(p: Page, i: nat)
    requires Inv(p) && Enabled(p, Close(i))
    ensures Inv(Step(p, Close(i)))
  {
    var p' := Step(p, Close(i));
    OneChanges(p.bufs, i, p'.bufs[i]);
    assert AnyClosing(p.bufs) && AnyPart(p.bufs) && !AnyClosing(p'.bufs);
  }

  lemma StepKeepsInv(p: Page, a: Action)
    requires Inv(p) && Enabled(p, a)
    ensures Inv(Step(p, a))
  {
    match a
    case Submit => SubmitKeepsInv(p);
    case Return => ReturnKeepsInv(p);
    case Record(i, ok) => RecordKeepsInv(p, i, ok);
    case Settle(i) => if Step(p, a).bufs[i].io == Over { BusyKeepsInv(p, i); }
        else { LastKeepsShape(p, i); LastKeepsEnding(p, i); }
    case Close(i) => CloseKeepsInv(p, i);
  }

  ghost predicate Legal(p: Page, acts: seq<Action>)
    decreases |acts|
  {
    acts == [] || (Enabled(p, acts[0]) && Legal(Step(p, acts[0]), acts[1..]))
  }

  ghost function Run(p: Page, acts: seq<Action>): Page
    requires Legal(p, acts)
    decreases |acts|
  {
    if acts == [] then p else Run(Step(p, acts[0]), acts[1..])
  }

  lemma {:induction false} RunKeepsInv(p: Page, acts: seq<Action>)
    requires Inv(p) && Legal(p, acts)
    ensures Inv(Run(p, acts)) && Run(p, acts).mode == p.mode
    decreases |acts|
  {
    if acts != [] {
      StepKeepsInv(p, acts[0]);
      RunKeepsInv(Step(p, acts[0]), acts[1..]);
    }
  }

  /** All I/O is over and the submitter has returned. */
  ghost predicate Quiescent(p: Page) {
    p.returned && forall i :: 0 <= i < |p.bufs| ==> p.bufs[i].io == Quiet || p.bufs[i].io == Over
  }

  /** A page as its read or its writeback finds it. */
  ghost predicate Begun(p: Page) {
    || (exists srcs: seq<Source>, error: bool :: p == StartRead(srcs, error))
    || (exists targets: seq<Target>, error: bool, uptodate: bool :: p == StartWrite(targets, error, uptodate))
  }

  lemma BegunKeepsInv(p: Page, acts: seq<Action>)
    requires Begun(p) && Legal(p, acts)
    ensures Inv(Run(p, acts))
  {
    if srcs: seq<Source>, error: bool :| p == StartRead(srcs, error) {
      StartsInv(srcs, [], error, false);
    } else {
      var targets: seq<Target>, error: bool, uptodate: bool :| p == StartWrite(targets, error, uptodate);
      StartsInv([], targets, error, uptodate);
    }
    RunKeepsInv(p, acts);
  }

  /** For every order in which a page's buffers are submitted and complete: its I/O never ends
      twice, never ends while a buffer is under I/O, and has ended once when all is over. */
  lemma EndsExactlyOnce(p: Page, acts: seq<Action>)
    requires Begun(p) && Legal(p, acts)
    ensures var q := Run(p, acts);
            && q.ends <= 1
            && (q.ends == 1 ==> !AnyAsync(q.bufs) && !AnyClosing(q.bufs))
            && (Quiescent(q) ==> q.ends == 1)
  {
    BegunKeepsInv(p, acts);
    var q := Run(p, acts);
    if Quiescent(q) {
      assert !AnyAsync(q.bufs) && !AnyClosing(q.bufs);
    }
  }

  /** A page read ends uptodate exactly when all its buffers are and no error occurred. */
  lemma ReadVerdict(srcs: seq<Source>, error: bool, acts: seq<Action>)
    requires Legal(StartRead(srcs, error), acts)
    ensures var q := Run(StartRead(srcs, error), acts);
            q.uptodate <==> q.ends == 1 && AllUptodate(q.bufs) && !q.error
  {
    StartsInv(srcs, [], error, false);
    RunKeepsInv(StartRead(srcs, error), acts);
  }

  // ---- What the disk answered ----

  ghost predicate Answered(acts: seq<Action>, i: nat, ok: bool) { Record(i, ok) in acts }

  /** The I/O of the buffer is behind its answer. */
  predicate Behind(io: Io) { io == Recorded || io.Closing? || io == Over }

  /** The buffer waits for an answer of the disk. */
  predicate Waits(p: Page, i: nat)
    requires i < |p.bufs|
  {
    p.bufs[i].io == InFlight || (p.bufs[i].io == Marked && !(p.mode == Read && p.bufs[i].uptodate))
  }

  /** What a run does to buffer `i`: it has an answer exactly if it waited for one and no longer does; the
      answer is its new state, and without one its state stays. */
  ghost predicate Explains(p: Page, acts: seq<Action>, q: Page, i: nat)
    requires i < |p.bufs| == |q.bufs|
  {
    && (Answered(acts, i, true) || Answered(acts, i, false) <==> Waits(p, i) && !Waits(q, i))
    && !(Answered(acts, i, true) && Answered(acts, i, false))
    && q.bufs[i].uptodate == (if Answered(acts, i, true) then true
                              else if Answered(acts, i, false) then false else p.bufs[i].uptodate)
    && (Waits(q, i) ==> Waits(p, i))
    && (p.bufs[i].io == Quiet <==> q.bufs[i].io == Quiet)
    && (Behind(p.bufs[i].io) ==> Behind(q.bufs[i].io))
  }

  lemma StepExplains(p: Page, a: Action, i: nat)
    requires Shape(p) && Enabled(p, a) && i < |p.bufs|
    ensures |Step(p, a).bufs| == |p.bufs| && Explains(p, [a], Step(p, a), i)
  {
    assert forall k, ok :: Answered([a], k, ok) <==> a == Record(k, ok);
  }

  lemma ThenExplains(p: Page, a: Action, m: Page, rest: seq<Action>, q: Page, i: nat)
    requires i < |p.bufs| == |m.bufs| == |q.bufs| && Explains(p, [a], m, i) && Explains(m, rest, q, i)
    ensures Explains(p, [a] + rest, q, i)
  {
    assert forall ok :: Answered([a] + rest, i, ok) <==> Answered([a], i, ok) || Answered(rest, i, ok);
  }

  lemma {:induction false} RunExplains(p: Page, acts: seq<Action>, i: nat)
    requires Inv(p) && Legal(p, acts) && i < |p.bufs|
    ensures |Run(p, acts).bufs| == |p.bufs| && Explains(p, acts, Run(p, acts), i)
    decreases |acts|
  {
    if acts != [] {
      var m := Step(p, acts[0]);
      StepExplains(p, acts[0], i);
      StepKeepsInv(p, acts[0]);
      RunExplains(m, acts[1..], i);
      ThenExplains(p, acts[0], m, acts[1..], Run(p, acts), i);
      assert [acts[0]] + acts[1..] == acts;
    }
  }

  /** The page has an error exactly if it had one or the disk answered a buffer with one. */
  lemma {:induction false} RunErrs(p: Page, acts: seq<Action>)
    requires Inv(p) && Legal(p, acts)
    ensures Run(p, acts).error <==> p.error || exists k :: Record(k, false) in acts
    decreases |acts|
  {
    if acts != [] {
      StepKeepsInv(p, acts[0]);
      RunErrs(Step(p, acts[0]), acts[1..]);
      assert forall a :: a in acts <==> a == acts[0] || a in acts[1..];
      assert Step(p, acts[0]).error <==> p.error || exists k :: acts[0] == Record(k, false);
    }
  }

  /** A buffer that the disk has to be asked for. */
  predicate Wanted(s: Source) {
    !s.uptodate && !s.raced && (s.mapped || (s.inFile && s.lookup == Found))
  }

  /** A page that was read is uptodate exactly if the read has ended, there was no error before, no lookup of
      a block failed, no answer of the disk was an error, and every buffer that the disk had to be asked for was
      answered. */
  lemma ReadVerdictIff(srcs: seq<Source>, error: bool, acts: seq<Action>)
    requires Legal(StartRead(srcs, error), acts)
    ensures var q := Run(StartRead(srcs, error), acts);
            q.uptodate <==>
            && q.ends == 1 && !error && (forall s :: s in srcs ==> !Failed(s))
            && (forall i :: Record(i, false) !in acts)
            && (forall i :: 0 <= i < |srcs| && Wanted(srcs[i]) ==> Record(i, true) in acts)
  {
    var p := StartRead(srcs, error);
    var q := Run(p, acts);
    ReadVerdict(srcs, error, acts);
    StartsInv(srcs, [], error, false);
    RunErrs(p, acts);
    forall i | 0 <= i < |srcs|
      ensures i < |q.bufs|
      ensures q.bufs[i].uptodate <==>
              !Failed(srcs[i]) && !Answered(acts, i, false) && (Wanted(srcs[i]) ==> Answered(acts, i, true))
    {
      RunExplains(p, acts, i);
    }
    assert |q.bufs| == |srcs| by { if |srcs| > 0 { RunExplains(p, acts, 0); } else { EmptyRun(p, acts); } }
  }

  lemma {:induction false} EmptyRun(p: Page, acts: seq<Action>)
    requires Legal(p, acts)
    ensures |Run(p, acts).bufs| == |p.bufs|
    decreases |acts|
  {
    if acts != [] { EmptyRun(Step(p, acts[0]), acts[1..]); }
  }

  lemma {:induction false} WriteKeepsUptodate(p: Page, acts: seq<Action>)
    requires p.mode == Write && Legal(p, acts)
    ensures Run(p, acts).uptodate == p.uptodate
    decreases |acts|
  {
    if acts != [] { WriteKeepsUptodate(Step(p, acts[0]), acts[1..]); }
  }

  /** Once a writeback has ended, every buffer that was mapped, dirty and not locked elsewhere has an answer of
      the disk, and no other has; the page has an error exactly if it had one or an answer was one. */
  lemma WriteVerdict(targets: seq<Target>, error: bool, uptodate: bool, acts: seq<Action>)
    requires Legal(StartWrite(targets, error, uptodate), acts)
    ensures var q := Run(StartWrite(targets, error, uptodate), acts);
            && q.uptodate == uptodate && (q.error <==> error || exists i :: Record(i, false) in acts)
            && (q.ends == 1 ==> forall i :: 0 <= i < |targets| ==>
                 (Record(i, true) in acts || Record(i, false) in acts
                  <==> targets[i].mapped && targets[i].dirty && targets[i].lockable))
  {
    var p := StartWrite(targets, error, uptodate);
    var q := Run(p, acts);
    StartsInv([], targets, error, uptodate);
    RunErrs(p, acts);
    WriteKeepsUptodate(p, acts);
    RunKeepsInv(p, acts);
    EndsExactlyOnce(p, acts);
    if q.ends == 1 {
      forall i | 0 <= i < |targets|
        ensures Answered(acts, i, true) || Answered(acts, i, false)
                <==> targets[i].mapped && targets[i].dirty && targets[i].lockable
      {
        RunExplains(p, acts, i);
      }
    }
  }

  // ---- Every page's I/O can end ----

  /** What is left to do for a buffer. */
  function Left(io: Io): nat {
    match io case Quiet => 0 case Marked => 4 case InFlight => 3 case Recorded => 2 case Closing(_) => 1 case Over => 0
  }

  function LeftIn(bufs: seq<Buffer>): nat { if bufs == [] then 0 else Left(bufs[0].io) + LeftIn(bufs[1..]) }

  function Todo(p: Page): nat {
    LeftIn(p.bufs) + (if p.next < |p.bufs| then |p.bufs| - p.next else 0) + if p.returned then 0 else 1
  }

  lemma {:induction false} LeftChanges(bufs: seq<Buffer>, i: nat, b: Buffer)
    requires i < |bufs|
    ensures LeftIn(bufs[i := b]) == LeftIn(bufs) - Left(bufs[i].io) + Left(b.io)
    decreases |bufs|
  {
    if i == 0 {
      assert bufs[0 := b][1..] == bufs[1..];
    } else {
      assert bufs[i := b][1..] == bufs[1..][i - 1 := b];
      LeftChanges(bufs[1..], i - 1, b);
    }
  }

  lemma OneLess(bufs: seq<Buffer>, next: seq<Buffer>, i: nat)
    requires i < |bufs| == |next| && next == bufs[i := next[i]]
    ensures LeftIn(next) == LeftIn(bufs) - Left(bufs[i].io) + Left(next[i].io)
  {
    LeftChanges(bufs, i, next[i]);
  }

  /** Every action brings the end nearer, so that every run is finite. */
  lemma StepLeaves(p: Page, a: Action)
    requires Inv(p) && Enabled(p, a)
    ensures Todo(Step(p, a)) < Todo(p)
  {
    var q := Step(p, a);
    if a.Submit? {
      assert Left(q.bufs[p.next].io) <= Left(p.bufs[p.next].io);
      OneLess(p.bufs, q.bufs, p.next);
    } else if !a.Return? {
      assert Left(q.bufs[a.i].io) < Left(p.bufs[a.i].io);
      OneLess(p.bufs, q.bufs, a.i);
    }
  }

  /** Until all is over somebody can go on. */
  lemma SomebodyGoesOn(p: Page) returns (a: Action)
    requires Inv(p) && !Quiescent(p)
    ensures Enabled(p, a)
  {
    if !p.returned {
      a := if p.next < |p.bufs| then Submit else Return;
    } else {
      var i :| 0 <= i < |p.bufs| && p.bufs[i].io != Quiet && p.bufs[i].io != Over;
      var io := p.bufs[i].io;
      a := if io == InFlight then Record(i, true) else if io == Recorded then Settle(i) else Close(i);
    }
  }

  /** However its buffers are submitted and complete, a page's I/O comes to its end: runs are no longer than what
      is left to do, and one that cannot go on has ended the I/O exactly once. */
  lemma {:induction false} RunsEnd(p: Page, acts: seq<Action>)
    requires Inv(p) && Legal(p, acts)
    ensures |acts| <= Todo(p)
    ensures (forall a :: !Enabled(Run(p, acts), a)) ==> Quiescent(Run(p, acts)) && Run(p, acts).ends == 1
    decreases |acts|
  {
    if acts == [] {
      if !Quiescent(p) { var a := SomebodyGoesOn(p); }
      else { assert !AnyAsync(p.bufs) && !AnyClosing(p.bufs); }
    } else {
      StepLeaves(p, acts[0]);
      StepKeepsInv(p, acts[0]);
      RunsEnd(Step(p, acts[0]), acts[1..]);
    }
  }

  /** The same for a page as its read or its writeback finds it. */
  lemma AlwaysEnds(p: Page, acts: seq<Action>)
    requires Begun(p) && Legal(p, acts)
    ensures |acts| <= Todo(p)
    ensures (forall a :: !Enabled(Run(p, acts), a)) ==> Quiescent(Run(p, acts)) && Run(p, acts).ends == 1
  {
    BegunKeepsInv(p, []);
    RunsEnd(p, acts);
  }

  /** The checks in the completion handlers hold: a buffer found marked is locked, and a buffer
      that completes is marked. */
  lemma HandlerChecksHold(p: Page, acts: seq<Action>, i: nat)
    requires Begun(p) && Legal(p, acts) && i < |Run(p, acts).bufs|
    ensures var b := Run(p, acts).bufs[i];
            && (b.async ==> b.locked)
            && (b.io == InFlight || b.io == Recorded ==> b.async)
  {
    BegunKeepsInv(p, acts);
  }
}
