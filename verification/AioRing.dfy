/** The completion ring of an asynchronous I/O context, as a state machine.

    Requests are granted slots by `kiocb_batch_refill`, post one event each through
    `aio_complete`, and user threads take events out with `aio_read_evt`.  Posting runs under
    the context lock and reading under the ring lock, so the two interleave; each is split at
    the point where its pointer update becomes visible. */
module AioRing {

  type Event = int

  datatype Poster = NoPost | Wrote(event: Event)
  datatype Reader = NoRead | Copied(event: Event)

  /** `active` is `reqs_active`.  `unposted` counts the requests that hold a slot and have not
      posted; `posted` and `taken` record the events that went in and came out. */
  datatype Ring = Ring(nr: nat, head: nat, tail: nat, slots: seq<Event>, active: nat, unposted: nat,
                       poster: Poster, reader: Reader, posted: seq<Event>, taken: seq<Event>)

  datatype Action =
    | Refill(wanted: nat)    // a batch of requests asks for slots
    | Drop                   // a request goes away without an event
    | Write(event: Event)    // aio_complete writes its event ...
    | Publish                // ... and moves the tail past it
    | Release                // the last reference to a request that has posted
    | Copy                   // aio_read_evt copies an event ...
    | Take                   // ... and moves the head past it

  const BATCH := 32
  const TWO32 := 0x1_0000_0000

  function Next(i: nat, nr: nat): nat { if i + 1 >= nr then 0 else i + 1 }

  /** Events in the ring. */
  function Count(s: Ring): int { if s.tail >= s.head then s.tail - s.head else s.tail - s.head + s.nr }

  /** `aio_ring_avail`. */
  function Avail(s: Ring): int
    requires s.nr > 0
  {
    (s.head + s.nr - 1 - s.tail) % s.nr
  }

  /** How many of `wanted` requests get a slot.  The available count is unsigned, so the
      subtraction wraps around at 32 bits and the later test for a negative result is never
      true. */
  function Granted(s: Ring, wanted: nat): nat
    requires s.nr > 0
  {
    var avail := (Avail(s) - s.active) % TWO32;
    if avail < wanted then avail else wanted
  }

  predicate Enabled(s: Ring, a: Action) {
    match a
    case Refill(wanted) => 0 < wanted <= BATCH && s.poster.NoPost? && s.nr > 0
    case Drop => s.unposted > 0 && s.active > 0 && s.poster.NoPost?
    case Write(_) => s.unposted > 0 && s.poster.NoPost? && s.tail < |s.slots|
    case Publish => s.poster.Wrote? && s.unposted > 0
    case Release => s.active > s.unposted && s.poster.NoPost?
    case Copy => s.reader.NoRead? && s.head != s.tail && s.head < |s.slots|
    case Take => s.reader.Copied?
  }

  function Step(s: Ring, a: Action): Ring
    requires Enabled(s, a)
  {
    match a
    case Refill(wanted) => s.(active := s.active + Granted(s, wanted), unposted := s.unposted + Granted(s, wanted))
    case Drop => s.(active := s.active - 1, unposted := s.unposted - 1)
    case Write(e) => s.(slots := s.slots[s.tail := e], poster := Wrote(e))
    case Publish => s.(tail := Next(s.tail, s.nr), poster := NoPost, unposted := s.unposted - 1,
        posted := s.posted + [s.poster.event])
    case Release => s.(active := s.active - 1)
    case Copy => s.(reader := Copied(s.slots[s.head]))
    case Take => s.(head := Next(s.head, s.nr), reader := NoRead, taken := s.taken + [s.reader.event])
  }

  /** What `aio_setup_ring` makes. */
  function Init(nr: nat, slots: seq<Event>): Ring {
    Ring(nr, 0, 0, slots, 0, 0, NoPost, NoRead, [], [])
  }

  ghost predicate Shape(s: Ring) {
    2 <= s.nr < TWO32 / 2 && |s.slots| == s.nr && s.head < s.nr && s.tail < s.nr
  }

  function At(s: Ring, i: nat): nat { if s.head + i < s.nr then s.head + i else s.head + i - s.nr }

  /** The events in the ring, oldest first. */
  ghost function Contents(s: Ring): seq<Event>
    requires Shape(s)
  {
    seq(Count(s), i requires 0 <= i < Count(s) => s.slots[At(s, i)])
  }

  /** The ring holds, in order, exactly the events posted and not yet taken; every request
      that may still post has a free slot waiting; and what a reader has copied is the oldest
      event. */
  ghost predicate Inv(s: Ring) {
    && Shape(s) && s.unposted <= s.active < TWO32 / 2
    && Count(s) + s.unposted <= s.nr - 1
    && s.posted == s.taken + Contents(s)
    && (s.poster.Wrote? ==> s.unposted > 0 && s.slots[s.tail] == s.poster.event)
    && (s.reader.Copied? ==> Count(s) > 0 && s.reader.event == Contents(s)[0])
  }

  /** Free slots that no request holds. */
  function Free(s: Ring): int { s.nr - 1 - Count(s) - s.unposted }

  lemma AvailIsFree(s: Ring)
    requires Inv(s)
    ensures Avail(s) == s.nr - 1 - Count(s)
  {
    Wrapped(s.head + s.nr - 1 - s.tail, s.nr);
  }

  lemma Wrapped(x: nat, n: nat)
    requires 0 < n && x < 2 * n
    ensures x % n == if x < n then x else x - n
  {
  }

  /** A refill hands out no more slots than there are, if and only if the number of active
      requests is within the ring's free space or the batch happens to fit anyway. */
  lemma RefillFitsIff(s: Ring, wanted: nat)
    requires Inv(s) && Enabled(s, Refill(wanted))
    ensures Granted(s, wanted) <= Free(s) <==> s.active <= Avail(s) || wanted <= Free(s)
  {
    AvailIsFree(s);
    if s.active > Avail(s) {
      assert (Avail(s) - s.active) % TWO32 == Avail(s) - s.active + TWO32;
    } else {
      assert (Avail(s) - s.active) % TWO32 == Avail(s) - s.active;
    }
  }

  function Min(a: int, b: int): int { if a < b then a else b }

  /** What a refill hands out: all that is wanted, as far as the ring's free space exceeds the active requests;
      and all of it, too, when the requests exceed the free space. */
  lemma RefillGrants(s: Ring, wanted: nat)
    requires Inv(s) && Enabled(s, Refill(wanted))
    ensures var t, free := Step(s, Refill(wanted)), s.nr - 1 - Count(s);
            && t.unposted - s.unposted == t.active - s.active
            && t.unposted - s.unposted == if s.active <= free then Min(wanted, free - s.active) else wanted
  {
    AvailIsFree(s);
    if s.active > Avail(s) {
      assert (Avail(s) - s.active) % TWO32 == Avail(s) - s.active + TWO32;
    } else {
      assert (Avail(s) - s.active) % TWO32 == Avail(s) - s.active;
    }
  }

  /** The guard under which a refill is safe. */
  predicate Fits(s: Ring, a: Action)
    requires s.nr > 0
  {
    a.Refill? ==> s.active <= Avail(s) || a.wanted <= Free(s)
  }

  /** Writing an event touches no event that is still to be read. */
  lemma WriteKeepsContents(s: Ring, e: Event)
    requires Shape(s) && Count(s) < s.nr
    ensures var t := s.(slots := s.slots[s.tail := e], poster := Wrote(e));
            Shape(t) && Contents(t) == Contents(s)
  {
    assert forall i :: 0 <= i < Count(s) ==> At(s, i) != s.tail;
  }

  lemma PublishAppends(s: Ring)
    requires Shape(s) && Count(s) < s.nr - 1 && s.poster.Wrote? && s.slots[s.tail] == s.poster.event && s.unposted > 0
    ensures var t := Step(s, Publish);
            Shape(t) && Contents(t) == Contents(s) + [s.poster.event]
  {
    var t := Step(s, Publish);
    assert Count(t) == Count(s) + 1 && At(s, Count(s)) == s.tail;
    assert forall i :: 0 <= i < Count(t) ==> At(t, i) == At(s, i);
  }

  lemma TakeRemovesOldest(s: Ring)
    requires Shape(s) && Count(s) > 0 && s.reader.Copied?
    ensures var t := Step(s, Take);
            Shape(t) && Count(t) == Count(s) - 1 && Contents(t) == Contents(s)[1..]
  {
    var t := Step(s, Take);
    assert forall i :: 0 <= i < Count(t) ==> At(t, i) == At(s, i + 1);
  }

  lemma StepKeepsInv(s: Ring, a: Action)
    requires Inv(s) && Enabled(s, a) && Fits(s, a) && s.active + BATCH < TWO32 / 2
    ensures Inv(Step(s, a))
  {
    var t := Step(s, a);
    match a
    case Refill(wanted) =>
      RefillFitsIff(s, wanted);
      assert Contents(t) == Contents(s);
    case Write(e) =>
      WriteKeepsContents(s, e);
    case Publish =>
      PublishAppends(s);
      assert s.taken + (Contents(s) + [s.poster.event]) == s.taken + Contents(s) + [s.poster.event];
    case Take =>
      TakeRemovesOldest(s);
      assert s.taken + [Contents(s)[0]] + Contents(s)[1..] == s.taken + Contents(s);
    case _ =>
      assert Contents(t) == Contents(s);
  }

  // ---- Runs ----

  /** Every action of the run is possible, and every refill meets the guard. */
  ghost predicate Legal(s: Ring, acts: seq<Action>, guarded: bool)
    decreases |acts|
  {
    acts == [] || (&& Enabled(s, acts[0]) && s.nr > 0 && s.active + BATCH < TWO32 / 2
                   && (guarded ==> Fits(s, acts[0])) && Legal(Step(s, acts[0]), acts[1..], guarded))
  }

  ghost function Run(s: Ring, acts: seq<Action>): Ring
    requires Legal(s, acts, false)
    decreases |acts|
  {
    if acts == [] then s else Run(Step(s, acts[0]), acts[1..])
  }

  lemma {:induction false} GuardedIsLegal(s: Ring, acts: seq<Action>)
    requires Legal(s, acts, true)
    ensures Legal(s, acts, false)
    decreases |acts|
  {
    if acts != [] { GuardedIsLegal(Step(s, acts[0]), acts[1..]); }
  }

  lemma {:induction false} RunKeepsInv(s: Ring, acts: seq<Action>)
    requires Inv(s) && Legal(s, acts, true)
    ensures Legal(s, acts, false) && Inv(Run(s, acts))
    decreases |acts|
  {
    GuardedIsLegal(s, acts);
    if acts != [] {
      StepKeepsInv(s, acts[0]);
      RunKeepsInv(Step(s, acts[0]), acts[1..]);
    }
  }

  /** The ring is a queue: over every run in which refills meet the guard, events come out
      once each and in the order they were posted, none is overwritten before it is read, and
      what is still in the ring is what was posted last. */
  lemma RingIsFifo(nr: nat, slots: seq<Event>, acts: seq<Action>)
    requires 2 <= nr < TWO32 / 2 && |slots| == nr && Legal(Init(nr, slots), acts, true)
    ensures Legal(Init(nr, slots), acts, false)
    ensures var s := Run(Init(nr, slots), acts);
            && Shape(s) && s.nr == nr && Count(s) + s.unposted <= nr - 1
            && s.posted == s.taken + Contents(s)
  {
    RunKeepsInv(Init(nr, slots), acts);
    RunKeepsSize(Init(nr, slots), acts);
  }

  lemma {:induction false} RunKeepsSize(s: Ring, acts: seq<Action>)
    requires Legal(s, acts, false)
    ensures Run(s, acts).nr == s.nr
    decreases |acts|
  {
    if acts != [] { RunKeepsSize(Step(s, acts[0]), acts[1..]); }
  }

  function Releases(acts: seq<Action>): nat {
    if acts == [] then 0 else (if acts[0].Release? then 1 else 0) + Releases(acts[1..])
  }

  /** Over every run the active requests are those that hold a slot and those that have posted and were not
      released yet. */
  lemma {:induction false} ActiveCounts(s: Ring, acts: seq<Action>)
    requires Legal(s, acts, false)
    ensures var t := Run(s, acts);
            t.active - t.unposted == s.active - s.unposted + |t.posted| - |s.posted| - Releases(acts)
    decreases |acts|
  {
    if acts != [] { ActiveCounts(Step(s, acts[0]), acts[1..]); }
  }

  // ---- Every event can be read ----

  /** Requests post and go, readers read, and nobody asks for slots or gives them up. */
  predicate Drains(a: Action) { !a.Refill? && !a.Drop? }

  /** Some sequence of such actions takes out every event that was posted, one more for every request that holds
      a slot, and leaves no request. */
  ghost predicate CanDrain(s: Ring, n: nat) {
    exists acts :: Legal(s, acts, false) && (forall a :: a in acts ==> Drains(a)) && Drained(s, Run(s, acts), n)
  }

  ghost predicate Drained(s: Ring, t: Ring, n: nat) {
    t.active == 0 && t.head == t.tail && t.taken == t.posted && s.posted <= t.posted && |t.posted| == |s.posted| + n
  }

  function Undrained(s: Ring): int {
    4 * s.unposted + 2 * Count(s) + s.active + (if s.poster.NoPost? then 1 else 0) + if s.reader.NoRead? then 1 else 0
  }

  /** What comes next. */
  function NextDrain(s: Ring): Action {
    if s.reader.Copied? then Take
    else if s.head != s.tail then Copy
    else if s.poster.Wrote? then Publish
    else if s.unposted > 0 then Write(0) else Release
  }

  lemma DrainsOne(s: Ring)
    requires Inv(s) && s.active + BATCH < TWO32 / 2 && (s.active > 0 || s.head != s.tail || s.reader.Copied?)
    ensures var a := NextDrain(s);
            && Enabled(s, a) && Inv(Step(s, a)) && 0 <= Undrained(Step(s, a)) < Undrained(s)
            && Step(s, a).active <= s.active && s.posted <= Step(s, a).posted
            && |Step(s, a).posted| + Step(s, a).unposted == |s.posted| + s.unposted
  {
    StepKeepsInv(s, NextDrain(s));
  }

  lemma DrainAfter(s: Ring, a: Action, n: nat)
    requires Enabled(s, a) && Drains(a) && s.nr > 0 && s.active + BATCH < TWO32 / 2
    requires s.posted <= Step(s, a).posted && |Step(s, a).posted| - |s.posted| <= n
    requires CanDrain(Step(s, a), n - (|Step(s, a).posted| - |s.posted|))
    ensures CanDrain(s, n)
  {
    var t, m := Step(s, a), n - (|Step(s, a).posted| - |s.posted|);
    var rest :| Legal(t, rest, false) && (forall a :: a in rest ==> Drains(a)) && Drained(t, Run(t, rest), m);
    var acts := [a] + rest;
    assert acts[0] == a && acts[1..] == rest;
    assert Legal(s, acts, false) && Run(s, acts) == Run(t, rest);
    assert Drained(s, Run(s, acts), n);
  }

  lemma {:induction false} InvCanDrain(s: Ring)
    requires Inv(s) && s.active + BATCH < TWO32 / 2
    ensures CanDrain(s, s.unposted)
    decreases Undrained(s)
  {
    if s.active > 0 || s.head != s.tail || s.reader.Copied? {
      DrainsOne(s);
      InvCanDrain(Step(s, NextDrain(s)));
      DrainAfter(s, NextDrain(s), s.unposted);
    } else {
      assert Contents(s) == [];
      assert Legal(s, [], false) && Run(s, []) == s;
      assert Drained(s, Run(s, []), s.unposted);
    }
  }

  /** After every run in which refills meet the guard, every event that was posted, and one from every request
      that holds a slot, can still be read, in order. */
  lemma AlwaysCanDrain(nr: nat, slots: seq<Event>, acts: seq<Action>)
    requires 2 <= nr < TWO32 / 2 && |slots| == nr && Legal(Init(nr, slots), acts, true)
    ensures Legal(Init(nr, slots), acts, false)
    ensures var s := Run(Init(nr, slots), acts);
            s.active + BATCH < TWO32 / 2 ==> CanDrain(s, s.unposted)
  {
    RunKeepsInv(Init(nr, slots), acts);
    var s := Run(Init(nr, slots), acts);
    if s.active + BATCH < TWO32 / 2 { InvCanDrain(s); }
  }

  // ---- Without the guard ----

  ghost predicate Reaches(s: Ring, t: Ring) {
    exists acts :: Legal(s, acts, false) && Run(s, acts) == t
  }

  lemma {:induction false} RunSnoc(s: Ring, acts: seq<Action>, a: Action)
    requires Legal(s, acts, false) && Enabled(Run(s, acts), a)
    requires var t := Run(s, acts); t.nr > 0 && t.active + BATCH < TWO32 / 2
    ensures Legal(s, acts + [a], false) && Run(s, acts + [a]) == Step(Run(s, acts), a)
    decreases |acts|
  {
    if acts == [] {
      assert acts + [a] == [a] && [a][1..] == [];
      assert Legal(Step(s, a), [], false);
    } else {
      assert (acts + [a])[1..] == acts[1..] + [a];
      RunSnoc(Step(s, acts[0]), acts[1..], a);
    }
  }

  lemma ReachesNext(s: Ring, t: Ring, a: Action)
    requires Reaches(s, t) && Enabled(t, a) && t.nr > 0 && t.active + BATCH < TWO32 / 2
    ensures Reaches(s, Step(t, a))
  {
    var acts :| Legal(s, acts, false) && Run(s, acts) == t;
    RunSnoc(s, acts, a);
  }

  /** A request gets a slot and posts. */
  lemma PostOne(s0: Ring, s: Ring) returns (t: Ring)
    requires Reaches(s0, s) && Inv(s) && s.active == 0 && s.poster.NoPost? && Count(s) < s.nr - 1
    ensures Reaches(s0, t) && Inv(t) && t.active == 1 && t.unposted == 0 && t.poster.NoPost?
    ensures t.nr == s.nr && Count(t) == Count(s) + 1 && t.taken == s.taken && t.head == s.head
  {
    AvailIsFree(s);
    ReachesNext(s0, s, Refill(1));
    StepKeepsInv(s, Refill(1));
    var s1 := Step(s, Refill(1));
    assert s1.unposted == 1;
    ReachesNext(s0, s1, Write(0));
    StepKeepsInv(s1, Write(0));
    var s2 := Step(s1, Write(0));
    ReachesNext(s0, s2, Publish);
    StepKeepsInv(s2, Publish);
    t := Step(s2, Publish);
  }

  /** Any number of unread events up to the ring's capacity, with no request active. */
  lemma {:induction false} FillUp(nr: nat, slots: seq<Event>, n: nat) returns (t: Ring)
    requires 2 <= nr < TWO32 / 2 && |slots| == nr && n <= nr - 1
    ensures Reaches(Init(nr, slots), t) && Inv(t) && t.active == 0 && t.poster.NoPost?
    ensures t.nr == nr && Count(t) == n && t.taken == [] && t.head == 0
    decreases n
  {
    var s0 := Init(nr, slots);
    if n == 0 {
      t := s0;
      assert Legal(s0, [], false) && Run(s0, []) == s0;
    } else {
      var s := FillUp(nr, slots, n - 1);
      var u := PostOne(s0, s);
      ReachesNext(s0, u, Release);
      StepKeepsInv(u, Release);
      t := Step(u, Release);
    }
  }

  /** Without the guard the ring loses events, whatever its size.  A request that has posted but
      is still referenced counts twice; if it is the one that filled the ring, the next refill
      is granted a slot that does not exist, its event makes the full ring look empty, and a
      reader finds nothing. */
  lemma UnguardedRefillLosesEvents(nr: nat, slots: seq<Event>) returns (t: Ring)
    requires 2 <= nr < TWO32 / 2 && |slots| == nr
    ensures Reaches(Init(nr, slots), t)
    ensures |t.posted| == nr && t.taken == [] && t.head == t.tail && !Enabled(t, Copy)
  {
    var s0 := Init(nr, slots);
    var s := FillUp(nr, slots, nr - 2);
    var u := PostOne(s0, s);
    AvailIsFree(u);
    assert Avail(u) == 0 && Granted(u, 1) == 1 by {
      assert (0 - 1) % TWO32 == TWO32 - 1;
    }
    ReachesNext(s0, u, Refill(1));
    var u1 := Step(u, Refill(1));
    ReachesNext(s0, u1, Write(0));
    var u2 := Step(u1, Write(0));
    ReachesNext(s0, u2, Publish);
    t := Step(u2, Publish);
  }
}
