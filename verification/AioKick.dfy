/** The kick and retry protocol of asynchronous requests, as a state machine over any number of
    requests and threads.  Each action is one section under the context lock. */
module AioKick {
  import opened Lists

  type Rid = nat
  type Tid = nat

  /** Where a request's run-list node is.  `Running` and `Parked` both stand for the cleared
      node (null links) of a request whose run has started: `Running(t)` while thread `t` is in
      the retry method, `Parked` once that has returned "queued". */
  datatype Place = Unlinked | OnContext | OnLocal(tid: Tid) | Running(tid: Tid) | Parked

  datatype Request = Request(place: Place, kicked: bool, done: bool)

  /** `runList` is the context's run list, `local` the list a thread is working through,
      `running` the request a thread is retrying outside the lock. */
  datatype State = State(reqs: map<Rid, Request>, runList: seq<Rid>, local: map<Tid, seq<Rid>>, running: map<Tid, Rid>)

  datatype Outcome = Again | Queued | Completed

  datatype Action =
    | Submit(t: Tid, r: Rid)         // first run of a new request
    | Grab(t: Tid)                   // a thread takes over the whole run list
    | RunNext(t: Tid)                // ... and starts the next request on it
    | Return(t: Tid, how: Outcome)   // the retry method is back
    | Kick(r: Rid)
    | Complete(r: Rid)               // completion from another context

  const Init := State(map[], [], map[], map[])

  function Local(s: State, t: Tid): seq<Rid> { if t in s.local then s.local[t] else [] }

  predicate Enabled(s: State, a: Action) {
    match a
    case Submit(t, r) => t !in s.running && r !in s.reqs
    case Grab(t) => t !in s.running && Local(s, t) == []
    case RunNext(t) => t !in s.running && Local(s, t) != [] && Local(s, t)[0] in s.reqs
    case Return(t, how) => t in s.running && s.running[t] in s.reqs && (how == Completed ==> !s.reqs[s.running[t]].done)
    case Kick(r) => r in s.reqs && !s.reqs[r].done
    case Complete(r) => r in s.reqs && !s.reqs[r].done
  }

  /** Moving every request of `q` to the local list of `t`. */
  function Moved(reqs: map<Rid, Request>, q: seq<Rid>, t: Tid): map<Rid, Request> {
    map r | r in reqs :: if r in q then reqs[r].(place := OnLocal(t)) else reqs[r]
  }

  /** `__queue_kicked_iocb`: only a request whose node is empty is queued. */
  function Queue(s: State, r: Rid): State
    requires r in s.reqs
  {
    if s.reqs[r].place == Unlinked
    then s.(reqs := s.reqs[r := s.reqs[r].(place := OnContext)], runList := s.runList + [r])
    else s
  }

  /** The start of `aio_run_iocb`. */
  function StartRun(s: State, t: Tid, r: Rid): State {
    s.(reqs := s.reqs[r := Request(Running(t), false, r in s.reqs && s.reqs[r].done)], running := s.running[t := r])
  }

  function Step(s: State, a: Action): State
    requires Enabled(s, a)
  {
    match a
    case Submit(t, r) => StartRun(s, t, r)
    case Grab(t) => s.(reqs := Moved(s.reqs, s.runList, t), local := s.local[t := s.runList], runList := [])
    case RunNext(t) =>
      var q := Local(s, t);
      StartRun(s.(local := s.local[t := q[1..]]), t, q[0])
    case Return(t, how) =>
      var r := s.running[t];
      var s' := s.(running := s.running - {t});
      match how {
        case Again =>
          var freed := s'.(reqs := s'.reqs[r := s'.reqs[r].(place := Unlinked)]);
          if freed.reqs[r].kicked then Queue(freed, r) else freed
        case Queued => s'.(reqs := s'.reqs[r := s'.reqs[r].(place := Parked)])
        case Completed => s'.(reqs := s'.reqs[r := s'.reqs[r].(place := Parked, done := true)])
      }
    case Kick(r) =>
      if s.reqs[r].kicked then s
      else Queue(s.(reqs := s.reqs[r := s.reqs[r].(kicked := true)]), r)
    case Complete(r) =>
      var q := s.reqs[r];
      match q.place {
        case OnContext => s.(reqs := s.reqs[r := q.(place := Unlinked, done := true)], runList := Without(s.runList, r))
        case OnLocal(t) => s.(reqs := s.reqs[r := q.(place := Unlinked, done := true)],
            local := s.local[t := Without(Local(s, t), r)])
        case _ => s.(reqs := s.reqs[r := q.(done := true)])
      }
  }

  /** Every request is in exactly the one list its node says, once. */
  ghost predicate ListsInv(s: State) {
    && NoDup(s.runList)
    && (forall r :: r in s.runList <==> r in s.reqs && s.reqs[r].place == OnContext)
    && (forall t :: NoDup(Local(s, t)))
    && (forall t, r :: r in Local(s, t) <==> r in s.reqs && s.reqs[r].place == OnLocal(t))
  }

  /** A thread is running a request exactly when the request's node says so, and a kick is
      never forgotten: a live request whose node is empty has no kick pending, and one on a
      list has. */
  ghost predicate RunsInv(s: State) {
    && (forall t, r :: t in s.running && s.running[t] == r <==> r in s.reqs && s.reqs[r].place == Running(t))
    && (forall r :: r in s.reqs && !s.reqs[r].done && s.reqs[r].place == Unlinked ==> !s.reqs[r].kicked)
    && (forall r :: r in s.reqs && (s.reqs[r].place == OnContext || s.reqs[r].place.OnLocal?) ==> s.reqs[r].kicked)
  }

  ghost predicate Inv(s: State) { ListsInv(s) && RunsInv(s) }

  lemma SubmitKeepsInv(s: State, t: Tid, r: Rid)
    requires Inv(s) && Enabled(s, Submit(t, r))
    ensures Inv(Step(s, Submit(t, r)))
  {
    var s' := Step(s, Submit(t, r));
    assert forall u :: Local(s', u) == Local(s, u);
  }

  lemma GrabKeepsInv(s: State, t: Tid)
    requires Inv(s) && Enabled(s, Grab(t))
    ensures Inv(Step(s, Grab(t)))
  {
    var s' := Step(s, Grab(t));
    assert forall u :: Local(s', u) == if u == t then s.runList else Local(s, u);
  }

  lemma RunNextKeepsLists(s: State, t: Tid)
    requires Inv(s) && Enabled(s, RunNext(t))
    ensures ListsInv(Step(s, RunNext(t)))
  {
    var s', q := Step(s, RunNext(t)), Local(s, t);
    assert forall x :: x in q <==> x == q[0] || x in q[1..];
    assert q[0] !in q[1..];
    assert forall u :: Local(s', u) == if u == t then q[1..] else Local(s, u);
  }

  lemma RunNextKeepsRuns(s: State, t: Tid)
    requires Inv(s) && Enabled(s, RunNext(t))
    ensures RunsInv(Step(s, RunNext(t)))
  {
    assert Local(s, t)[0] in Local(s, t);
  }

  lemma ReturnKeepsLists(s: State, t: Tid, how: Outcome)
    requires Inv(s) && Enabled(s, Return(t, how))
    ensures ListsInv(Step(s, Return(t, how)))
  {
    var s', r := Step(s, Return(t, how)), s.running[t];
    assert s.reqs[r].place == Running(t);
    assert forall u :: Local(s', u) == Local(s, u);
  }

  lemma ReturnKeepsRuns(s: State, t: Tid, how: Outcome)
    requires Inv(s) && Enabled(s, Return(t, how))
    ensures RunsInv(Step(s, Return(t, how)))
  {
  }

  lemma KickKeepsLists(s: State, r: Rid)
    requires Inv(s) && Enabled(s, Kick(r))
    ensures ListsInv(Step(s, Kick(r)))
  {
    var s' := Step(s, Kick(r));
    assert forall u :: Local(s', u) == Local(s, u);
  }

  lemma KickKeepsRuns(s: State, r: Rid)
    requires Inv(s) && Enabled(s, Kick(r))
    ensures RunsInv(Step(s, Kick(r)))
  {
  }

  lemma CompleteQueuedKeepsLists(s: State, r: Rid)
    requires ListsInv(s) && Enabled(s, Complete(r)) && s.reqs[r].place == OnContext
    ensures ListsInv(Step(s, Complete(r)))
  {
    WithoutSpec(s.runList, r);
    var s' := Step(s, Complete(r));
    assert forall u :: Local(s', u) == Local(s, u);
  }

  lemma CompleteLocalKeepsLists(s: State, r: Rid, t: Tid)
    requires ListsInv(s) && Enabled(s, Complete(r)) && s.reqs[r].place == OnLocal(t)
    ensures ListsInv(Step(s, Complete(r)))
  {
    WithoutSpec(Local(s, t), r);
    var s' := Step(s, Complete(r));
    assert forall u :: Local(s', u) == if u == t then Without(Local(s, t), r) else Local(s, u);
  }

  lemma CompleteKeepsLists(s: State, r: Rid)
    requires Inv(s) && Enabled(s, Complete(r))
    ensures ListsInv(Step(s, Complete(r)))
  {
    match s.reqs[r].place
    case OnContext => CompleteQueuedKeepsLists(s, r);
    case OnLocal(t) => CompleteLocalKeepsLists(s, r, t);
    case _ =>
      var s' := Step(s, Complete(r));
      assert forall u :: Local(s', u) == Local(s, u);
  }

  lemma CompleteKeepsRuns(s: State, r: Rid)
    requires Inv(s) && Enabled(s, Complete(r))
    ensures RunsInv(Step(s, Complete(r)))
  {
  }

  lemma StepKeepsInv(s: State, a: Action)
    requires Inv(s) && Enabled(s, a)
    ensures Inv(Step(s, a))
  {
    match a
    case Submit(t, r) => SubmitKeepsInv(s, t, r);
    case Grab(t) => GrabKeepsInv(s, t);
    case RunNext(t) => RunNextKeepsLists(s, t); RunNextKeepsRuns(s, t);
    case Return(t, how) => ReturnKeepsLists(s, t, how); ReturnKeepsRuns(s, t, how);
    case Kick(r) => KickKeepsLists(s, r); KickKeepsRuns(s, r);
    case Complete(r) => CompleteKeepsLists(s, r); CompleteKeepsRuns(s, r);
  }

  // ---- Runs ----

  /** `states` is the course of the machine under `acts`, from the initial state. */
  ghost predicate IsRun(states: seq<State>, acts: seq<Action>) {
    && |states| == |acts| + 1 && states[0] == Init
    && forall i :: 0 <= i < |acts| ==> Enabled(states[i], acts[i]) && states[i + 1] == Step(states[i], acts[i])
  }

  lemma {:induction false} RunKeepsInv(states: seq<State>, acts: seq<Action>, i: nat)
    requires IsRun(states, acts) && i < |states|
    ensures Inv(states[i])
  {
    if i > 0 {
      RunKeepsInv(states, acts, i - 1);
      StepKeepsInv(states[i - 1], acts[i - 1]);
    }
  }

  /** At most one retry of a request is in progress at any time. */
  lemma OneRetryAtATime(states: seq<State>, acts: seq<Action>, i: nat, t: Tid, u: Tid)
    requires IsRun(states, acts) && i < |states|
    requires t in states[i].running && u in states[i].running && states[i].running[t] == states[i].running[u]
    ensures t == u
  {
    RunKeepsInv(states, acts, i);
    assert states[i].reqs[states[i].running[t]].place == Running(t);
  }

  /** The retry of `r` by `t` goes on from state `i` to state `j`. */
  ghost predicate RunningFrom(states: seq<State>, t: Tid, r: Rid, i: nat, j: nat)
    requires j < |states|
  {
    forall k :: i <= k <= j ==> t in states[k].running && states[k].running[t] == r
  }

  lemma {:induction false} KickedStays(states: seq<State>, acts: seq<Action>, t: Tid, r: Rid, i: nat, j: nat)
    requires IsRun(states, acts) && i <= j < |states| && RunningFrom(states, t, r, i, j)
    requires r in states[i].reqs && states[i].reqs[r].kicked
    ensures r in states[j].reqs && states[j].reqs[r].kicked
    decreases j
  {
    if i < j {
      KickedStays(states, acts, t, r, i, j - 1);
      RunKeepsInv(states, acts, j - 1);
      var s, a := states[j - 1], acts[j - 1];
      assert s.reqs[r].place == Running(t) by { assert s.running[t] == r; }
      assert Enabled(s, a) && states[j] == Step(s, a);
      if a.RunNext? {
        assert Local(s, a.t)[0] in Local(s, a.t);
      }
    }
  }

  /** A kick that arrives during a run which then ends in "try again" puts the request back on
      the run list. */
  lemma KickIsNotLost(states: seq<State>, acts: seq<Action>, t: Tid, r: Rid, i: nat, j: nat)
    requires IsRun(states, acts) && i < j < |acts|
    requires RunningFrom(states, t, r, i, j) && acts[i] == Kick(r) && acts[j] == Return(t, Again)
    ensures r in states[j + 1].runList
  {
    RunKeepsInv(states, acts, i);
    assert states[i + 1] == Step(states[i], acts[i]);
    KickedStays(states, acts, t, r, i + 1, j);
    assert states[j + 1] == Step(states[j], acts[j]) && states[j].running[t] == r;
  }

  /** A kick at any other time leaves a live request that is not parked where a thread will
      pick it up: on a list, or in a run that will see the kick. */
  lemma KickedIsPending(states: seq<State>, acts: seq<Action>, i: nat, r: Rid)
    requires IsRun(states, acts) && i < |states|
    requires r in states[i].reqs && !states[i].reqs[r].done && states[i].reqs[r].kicked
             && states[i].reqs[r].place != Parked
    ensures r in states[i].runList || (exists t :: r in Local(states[i], t))
            || (exists t :: t in states[i].running && states[i].running[t] == r)
  {
    RunKeepsInv(states, acts, i);
    var s := states[i];
    match s.reqs[r].place
    case OnLocal(t) => assert r in Local(s, t);
    case Running(t) => assert t in s.running && s.running[t] == r;
    case _ =>
  }
}
