/** The life of an asynchronous I/O context and its requests, as a state machine over any number
    of threads.  Each action is one section under a lock, or one atomic operation. */
module AioTeardown {

  type Rid = nat
  type Tid = nat

  /** What a thread that holds a reference to the context is doing: using it, destroying it
      (`wasDead`: somebody else already was), waiting in `kill_ctx`, or tearing it down because
      the process exits. */
  datatype Phase = Using | Destroying(wasDead: bool) | Killing | Exiting

  /** A request: in a thread's unsubmitted batch, taken out of it for submission, or started. */
  datatype Stage = Batched | Taken | Started

  /** `users` is `ki_users`; it counts the I/O reference, the submitting thread's reference and
      any references held by cancellation or by a retry. */
  datatype Request = Request(users: int, stage: Stage, owner: Tid, io: bool, sub: bool, extra: nat)

  /** `users`, `dead` and `active` are the context's fields.  `listed` says whether the reference
      that belongs to the process's list of contexts is still there. */
  datatype Context = Context(users: int, dead: bool, active: int, listed: bool, threads: map<Tid, Phase>,
      reqs: map<Rid, Request>)

  datatype Action =
    | Lookup(t: Tid)            // lookup_ioctx takes a reference
    | Allocate(t: Tid, r: Rid)  // kiocb_batch_refill
    | Unbatch(t: Tid, r: Rid)   // kiocb_batch_free
    | TakeOut(t: Tid, r: Rid)   // aio_get_req
    | Start(t: Tid, r: Rid)     // io_submit_one, unless the context is dead
    | PutSub(t: Tid, r: Rid)    // the submitter drops its reference
    | PutIo(r: Rid)             // aio_complete, or the submitter giving up
    | GetExtra(r: Rid)          // cancellation or retry takes a reference ...
    | PutExtra(r: Rid)          // ... and drops it
    | Destroy(t: Tid)           // io_destroy marks the context dead
    | Unlist(t: Tid)            // ... and drops the list's reference
    | Killed(t: Tid)            // kill_ctx has seen no active request
    | Exit(t: Tid)              // exit_aio, when no thread is left
    | PutContext(t: Tid)        // put_ioctx

  /** After `ioctx_alloc`: one reference for the list, one for the creating thread. */
  function Init(creator: Tid): Context {
    Context(2, false, 0, true, map[creator := Using], map[])
  }

  ghost predicate OwnsNothing(c: Context, t: Tid) {
    forall r :: r in c.reqs && c.reqs[r].owner == t ==> c.reqs[r].stage == Started && !c.reqs[r].sub
  }

  predicate In(threads: map<Tid, Phase>, t: Tid, p: Phase) { t in threads && threads[t] == p }

  predicate Owns(c: Context, t: Tid, r: Rid, st: Stage) {
    In(c.threads, t, Using) && r in c.reqs && c.reqs[r].owner == t && c.reqs[r].stage == st
  }

  ghost predicate Enabled(c: Context, a: Action) {
    match a
    case Lookup(t) => c.users > 0 && t !in c.threads && !exists x :: x in c.threads && c.threads[x] == Exiting
    case Allocate(t, r) => In(c.threads, t, Using) && r !in c.reqs
    case Unbatch(t, r) => Owns(c, t, r, Batched)
    case TakeOut(t, r) => Owns(c, t, r, Batched)
    case Start(t, r) => Owns(c, t, r, Taken) && !c.dead && c.reqs[r].io && c.reqs[r].sub
    case PutSub(t, r) => (Owns(c, t, r, Taken) || Owns(c, t, r, Started)) && c.reqs[r].sub
    case PutIo(r) => r in c.reqs && c.reqs[r].io && c.reqs[r].stage != Batched
    case GetExtra(r) => r in c.reqs && c.reqs[r].stage == Started
    case PutExtra(r) => r in c.reqs && c.reqs[r].extra > 0
    case Destroy(t) => In(c.threads, t, Using) && OwnsNothing(c, t)
    case Unlist(t) => t in c.threads && c.threads[t].Destroying?
    case Killed(t) => (In(c.threads, t, Killing) || In(c.threads, t, Exiting)) && c.active == 0
    case Exit(t) => c.threads == map[] && c.listed
    case PutContext(t) => In(c.threads, t, Using) && OwnsNothing(c, t)
  }

  /** `__aio_put_req`: the last reference frees the request. */
  function Put(c: Context, r: Rid, q: Request): Context {
    if q.users == 0 then c.(reqs := c.reqs - {r}, active := c.active - 1)
    else c.(reqs := c.reqs[r := q])
  }

  function Step(c: Context, a: Action): Context
    requires Enabled(c, a)
  {
    match a
    case Lookup(t) => c.(users := c.users + 1, threads := c.threads[t := Using])
    case Allocate(t, r) => c.(reqs := c.reqs[r := Request(2, Batched, t, true, true, 0)], active := c.active + 1)
    case Unbatch(t, r) => c.(reqs := c.reqs - {r}, active := c.active - 1)
    case TakeOut(t, r) => c.(reqs := c.reqs[r := c.reqs[r].(stage := Taken)])
    case Start(t, r) => c.(reqs := c.reqs[r := c.reqs[r].(stage := Started)])
    case PutSub(t, r) => Put(c, r, c.reqs[r].(users := c.reqs[r].users - 1, sub := false))
    case PutIo(r) => Put(c, r, c.reqs[r].(users := c.reqs[r].users - 1, io := false))
    case GetExtra(r) => c.(reqs := c.reqs[r := c.reqs[r].(users := c.reqs[r].users + 1, extra := c.reqs[r].extra + 1)])
    case PutExtra(r) => Put(c, r, c.reqs[r].(users := c.reqs[r].users - 1, extra := c.reqs[r].extra - 1))
    case Destroy(t) => c.(dead := true, threads := c.threads[t := Destroying(c.dead)])
    case Unlist(t) =>
      var c' := c.(threads := c.threads[t := Killing]);
      if c.threads[t].wasDead then c' else c'.(users := c.users - 1, listed := false)
    case Killed(t) => c.(dead := true, threads := c.threads[t := Using])
    case Exit(t) => c.(dead := true, listed := false, threads := map[t := Exiting])
    case PutContext(t) => c.(users := c.users - 1, threads := c.threads - {t})
  }

  ghost predicate Tearing(threads: map<Tid, Phase>) { exists t :: t in threads && threads[t] != Using }

  /** References to the context are exactly accounted for, and the list's reference goes when
      the one thread that found the context alive has marked it dead. */
  ghost predicate ThreadsInv(users: int, dead: bool, listed: bool, threads: map<Tid, Phase>) {
    && users == |threads| + (if listed then 1 else 0)
    && (!dead ==> listed && !Tearing(threads))
    && (listed && dead ==> exists t :: In(threads, t, Destroying(false)))
    && (forall t :: In(threads, t, Destroying(false)) ==> listed && dead)
    && (forall t, u :: In(threads, t, Destroying(false)) && In(threads, u, Destroying(false)) ==> t == u)
  }

  ghost predicate RequestOk(q: Request) {
    && q.users == (if q.io then 1 else 0) + (if q.sub then 1 else 0) + q.extra > 0
    && (q.stage == Batched ==> q.io && q.sub && q.extra == 0)
    && (q.stage == Taken ==> q.extra == 0)
  }

  /** A request that has not been started, or whose submitter is not done with it, belongs to a
      thread that still uses the context; and while a started request is left, either the
      context is alive or some thread waits for its requests to end. */
  ghost predicate RequestsInv(active: int, dead: bool, threads: map<Tid, Phase>, reqs: map<Rid, Request>) {
    && active == |reqs|
    && (forall r :: r in reqs ==> RequestOk(reqs[r]))
    && (forall r :: r in reqs && (reqs[r].stage != Started || reqs[r].sub) ==> In(threads, reqs[r].owner, Using))
    && (forall r :: r in reqs && reqs[r].stage == Started ==> !dead || Tearing(threads))
  }

  ghost predicate Inv(c: Context) {
    ThreadsInv(c.users, c.dead, c.listed, c.threads) && RequestsInv(c.active, c.dead, c.threads, c.reqs)
  }

  lemma SizeAfterUpdate<K, V>(m: map<K, V>, k: K, v: V)
    ensures |m[k := v]| == |m| + (if k in m then 0 else 1)
    ensures |m - {k}| == |m| - (if k in m then 1 else 0)
  {
    assert m[k := v].Keys == m.Keys + {k};
    assert (m - {k}).Keys == m.Keys - {k};
  }

  // ---- The threads ----

  lemma JoinThread(users: int, dead: bool, listed: bool, threads: map<Tid, Phase>, t: Tid)
    requires ThreadsInv(users, dead, listed, threads) && t !in threads
    ensures ThreadsInv(users + 1, dead, listed, threads[t := Using])
    ensures Tearing(threads[t := Using]) == Tearing(threads)
  {
    var next := threads[t := Using];
    SizeAfterUpdate(threads, t, Using);
    SameElsewhere(threads, next, t);
  }

  lemma LeaveThread(users: int, dead: bool, listed: bool, threads: map<Tid, Phase>, t: Tid)
    requires ThreadsInv(users, dead, listed, threads) && In(threads, t, Using)
    ensures ThreadsInv(users - 1, dead, listed, threads - {t})
    ensures Tearing(threads - {t}) == Tearing(threads)
  {
    var next := threads - {t};
    SizeAfterUpdate(threads, t, Using);
    SameElsewhere(threads, next, t);
  }

  lemma MarkDead(users: int, dead: bool, listed: bool, threads: map<Tid, Phase>, t: Tid)
    requires ThreadsInv(users, dead, listed, threads) && In(threads, t, Using)
    ensures ThreadsInv(users, true, listed, threads[t := Destroying(dead)])
    ensures Tearing(threads[t := Destroying(dead)])
  {
    var next := threads[t := Destroying(dead)];
    SizeAfterUpdate(threads, t, Destroying(dead));
    SameElsewhere(threads, next, t);
    assert In(next, t, Destroying(dead));
  }

  lemma DropListRef(users: int, dead: bool, listed: bool, threads: map<Tid, Phase>, t: Tid, wasDead: bool)
    requires ThreadsInv(users, dead, listed, threads) && In(threads, t, Destroying(wasDead))
    ensures dead && Tearing(threads[t := Killing])
    ensures if wasDead then ThreadsInv(users, dead, listed, threads[t := Killing])
            else ThreadsInv(users - 1, dead, false, threads[t := Killing])
  {
    var next := threads[t := Killing];
    SizeAfterUpdate(threads, t, Killing);
    SameElsewhere(threads, next, t);
    assert next[t] != Using && threads[t] != Using;
  }

  lemma StopKilling(users: int, dead: bool, listed: bool, threads: map<Tid, Phase>, t: Tid)
    requires ThreadsInv(users, dead, listed, threads) && (In(threads, t, Killing) || In(threads, t, Exiting))
    ensures dead && ThreadsInv(users, true, listed, threads[t := Using])
  {
    var next := threads[t := Using];
    SizeAfterUpdate(threads, t, Using);
    SameElsewhere(threads, next, t);
    assert threads[t] != Using;
  }

  /** Two thread tables that differ at most at `t`. */
  lemma SameElsewhere(threads: map<Tid, Phase>, next: map<Tid, Phase>, t: Tid)
    requires forall u :: u != t ==> (u in threads <==> u in next) && (u in threads ==> next[u] == threads[u])
    ensures forall u, p :: u != t ==> In(threads, u, p) == In(next, u, p)
  {
  }

  // ---- The requests ----

  lemma ChangeRequest(active: int, dead: bool, threads: map<Tid, Phase>, reqs: map<Rid, Request>, r: Rid, q: Request)
    requires RequestsInv(active, dead, threads, reqs)
    requires RequestOk(q) && (q.stage != Started || q.sub ==> In(threads, q.owner, Using))
    requires q.stage == Started ==> !dead || Tearing(threads)
    ensures RequestsInv(active + (if r in reqs then 0 else 1), dead, threads, reqs[r := q])
  {
    SizeAfterUpdate(reqs, r, q);
  }

  lemma RemoveRequest(active: int, dead: bool, threads: map<Tid, Phase>, reqs: map<Rid, Request>, r: Rid)
    requires RequestsInv(active, dead, threads, reqs) && r in reqs
    ensures RequestsInv(active - 1, dead, threads, reqs - {r})
  {
    SizeAfterUpdate(reqs, r, reqs[r]);
  }

  lemma PutKeepsInv(c: Context, r: Rid, q: Request)
    requires Inv(c) && r in c.reqs && (q.users > 0 ==> RequestOk(q)) && q.users >= 0
    requires q.stage == c.reqs[r].stage && q.owner == c.reqs[r].owner && (q.sub ==> c.reqs[r].sub)
    ensures Inv(Put(c, r, q))
  {
    if q.users == 0 { RemoveRequest(c.active, c.dead, c.threads, c.reqs, r); }
    else { ChangeRequest(c.active, c.dead, c.threads, c.reqs, r, q); }
  }

  /** Changing the threads keeps the requests in order as long as threads that own requests go
      on using the context and somebody goes on waiting. */
  lemma RequestsKept(active: int, dead: bool, threads: map<Tid, Phase>, reqs: map<Rid, Request>, dead': bool,
      next: map<Tid, Phase>)
    requires RequestsInv(active, dead, threads, reqs)
    requires forall r :: r in reqs && (reqs[r].stage != Started || reqs[r].sub) ==> In(next, reqs[r].owner, Using)
    requires Tearing(next) || (dead' == dead && Tearing(threads) == Tearing(next)) || reqs == map[]
    ensures RequestsInv(active, dead', next, reqs)
  {
  }

  lemma LookupKeepsInv(c: Context, t: Tid)
    requires Inv(c) && Enabled(c, Lookup(t))
    ensures Inv(Step(c, Lookup(t)))
  {
    JoinThread(c.users, c.dead, c.listed, c.threads, t);
    RequestsKept(c.active, c.dead, c.threads, c.reqs, c.dead, c.threads[t := Using]);
  }

  lemma DestroyKeepsInv(c: Context, t: Tid)
    requires Inv(c) && Enabled(c, Destroy(t))
    ensures Inv(Step(c, Destroy(t)))
  {
    MarkDead(c.users, c.dead, c.listed, c.threads, t);
    RequestsKept(c.active, c.dead, c.threads, c.reqs, true, c.threads[t := Destroying(c.dead)]);
  }

  lemma UnlistKeepsInv(c: Context, t: Tid)
    requires Inv(c) && Enabled(c, Unlist(t))
    ensures Inv(Step(c, Unlist(t)))
  {
    DropListRef(c.users, c.dead, c.listed, c.threads, t, c.threads[t].wasDead);
    RequestsKept(c.active, c.dead, c.threads, c.reqs, c.dead, c.threads[t := Killing]);
  }

  lemma PutContextKeepsInv(c: Context, t: Tid)
    requires Inv(c) && Enabled(c, PutContext(t))
    ensures Inv(Step(c, PutContext(t)))
  {
    LeaveThread(c.users, c.dead, c.listed, c.threads, t);
    RequestsKept(c.active, c.dead, c.threads, c.reqs, c.dead, c.threads - {t});
  }

  lemma EndKeepsInv(c: Context, a: Action)
    requires Inv(c) && Enabled(c, a) && (a.Killed? || a.Exit?)
    ensures Inv(Step(c, a))
  {
    var c' := Step(c, a);
    match a
    case Killed(t) =>
      StopKilling(c.users, c.dead, c.listed, c.threads, t);
      assert c.reqs == map[];
    case Exit(t) =>
      assert c'.threads[t] != Using && !c'.listed;
    RequestsKept(c.active, c.dead, c.threads, c.reqs, c'.dead, c'.threads);
  }

  lemma SubmitStepKeepsInv(c: Context, a: Action)
    requires Inv(c) && Enabled(c, a) && (a.Allocate? || a.Unbatch? || a.TakeOut? || a.Start?)
    ensures Inv(Step(c, a))
  {
    match a
    case Allocate(t, r) => ChangeRequest(c.active, c.dead, c.threads, c.reqs, r, Request(2, Batched, t, true, true, 0));
    case Unbatch(t, r) => RemoveRequest(c.active, c.dead, c.threads, c.reqs, r);
    case TakeOut(t, r) => ChangeRequest(c.active, c.dead, c.threads, c.reqs, r, c.reqs[r].(stage := Taken));
    case Start(t, r) => ChangeRequest(c.active, c.dead, c.threads, c.reqs, r, c.reqs[r].(stage := Started));
  }

  lemma PutSubKeepsInv(c: Context, t: Tid, r: Rid)
    requires Inv(c) && Enabled(c, PutSub(t, r))
    ensures Inv(Step(c, PutSub(t, r)))
  {
    var q := c.reqs[r];
    assert RequestOk(q);
    PutKeepsInv(c, r, q.(users := q.users - 1, sub := false));
  }

  lemma PutIoKeepsInv(c: Context, r: Rid)
    requires Inv(c) && Enabled(c, PutIo(r))
    ensures Inv(Step(c, PutIo(r)))
  {
    var q := c.reqs[r];
    assert RequestOk(q);
    PutKeepsInv(c, r, q.(users := q.users - 1, io := false));
  }

  lemma GetExtraKeepsInv(c: Context, r: Rid)
    requires Inv(c) && Enabled(c, GetExtra(r))
    ensures Inv(Step(c, GetExtra(r)))
  {
    var q := c.reqs[r];
    assert RequestOk(q);
    ChangeRequest(c.active, c.dead, c.threads, c.reqs, r, q.(users := q.users + 1, extra := q.extra + 1));
  }

  lemma PutExtraKeepsInv(c: Context, r: Rid)
    requires Inv(c) && Enabled(c, PutExtra(r))
    ensures Inv(Step(c, PutExtra(r)))
  {
    var q := c.reqs[r];
    assert RequestOk(q);
    PutKeepsInv(c, r, q.(users := q.users - 1, extra := q.extra - 1));
  }

  lemma StepKeepsInv(c: Context, a: Action)
    requires Inv(c) && Enabled(c, a)
    ensures Inv(Step(c, a))
  {
    match a
    case Lookup(t) => LookupKeepsInv(c, t);
    case Destroy(t) => DestroyKeepsInv(c, t);
    case Unlist(t) => UnlistKeepsInv(c, t);
    case PutContext(t) => PutContextKeepsInv(c, t);
    case Killed(_) => EndKeepsInv(c, a);
    case Exit(_) => EndKeepsInv(c, a);
    case PutSub(t, r) => PutSubKeepsInv(c, t, r);
    case PutIo(r) => PutIoKeepsInv(c, r);
    case GetExtra(r) => GetExtraKeepsInv(c, r);
    case PutExtra(r) => PutExtraKeepsInv(c, r);
    case _ => SubmitStepKeepsInv(c, a);
  }

  ghost predicate IsRun(states: seq<Context>, acts: seq<Action>, creator: Tid) {
    && |states| == |acts| + 1 && states[0] == Init(creator)
    && forall i {:trigger acts[i]} :: 0 <= i < |acts| ==> Takes(states[i], acts[i], states[i + 1])
  }

  ghost predicate Takes(c: Context, a: Action, d: Context) { Enabled(c, a) && d == Step(c, a) }

  lemma {:induction false} RunKeepsInv(states: seq<Context>, acts: seq<Action>, creator: Tid, i: nat)
    requires IsRun(states, acts, creator) && i < |states|
    ensures Inv(states[i])
  {
    if i > 0 {
      RunKeepsInv(states, acts, creator, i - 1);
      StepKeepsInv(states[i - 1], acts[i - 1]);
    }
  }

  lemma ThreadIsReference(c: Context, t: Tid)
    requires Inv(c) && t in c.threads
    ensures c.users > 0
  {
    assert c.threads != map[];
  }

  lemma RequestIsReference(c: Context, r: Rid)
    requires Inv(c) && r in c.reqs
    ensures c.users > 0 && c.reqs[r].users > 0
  {
    var q := c.reqs[r];
    assert RequestOk(q);
    if q.stage != Started {
      ThreadIsReference(c, q.owner);
    } else if Tearing(c.threads) {
      var t :| t in c.threads && c.threads[t] != Using;
      ThreadIsReference(c, t);
    }
  }

  lemma ActionFindsContext(c: Context, a: Action)
    requires Inv(c) && Enabled(c, a)
    ensures c.users > 0
  {
    match a
    case Lookup(_) =>
    case Exit(_) =>
    case PutIo(r) => RequestIsReference(c, r);
    case GetExtra(r) => RequestIsReference(c, r);
    case PutExtra(r) => RequestIsReference(c, r);
    case _ => ThreadIsReference(c, a.t);
  }

  lemma FreedHasNoRequest(c: Context)
    requires Inv(c) && c.users == 0
    ensures c.active == 0 && c.reqs == map[]
  {
    forall r ensures r !in c.reqs {
      if r in c.reqs { RequestIsReference(c, r); }
    }
  }

  /** In every run, each action finds the context and the requests it works on still there, and the
      put that drops the last reference to the context finds no active request: neither the check
      in `__put_ioctx` nor those for negative reference counts ever fire. */
  lemma LastPutFindsNoRequest(states: seq<Context>, acts: seq<Action>, creator: Tid, i: nat)
    requires IsRun(states, acts, creator) && i < |acts|
    ensures states[i].users > 0 && forall r :: r in states[i].reqs ==> states[i].reqs[r].users > 0
    ensures states[i + 1].users == 0 ==> states[i + 1].active == 0 && states[i + 1].reqs == map[]
  {
    RunKeepsInv(states, acts, creator, i);
    RunKeepsInv(states, acts, creator, i + 1);
    ActionFindsContext(states[i], acts[i]);
    if states[i + 1].users == 0 { FreedHasNoRequest(states[i + 1]); }
  }

  // ---- Every context can be torn down ----

  ghost predicate Legal(c: Context, acts: seq<Action>)
    decreases |acts|
  {
    acts == [] || (Enabled(c, acts[0]) && Legal(Step(c, acts[0]), acts[1..]))
  }

  ghost function Run(c: Context, acts: seq<Action>): Context
    requires Legal(c, acts)
    decreases |acts|
  {
    if acts == [] then c else Run(Step(c, acts[0]), acts[1..])
  }

  /** Some sequence of actions ends with the last reference to the context dropped and no request left. */
  ghost predicate CanFree(c: Context) {
    exists acts :: Legal(c, acts) && Run(c, acts).users == 0 && Run(c, acts).reqs == map[]
  }

  /** One more action in front. */
  lemma FreeAfter(c: Context, a: Action)
    requires Enabled(c, a) && CanFree(Step(c, a))
    ensures CanFree(c)
  {
    var rest :| Legal(Step(c, a), rest) && Run(Step(c, a), rest).users == 0 && Run(Step(c, a), rest).reqs == map[];
    var acts := [a] + rest;
    assert acts[0] == a && acts[1..] == rest;
    assert Legal(c, acts) && Run(c, acts) == Run(Step(c, a), rest);
  }

  /** The action that drops a reference to the request. */
  function Dropping(c: Context, r: Rid): Action
    requires r in c.reqs
  {
    var q := c.reqs[r];
    if q.stage == Batched then Unbatch(q.owner, r)
    else if q.io then PutIo(r) else if q.sub then PutSub(q.owner, r) else PutExtra(r)
  }

  /** It can be taken, and leaves the request with one reference less, or gone. */
  lemma DroppingDrops(c: Context, r: Rid)
    requires Inv(c) && r in c.reqs
    ensures Enabled(c, Dropping(c, r)) && Inv(Step(c, Dropping(c, r)))
    ensures var d := Step(c, Dropping(c, r));
            if r in d.reqs then d.reqs.Keys == c.reqs.Keys && d.reqs[r].users < c.reqs[r].users
            else d.reqs == c.reqs - {r}
  {
    assert RequestOk(c.reqs[r]);
    StepKeepsInv(c, Dropping(c, r));
  }

  /** The requests end, whatever stage they are in. */
  lemma {:induction false} RequestsEnd(c: Context, r: Rid)
    requires Inv(c) && r in c.reqs
    ensures CanFree(c)
    decreases |c.reqs|, c.reqs[r].users
  {
    DroppingDrops(c, r);
    var a := Dropping(c, r);
    var d := Step(c, a);
    assert RequestOk(c.reqs[r]);
    SizeAfterUpdate(c.reqs, r, c.reqs[r]);
    assert |d.reqs| == |d.reqs.Keys| && |c.reqs| == |c.reqs.Keys|;
    if r in d.reqs {
      RequestsEnd(d, r);
    } else if x :| x in d.reqs {
      RequestsEnd(d, x);
    } else {
      ThreadsEnd(d);
    }
    FreeAfter(c, a);
  }

  /** What a thread does next on its way out, once there are no requests to wait for. */
  function Leaving(t: Tid, p: Phase): Action {
    match p
    case Using => PutContext(t)
    case Destroying(_) => Unlist(t)
    case Killing => Killed(t)
    case Exiting => Killed(t)
  }

  /** How many actions that takes it. */
  function Left(p: Phase): nat {
    match p case Using => 1 case Killing => 2 case Exiting => 2 case Destroying(_) => 3
  }

  /** The threads let go of the context, and then the process's list does. */
  lemma {:induction false} ThreadsEnd(c: Context)
    requires Inv(c) && c.reqs == map[]
    ensures CanFree(c)
    decreases if c.listed then 1 else 0, |c.threads|, 4
  {
    if t :| t in c.threads {
      ThreadEnds(c, t);
    } else if c.listed {
      var d := Step(c, Exit(0));
      StepKeepsInv(c, Exit(0));
      ThreadEnds(d, 0);
      FreeAfter(c, Exit(0));
    } else {
      assert c.threads == map[];
      assert Legal(c, []) && Run(c, []) == c;
    }
  }

  lemma {:induction false} ThreadEnds(c: Context, t: Tid)
    requires Inv(c) && c.reqs == map[] && t in c.threads
    ensures CanFree(c)
    decreases if c.listed then 1 else 0, |c.threads|, Left(c.threads[t])
  {
    var a := Leaving(t, c.threads[t]);
    StepKeepsInv(c, a);
    var d := Step(c, a);
    SizeAfterUpdate(c.threads, t, Using);
    SizeAfterUpdate(c.threads, t, Killing);
    if t in d.threads { ThreadEnds(d, t); } else { ThreadsEnd(d); }
    FreeAfter(c, a);
  }

  /** From every state of every run the context can be freed: whoever waits for its requests to end, and
      whoever still holds it, it takes only the completions and puts that are due. */
  lemma AlwaysCanFree(states: seq<Context>, acts: seq<Action>, creator: Tid, i: nat)
    requires IsRun(states, acts, creator) && i < |states|
    ensures CanFree(states[i])
  {
    RunKeepsInv(states, acts, creator, i);
    if r :| r in states[i].reqs { RequestsEnd(states[i], r); } else { ThreadsEnd(states[i]); }
  }

  // ---- Requests and threads, told from the actions ----

  /** What an action does to the number of references to request `r`. */
  function Change(a: Action, r: Rid): int {
    if a == GetExtra(r) then 1
    else if a == PutExtra(r) || a == PutIo(r) || (a.PutSub? && a.r == r) then -1
    else 0
  }

  /** The references to a request that two were taken for when it was allocated. */
  function Refs(acts: seq<Action>, r: Rid): int {
    if acts == [] then 2 else Refs(acts[..|acts| - 1], r) + Change(acts[|acts| - 1], r)
  }

  ghost predicate Has(acts: seq<Action>, a: Action) { a in acts }

  /** The request is there as long as there are references to it, with exactly these. */
  ghost predicate RefsTold(c: Context, r: Rid, acts: seq<Action>) {
    (r in c.reqs <==> Refs(acts, r) > 0) && Refs(acts, r) >= 0 && (r in c.reqs ==> c.reqs[r].users == Refs(acts, r))
  }

  /** It is at the stage to which its thread has taken it, and has those of its first two references that were
      not dropped. */
  ghost predicate StageTold(q: Request, t: Tid, r: Rid, acts: seq<Action>) {
    && q.owner == t
    && q.stage == (if Has(acts, Start(t, r)) then Started else if Has(acts, TakeOut(t, r)) then Taken else Batched)
    && (q.io <==> !Has(acts, PutIo(r))) && (q.sub <==> !Has(acts, PutSub(t, r)))
  }

  /** Request `r` after the actions since thread `t` allocated it. */
  ghost predicate Told(c: Context, t: Tid, r: Rid, acts: seq<Action>) {
    RefsTold(c, r, acts) && (r in c.reqs ==> StageTold(c.reqs[r], t, r, acts))
  }

  predicate Renews(a: Action, r: Rid) { (a.Allocate? || a.Unbatch?) && a.r == r }

  lemma RefsNext(c: Context, r: Rid, acts: seq<Action>, a: Action)
    requires Inv(c) && RefsTold(c, r, acts) && Enabled(c, a) && !Renews(a, r)
    ensures RefsTold(Step(c, a), r, acts + [a])
  {
    var next := acts + [a];
    assert next[..|next| - 1] == acts && next[|next| - 1] == a;
    if r in c.reqs { assert RequestOk(c.reqs[r]); }
  }

  lemma StageNext(c: Context, t: Tid, r: Rid, acts: seq<Action>, a: Action)
    requires Inv(c) && r in c.reqs && StageTold(c.reqs[r], t, r, acts) && Enabled(c, a) && !Renews(a, r)
    ensures r in Step(c, a).reqs ==> StageTold(Step(c, a).reqs[r], t, r, acts + [a])
  {
    assert forall x :: Has(acts + [a], x) <==> Has(acts, x) || x == a;
  }

  lemma ToldNext(c: Context, t: Tid, r: Rid, acts: seq<Action>, a: Action, d: Context)
    requires Inv(c) && Told(c, t, r, acts) && Takes(c, a, d) && !Renews(a, r)
    ensures Told(d, t, r, acts + [a])
  {
    RefsNext(c, r, acts, a);
    if r in c.reqs { StageNext(c, t, r, acts, a); }
  }

  lemma ThreadNext(c: Context, a: Action, d: Context, t: Tid)
    requires t in c.threads && Takes(c, a, d) && a != PutContext(t)
    ensures t in d.threads
  {
  }

  /** In every run, a request is there exactly as long as there are references to it: neither is it freed under
      somebody who holds one, nor does it outlive the last. */
  lemma {:induction false} RequestIsTold(states: seq<Context>, acts: seq<Action>, creator: Tid, i: nat, j: nat, t: Tid,
      r: Rid)
    requires IsRun(states, acts, creator) && i < j < |states| && acts[i] == Allocate(t, r)
    requires forall k :: i < k < j ==> !Renews(acts[k], r)
    ensures Told(states[j], t, r, acts[i + 1..j])
    decreases j
  {
    if j == i + 1 {
      assert acts[i + 1..j] == [];
    } else {
      RequestIsTold(states, acts, creator, i, j - 1, t, r);
      RunKeepsInv(states, acts, creator, j - 1);
      ToldNext(states[j - 1], t, r, acts[i + 1..j - 1], acts[j - 1], states[j]);
      assert acts[i + 1..j] == acts[i + 1..j - 1] + [acts[j - 1]];
    }
  }

  /** A thread that has looked the context up has it until it puts it. */
  lemma {:induction false} ThreadKeepsContext(states: seq<Context>, acts: seq<Action>, creator: Tid, i: nat, j: nat,
      t: Tid)
    requires IsRun(states, acts, creator) && i < j < |states| && (acts[i] == Lookup(t) || acts[i] == Exit(t))
    requires forall k :: i < k < j ==> acts[k] != PutContext(t)
    ensures t in states[j].threads && states[j].users > 0
    decreases j
  {
    RunKeepsInv(states, acts, creator, j);
    if j > i + 1 {
      ThreadKeepsContext(states, acts, creator, i, j - 1, t);
      ThreadNext(states[j - 1], acts[j - 1], states[j], t);
    }
    ThreadIsReference(states[j], t);
  }

  /** Once a thread has begun to destroy the context, or the process exits, no request is started any more. */
  lemma {:induction false} NothingStartsAfterwards(
    states: seq<Context>, acts: seq<Action>, creator: Tid, i: nat, j: nat)
    requires IsRun(states, acts, creator) && i < j < |states| && (acts[i].Destroy? || acts[i].Exit?)
    ensures states[j].dead && (j < |acts| ==> !acts[j].Start?)
    decreases j
  {
    if j > i + 1 { NothingStartsAfterwards(states, acts, creator, i, j - 1); }
    DeadStays(states[j - 1], acts[j - 1], states[j]);
    if j < |acts| { assert Takes(states[j], acts[j], states[j + 1]); }
  }

  lemma DeadStays(c: Context, a: Action, d: Context)
    requires Takes(c, a, d) && (c.dead || a.Destroy? || a.Exit?)
    ensures d.dead
  {
  }
}
