/** The per-CPU cache of recently used buffer heads. */
module BufferLru {
  import opened Lists

  const SIZE := 8

  /** A buffer head; 0 is the null pointer. */
  type Bh = int

  function Zeros(n: nat): seq<Bh> { seq(n, _ => 0) }

  /** A list of buffers in an array of eight slots. */
  function Pad(s: seq<Bh>): seq<Bh>
    requires |s| <= SIZE
  {
    s + Zeros(SIZE - |s|)
  }

  function Take(s: seq<Bh>, n: nat): seq<Bh> { if |s| <= n then s else s[..n] }

  /** Using a buffer: it moves to the front, and the list keeps its eight most recent. */
  function Touch(s: seq<Bh>, b: Bh): seq<Bh> { Take([b] + Without(s, b), SIZE) }

  // ---- Lists ----

  /** Null slots do not matter. */
  lemma WithoutPadded(order: seq<Bh>, b: Bh)
    requires |order| <= SIZE && b != 0
    ensures Without(Pad(order), b) == Without(order, b) + Zeros(SIZE - |order|)
    ensures b in Pad(order) <==> b in order
  {
    var zeros := Zeros(SIZE - |order|);
    WithoutAppend(order, zeros, b);
    WithoutSpec(zeros, b);
    assert forall x :: x in order + zeros <==> x in order || x in zeros;
  }

  /** The eight slots without `b`, behind `b`: what they hold after `b` was used. */
  lemma ShuffleHit(order: seq<Bh>, b: Bh)
    requires NoDup(order) && |order| <= SIZE && 0 !in order && b != 0 && b in order
    ensures var rest := Without(Pad(order), b);
            |rest| == SIZE - 1 && [b] + rest == Pad(Touch(order, b))
  {
    WithoutPadded(order, b);
    var i :| 0 <= i < |order| && order[i] == b;
    WithoutAt(order, i);
    var rest, zeros := Without(order, b), Zeros(SIZE - |order|);
    assert |rest| == |order| - 1 && Touch(order, b) == [b] + rest;
    assert [b] + (rest + zeros) == [b] + rest + zeros;
  }

  lemma ShuffleMiss(order: seq<Bh>, b: Bh)
    requires NoDup(order) && |order| <= SIZE && 0 !in order && b != 0 && b !in order
    ensures Without(Pad(order), b) == Pad(order)
    ensures [b] + Pad(order)[..SIZE - 1] == Pad(Touch(order, b))
  {
    WithoutPadded(order, b);
    WithoutSpec(order, b);
    if |order| == SIZE {
      assert Touch(order, b) == [b] + order[..SIZE - 1];
    } else {
      assert Touch(order, b) == [b] + order;
      assert Pad(order)[..SIZE - 1] == order + Zeros(SIZE - 1 - |order|);
    }
  }

  lemma Shuffled(order: seq<Bh>, b: Bh)
    requires NoDup(order) && |order| <= SIZE && 0 !in order && b != 0
    ensures var rest := Without(Pad(order), b);
            && |rest| == (if b in order then SIZE - 1 else SIZE)
            && ([b] + rest)[..SIZE] == Pad(Touch(order, b))
            && (b !in order ==> rest[SIZE - 1] == if |order| == SIZE then order[SIZE - 1] else 0)
            && (b in Pad(order) <==> b in order)
  {
    WithoutPadded(order, b);
    if b in order {
      ShuffleHit(order, b);
    } else {
      ShuffleMiss(order, b);
      assert ([b] + Pad(order))[..SIZE] == [b] + Pad(order)[..SIZE - 1];
    }
  }

  /** Using a buffer that is on the list only moves it. */
  lemma TouchPresent(s: seq<Bh>, b: Bh)
    requires NoDup(s) && |s| <= SIZE && b in s
    ensures Touch(s, b) == [b] + Without(s, b) && |Touch(s, b)| == |s|
  {
    var i :| 0 <= i < |s| && s[i] == b;
    WithoutAt(s, i);
  }

  /** Using another one drops the last buffer of a full list. */
  lemma TouchAbsent(s: seq<Bh>, b: Bh)
    requires |s| <= SIZE && b !in s
    ensures Touch(s, b) == [b] + Take(s, SIZE - 1)
  {
    WithoutSpec(s, b);
  }

  lemma InFront(s: seq<Bh>, b: Bh)
    requires NoDup(s) && b !in s
    ensures NoDup([b] + s) && forall x :: x in [b] + s <==> x == b || x in s
  {
  }

  lemma TouchSpec(s: seq<Bh>, b: Bh)
    requires NoDup(s) && |s| <= SIZE && 0 !in s && b != 0
    ensures var t := Touch(s, b);
            && NoDup(t) && |t| <= SIZE && 0 !in t && b in t && t[0] == b
            && (forall x :: x in t ==> x == b || x in s)
            && (forall x :: x in s && x !in t ==> b !in s && |s| == SIZE && x == s[SIZE - 1])
            && (b !in s && |s| == SIZE ==> s[SIZE - 1] !in t)
  {
    if b in s {
      TouchPresent(s, b);
      WithoutSpec(s, b);
      InFront(Without(s, b), b);
    } else {
      TouchAbsent(s, b);
      InFront(Take(s, SIZE - 1), b);
    }
  }

  /** Moving a slot to the front is using its buffer. */
  lemma TouchSlot(s: seq<Bh>, i: nat)
    requires NoDup(s) && i < |s| <= SIZE
    ensures |Touch(s, s[i])| == |s|
    ensures Pad(Touch(s, s[i])) == [s[i]] + Pad(s)[..i] + Pad(s)[i + 1..]
  {
    TouchPresent(s, s[i]);
    WithoutAt(s, i);
  }

  // ---- Reference counts ----

  function Count(count: map<Bh, int>, b: Bh): int { if b in count then count[b] else 0 }

  function Add(count: map<Bh, int>, b: Bh, n: int): map<Bh, int> { count[b := Count(count, b) + n] }

  class Counts {
    var count: map<Bh, int>
  }

  function Holds(s: seq<Bh>, b: Bh): int { if b in s then 1 else 0 }

  /** One CPU's cache.  `order` is the list the slots hold, most recent first. */
  class Lru {
    const bhs: array<Bh>
    ghost var order: seq<Bh>

    ghost predicate Valid()
      reads this, bhs
    {
      && bhs.Length == SIZE && |order| <= SIZE && NoDup(order) && 0 !in order
      && bhs[..] == Pad(order)
    }

    constructor ()
      ensures Valid() && order == [] && fresh(bhs)
    {
      bhs := new Bh[SIZE](_ => 0);
      order := [];
      new;
      assert bhs[..] == Zeros(SIZE);
    }

    /** The cache gained and lost references exactly as it gained and lost buffers; `extra` is a
        reference handed to the caller. */
    twostate predicate Balanced(refs: Counts, extra: Bh)
      reads this, refs
    {
      forall b :: b != 0 ==>
        Count(refs.count, b)
            == Count(old(refs.count), b) + Holds(order, b) - Holds(old(order), b) + (if b == extra then 1 else 0)
    }

    /** The loop of `bh_lru_install`: `b`, then the old slots without it; what does not fit any
        more is the one buffer to evict. */
    method Rebuild(b: Bh) returns (next: array<Bh>, evictee: Bh, found: bool)
      requires bhs.Length == SIZE && |Without(bhs[..], b)| >= SIZE - 1
      ensures var rest := Without(bhs[..], b);
              && fresh(next) && next.Length == SIZE && next[..] == ([b] + rest)[..SIZE]
              && evictee == (if |rest| == SIZE then rest[SIZE - 1] else 0)
              && found == (b in bhs[..])
    {
      next := new Bh[SIZE];
      evictee, found := 0, false;
      next[0] := b;
      var out := 1;
      ghost var was, rest := bhs[..], [];
      for i := 0 to SIZE
        invariant rest == Without(was[..i], b) && |rest| <= i && bhs[..] == was
        invariant out == (if |rest| == SIZE then SIZE else 1 + |rest|) && next[..out] == ([b] + rest)[..out]
        invariant evictee == if |rest| == SIZE then rest[SIZE - 1] else 0
        invariant found == (b in was[..i])
      {
        var bh2 := bhs[i];
        assert was[..i + 1] == was[..i] + [bh2];
        WithoutAppend(was[..i], [bh2], b);
        if bh2 == b {
          found := true;
        } else {
          if out >= SIZE {
            assert evictee == 0;
            evictee := bh2;
          } else {
            next[out] := bh2;
            out := out + 1;
          }
          rest := rest + [bh2];
        }
      }
      assert was[..SIZE] == was && next[..] == next[..SIZE];
    }

    /** `bh_lru_install`: the buffer becomes the most recent one, at most one is evicted, and the
        cache holds one reference per buffer in it. */
    method Install(b: Bh, refs: Counts)
      requires Valid() && b != 0
      modifies this`order, bhs, refs
      ensures Valid() && order == Touch(old(order), b) && Balanced(refs, 0)
    {
      TouchSpec(order, b);
      if bhs[0] == b {
        WithoutAt(order, 0);
        assert order == [b] + order[1..];
        return;
      }
      Shuffled(order, b);
      var next, evictee, found := Rebuild(b);
      Store(next);
      Account(b, found, evictee, refs);
      order := Touch(order, b);
    }

    /** References: one more for `b`, one less for the slot it had before, and the evicted one's. */
    method Account(b: Bh, found: bool, evictee: Bh, refs: Counts)
      requires b != evictee
      modifies refs
      ensures forall x :: x != 0 ==>
        Count(refs.count, x)
            == Count(old(refs.count), x) + (if x == b && !found then 1 else 0) - (if x == evictee then 1 else 0)
    {
      refs.count := Add(refs.count, b, 1);
      if found { refs.count := Add(refs.count, b, -1); }
      if evictee != 0 { refs.count := Add(refs.count, evictee, -1); }
    }

    method Store(next: array<Bh>)
      requires next.Length == bhs.Length && next != bhs
      modifies bhs
      ensures bhs[..] == next[..]
    {
      for i := 0 to bhs.Length
        invariant bhs[..i] == next[..i] && next[..] == old(next[..])
      {
        bhs[i] := next[i];
      }
    }

    /** The first slot whose buffer fits, `SIZE` if there is none. */
    method Search(fits: Bh -> bool) returns (i: nat)
      requires Valid()
      ensures forall j :: 0 <= j < i && j < |order| ==> !fits(order[j])
      ensures i == SIZE || (i < |order| && fits(order[i]) && bhs[i] == order[i])
    {
      i := 0;
      while i < SIZE
        invariant i <= SIZE
        invariant forall j :: 0 <= j < i && j < |order| ==> !fits(order[j])
      {
        if bhs[i] != 0 && fits(bhs[i]) { return; }
        i := i + 1;
      }
    }

    /** `lookup_bh_lru`: find the first buffer that fits, move it to the front and take a
        reference for the caller. */
    method LookupBh(fits: Bh -> bool, refs: Counts) returns (b: Bh)
      requires Valid()
      modifies this`order, bhs, refs
      ensures Valid() && Balanced(refs, b)
      ensures b == 0 ==> order == old(order) && forall x :: x in order ==> !fits(x)
      ensures b != 0 ==> b in old(order) && fits(b) && order == Touch(old(order), b)
      ensures b != 0 ==> exists i :: 0 <= i < |old(order)| && old(order)[i] == b && forall j :: 0 <= j < i ==>
              !fits(old(order)[j])
    {
      var i := Search(fits);
      if i == SIZE { return 0; }
      b := bhs[i];
      TouchSlot(order, i);
      TouchSpec(order, b);
      ToFront(i);
      refs.count := Add(refs.count, b, 1);
      order := Touch(order, b);
    }

    /** Shift the first `i` slots up by one and put slot `i` in front. */
    method ToFront(i: nat)
      requires i < bhs.Length
      modifies bhs
      ensures bhs[..] == [old(bhs[i])] + old(bhs[..i]) + old(bhs[i + 1..])
    {
      var b, k := bhs[i], i;
      while k > 0
        invariant 0 <= k <= i
        invariant forall j :: 0 <= j < bhs.Length ==> bhs[j] == if k < j <= i then old(bhs[j - 1]) else old(bhs[j])
      {
        bhs[k] := bhs[k - 1];
        k := k - 1;
      }
      bhs[0] := b;
    }

    /** `invalidate_bh_lru`. */
    method Invalidate(refs: Counts)
      requires Valid()
      modifies this`order, bhs, refs
      ensures Valid() && order == [] && Balanced(refs, 0)
    {
      assert Take(order, 0) == [];
      for i := 0 to SIZE
        invariant bhs.Length == SIZE && order == old(order)
        invariant forall j :: 0 <= j < SIZE ==> bhs[j] == if j < i then 0 else old(bhs[j])
        invariant forall b :: b != 0 ==> Count(refs.count, b) == Count(old(refs.count), b) - Holds(Take(order, i), b)
      {
        if bhs[i] != 0 {
          assert Take(order, i + 1) == Take(order, i) + [order[i]];
          refs.count := Add(refs.count, bhs[i], -1);
        }
        bhs[i] := 0;
      }
      order := [];
      assert bhs[..] == Zeros(SIZE);
    }
  }

  // ---- All CPUs over time ----

  /** Every buffer used so far, each once, the most recently used first. */
  function Recent(used: seq<Bh>): seq<Bh> {
    if used == [] then []
    else var b := used[|used| - 1]; [b] + Without(Recent(used[..|used| - 1]), b)
  }

  lemma {:induction false} RecentNoDup(used: seq<Bh>)
    ensures NoDup(Recent(used))
  {
    if used != [] {
      RecentNoDup(used[..|used| - 1]);
      WithoutSpec(Recent(used[..|used| - 1]), used[|used| - 1]);
    }
  }

  /** Keeping only eight entries loses nothing that the eight most recent depend on. */
  lemma TouchTaken(all: seq<Bh>, b: Bh)
    requires NoDup(all)
    ensures Touch(Take(all, SIZE), b) == Take([b] + Without(all, b), SIZE)
  {
    if |all| > SIZE {
      var head, tail := all[..SIZE], all[SIZE..];
      assert all == head + tail;
      WithoutAppend(head, tail, b);
      WithoutSpec(head, b);
      if b in head {
        var i :| 0 <= i < SIZE && head[i] == b;
        WithoutAt(head, i);
        assert b !in tail;
        WithoutSpec(tail, b);
        assert |Without(head, b)| == SIZE - 1;
      }
    }
  }

  /** `lists` and `used`: per CPU, the cached list and the uses since it was last emptied.
      `outside` counts the references that are not the caches'. */
  datatype State = State(lists: seq<seq<Bh>>, used: seq<seq<Bh>>, count: map<Bh, int>, outside: map<Bh, int>)

  datatype Action =
    | Use(cpu: nat, b: Bh)   // bh_lru_install, by somebody who holds a reference
    | Hit(cpu: nat, b: Bh)   // lookup_bh_lru, which hands out a reference
    | Flush(cpu: nat)        // invalidate_bh_lru
    | Get(b: Bh)
    | Put(b: Bh)

  predicate Enabled(s: State, a: Action) {
    match a
    case Use(c, b) => c < |s.lists| && c < |s.used| && b != 0 && Count(s.outside, b) > 0
    case Hit(c, b) => c < |s.lists| && c < |s.used| && b != 0 && b in s.lists[c]
    case Flush(c) => c < |s.lists| && c < |s.used|
    case Get(b) => b != 0
    case Put(b) => b != 0 && Count(s.outside, b) > 0
  }

  /** A step of the machine.  `count` is left to the relation: it changes as the contracts of the
      cache say. */
  ghost predicate Step(s: State, a: Action, t: State) {
    && Enabled(s, a)
    && match a
       case Use(c, b) => t.lists == s.lists[c := Touch(s.lists[c], b)] && t.used == s.used[c := s.used[c] + [b]]
           && t.outside == s.outside && Moves(s, t, c, 0)
       case Hit(c, b) => t.lists == s.lists[c := Touch(s.lists[c], b)] && t.used == s.used[c := s.used[c] + [b]]
           && t.outside == Add(s.outside, b, 1) && Moves(s, t, c, b)
       case Flush(c) => t.lists == s.lists[c := []] && t.used == s.used[c := []] && t.outside == s.outside
           && Moves(s, t, c, 0)
       case Get(b) => t == s.(count := Add(s.count, b, 1), outside := Add(s.outside, b, 1))
       case Put(b) => t == s.(count := Add(s.count, b, -1), outside := Add(s.outside, b, -1))
  }

  /** The counts move as `Lru.Balanced` says for CPU `c`. */
  ghost predicate Moves(s: State, t: State, c: nat, extra: Bh)
    requires c < |s.lists| && c < |t.lists|
  {
    forall b :: b != 0 ==>
      Count(t.count, b) == Count(s.count, b) + Holds(t.lists[c], b) - Holds(s.lists[c],
          b) + (if b == extra then 1 else 0)
  }

  /** On how many CPUs `b` is cached. */
  function Holders(lists: seq<seq<Bh>>, b: Bh): nat {
    if lists == [] then 0 else Holds(lists[0], b) + Holders(lists[1..], b)
  }

  lemma {:induction false} HoldersUpdate(lists: seq<seq<Bh>>, c: nat, l: seq<Bh>, b: Bh)
    requires c < |lists|
    ensures Holders(lists[c := l], b) == Holders(lists, b) - Holds(lists[c], b) + Holds(l, b)
    decreases |lists|
  {
    if c > 0 {
      assert lists[c := l][1..] == lists[1..][c - 1 := l];
      HoldersUpdate(lists[1..], c - 1, l, b);
    } else {
      assert lists[c := l][1..] == lists[1..];
    }
  }

  lemma {:induction false} HoldersAtLeast(lists: seq<seq<Bh>>, c: nat, b: Bh)
    requires c < |lists| && b in lists[c]
    ensures Holders(lists, b) >= 1
    decreases |lists|
  {
    if c > 0 { HoldersAtLeast(lists[1..], c - 1, b); }
  }

  ghost predicate Inv(s: State) {
    && |s.lists| == |s.used|
    && (forall c :: 0 <= c < |s.lists| ==> s.lists[c] == Take(Recent(s.used[c]), SIZE))
    && (forall b :: b != 0 ==>
        Count(s.outside, b) >= 0 && Count(s.count, b) == Count(s.outside, b) + Holders(s.lists, b))
  }

  lemma TouchIsRecent(s: State, c: nat, b: Bh)
    requires Inv(s) && c < |s.lists|
    ensures Touch(s.lists[c], b) == Take(Recent(s.used[c] + [b]), SIZE)
  {
    var used := s.used[c] + [b];
    assert used[..|used| - 1] == s.used[c];
    RecentNoDup(s.used[c]);
    TouchTaken(Recent(s.used[c]), b);
  }

  /** One CPU's list changes, and the counts with it. */
  lemma ListChanges(s: State, t: State, c: nat, l: seq<Bh>, used: seq<Bh>, extra: Bh)
    requires Inv(s) && c < |s.lists| && l == Take(Recent(used), SIZE)
    requires t.lists == s.lists[c := l] && t.used == s.used[c := used] && Moves(s, t, c, extra)
    requires t.outside == if extra == 0 then s.outside else Add(s.outside, extra, 1)
    ensures Inv(t)
  {
    forall b | b != 0
      ensures Count(t.outside, b) >= 0 && Count(t.count, b) == Count(t.outside, b) + Holders(t.lists, b)
    {
      HoldersUpdate(s.lists, c, l, b);
    }
  }

  lemma StepKeepsInv(s: State, a: Action, t: State)
    requires Inv(s) && Step(s, a, t)
    ensures Inv(t)
  {
    match a
    case Use(c, b) =>
      TouchIsRecent(s, c, b);
      ListChanges(s, t, c, Touch(s.lists[c], b), s.used[c] + [b], 0);
    case Hit(c, b) =>
      TouchIsRecent(s, c, b);
      ListChanges(s, t, c, Touch(s.lists[c], b), s.used[c] + [b], b);
    case Flush(c) =>
      ListChanges(s, t, c, [], [], 0);
    case Get(b) => OthersChange(s, t, b, 1);
    case Put(b) => OthersChange(s, t, b, -1);
  }

  /** A reference that is no cache's comes or goes. */
  lemma OthersChange(s: State, t: State, b: Bh, n: int)
    requires Inv(s) && t == s.(count := Add(s.count, b, n), outside := Add(s.outside, b, n))
    requires Count(s.outside, b) + n >= 0
    ensures Inv(t)
  {
    forall x | x != 0
      ensures Count(t.outside, x) >= 0 && Count(t.count, x) == Count(t.outside, x) + Holders(t.lists, x)
    {
      assert Count(s.count, x) == Count(s.outside, x) + Holders(s.lists, x);
    }
  }

  /** The caches are empty, and all references there are belong to others. */
  ghost predicate Starts(s: State) {
    && |s.lists| == |s.used| && (forall c :: 0 <= c < |s.lists| ==> s.lists[c] == [] == s.used[c])
    && s.count == s.outside && forall b :: Count(s.outside, b) >= 0
  }

  lemma {:induction false} EmptyHoldsNone(lists: seq<seq<Bh>>, b: Bh)
    requires forall c :: 0 <= c < |lists| ==> lists[c] == []
    ensures Holders(lists, b) == 0
  {
    if lists != [] { EmptyHoldsNone(lists[1..], b); }
  }

  ghost predicate IsRun(states: seq<State>, acts: seq<Action>) {
    && |states| == |acts| + 1 && Starts(states[0])
    && forall i :: 0 <= i < |acts| ==> Step(states[i], acts[i], states[i + 1])
  }

  lemma {:induction false} RunKeepsInv(states: seq<State>, acts: seq<Action>, i: nat)
    requires IsRun(states, acts) && i < |states|
    ensures Inv(states[i])
  {
    if i == 0 {
      forall b ensures Holders(states[0].lists, b) == 0 { EmptyHoldsNone(states[0].lists, b); }
    } else {
      RunKeepsInv(states, acts, i - 1);
      StepKeepsInv(states[i - 1], acts[i - 1], states[i]);
    }
  }

  /** Over any run from empty caches, each CPU caches exactly its eight most recently used buffers, each once and
      most recent first; and a buffer whose count is zero, which is all that freeing it asks of
      the count, is in no cache. */
  lemma LruIsSound(states: seq<State>, acts: seq<Action>, i: nat, c: nat)
    requires IsRun(states, acts) && i < |states| && c < |states[i].lists|
    ensures var s := states[i];
            && c < |s.used| && NoDup(s.lists[c]) && s.lists[c] == Take(Recent(s.used[c]), SIZE)
            && forall b :: b != 0 && Count(s.count, b) == 0 ==> b !in s.lists[c]
  {
    RunKeepsInv(states, acts, i);
    var s := states[i];
    RecentNoDup(s.used[c]);
    forall b | b != 0 && Count(s.count, b) == 0 ensures b !in s.lists[c] {
      if b in s.lists[c] { HoldersAtLeast(s.lists, c, b); }
    }
  }

  datatype PageBuffer = PageBuffer(bh: Bh, dirty: bool, locked: bool)

  predicate Busy(b: PageBuffer, count: map<Bh, int>) { Count(count, b.bh) != 0 || b.dirty || b.locked }

  /** `drop_buffers`: a page gives up its buffers only if none is busy. */
  method DropBuffers(bufs: seq<PageBuffer>, count: map<Bh, int>) returns (dropped: bool)
    ensures dropped <==> forall i :: 0 <= i < |bufs| ==>
              Count(count, bufs[i].bh) == 0 && !bufs[i].dirty && !bufs[i].locked
  {
    for i := 0 to |bufs|
      invariant forall j :: 0 <= j < i ==> !Busy(bufs[j], count)
    {
      if Busy(bufs[i], count) { return false; }
    }
    return true;
  }

  /** Buffers that a page may give up are in no CPU's cache. */
  lemma DroppedIsNotCached(states: seq<State>, acts: seq<Action>, i: nat, bufs: seq<PageBuffer>, k: nat, c: nat)
    requires IsRun(states, acts) && i < |states| && k < |bufs| && bufs[k].bh != 0 && c < |states[i].lists|
    requires forall j :: 0 <= j < |bufs| ==>
               Count(states[i].count, bufs[j].bh) == 0 && !bufs[j].dirty && !bufs[j].locked
    ensures bufs[k].bh !in states[i].lists[c]
  {
    LruIsSound(states, acts, i, c);
  }
}
