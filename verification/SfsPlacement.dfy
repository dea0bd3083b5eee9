/** Which partition a new entry goes to: the normal set of a directory, the global dispatch
    counter, and the round-robin selection among normal partitions. */
module SfsPlacement {
  import R = SfsRename

  const MAX_DISPATCH := 1024

  // ---- The 64-bit map of normal partitions ----

  /** `test_bitmap` and `set_bitmap`. */
  predicate TestBit(map64: bv64, shift: bv64)
    requires shift < 64
  {
    ((1 as bv64) << shift) & map64 != 0
  }

  function SetBit(map64: bv64, shift: bv64): bv64
    requires shift < 64
  {
    map64 | ((1 as bv64) << shift)
  }

  /** The map is exactly a set of partitions, as long as there are at most 64: setting a
      bit adds that partition and no other. */
  lemma BitmapIsSet(map64: bv64, i: bv64, j: bv64)
    requires i < 64 && j < 64
    ensures TestBit(SetBit(map64, i), j) <==> j == i || TestBit(map64, j)
  {
    OneBit(map64, i, j);
  }

  lemma OneBit(map64: bv64, i: bv64, j: bv64)
    requires i < 64 && j < 64
    ensures ((1 as bv64) << j) & (map64 | ((1 as bv64) << i)) != 0 <==> j == i || ((1 as bv64) << j) & map64 != 0
  {
  }

  /** A set of partitions below `n` has at most `n` members, and misses one if it has fewer. */
  lemma {:induction false} Unused(s: set<int>, n: nat) returns (u: int)
    requires forall x :: x in s ==> 0 <= x < n
    ensures |s| <= n
    ensures |s| < n ==> 0 <= u < n && u !in s
  {
    if n == 0 {
      assert forall x :: x !in s;
      u := 0;
    } else {
      var rest := s - {n - 1};
      u := Unused(rest, n - 1);
      if n - 1 in s {
        assert s == rest + {n - 1};
      } else {
        assert s == rest;
        u := n - 1;
      }
    }
  }

  /** The partition `t` places after `c`, cyclically among `n`. */
  function Pos(c: int, t: int, n: int): int { if c + t < n then c + t else c + t - n }

  /** How many places `r` is after `c`. */
  function Gap(c: int, r: int, n: int): int { if r >= c then r - c else r - c + n }

  lemma NextPos(c: int, n: int)
    requires 0 <= c < n
    ensures c % n == c && (c + 1) % n == Pos(c, 1, n)
  {
  }

  class Dispatcher {
    var last: int

    ghost predicate Valid()
      reads this
    {
      0 <= last <= MAX_DISPATCH
    }

    constructor ()
      ensures Valid() && last == 0
    {
      last := 0;
    }

    /** `dispatch`: the counter starts over once it has passed 1024. */
    method Dispatch(parts: int) returns (r: int)
      requires Valid() && parts > 0
      modifies this
      ensures Valid() && 0 <= r < parts
      ensures parts > 1 ==> r == old(last) % parts && last == if old(last) == MAX_DISPATCH then 0 else old(last) + 1
      ensures parts == 1 ==> last == old(last)
    {
      if parts == 1 { return 0; }
      last := last + 1;
      var id := last;
      if id > MAX_DISPATCH { last := 0; }
      r := (id - 1) % parts;
    }
  }

  /** What may be added to a directory: a new file, a subdirectory, or, by link or rename, a
      file whose data is in partition `data`.  `fails`: marking the partition normal fails. */
  datatype DirOp = Create(fails: bool) | Mkdir(fails: bool) | Add(data: int, fails: bool)

  class Directory {
    const parts: int
    var normalMap: set<int>
    var normalCount: int
    var firstNormal: int
    var localCounter: int

    function Threshold(): int { R.Threshold(parts) }

    ghost predicate Valid()
      reads this
    {
      && 0 < parts <= 64 && 0 <= localCounter < parts
      && (forall i :: i in normalMap ==> 0 <= i < parts)
      && normalCount == |normalMap| <= Threshold()
      && (normalCount > 0 ==> firstNormal in normalMap)
    }

    /** How the normal set may change: it grows by at most one member, and not when full. */
    twostate predicate Grows(part: int)
      reads this
    {
      && Valid()
      && (normalMap == old(normalMap) || normalMap == old(normalMap) + {part})
      && (old(normalCount) == Threshold() ==> normalMap == old(normalMap))
    }

    constructor (parts: int)
      requires 0 < parts <= 64
      ensures Valid() && normalMap == {} && this.parts == parts
    {
      this.parts := parts;
      normalMap, normalCount, localCounter, firstNormal := {}, 0, 0, -1;
    }

    /** `set_normal_dir`. */
    method SetNormal(part: int, fails: bool) returns (err: bool)
      requires Valid() && 0 <= part < parts && (part in normalMap || normalCount < Threshold())
      modifies this
      ensures Grows(part) && err == (fails && part !in old(normalMap))
      ensures normalMap == if err then old(normalMap) else old(normalMap) + {part}
      ensures localCounter == old(localCounter) && (old(normalCount) > 0 ==> firstNormal == old(firstNormal))
    {
      if part in normalMap {
        assert normalMap == normalMap + {part};
        return false;
      }
      err := fails;
      if !err {
        if normalCount == 0 { firstNormal := part; }
        normalCount := normalCount + 1;
        normalMap := normalMap + {part};
      }
    }

    /** `can_turn2normal`. */
    method CanTurn(part: int) returns (yes: bool)
      requires Valid() && 0 <= part < parts
      ensures yes == R.CanTurn(normalMap, part, parts)
    {
      yes := !(part !in normalMap && normalCount >= Threshold());
    }

    /** `select_normal_dir_rr`, and the last part of `local_dispatch`: the next normal
        partition at or after the counter, which then moves past it. */
    method Select() returns (r: int)
      requires Valid() && normalCount > 0
      modifies this`localCounter
      ensures Valid() && r in normalMap && localCounter == Pos(r, 1, parts)
      ensures forall t :: 0 <= t < Gap(old(localCounter), r, parts) ==> Pos(old(localCounter), t, parts) !in normalMap
    {
      ghost var start, n, x := localCounter, 0, firstNormal;
      while localCounter !in normalMap
        invariant 0 <= localCounter < parts
        invariant 0 <= n && localCounter == Pos(start, n, parts)
        invariant n + Gap(localCounter, x, parts) == Gap(start, x, parts)
        invariant forall t :: 0 <= t < n ==> Pos(start, t, parts) !in normalMap
        decreases Gap(localCounter, x, parts)
      {
        Advance();
        n := n + 1;
      }
      r := localCounter;
      Advance();
    }

    method Advance()
      requires 0 <= localCounter < parts
      modifies this`localCounter
      ensures localCounter == Pos(old(localCounter), 1, parts)
    {
      NextPos(localCounter, parts);
      localCounter := (localCounter + 1) % parts;
    }

    /** `local_dispatch`: a partition that is not normal yet while the set may grow, and
        round robin afterwards.  The dispatch loop ends in spite of the counter reset. */
    method LocalDispatch(d: Dispatcher) returns (r: int)
      requires Valid() && d.Valid()
      modifies this`localCounter, d
      ensures Valid() && d.Valid() && 0 <= r < parts
      ensures normalCount < Threshold() <==> r !in normalMap
    {
      if normalCount < Threshold() {
        ghost var u := Unused(normalMap, parts);
        NextPos(u, parts);
        r := d.Dispatch(parts);
        while r in normalMap
          invariant Valid() && d.Valid() && 0 <= r < parts
          invariant parts == 1 ==> r == u
          invariant r != u ==> Away(d.last, u) >= 0
          decreases if r == u then -1 else Away(d.last, u)
        {
          r := d.Dispatch(parts);
        }
      } else {
        r := Select();
      }
    }

    ghost function Away(last: int, u: int): int {
      if last <= u then u - last else MAX_DISPATCH + 1 - last + u + 1
    }

    /** As many selections in a row as there are normal partitions pick each exactly once. */
    method SelectRound() returns (picks: seq<int>)
      requires Valid()
      modifies this`localCounter
      ensures Valid() && |picks| == |normalMap|
      ensures forall i, j :: 0 <= i < j < |picks| ==> picks[i] != picks[j]
      ensures forall x :: x in normalMap <==> x in picks
    {
      picks := [];
      ghost var start, moved, seen := localCounter, 0, {};
      while |picks| < normalCount
        invariant Valid() && 0 <= moved <= parts && localCounter == Pos(start, moved, parts)
        invariant |picks| == |seen| <= normalCount && seen <= normalMap
        invariant forall x :: x in seen <==> x in picks
        invariant forall x :: x in normalMap ==> (x in seen <==> Gap(start, x, parts) < moved)
        invariant forall i, j :: 0 <= i < j < |picks| ==> picks[i] != picks[j]
        decreases normalCount - |picks|
      {
        ghost var x := Missing(seen, normalMap);
        ghost var c := localCounter;
        var r := Select();
        assert Gap(c, r, parts) <= Gap(c, x, parts) by {
          assert Pos(c, Gap(c, x, parts), parts) == x;
        }
        assert Gap(c, x, parts) == Gap(start, x, parts) - moved;
        assert Gap(start, r, parts) == moved + Gap(c, r, parts);
        forall y | y in normalMap ensures y in seen + {r} <==> Gap(start, y, parts) < Gap(start, r, parts) + 1 {
          assert Pos(c, Gap(c, y, parts), parts) == y;
          assert y !in seen ==> Gap(c, y, parts) == Gap(start, y, parts) - moved;
        }
        moved, seen, picks := Gap(start, r, parts) + 1, seen + {r}, picks + [r];
      }
      SameCard(seen, normalMap);
    }

    // ---- The operations that add an entry to the directory ----

    /** `sfs_add_entry`: create, symlink and mknod. */
    method CreateIn(d: Dispatcher, fails: bool) returns (err: bool, ghost part: int)
      requires Valid() && d.Valid()
      modifies this, d
      ensures d.Valid() && Grows(part)
    {
      var id := LocalDispatch(d);
      part := id;
      err := SetNormal(id, fails);
    }

    /** `sfs_add_dir_entry`: directories go to the first normal partition. */
    method MkdirIn(d: Dispatcher, fails: bool) returns (err: bool, ghost part: int)
      requires Valid() && d.Valid()
      modifies this, d
      ensures d.Valid() && Grows(part)
    {
      var id := firstNormal;
      if normalCount == 0 {
        id := d.Dispatch(parts);
      }
      part := id;
      err := SetNormal(id, fails);
    }

    /** `sfs_link` and `rename` into the directory, of a file whose data is in `data`. */
    method AddIn(data: int, fails: bool) returns (err: bool, ghost part: int)
      requires Valid() && 0 <= data < parts
      modifies this
      ensures Grows(part)
    {
      var can := CanTurn(data);
      var id := data;
      if !can {
        id := Select();
      }
      part := id;
      err := SetNormal(id, fails);
    }

    /** Any sequence of operations keeps the invariant, only ever adds members, and leaves a
        full set alone. */
    method Perform(d: Dispatcher, ops: seq<DirOp>)
      requires Valid() && d.Valid()
      requires forall i :: 0 <= i < |ops| && ops[i].Add? ==> 0 <= ops[i].data < parts
      modifies this, d
      ensures Valid() && d.Valid() && old(normalMap) <= normalMap
      ensures old(normalCount) == Threshold() ==> normalMap == old(normalMap)
    {
      for i := 0 to |ops|
        invariant Valid() && d.Valid() && old(normalMap) <= normalMap
        invariant old(normalCount) == Threshold() ==> normalMap == old(normalMap)
      {
        match ops[i]
        case Create(fails) => var _, _ := CreateIn(d, fails);
        case Mkdir(fails) => var _, _ := MkdirIn(d, fails);
        case Add(data, fails) => var _, _ := AddIn(data, fails);
      }
    }

    /** `check_normal_dir`, for a partition marked normal on disk or not.  The stray semicolon after its
        test makes every marked partition that is visited the first normal one in its turn. */
    method CheckNormal(part: int, marked: bool)
      requires part !in normalMap
      modifies this`normalMap, this`normalCount, this`firstNormal
      ensures normalMap == old(normalMap) + (if marked then {part} else {})
      ensures normalCount == old(normalCount) + |normalMap| - |old(normalMap)|
              && firstNormal == if marked then part else old(firstNormal)
    {
      if marked {
        firstNormal := part;
        normalCount := normalCount + 1;
        normalMap := normalMap + {part};
      }
    }

    /** Reading the root's set back at mount time, partition by partition: the last marked one becomes
        the one for new directories. */
    method LoadRoot(marked: set<int>)
      requires 0 < parts <= 64 && |marked| <= Threshold() && forall i :: i in marked ==> 0 <= i < parts
      modifies this
      ensures Valid() && normalMap == marked
      ensures forall i :: i in marked ==> i <= firstNormal
    {
      normalMap, normalCount, localCounter, firstNormal := {}, 0, 0, -1;
      for i := 0 to parts
        invariant localCounter == 0 && normalMap == (set x | x in marked && x < i) && normalCount == |normalMap|
        invariant normalCount > 0 ==> firstNormal in normalMap
        invariant forall x :: x in normalMap ==> x <= firstNormal
      {
        CheckNormal(i, i in marked);
      }
      assert normalMap == marked;
    }

    /** `sfs_lookup` of a directory that has entries in the partitions `there` and is marked normal in
        `marked`: the scan over the parent's normal partitions starts over, over all partitions, as soon
        as it has found the directory once. */
    method LookupDir(parentNormal: set<int>, there: set<int>, marked: set<int>) returns (found: bool, f: int)
      requires 0 < parts <= 64 && marked <= there && |marked| <= Threshold() && forall i :: i in there ==>
               0 <= i < parts
      modifies this
      ensures found <==> exists i :: i in there && i in parentNormal
      ensures found ==> f in there && f in parentNormal && forall i :: i in there && i in parentNormal ==> f <= i
      ensures Valid() && normalMap == if found then marked else {}
      ensures found && marked != {} ==> LastVisited(firstNormal, marked, f)
    {
      normalMap, normalCount, localCounter, firstNormal := {}, 0, 0, -1;
      found, f := false, -1;
      var fullscan, have, loop := false, {}, 0;
      while loop < parts
        invariant 0 <= loop <= parts && localCounter == 0 && normalCount == |normalMap| && found == fullscan
        invariant !fullscan ==> normalMap == {} == have && forall i :: i in there && i in parentNormal ==> loop <= i
        invariant fullscan ==> f in there && f in parentNormal && forall i :: i in there && i in parentNormal ==> f <= i
        invariant fullscan ==>
                  f in have && (forall i :: i in have ==> i == f || i < loop)
                      && VisitedSo(normalMap, firstNormal, marked, f, loop)
        decreases if fullscan then 0 else 1, parts - loop
      {
        if (fullscan || loop in parentNormal) && loop in there && loop !in have {
          VisitNext(normalMap, firstNormal, marked, if fullscan then f else loop, loop, fullscan);
          have, found := have + {loop}, true;
          CheckNormal(loop, loop in marked);
          if !fullscan { fullscan, f, loop := true, loop, -1; }
        }
        loop := loop + 1;
      }
      assert fullscan ==> normalMap == marked;
    }
  }

  /** What is known once the scan has visited `f` and then all other partitions below `n`. */
  ghost predicate VisitedSo(visited: set<int>, first: int, marked: set<int>, f: int, n: int) {
    visited == (set x | x in marked && (x == f || x < n)) && (visited != {} ==> LastVisited(first, visited, f))
  }

  /** One more partition: `f` itself to begin with, or the next one in the second scan. */
  lemma VisitNext(visited: set<int>, first: int, marked: set<int>, f: int, n: int, second: bool)
    requires if second then VisitedSo(visited, first, marked, f, n) && n != f && n >= 0 else visited == {} && n == f
    requires forall x :: x in marked ==> x >= 0
    ensures n !in visited
    ensures VisitedSo(visited + (if n in marked then {n} else {}), if n in marked then n else first, marked, f,
            if second then n + 1 else 0)
  {
    var next := if second then n + 1 else 0;
    assert visited + (if n in marked then {n} else {}) == (set x | x in marked && (x == f || x < next));
  }

  /** Of the marked partitions, `x` is the one the scan visits last: `f` comes first, then the others
      upwards. */
  ghost predicate LastVisited(x: int, marked: set<int>, f: int) {
    x in marked && if x == f then marked == {f} else forall y :: y in marked && y != f ==> y <= x
  }

  /** Which one that is depends on where the scan found the directory first; it is the lowest one
      exactly if there is at most one besides `f`, and none above `f` when `f` is marked. */
  lemma LastIsLowestIff(x: int, marked: set<int>, f: int)
    requires LastVisited(x, marked, f)
    ensures (forall y :: y in marked ==> x <= y) <==>
            (forall y, z :: y in marked && z in marked && y != f && z != f ==> y == z)
                && (f in marked ==> forall y :: y in marked ==> y <= f)
  {
    if x == f {
      assert forall y :: y in marked ==> y == f;
    } else if forall y :: y in marked ==> x <= y {
      assert forall y :: y in marked && y != f ==> y == x;
    }
  }

  /** For every set of two or more marks: looked up through a parent that is normal where the highest mark
      is, or through one that is normal where another mark `low` is, the same directory on disk gets two
      different partitions for its new subdirectories. */
  method RestartDecides(parts: int, there: set<int>, marked: set<int>, top: int, low: int)
      returns (first: int, second: int)
    requires 0 < parts <= 64 && marked <= there && |marked| <= R.Threshold(parts)
    requires forall i :: i in there ==> 0 <= i < parts
    requires low in marked && top in marked && low < top && forall i :: i in marked ==> i <= top
    ensures first in marked && second == top && first != second
    ensures forall i :: i in marked && i != top ==> i <= first
  {
    var dir := new Directory(parts);
    var _, _ := dir.LookupDir({top}, there, marked);
    first := dir.firstNormal;
    var again := new Directory(parts);
    var _, _ := again.LookupDir({low}, there, marked);
    second := again.firstNormal;
  }

  lemma SameCard(a: set<int>, b: set<int>)
    requires a <= b && |a| == |b|
    ensures a == b
  {
    assert b == a + (b - a);
    assert |b - a| == 0;
  }

  lemma Smaller(a: set<int>, b: set<int>)
    requires a <= b
    ensures |a| <= |b|
  {
    assert b == a + (b - a);
  }

  lemma Missing(a: set<int>, b: set<int>) returns (x: int)
    requires |a| < |b|
    ensures x in b && x !in a
  {
    if forall y :: y in b ==> y in a {
      Smaller(b, a);
      assert false;
    }
    x :| x in b && x !in a;
  }
}
