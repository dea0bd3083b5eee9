/** Vectored asynchronous I/O: advancing through the segments of a request, and the loop that
    retries partial transfers. */
module AioIovec {

  const EINVAL := 22
  const EIOCBQUEUED := 529
  const EIOCBRETRY := 530

  datatype Iovec = Iovec(base: int, len: nat)

  /** The user addresses a segment describes. */
  function Bytes(v: Iovec): seq<int> { seq(v.len, i => v.base + i) }

  /** The byte stream a sequence of segments describes. */
  function Stream(segs: seq<Iovec>): seq<int> {
    if segs == [] then [] else Bytes(segs[0]) + Stream(segs[1..])
  }

  /** Moving into the first segment drops as many bytes off the stream. */
  lemma StreamAdvance(segs: seq<Iovec>, n: nat)
    requires segs != [] && n <= segs[0].len
    ensures Stream([Iovec(segs[0].base + n, segs[0].len - n)] + segs[1..]) == Stream(segs)[n..]
  {
    var v := segs[0];
    var w := Iovec(v.base + n, v.len - n);
    assert ([w] + segs[1..])[1..] == segs[1..];
    assert Bytes(w) == Bytes(v)[n..];
    assert (Bytes(v) + Stream(segs[1..]))[n..] == Bytes(v)[n..] + Stream(segs[1..]);
  }

  /** What the first `n` calls of the file's operation moved. */
  function Moved(transfer: nat -> int, n: nat): int {
    if n == 0 then 0 else Moved(transfer, n - 1) + if transfer(n - 1) > 0 then transfer(n - 1) else 0
  }

  class Kiocb {
    var iov: array<Iovec>
    var curSeg: nat
    var left: nat
    const nbytes: nat
    const pos: int
    const isWrite: bool
    const isPipe: bool

    ghost function Remaining(): seq<int>
      reads this, iov
      requires curSeg <= iov.Length
    {
      Stream(iov[curSeg..])
    }

    /** `ki_left` is the number of bytes the remaining segments describe. */
    ghost predicate Valid()
      reads this, iov
    {
      curSeg <= iov.Length && left == |Remaining()| <= nbytes
    }

    constructor (segs: seq<Iovec>, pos: int, isWrite: bool, isPipe: bool)
      ensures Valid() && Remaining() == Stream(segs) && fresh(iov) && left == nbytes
      ensures this.pos == pos && this.isWrite == isWrite && this.isPipe == isPipe
    {
      var a := new Iovec[|segs|](i requires 0 <= i < |segs| => segs[i]);
      iov, curSeg, left, nbytes := a, 0, |Stream(segs)|, |Stream(segs)|;
      this.pos, this.isWrite, this.isPipe := pos, isWrite, isPipe;
      new;
      assert iov[0..] == segs;
    }

    /** One turn of the loop in `aio_advance_iovec`. */
    method Consume(amount: nat) returns (taken: nat)
      requires Valid() && curSeg < iov.Length && amount > 0
      modifies this`curSeg, this`left, iov
      ensures Valid() && taken <= amount && taken <= old(left)
      ensures Remaining() == old(Remaining())[taken..]
      ensures curSeg == old(curSeg) + 1 || (curSeg == old(curSeg) && taken == amount)
    {
      ghost var segs := iov[curSeg..];
      var v := iov[curSeg];
      taken := if v.len < amount then v.len else amount;
      assert Stream(segs) == Bytes(segs[0]) + Stream(segs[1..]);
      StreamAdvance(segs, taken);
      iov[curSeg] := Iovec(v.base + taken, v.len - taken);
      left := left - taken;
      assert iov[curSeg..] == [iov[curSeg]] + segs[1..];
      if iov[curSeg].len == 0 {
        assert Stream(iov[curSeg..]) == Bytes(iov[curSeg]) + Stream(iov[curSeg..][1..]);
        assert iov[curSeg..][1..] == iov[curSeg + 1..];
        curSeg := curSeg + 1;
      }
    }

    /** `aio_advance_iovec`: the remaining stream loses its first `ret` bytes, empty segments
        or not, and the check at the end fires exactly when more was moved than was left. */
    method Advance(ret: nat) returns (bug: bool)
      requires Valid() && ret > 0
      modifies this`curSeg, this`left, iov
      ensures Valid()
      ensures bug <==> ret > old(left)
      ensures Remaining() == if bug then [] else old(Remaining())[ret..]
    {
      var todo := ret;
      while curSeg < iov.Length && todo > 0
        invariant Valid() && iov == old(iov) && 0 <= todo <= ret && ret - todo <= old(left)
        invariant Remaining() == old(Remaining())[ret - todo..]
        decreases iov.Length - curSeg, todo
      {
        ghost var before := Remaining();
        var taken := Consume(todo);
        assert before[taken..] == old(Remaining())[ret - todo..][taken..];
        todo := todo - taken;
      }
      bug := todo > 0 && left == 0;
    }

    /** One call of the file's read or write operation, which moves no more than it is given. */
    method Once(offered: int) returns (ret: int)
      requires Valid()
      modifies this`curSeg, this`left, iov
      ensures Valid() && ret == if offered > old(left) then old(left) else offered
      ensures left == old(left) - (if ret > 0 then ret else 0)
      ensures Remaining() == old(Remaining())[old(left) - left..]
    {
      ret := if offered > left then left else offered;
      if ret > 0 {
        var _ := Advance(ret);
      }
    }

    /** What the request reports once its last transfer returned `last`. */
    function Report(last: int): int
      reads this
    {
      var moved := nbytes - left;
      if last == 0 || left == 0 then moved
      else if isWrite && last < 0 && last != -EIOCBQUEUED && last != -EIOCBRETRY && moved > 0 then moved
      else last
    }

    /** A write, or a read of a regular file, goes on until nothing is left or a call moves nothing; a read of a
        pipe or socket makes one call. */
    ghost predicate Ends(transfer: nat -> int, calls: nat, last: int)
      reads this
    {
      calls > 0 && if isWrite || !isPipe then left == 0 || (last <= 0 && transfer(calls - 1) <= 0) else calls == 1
    }

    /** What the caller is told. */
    method Conclude(last: int) returns (ret: int)
      requires left <= nbytes
      ensures ret == Report(last)
      ensures left == 0 ==> ret == nbytes
      ensures isWrite && last <= 0 && left < nbytes ==>
                ret == nbytes - left || ret == -EIOCBQUEUED || ret == -EIOCBRETRY
    {
      ret := last;
      if ret == 0 || left == 0 {
        ret := nbytes - left;
      }
      if isWrite && ret < 0 && ret != -EIOCBQUEUED && ret != -EIOCBRETRY && nbytes - left != 0 {
        ret := nbytes - left;
      }
    }

    /** The loop of `aio_rw_vect_retry`. */
    method Transfer(transfer: nat -> int) returns (ret: int, ghost calls: nat)
      requires Valid()
      modifies this`curSeg, this`left, iov
      ensures Valid() && left <= old(left) && Remaining() == old(Remaining())[old(left) - left..]
      ensures Called(transfer, calls, old(left), left, ret)
      ensures Ends(transfer, calls, ret)
    {
      var n := 1;
      ret := Once(transfer(0));
      while ret > 0 && left > 0 && (isWrite || !isPipe)
        invariant Valid() && iov == old(iov) && left <= old(left) && Remaining() == old(Remaining())[old(left) - left..]
        invariant Called(transfer, n, old(left), left, ret) && (n > 1 ==> isWrite || !isPipe)
        decreases left, if ret > 0 then 1 else 0
      {
        ghost var before, had, was := Remaining(), left, ret;
        ret := Once(transfer(n));
        assert before[had - left..] == old(Remaining())[old(left) - left..];
        CalledAgain(transfer, n, old(left), had, was, left, ret);
        n := n + 1;
      }
      calls := n;
    }

    /** `aio_rw_vect_retry`.  `transfer(k)` is what the file's operation returns the k-th time;
        it never moves more than it is given.  The stream has lost exactly what was moved, and once all data
        has moved the total is reported. */
    method Retry(transfer: nat -> int) returns (ret: int, ghost last: int, ghost calls: nat)
      requires Valid()
      modifies this`curSeg, this`left, iov
      ensures Valid() && left <= old(left) && Remaining() == old(Remaining())[old(left) - left..]
      ensures pos < 0 ==> ret == -EINVAL && left == old(left)
      ensures pos >= 0 ==> Called(transfer, calls, old(left), left, last) && ret == Report(last)
      ensures pos >= 0 ==> Ends(transfer, calls, last)
      ensures pos >= 0 && left == 0 ==> ret == nbytes
      ensures pos >= 0 && isWrite && left < nbytes ==> ret == nbytes - left || ret == -EIOCBQUEUED || ret == -EIOCBRETRY
    {
      last, calls := 0, 0;
      if pos < 0 { return -EINVAL, 0, 0; }
      var moved;
      moved, calls := Transfer(transfer);
      last := moved;
      ret := Conclude(moved);
    }
  }

  function Least(a: int, b: int): int { if a < b then a else b }

  /** `n` calls have been made with `left` of `all` bytes to go, the last of which returned `ret`: all others moved
      something, and left something to move. */
  ghost predicate Called(transfer: nat -> int, n: nat, all: nat, left: nat, ret: int) {
    && n > 0 && (forall k: nat :: k < n - 1 ==> transfer(k) > 0)
    && (n > 1 ==> Moved(transfer, n - 1) < all)
    && ret == Least(transfer(n - 1), all - Moved(transfer, n - 1))
    && left == if all < Moved(transfer, n) then 0 else all - Moved(transfer, n)
  }

  lemma CalledAgain(transfer: nat -> int, n: nat, all: nat, had: nat, was: int, left: nat, ret: int)
    requires Called(transfer, n, all, had, was) && was > 0 && had > 0
    requires ret == (if transfer(n) > had then had else transfer(n)) && left == had - (if ret > 0 then ret else 0)
    ensures Called(transfer, n + 1, all, left, ret)
  {
  }
}
