/** Buffered block writes: begin, copy, end.  Every byte of a page carries where its value came
    from, so that "uninitialised data is never exposed" can be stated. */
module BlockWrite {

  datatype Origin = Garbage | Disk | Zero | User

  /** A buffer head with the part of the page it covers.  `raw` says that its disk block was
      just allocated and has never been written, so reading it would yield garbage. */
  datatype Buffer = Buffer(mapped: bool, uptodate: bool, isNew: bool, dirty: bool, raw: bool, data: seq<Origin>)

  /** What the file system's `get_block` answers for an unmapped block. */
  datatype Mapping = Fails | Exists | Allocates

  ghost predicate Initialised(b: Buffer) { forall j :: 0 <= j < |b.data| ==> b.data[j] != Garbage }

  /** A buffer at rest. */
  ghost predicate BufferOk(b: Buffer, pageUptodate: bool) {
    && (b.uptodate || pageUptodate ==> Initialised(b))
    && (b.raw ==> b.mapped && b.uptodate && b.dirty)
    && !b.isNew
  }

  /** The block at `start` takes part in a write of `[from, to)`. */
  predicate InRange(b: Buffer, start: nat, from: nat, to: nat) { !(start + |b.data| <= from || start >= to) }

  /** Set the bytes of the block that lie in `[lo, hi)` of the page. */
  function Fill(b: Buffer, start: nat, lo: nat, hi: nat, what: Origin): Buffer {
    b.(data := seq(|b.data|, j requires 0 <= j < |b.data| => if lo <= start + j < hi then what else b.data[j]))
  }

  /** What `__block_write_begin` does to one block before waiting for reads. */
  datatype Begun = Begun(buffer: Buffer, err: bool, pending: bool)

  function BeginBlock(b: Buffer, start: nat, from: nat, to: nat, pageUptodate: bool, answer: Mapping): Begun {
    if !InRange(b, start, from, to) then Begun(if pageUptodate then b.(uptodate := true) else b, false, false)
    else
      var b := b.(isNew := false);
      if !b.mapped && answer == Fails then Begun(b, true, false)
      else if !b.mapped && answer == Allocates then
        var b := b.(mapped := true, isNew := true, raw := true);
        if pageUptodate then Begun(b.(isNew := false, uptodate := true, dirty := true), false, false)
        else Begun(Fill(Fill(b, start, to, start + |b.data|, Zero), start, start, from, Zero), false, false)
      else
        var b := b.(mapped := true);
        if pageUptodate then Begun(b.(uptodate := true), false, false)
        else Begun(b, false, !b.uptodate && (start < from || start + |b.data| > to))
  }

  /** A read that was issued completes. */
  function ReadBlock(b: Buffer, ok: bool): Buffer {
    if ok then b.(uptodate := true, data := seq(|b.data|, _ => if b.raw then Garbage else Disk)) else b
  }

  /** A buffer between begin and end: bytes the copy will not touch are already good, and a
      partly written block is either read in or new. */
  ghost predicate Prepared(b: Buffer, start: nat, from: nat, to: nat, pageUptodate: bool) {
    && (b.uptodate || pageUptodate ==> Initialised(b))
    && (b.raw ==> b.mapped && (b.isNew || (b.uptodate && b.dirty)))
    && (b.isNew ==> b.raw && !pageUptodate && InRange(b, start, from, to))
    && (b.isNew ==> forall j :: 0 <= j < |b.data| && !(from <= start + j < to) ==> b.data[j] != Garbage)
    && (InRange(b, start, from, to) && !b.uptodate && !b.isNew ==> from <= start && start + |b.data| <= to)
  }

  /** The same, except that a read may still be outstanding. */
  ghost predicate Preparing(b: Buffer, start: nat, from: nat, to: nat, pageUptodate: bool, pending: bool) {
    if pending then !b.uptodate && !b.isNew && !b.raw && !pageUptodate else Prepared(b, start, from, to, pageUptodate)
  }

  lemma BeginBlockPrepares(b: Buffer, start: nat, from: nat, to: nat, pageUptodate: bool, answer: Mapping)
    requires BufferOk(b, pageUptodate)
    ensures var r := BeginBlock(b, start, from, to, pageUptodate, answer);
            && |r.buffer.data| == |b.data|
            && (r.err ==> BufferOk(r.buffer, pageUptodate) && !r.pending)
            && (!r.err ==> Preparing(r.buffer, start, from, to, pageUptodate, r.pending))
            && (r.pending ==> InRange(b, start, from, to) && (start < from || start + |b.data| > to))
  {
  }

  lemma ReadBlockPrepares(b: Buffer, start: nat, from: nat, to: nat, ok: bool)
    requires Preparing(b, start, from, to, false, true)
    ensures var r := ReadBlock(b, ok);
            |r.data| == |b.data| && (if ok then Prepared(r, start, from, to, false) else BufferOk(r, false))
  {
  }

  /** `page_zero_new_buffers` on one block. */
  function ZeroNewBlock(b: Buffer, start: nat, from: nat, to: nat, pageUptodate: bool): Buffer {
    if b.isNew && start + |b.data| > from && start < to then
      (if pageUptodate then b else Fill(b, start, from, to, Zero).(uptodate := true)).(isNew := false, dirty := true)
    else b
  }

  /** A new block that is zeroed out is fit to be exposed and to be written. */
  lemma ZeroNewCleans(b: Buffer, start: nat, from: nat, to: nat, pageUptodate: bool)
    requires Prepared(b, start, from, to, pageUptodate)
    ensures var r := ZeroNewBlock(b, start, from, to, pageUptodate);
            && |r.data| == |b.data| && BufferOk(r, pageUptodate)
            && (InRange(b, start, from, to) && !r.uptodate ==> from <= start && start + |b.data| <= to)
  {
  }

  /** `__block_commit_write` on one block. */
  function CommitBlock(b: Buffer, start: nat, from: nat, to: nat): Buffer {
    (if InRange(b, start, from, to) then b.(uptodate := true, dirty := true) else b).(isNew := false)
  }

  lemma CopyKeepsPrepared(b: Buffer, start: nat, from: nat, to: nat, copied: nat, pageUptodate: bool)
    requires Prepared(b, start, from, to, pageUptodate) && from + copied <= to
    ensures var r := Fill(b, start, from, from + copied, User);
            |r.data| == |b.data| && Prepared(r, start, from, to, pageUptodate)
  {
  }

  /** A complete write leaves every block it covers initialised. */
  lemma FullCommitOk(b: Buffer, start: nat, from: nat, to: nat, pageUptodate: bool)
    requires Prepared(b, start, from, to, pageUptodate)
    requires forall j :: 0 <= j < |b.data| && from <= start + j < to ==> b.data[j] == User
    ensures var r := CommitBlock(b, start, from, to);
            |r.data| == |b.data| && BufferOk(r, pageUptodate)
  {
  }

  /** A short write: the part that was copied is committed only if the page was uptodate;
      otherwise nothing is, although a commit of length zero inside a block still marks that
      block uptodate. */
  lemma ShortCommitOk(b: Buffer, start: nat, from: nat, to: nat, kept: nat, pageUptodate: bool)
    requires Prepared(b, start, from, to, pageUptodate) && from + kept <= to && (!pageUptodate ==> kept == 0)
    ensures var z := ZeroNewBlock(b, start, from + kept, to, pageUptodate);
            var r := CommitBlock(z, start, from, from + kept);
            |r.data| == |b.data| && BufferOk(r, pageUptodate) && (pageUptodate ==> z.data == b.data)
  {
    if !pageUptodate {
      ZeroNewCleans(b, start, from, to, pageUptodate);
    }
  }

  // ---- What a write does to one block, from end to end ----

  /** The block has to be asked for, and the file system fails. */
  predicate Refused(b: Buffer, start: nat, from: nat, to: nat, answer: Mapping) {
    InRange(b, start, from, to) && !b.mapped && answer == Fails
  }

  /** The block is on disk, not in memory, and has bytes that the write does not cover. */
  predicate Needed(b: Buffer, start: nat, from: nat, to: nat, pageUptodate: bool, answer: Mapping) {
    && InRange(b, start, from, to) && !pageUptodate && !b.uptodate && (b.mapped || answer == Exists)
    && (start < from || start + |b.data| > to)
  }

  /** The write allocates the block, in a page that is not uptodate. */
  predicate Filled(b: Buffer, start: nat, from: nat, to: nat, pageUptodate: bool, answer: Mapping) {
    InRange(b, start, from, to) && !pageUptodate && !b.mapped && answer == Allocates
  }

  predicate Unreadable(b: Buffer, start: nat, from: nat, to: nat, pageUptodate: bool, answer: Mapping, readOk: bool) {
    Needed(b, start, from, to, pageUptodate, answer) && !readOk
  }

  /** The block makes a write fail: the file system refuses it, or it has to be read and cannot be. */
  predicate Stops(b: Buffer, start: nat, from: nat, to: nat, pageUptodate: bool, answer: Mapping, readOk: bool) {
    Refused(b, start, from, to, answer) || Unreadable(b, start, from, to, pageUptodate, answer, readOk)
  }

  /** The flags of block `b` after a write of `[from, to)` left it as `r`: a dirty block stays dirty, a mapped
      one mapped and an uptodate one uptodate, and a block outside the write is not touched, except that a page
      that is uptodate makes it so. */
  ghost predicate Kept(b: Buffer, r: Buffer, start: nat, from: nat, to: nat, pageUptodate: bool) {
    && |r.data| == |b.data| && (b.dirty ==> r.dirty) && (b.mapped ==> r.mapped) && (b.uptodate ==> r.uptodate)
    && (!InRange(b, start, from, to) ==>
          && r.dirty == b.dirty && r.mapped == b.mapped && r.data == b.data
          && (r.uptodate ==> b.uptodate || pageUptodate))
  }

  /** What the block has in byte `j` when the copy begins, if it will not be copied over. */
  function Held(b: Buffer, start: nat, from: nat, to: nat, pageUptodate: bool, answer: Mapping, j: nat): Origin
    requires j < |b.data|
  {
    if Filled(b, start, from, to, pageUptodate, answer) then Zero
    else if Needed(b, start, from, to, pageUptodate, answer) then Disk
    else b.data[j]
  }

  /** Block `b` has been begun as `c`: it has been read in if it had to be, and is new if it has been allocated. */
  ghost predicate BegunAs(b: Buffer, c: Buffer, start: nat, from: nat, to: nat, pageUptodate: bool, answer: Mapping) {
    && Kept(b, c, start, from, to, pageUptodate) && (pageUptodate ==> c.uptodate)
    && (InRange(b, start, from, to) ==> c.mapped)
    && (c.isNew <==> Filled(b, start, from, to, pageUptodate, answer))
    && forall j :: 0 <= j < |b.data| && !(c.isNew && from <= start + j < to) ==>
         c.data[j] == Held(b, start, from, to, pageUptodate, answer, j)
  }

  /** Block `c` is copied into and ended as `r`: of a new block everything that is not kept is zeroed. */
  ghost predicate EndedAs(c: Buffer, r: Buffer, start: nat, from: nat, len: nat, copied: nat, kept: nat) {
    && Kept(c, r, start, from, from + len, false)
    && forall j :: 0 <= j < |c.data| ==>
         var p := start + j;
         r.data[j] == if c.isNew && from + kept <= p < from + len then Zero
                      else if from <= p < from + copied then User else c.data[j]
  }

  /** Every byte of block `b` after a write that copied `copied` bytes of `len`, and kept `kept` of them. */
  ghost predicate Whole(b: Buffer, r: Buffer, start: nat, from: nat, len: nat, copied: nat, kept: nat,
      pageUptodate: bool, answer: Mapping)
  {
    && Kept(b, r, start, from, from + len, pageUptodate) && (pageUptodate ==> r.uptodate)
    && forall j :: 0 <= j < |b.data| ==>
         var p, filled := start + j, Filled(b, start, from, from + len, pageUptodate, answer);
         r.data[j] == if from <= p < from + copied && !(filled && p >= from + kept) then User
                      else Held(b, start, from, from + len, pageUptodate, answer, j)
  }

  lemma WholeBlock(b: Buffer, c: Buffer, r: Buffer, start: nat, from: nat, len: nat, copied: nat, kept: nat, up: bool,
      answer: Mapping)
    requires BegunAs(b, c, start, from, from + len, up, answer) && EndedAs(c, r, start, from, len, copied, kept)
    requires kept <= copied <= len && (copied == len ==> kept == len)
    requires copied < len ==> kept == if up then copied else 0
    ensures Whole(b, r, start, from, len, copied, kept, up, answer)
  {
  }

  /** In particular a byte of an uptodate block that the write does not cover keeps its value, exactly unless the
      block was a hole that is filled in a page that is not uptodate, and the byte was not zero. */
  lemma UptodateKeptIff(b: Buffer, r: Buffer, start: nat, from: nat, len: nat, copied: nat, kept: nat, up: bool,
      answer: Mapping, j: nat)
    requires Whole(b, r, start, from, len, copied, kept, up, answer) && copied <= len
    requires b.uptodate && j < |b.data| && !(from <= start + j < from + len)
    ensures r.data[j] == b.data[j] <==> !Filled(b, start, from, from + len, up, answer) || b.data[j] == Zero
  {
  }

  /** After a write that failed: a block that could not be read has not changed, and every byte of another one is
      either what it was or what `Held` says. */
  ghost predicate Failed(b: Buffer, r: Buffer, start: nat, from: nat, to: nat, up: bool, answer: Mapping, readOk: bool)
  {
    && Undone(b, r, start, from, to, up, answer)
    && (Unreadable(b, start, from, to, up, answer, readOk) ==> Unread(b, r))
  }

  ghost predicate Undone(b: Buffer, r: Buffer, start: nat, from: nat, to: nat, pageUptodate: bool, answer: Mapping) {
    && Kept(b, r, start, from, to, pageUptodate)
    && forall j :: 0 <= j < |b.data| ==>
         r.data[j] == b.data[j] || r.data[j] == Held(b, start, from, to, pageUptodate, answer, j)
  }

  /** A block that could not be read has not changed. */
  ghost predicate Unread(b: Buffer, r: Buffer) { !r.uptodate && r.data == b.data }

  lemma BeginBlockKeeps(b: Buffer, start: nat, from: nat, to: nat, pageUptodate: bool, answer: Mapping)
    requires BufferOk(b, pageUptodate)
    ensures var r := BeginBlock(b, start, from, to, pageUptodate, answer);
            && Undone(b, r.buffer, start, from, to, pageUptodate, answer)
            && (r.err <==> Refused(b, start, from, to, answer))
            && (r.pending <==> Needed(b, start, from, to, pageUptodate, answer))
            && (r.buffer.isNew ==> Filled(b, start, from, to, pageUptodate, answer))
            && (!r.err && !r.pending ==> BegunAs(b, r.buffer, start, from, to, pageUptodate, answer))
            && (r.pending ==> Unread(b, r.buffer) && !r.buffer.isNew && r.buffer.mapped)
  {
  }

  /** A block that has to be read. */
  lemma ReadBlockKeeps(b: Buffer, r: Buffer, start: nat, from: nat, to: nat, answer: Mapping, ok: bool)
    requires Undone(b, r, start, from, to, false, answer) && Needed(b, start, from, to, false, answer)
    requires Unread(b, r) && !r.raw && !r.isNew && r.mapped
    ensures var r' := ReadBlock(r, ok);
            && Undone(b, r', start, from, to, false, answer) && !r'.isNew
            && if ok then BegunAs(b, r', start, from, to, false, answer) else Unread(b, r')
  {
  }

  lemma ZeroUndoes(b: Buffer, r: Buffer, start: nat, from: nat, to: nat, up: bool, answer: Mapping)
    requires Undone(b, r, start, from, to, up, answer)
    requires r.isNew ==> Filled(b, start, from, to, up, answer)
    ensures Undone(b, ZeroNewBlock(r, start, from, to, up), start, from, to, up, answer)
  {
  }

  /** The copy, what a short one leaves to be zeroed, and the commit. */
  lemma EndsBlock(c: Buffer, k: Buffer, z: Buffer, r: Buffer, start: nat, from: nat, len: nat, copied: nat, kept: nat,
      up: bool)
    requires k == Fill(c, start, from, from + copied, User) && (c.isNew ==> !up) && kept <= copied <= len
    requires z == if copied < len then ZeroNewBlock(k, start, from + kept, from + len, up) else k
    requires r == CommitBlock(z, start, from, from + kept) && (copied == len ==> kept == len)
    ensures EndedAs(c, r, start, from, len, copied, kept)
  {
    ZeroesBlock(k, z, start, from, len, copied, kept, up);
  }

  lemma ZeroesBlock(k: Buffer, z: Buffer, start: nat, from: nat, len: nat, copied: nat, kept: nat, up: bool)
    requires (k.isNew ==> !up) && kept <= copied <= len && (copied == len ==> kept == len)
    requires z == if copied < len then ZeroNewBlock(k, start, from + kept, from + len, up) else k
    ensures Kept(k, z, start, from, from + len, false)
    ensures forall j :: 0 <= j < |k.data| ==>
              z.data[j] == if k.isNew && from + kept <= start + j < from + len then Zero else k.data[j]
  {
  }

  /** A page and its buffers. */
  class Page {
    const bufs: array<Buffer>
    const size: nat
    var uptodate: bool

    constructor (buffers: seq<Buffer>, size: nat, uptodate: bool)
      requires size > 0 && forall b :: b in buffers ==> |b.data| == size && BufferOk(b, uptodate)
      ensures Valid() && this.size == size && this.uptodate == uptodate && bufs[..] == buffers && fresh(bufs)
    {
      bufs := new Buffer[|buffers|](i requires 0 <= i < |buffers| => buffers[i]);
      this.size, this.uptodate := size, uptodate;
    }

    ghost predicate Shape()
      reads this, bufs
    {
      size > 0 && forall i :: 0 <= i < bufs.Length ==> |bufs[i].data| == size
    }

    /** Where block `i` starts in the page. */
    function Start(i: nat): nat { i * size }

    /** Nothing marked uptodate holds garbage, and no freshly allocated block can reach the disk
        or be read back before it is written. */
    ghost predicate Valid()
      reads this, bufs
    {
      Shape() && forall i :: 0 <= i < bufs.Length ==> BufferOk(bufs[i], uptodate)
    }

    ghost predicate Ready(from: nat, to: nat)
      reads this, bufs
    {
      Shape() && forall i :: 0 <= i < bufs.Length ==> Prepared(bufs[i], Start(i), from, to, uptodate)
    }

    ghost predicate Holds(from: nat, to: nat, what: Origin)
      reads this, bufs
    {
      forall i, j :: 0 <= i < bufs.Length && 0 <= j < |bufs[i].data| && from <= Start(i) + j < to ==>
          bufs[i].data[j] == what
    }

    /** Visit the page's circular list of buffers once, changing each. */
    method Sweep(change: (Buffer, nat) -> Buffer)
      modifies bufs
      ensures forall i :: 0 <= i < bufs.Length ==> bufs[i] == change(old(bufs[i]), Start(i))
    {
      var start := 0;
      for i := 0 to bufs.Length
        invariant start == Start(i)
        invariant forall k :: 0 <= k < i ==> bufs[k] == change(old(bufs[k]), Start(k))
        invariant forall k :: i <= k < bufs.Length ==> bufs[k] == old(bufs[k])
      {
        bufs[i] := change(bufs[i], start);
        start := start + size;
      }
    }

    /** The same, but stop at the first error and collect the blocks that wait for a read. */
    method SweepUntil(change: (Buffer, nat, Mapping) -> Begun, answers: seq<Mapping>)
        returns (done: nat, wait: seq<nat>)
      requires |answers| == bufs.Length
      modifies bufs
      ensures done <= bufs.Length
      ensures forall k :: 0 <= k < bufs.Length ==>
        bufs[k] == if k <= done then change(old(bufs[k]), Start(k), answers[k]).buffer else old(bufs[k])
      ensures forall k :: 0 <= k < done ==> !change(old(bufs[k]), Start(k), answers[k]).err
      ensures done < bufs.Length ==> change(old(bufs[done]), Start(done), answers[done]).err
      ensures forall k :: k in wait <==> 0 <= k < done && change(old(bufs[k]), Start(k), answers[k]).pending
      ensures forall x, y :: 0 <= x < y < |wait| ==> wait[x] < wait[y]
    {
      done, wait := 0, [];
      var start, err := 0, false;
      while done < bufs.Length && !err
        invariant 0 <= done <= bufs.Length && start == Start(done)
        invariant forall k :: 0 <= k < bufs.Length ==>
          bufs[k] == if k < done || (err && k == done) then change(old(bufs[k]), Start(k), answers[k]).buffer
              else old(bufs[k])
        invariant forall k :: 0 <= k < done ==> !change(old(bufs[k]), Start(k), answers[k]).err
        invariant err ==> done < bufs.Length && change(old(bufs[done]), Start(done), answers[done]).err
        invariant forall k :: k in wait <==> 0 <= k < done && change(old(bufs[k]), Start(k), answers[k]).pending
        invariant forall x :: 0 <= x < |wait| ==> wait[x] < done
        invariant forall x, y :: 0 <= x < y < |wait| ==> wait[x] < wait[y]
        decreases bufs.Length - done, !err
      {
        var r := change(bufs[done], start, answers[done]);
        bufs[done] := r.buffer;
        err := r.err;
        if !err {
          if r.pending { wait := wait + [done]; }
          done, start := done + 1, start + size;
        }
      }
    }

    lemma {:induction false} StartMonotone(i: nat, j: nat)
      requires i < j
      ensures Start(i) + size <= Start(j)
      decreases j
    {
      assert Start(j) == Start(j - 1) + size;
      if i + 1 < j { StartMonotone(i, j - 1); }
    }

    /** Point `p` of the page lies strictly inside block `i`. */
    ghost predicate Inside(i: nat, p: nat) { Start(i) < p < Start(i) + size }

    /** A point is inside no more than one block. */
    lemma InsideOne(i: nat, j: nat, p: nat)
      requires i < j
      ensures !(Inside(i, p) && Inside(j, p))
    {
      StartMonotone(i, j);
    }

    /** No more than two blocks have an end of the write inside them. */
    lemma AtMostTwoPartial(wait: seq<nat>, from: nat, to: nat)
      requires forall x, y :: 0 <= x < y < |wait| ==> wait[x] < wait[y]
      requires forall x :: 0 <= x < |wait| ==> Inside(wait[x], from) || Inside(wait[x], to)
      ensures |wait| <= 2
    {
      if |wait| > 2 {
        InsideOne(wait[0], wait[1], from);
        InsideOne(wait[0], wait[1], to);
        InsideOne(wait[0], wait[2], from);
        InsideOne(wait[0], wait[2], to);
        InsideOne(wait[1], wait[2], from);
        InsideOne(wait[1], wait[2], to);
      }
    }

    /** The reads that were issued complete, successfully or not. */
    method AwaitReads(wait: seq<nat>, readOk: seq<bool>) returns (failed: bool)
      requires (forall x :: 0 <= x < |wait| ==> wait[x] < bufs.Length) && |readOk| == bufs.Length
      requires forall x, y :: 0 <= x < y < |wait| ==> wait[x] < wait[y]
      modifies bufs
      ensures forall k :: 0 <= k < bufs.Length ==>
        bufs[k] == if k in wait then ReadBlock(old(bufs[k]), readOk[k]) else old(bufs[k])
      ensures failed <==> exists x :: 0 <= x < |wait| && !readOk[wait[x]]
    {
      failed := false;
      var n := |wait|;
      while n > 0
        invariant 0 <= n <= |wait|
        invariant forall k :: 0 <= k < bufs.Length ==>
          bufs[k] == if k in wait[n..] then ReadBlock(old(bufs[k]), readOk[k]) else old(bufs[k])
        invariant failed <==> exists x :: n <= x < |wait| && !readOk[wait[x]]
      {
        n := n - 1;
        var w := wait[n];
        assert wait[n..] == [w] + wait[n + 1..];
        bufs[w] := ReadBlock(bufs[w], readOk[w]);
        if !readOk[w] { failed := true; }
      }
      assert wait[0..] == wait;
    }

    /** `__block_write_begin`: blocks that the write covers only in part are read in, which takes
        at most two reads at a time.  On failure, blocks that were allocated are zeroed out. */
    method Begin(from: nat, to: nat, answers: seq<Mapping>, readOk: seq<bool>) returns (err: bool, waits: nat)
      requires Valid() && from <= to && |answers| == |readOk| == bufs.Length
      modifies bufs
      ensures waits <= 2
      ensures if err then Valid() else Ready(from, to)
      ensures err <==> exists k :: 0 <= k < bufs.Length
                         && Stops(old(bufs[k]), Start(k), from, to, uptodate, answers[k], readOk[k])
      ensures forall k :: 0 <= k < bufs.Length ==>
                if err then Failed(old(bufs[k]), bufs[k], Start(k), from, to, uptodate, answers[k], readOk[k])
                else BegunAs(old(bufs[k]), bufs[k], Start(k), from, to, uptodate, answers[k])
    {
      var up := uptodate;
      var done, wait := SweepUntil((b: Buffer, start: nat, answer: Mapping) =>
          BeginBlock(b, start, from, to, up, answer), answers);
      forall k | 0 <= k <= done && k < bufs.Length
        ensures |bufs[k].data| == size
        ensures k == done ==> BufferOk(bufs[k], up)
        ensures k < done ==> Preparing(bufs[k], Start(k), from, to, up, k in wait)
        ensures k in wait ==> Inside(k, from) || Inside(k, to)
        ensures Undone(old(bufs[k]), bufs[k], Start(k), from, to, up, answers[k])
        ensures bufs[k].isNew ==> Filled(old(bufs[k]), Start(k), from, to, up, answers[k])
        ensures k < done ==> !Refused(old(bufs[k]), Start(k), from, to, answers[k])
        ensures k == done ==> Refused(old(bufs[k]), Start(k), from, to, answers[k])
        ensures k < done ==> (k in wait <==> Needed(old(bufs[k]), Start(k), from, to, up, answers[k]))
        ensures k < done && k !in wait ==> BegunAs(old(bufs[k]), bufs[k], Start(k), from, to, up, answers[k])
        ensures k in wait ==> Unread(old(bufs[k]), bufs[k]) && !bufs[k].isNew && bufs[k].mapped
      {
        BeginBlockPrepares(old(bufs[k]), Start(k), from, to, up, answers[k]);
        BeginBlockKeeps(old(bufs[k]), Start(k), from, to, up, answers[k]);
      }
      AtMostTwoPartial(wait, from, to);
      waits := |wait|;
      label Reading:
      var failed := AwaitReads(wait, readOk);
      forall k | 0 <= k < done
        ensures |bufs[k].data| == size
        ensures Prepared(bufs[k], Start(k), from, to, up) || (failed && BufferOk(bufs[k], up))
        ensures Undone(old(bufs[k]), bufs[k], Start(k), from, to, up, answers[k])
        ensures bufs[k].isNew ==> Filled(old(bufs[k]), Start(k), from, to, up, answers[k])
        ensures failed || BegunAs(old(bufs[k]), bufs[k], Start(k), from, to, up, answers[k])
        ensures k in wait && !readOk[k] ==> Unread(old(bufs[k]), bufs[k]) && !bufs[k].isNew
      {
        if k in wait {
          ReadBlockPrepares(old@Reading(bufs[k]), Start(k), from, to, readOk[k]);
          ReadBlockKeeps(old(bufs[k]), old@Reading(bufs[k]), Start(k), from, to, answers[k], readOk[k]);
        }
      }
      err := failed || done < bufs.Length;
      if err {
        forall k | 0 <= k < bufs.Length
          ensures var z := ZeroNewBlock(bufs[k], Start(k), from, to, up);
                  Undone(old(bufs[k]), z, Start(k), from, to, up, answers[k])
        {
          ZeroUndoes(old(bufs[k]), bufs[k], Start(k), from, to, up, answers[k]);
        }
        ZeroAll(from, to);
      }
    }

    /** What a failing begin does to the blocks: prepared or untouched, all end up at rest. */
    method ZeroAll(from: nat, to: nat)
      requires Shape()
      requires forall i :: 0 <= i < bufs.Length ==>
               Prepared(bufs[i], Start(i), from, to, uptodate) || BufferOk(bufs[i], uptodate)
      modifies bufs
      ensures Valid()
      ensures forall i :: 0 <= i < bufs.Length ==> bufs[i] == ZeroNewBlock(old(bufs[i]), Start(i), from, to, uptodate)
    {
      forall i | 0 <= i < bufs.Length
        ensures var r := ZeroNewBlock(bufs[i], Start(i), from, to, uptodate); |r.data| == size && BufferOk(r, uptodate)
      {
        if Prepared(bufs[i], Start(i), from, to, uptodate) { ZeroNewCleans(bufs[i], Start(i), from, to, uptodate); }
      }
      var up := uptodate;
      Sweep((b: Buffer, start: nat) => ZeroNewBlock(b, start, from, to, up));
    }

    /** The caller copies `copied` bytes of user data into the page. */
    method Copy(from: nat, to: nat, copied: nat)
      requires Ready(from, to) && from + copied <= to
      modifies bufs
      ensures Ready(from, to) && Holds(from, from + copied, User)
      ensures forall i :: 0 <= i < bufs.Length ==> bufs[i] == Fill(old(bufs[i]), Start(i), from, from + copied, User)
    {
      forall i | 0 <= i < bufs.Length
        ensures var r := Fill(bufs[i], Start(i), from, from + copied, User);
                |r.data| == size && Prepared(r, Start(i), from, to, uptodate)
      {
        CopyKeepsPrepared(bufs[i], Start(i), from, to, copied, uptodate);
      }
      Sweep((b: Buffer, start: nat) => Fill(b, start, from, from + copied, User));
    }

    /** Every block that has a byte of `[from, to)` is uptodate and will be written back. */
    ghost predicate WillReachDisk(from: nat, to: nat)
      reads this, bufs
    {
      forall i :: 0 <= i < bufs.Length && from < to && Start(i) < to && from < Start(i) + size ==>
          bufs[i].dirty && bufs[i].uptodate
    }

    /** `__block_commit_write`: the page becomes uptodate if every buffer is. */
    method Commit(from: nat, to: nat)
      requires Committable(from, to)
      modifies this`uptodate, bufs
      ensures Valid()
      ensures forall i :: 0 <= i < bufs.Length ==> bufs[i] == CommitBlock(old(bufs[i]), Start(i), from, to)
      ensures forall i :: 0 <= i < bufs.Length ==> bufs[i].data == old(bufs[i].data)
      ensures WillReachDisk(from, to)
      ensures uptodate <==> old(uptodate) || forall i :: 0 <= i < bufs.Length ==> bufs[i].uptodate
    {
      Sweep((b: Buffer, start: nat) => CommitBlock(b, start, from, to));
      var partial := false;
      for i := 0 to bufs.Length
        invariant partial <==> exists k :: 0 <= k < i && !bufs[k].uptodate
      {
        if !bufs[i].uptodate { partial := true; }
      }
      if !partial { uptodate := true; }
    }

    /** The blocks are fit for a commit of `[from, to)`. */
    ghost predicate Committable(from: nat, to: nat)
      reads this, bufs
    {
      Shape() && forall i :: 0 <= i < bufs.Length ==> BufferOk(CommitBlock(bufs[i], Start(i), from, to), uptodate)
    }

    /** A short write: new blocks are zeroed from where the copy stopped. */
    method ZeroShort(from: nat, len: nat, kept: nat)
      requires Ready(from, from + len) && kept <= len && (!uptodate ==> kept == 0) && Holds(from, from + kept, User)
      modifies bufs
      ensures Committable(from, from + kept) && Holds(from, from + kept, User)
      ensures forall i :: 0 <= i < bufs.Length ==>
                bufs[i] == ZeroNewBlock(old(bufs[i]), Start(i), from + kept, from + len, uptodate)
    {
      forall i | 0 <= i < bufs.Length
        ensures var z := ZeroNewBlock(bufs[i], Start(i), from + kept, from + len, uptodate);
                && |z.data| == size && BufferOk(CommitBlock(z, Start(i), from, from + kept), uptodate)
                && (uptodate ==> z.data == bufs[i].data)
      {
        ShortCommitOk(bufs[i], Start(i), from, from + len, kept, uptodate);
      }
      var up, lo := uptodate, from + kept;
      Sweep((b: Buffer, start: nat) => ZeroNewBlock(b, start, lo, from + len, up));
    }

    /** `block_write_end`. */
    method End(from: nat, len: nat, copied: nat) returns (kept: nat)
      requires Ready(from, from + len) && copied <= len && Holds(from, from + copied, User)
      modifies this`uptodate, bufs
      ensures Valid() && kept == if copied < len && !old(uptodate) then 0 else copied
      ensures Holds(from, from + kept, User) && WillReachDisk(from, from + kept)
      ensures forall i :: 0 <= i < bufs.Length ==>
                var k := old(bufs[i]);
                var z := if copied < len then ZeroNewBlock(k, Start(i), from + kept, from + len, old(uptodate)) else k;
                bufs[i] == CommitBlock(z, Start(i), from, from + kept)
    {
      kept := copied;
      if copied < len {
        if !uptodate { kept := 0; }
        ZeroShort(from, len, kept);
      } else {
        forall i | 0 <= i < bufs.Length ensures BufferOk(CommitBlock(bufs[i], Start(i), from, from + len), uptodate) {
          FullCommitOk(bufs[i], Start(i), from, from + len, uptodate);
        }
      }
      Commit(from, from + kept);
    }

    /** The copy and the end of a write. */
    method Finish(from: nat, len: nat, copied: nat) returns (kept: nat)
      requires Ready(from, from + len) && copied <= len
      modifies this`uptodate, bufs
      ensures Valid() && kept == if copied < len && !old(uptodate) then 0 else copied
      ensures Holds(from, from + kept, User) && WillReachDisk(from, from + kept)
      ensures forall i :: 0 <= i < bufs.Length ==>
                EndedAs(old(bufs[i]), bufs[i], Start(i), from, len, copied, kept)
    {
      Copy(from, from + len, copied);
      label Copied:
      kept := End(from, len, copied);
      forall i | 0 <= i < bufs.Length ensures EndedAs(old(bufs[i]), bufs[i], Start(i), from, len, copied, kept) {
        ghost var c, k := old(bufs[i]), old@Copied(bufs[i]);
        ghost var z := if copied < len then ZeroNewBlock(k, Start(i), from + kept, from + len, old(uptodate)) else k;
        assert Prepared(c, Start(i), from, from + len, old(uptodate));
        EndsBlock(c, k, z, bufs[i], Start(i), from, len, copied, kept, old(uptodate));
      }
    }

    /** The same, with what the blocks `was` were before the write began. */
    method FinishBegun(from: nat, len: nat, copied: nat, ghost was: seq<Buffer>, ghost answers: seq<Mapping>)
        returns (kept: nat)
      requires Ready(from, from + len) && copied <= len && |was| == |answers| == bufs.Length
      requires forall k :: 0 <= k < bufs.Length ==>
                 BegunAs(was[k], bufs[k], Start(k), from, from + len, uptodate, answers[k])
      modifies this`uptodate, bufs
      ensures Valid() && kept == if copied < len && !old(uptodate) then 0 else copied
      ensures Holds(from, from + kept, User) && WillReachDisk(from, from + kept)
      ensures forall k :: 0 <= k < bufs.Length ==>
                Whole(was[k], bufs[k], Start(k), from, len, copied, kept, old(uptodate), answers[k])
    {
      kept := Finish(from, len, copied);
      forall k | 0 <= k < bufs.Length
        ensures Whole(was[k], bufs[k], Start(k), from, len, copied, kept, old(uptodate), answers[k])
      {
        WholeBlock(was[k], old(bufs[k]), bufs[k], Start(k), from, len, copied, kept, old(uptodate), answers[k]);
      }
    }

    /** A whole write, whatever the file system, the disk and the copy do.  Afterwards nothing that is marked
        uptodate holds uninitialised bytes, and no block that was allocated on the way can be exposed.  What is
        reported as written is in the page and will reach the disk, and the bytes around it are what they were,
        or have been read in, or are the zeros of a new block.  It fails exactly if the file system refuses a
        block, or a block that has to be read cannot be. */
    method Write(from: nat, len: nat, copied: nat, answers: seq<Mapping>, readOk: seq<bool>)
        returns (err: bool, kept: nat)
      requires Valid() && copied <= len && |answers| == |readOk| == bufs.Length
      modifies this`uptodate, bufs
      ensures Valid()
      ensures err ==> kept == 0
      ensures !err ==> kept == if copied < len && !old(uptodate) then 0 else copied
      ensures Holds(from, from + kept, User) && WillReachDisk(from, from + kept)
      ensures err <==> exists k :: 0 <= k < bufs.Length
                         && Stops(old(bufs[k]), Start(k), from, from + len, old(uptodate), answers[k], readOk[k])
      ensures forall k :: 0 <= k < bufs.Length ==>
                if err then
                  Failed(old(bufs[k]), bufs[k], Start(k), from, from + len, old(uptodate), answers[k], readOk[k])
                else Whole(old(bufs[k]), bufs[k], Start(k), from, len, copied, kept, old(uptodate), answers[k])
    {
      var waits;
      kept := 0;
      err, waits := Begin(from, from + len, answers, readOk);
      if !err {
        kept := FinishBegun(from, len, copied, old(bufs[..]), answers);
      }
    }
  }
}
