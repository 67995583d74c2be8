/** The block reader behind hashCalculator::getCurrentHash, as pure functions.
    A file is a sequence of bytes; the std::ifstream a calculator owns is its read
    offset and whether it is still open; `finish` is the calculator's m_finish flag. */
module Reader {

  type Byte = bv8

  /** The character '0' that fills the block buffer before each read. */
  const Pad: Byte := 0x30

  /** Stream position, open/closed state and the m_finish flag of one calculator. */
  datatype Stream = Stream(offset: nat, isOpen: bool, finish: bool)

  /** The state right after construction: offset 0, open iff the file could be opened,
      not finished. */
  function Initial(readable: bool): Stream {
    Stream(0, readable, false)
  }

  /** Whether std::ifstream::read of `s` bytes succeeds: the stream is open and at
      least `s` bytes remain. */
  predicate ReadOk(file: seq<Byte>, s: nat, st: Stream) {
    st.isOpen && st.offset + s <= |file|
  }

  /** The buffer hashed by one call: `s` bytes, starting with the unread bytes of the
      file and padded with '0' where the file (or an unopened/closed stream) has none. */
  function Block(file: seq<Byte>, s: nat, st: Stream): (buf: seq<Byte>)
    ensures |buf| == s
    ensures forall i :: 0 <= i < s ==>
      buf[i] == if st.isOpen && st.offset + i < |file| then file[st.offset + i] else Pad
  {
    if ReadOk(file, s, st) then file[st.offset .. st.offset + s]
    else if st.isOpen && st.offset <= |file| then file[st.offset..] + seq(s - (|file| - st.offset), _ => Pad)
    else seq(s, _ => Pad)
  }

  /** The state after one call of getCurrentHash: a full read moves the offset on by `s`;
      a short read consumes what is left, sets m_finish and closes the stream. */
  function Advance(file: seq<Byte>, s: nat, st: Stream): (next: Stream)
    ensures st.finish ==> next.finish
    ensures next.finish ==> !next.isOpen || st.finish
    ensures next.finish <==> st.finish || !ReadOk(file, s, st)
  {
    if ReadOk(file, s, st) then Stream(st.offset + s, true, st.finish)
    else Stream(if st.isOpen && st.offset <= |file| then |file| else st.offset, false, true)
  }

  /** The state after `k` calls. */
  function Run(file: seq<Byte>, s: nat, st: Stream, k: nat): Stream
    decreases k
  {
    if k == 0 then st else Advance(file, s, Run(file, s, st, k - 1))
  }

  /** How many more calls this calculator can take before it is finished: the measure
      that makes the matcher's loop terminate. */
  function Remaining(file: seq<Byte>, s: nat, st: Stream): nat {
    if st.finish then 0
    else if st.isOpen && st.offset <= |file| && s > 0 then (|file| - st.offset) / s + 1
    else 1
  }

  lemma {:induction false} MulAtLeast(d: nat, s: nat)
    requires d >= 1
    ensures d * s >= s
  {
    if d > 1 {
      MulAtLeast(d - 1, s);
      assert d * s == (d - 1) * s + s;
    }
  }

  lemma DivUnique(n: nat, s: nat, q: nat, r: nat)
    requires 0 <= r < s && n == q * s + r
    ensures n / s == q
  {
    var q', r' := n / s, n % s;
    assert n == q' * s + r' && 0 <= r' < s;
    if q' < q {
      var d := q - q';
      assert d * s == q * s - q' * s;
      MulAtLeast(d, s);
    } else if q < q' {
      var d := q' - q;
      assert d * s == q' * s - q * s;
      MulAtLeast(d, s);
    }
  }

  lemma DivStep(x: nat, s: nat)
    requires 0 < s <= x
    ensures (x - s) / s == x / s - 1
  {
    var q, r := (x - s) / s, (x - s) % s;
    assert x - s == q * s + r && 0 <= r < s;
    assert x == (q + 1) * s + r;
    DivUnique(x, s, q + 1, r);
  }

  lemma MulLeIff(k: nat, s: nat, n: nat)
    requires 0 < s
    ensures k * s <= n <==> k <= n / s
  {
    var q, r := n / s, n % s;
    assert n == q * s + r && 0 <= r < s;
    if k <= q {
      assert k * s <= q * s;
    } else {
      assert k >= q + 1;
      assert k * s >= (q + 1) * s == q * s + s;
    }
  }

  /** A call never increases the measure, and decreases it while the calculator is not
      finished and the block size is positive. */
  lemma AdvanceDecreases(file: seq<Byte>, s: nat, st: Stream)
    ensures Remaining(file, s, Advance(file, s, st)) <= Remaining(file, s, st)
    ensures s > 0 && !st.finish ==> Remaining(file, s, Advance(file, s, st)) < Remaining(file, s, st)
  {
    if ReadOk(file, s, st) && s > 0 && !st.finish {
      DivStep(|file| - st.offset, s);
    }
  }

  /** After k calls on a readable file of n bytes with block size s: while k <= n div s
      every call was a full read, so the offset is k * s and the stream is open; from then
      on the stream is closed and finished. */
  lemma {:induction false} RunReadable(file: seq<Byte>, s: nat, k: nat)
    requires s > 0
    ensures Run(file, s, Initial(true), k) ==
      if k <= |file| / s then Stream(k * s, true, false) else Stream(|file|, false, true)
  {
    if k > 0 {
      RunReadable(file, s, k - 1);
      MulLeIff(k, s, |file|);
      MulLeIff(k - 1, s, |file|);
      assert (k - 1) * s + s == k * s;
    }
  }

  /** The reader is finished after k calls iff k > n div s. */
  lemma FinishedAfter(file: seq<Byte>, s: nat, k: nat)
    requires s > 0
    ensures Run(file, s, Initial(true), k).finish <==> k > |file| / s
  {
    RunReadable(file, s, k);
  }

  /** A file whose size is a multiple of the block size needs one extra, empty read:
      after n div s calls every byte is consumed and yet the reader is not finished. */
  lemma ExactMultipleNeedsExtraRead(file: seq<Byte>, s: nat)
    requires s > 0 && |file| % s == 0
    ensures var st := Run(file, s, Initial(true), |file| / s);
      st.offset == |file| && !st.finish && Advance(file, s, st).finish
  {
    RunReadable(file, s, |file| / s);
  }

  /** The (k+1)-th call hashes bytes k*s .. k*s+s-1 of the file, padded with '0' past its
      end; once the reader is finished every call hashes s '0' characters. */
  lemma BlockOfCall(file: seq<Byte>, s: nat, k: nat, i: nat)
    requires s > 0 && i < s
    ensures Block(file, s, Run(file, s, Initial(true), k))[i] ==
      if k <= |file| / s && k * s + i < |file| then file[k * s + i] else Pad
  {
    RunReadable(file, s, k);
  }

  /** Two files of one size whose k-th blocks agree hash the same buffer on the (k+1)-th
      call, whatever bytes came before: the buffer depends on that block alone. */
  lemma BlocksAgree(fx: seq<Byte>, fy: seq<Byte>, s: nat, k: nat)
    requires s > 0 && |fx| == |fy|
    requires forall i :: k * s <= i < k * s + s && i < |fx| ==> fx[i] == fy[i]
    ensures Block(fx, s, Run(fx, s, Initial(true), k)) == Block(fy, s, Run(fy, s, Initial(true), k))
  {
    forall i | 0 <= i < s
      ensures Block(fx, s, Run(fx, s, Initial(true), k))[i] == Block(fy, s, Run(fy, s, Initial(true), k))[i]
    {
      BlockOfCall(fx, s, k, i);
      BlockOfCall(fy, s, k, i);
    }
  }

  /** A file that cannot be opened is finished after the first call, and every call
      hashes s '0' characters. */
  lemma {:induction false} RunUnreadable(file: seq<Byte>, s: nat, k: nat)
    ensures Run(file, s, Initial(false), k) == Stream(0, false, k > 0)
    ensures Block(file, s, Run(file, s, Initial(false), k)) == seq(s, _ => Pad)
  {
    if k > 0 {
      RunUnreadable(file, s, k - 1);
    }
  }

  /** A finished reader stays finished, with the stream closed, whatever is called next. */
  lemma {:induction false} FinishedIsFinal(file: seq<Byte>, s: nat, st: Stream, k: nat)
    requires st.finish && !st.isOpen
    ensures Run(file, s, st, k) == st
  {
    if k > 0 {
      FinishedIsFinal(file, s, st, k - 1);
    }
  }

  /** On a freshly opened file the measure is exactly the number of calls after which
      the reader is finished: one fewer call leaves it unfinished. */
  lemma RemainingIsCallsLeft(file: seq<Byte>, s: nat)
    requires s > 0
    ensures Remaining(file, s, Initial(true)) == |file| / s + 1
    ensures Run(file, s, Initial(true), Remaining(file, s, Initial(true))).finish
    ensures !Run(file, s, Initial(true), Remaining(file, s, Initial(true)) - 1).finish
  {
    FinishedAfter(file, s, |file| / s + 1);
    FinishedAfter(file, s, |file| / s);
  }
}
