/** The audio sample queue that bridges capture, playback and analysis, and
    the size guard of the spectral transform. */
module AudioProcessor {
  import opened Common

  const MAX_SAMPLE_VALUE: int := 32767
  const RATE: int := 44100
  const CHUNK: int := 64
  const FFTLEN: int := 65536

  /** A signed 16-bit sample (`short`). */
  type Sample = x: int | -32768 <= x <= 32767

  // ---------------------------------------------------------------------------
  // The ring: slots modulo the queue length
  // ---------------------------------------------------------------------------

  /** An index at most one lap outside `[0, len)` wraps back into it. */
  lemma Wrap(x: int, len: int)
    requires 0 < len && -len <= x < 2 * len
    ensures x % len == if x < 0 then x + len else if x < len then x else x - len
  {
  }

  /** Moving the write index `n` slots on lengthens the queue by `n`, provided it stays short of a full lap. */
  lemma DistanceAfterWrite(i: int, o: int, len: int, n: nat)
    requires 0 <= i < len && 0 <= o < len && (i - o) % len + n < len
    ensures ((i + n) % len - o) % len == (i - o) % len + n
  {
    Wrap(i - o, len);
    Wrap(i + n, len);
    Wrap((i + n) % len - o, len);
  }

  /** Moving the read index `n` slots on shortens the queue by `n`, provided `n` are queued. */
  lemma DistanceAfterRead(i: int, o: int, len: int, n: nat)
    requires 0 <= i < len && 0 <= o < len && n <= (i - o) % len
    ensures (i - (o + n) % len) % len == (i - o) % len - n
  {
    Wrap(i - o, len);
    Wrap(o + n, len);
    Wrap(i - (o + n) % len, len);
  }

  /** The `count` samples of the ring `buf` starting at slot `first`, in order. */
  ghost function Queued(buf: seq<Sample>, first: int, count: nat): (s: seq<Sample>)
    requires 0 < |buf| && count <= |buf|
    ensures |s| == count
  {
    seq(count, k requires 0 <= k < count => buf[(first + k) % |buf|])
  }

  /** The ring `buf` after `data` is written into it slot by slot from `first` on, wrapping around. */
  ghost function Written(buf: seq<Sample>, first: int, data: seq<Sample>): (r: seq<Sample>)
    requires 0 <= first < |buf| && |data| < |buf|
    ensures |r| == |buf|
  {
    seq(|buf|, j requires 0 <= j < |buf| =>
      var d := (j - first) % |buf|; if d < |data| then data[d] else buf[j])
  }

  /** Writing puts `data[i]` into slot `(first + i) % |buf|`. */
  lemma WrittenSlots(buf: seq<Sample>, first: int, data: seq<Sample>)
    requires 0 <= first < |buf| && |data| < |buf|
    ensures forall i :: 0 <= i < |data| ==> Written(buf, first, data)[(first + i) % |buf|] == data[i]
  {
    forall i | 0 <= i < |data|
      ensures Written(buf, first, data)[(first + i) % |buf|] == data[i]
    {
      WrittenSlot(buf, first, data, i);
    }
  }

  /** Writing leaves every slot outside the `|data|` written ones alone. */
  lemma WrittenElsewhere(buf: seq<Sample>, first: int, data: seq<Sample>)
    requires 0 <= first < |buf| && |data| < |buf|
    ensures forall j :: 0 <= j < |buf| && (j - first) % |buf| >= |data| ==> Written(buf, first, data)[j] == buf[j]
  {
  }

  lemma WrittenSlot(buf: seq<Sample>, first: int, data: seq<Sample>, i: int)
    requires 0 <= first < |buf| && |data| < |buf| && 0 <= i < |data|
    ensures Written(buf, first, data)[(first + i) % |buf|] == data[i]
  {
    Wrap(first + i, |buf|);
    Wrap((first + i) % |buf| - first, |buf|);
  }

  /** Writing one more sample is one more slot update. */
  lemma WrittenStep(buf: seq<Sample>, first: int, data: seq<Sample>, x: Sample)
    requires 0 <= first < |buf| && |data| + 1 < |buf|
    ensures Written(buf, first, data)[(first + |data|) % |buf| := x] == Written(buf, first, data + [x])
  {
    var len := |buf|;
    Wrap(first + |data|, len);
    Wrap((first + |data|) % len - first, len);
    forall j | 0 <= j < len
      ensures Written(buf, first, data)[(first + |data|) % len := x][j] == Written(buf, first, data + [x])[j]
    {
      Wrap(j - first, len);
    }
  }

  /** Writing nothing leaves the ring as it was. */
  lemma WrittenNothing(buf: seq<Sample>, first: int)
    requires 0 <= first < |buf|
    ensures Written(buf, first, []) == buf
  {
  }

  /** Writing at the end of a queue appends to it and keeps what was queued. */
  lemma QueuedAfterWrite(buf: seq<Sample>, first: int, count: nat, data: seq<Sample>)
    requires 0 <= first < |buf| && count + |data| < |buf|
    ensures Queued(Written(buf, (first + count) % |buf|, data), first, count + |data|) == Queued(buf, first, count) + data
  {
    var len := |buf|;
    var a := (first + count) % len;
    Wrap(first + count, len);
    forall k | 0 <= k < count + |data|
      ensures Queued(Written(buf, a, data), first, count + |data|)[k] == (Queued(buf, first, count) + data)[k]
    {
      Wrap(first + k, len);
      Wrap((first + k) % len - a, len);
    }
  }

  /** Reading `n` samples moves the start of the queue `n` slots on. */
  lemma QueuedAfterRead(buf: seq<Sample>, first: int, count: nat, n: nat)
    requires 0 <= first < |buf| && n <= count <= |buf|
    ensures Queued(buf, (first + n) % |buf|, count - n) == Queued(buf, first, count)[n..]
  {
    var len := |buf|;
    Wrap(first + n, len);
    forall k | 0 <= k < count - n
      ensures Queued(buf, (first + n) % len, count - n)[k] == Queued(buf, first, count)[n..][k]
    {
      Wrap((first + n) % len + k, len);
      Wrap(first + n + k, len);
    }
  }

  /** The last `n` queued samples are the `n` slots just before the end of the queue. */
  lemma QueuedTail(buf: seq<Sample>, first: int, count: nat, n: nat)
    requires 0 <= first < |buf| && n <= count < |buf|
    ensures Queued(buf, first, count)[count - n..] == Queued(buf, (first + count) % |buf| - n, n)
  {
    var len := |buf|;
    var tail, latest := Queued(buf, first, count)[count - n..], Queued(buf, (first + count) % len - n, n);
    Wrap(first + count, len);
    forall k | 0 <= k < n
      ensures tail[k] == latest[k]
    {
      Wrap(first + count - n + k, len);
      Wrap((first + count) % len - n + k, len);
    }
  }

  /**
   * A fixed-capacity circular buffer of samples. `inpos` is where the next
   * sample is written, `outpos` where the next one is read; one slot is always
   * kept free, so `inpos == outpos` means empty.
   */
  class AudioQueue {
    const len: int
    const audio: array<Sample>
    var inpos: int
    var outpos: int

    ghost predicate Valid()
      reads this
    {
      0 < len && audio.Length == len && 0 <= inpos < len && 0 <= outpos < len
    }

    /** The number of queued samples: the distance from `outpos` forward to `inpos`. */
    function Used(): (u: int)
      reads this
      requires Valid()
      ensures 0 <= u < len
      ensures (outpos + u) % len == inpos
    {
      Wrap(inpos - outpos, len);
      Wrap(outpos + (inpos - outpos) % len, len);
      (inpos - outpos) % len
    }

    /** The queued samples, oldest first. */
    ghost function Contents(): (s: seq<Sample>)
      reads this, audio
      requires Valid()
      ensures |s| == Used() < len
    {
      Queued(audio[..], outpos, Used())
    }

    constructor Init(queueLength: int)
      requires queueLength > 0
      ensures Valid() && fresh(audio)
      ensures len == queueLength && inpos == 0 && outpos == 0
      ensures Contents() == []
    {
      len := queueLength;
      audio := new Sample[queueLength];
      inpos, outpos := 0, 0;
    }

    /** The C++ constructor: a non-positive length throws invalid_argument, otherwise the queue starts empty. */
    static method Create(queueLength: int) returns (r: Result<AudioQueue>)
      ensures r.Failure? <==> queueLength <= 0
      ensures r.Failure? ==> r.error == InvalidArgument
      ensures r.Success? ==> fresh(r.value) && fresh(r.value.audio) && r.value.Valid()
      ensures r.Success? ==> r.value.len == queueLength && r.value.inpos == 0 && r.value.outpos == 0
      ensures r.Success? ==> r.value.Contents() == []
    {
      if queueLength <= 0 {
        return Failure(InvalidArgument);
      }
      var q := new AudioQueue.Init(queueLength);
      r := Success(q);
    }

    /** Whether `n` samples can be read: exactly when at least `n` are queued. */
    function DataAvailable(n: int): (b: bool)
      reads this
      requires Valid()
      ensures b <==> Used() >= n
    {
      Wrap(inpos - outpos, len);
      if inpos >= outpos then inpos - outpos >= n else inpos + len - outpos >= n
    }

    /** Whether `n` samples can be written: strictly more than `n` free slots, so one always stays free. */
    function SpaceAvailable(n: int): (b: bool)
      reads this
      requires Valid()
      ensures b <==> len - Used() > n
    {
      Wrap(inpos - outpos, len);
      if inpos >= outpos then outpos + len - inpos > n else outpos - inpos > n
    }

    /** validate_space: throws overflow_error unless there is space for `n` samples. */
    function ValidateSpace(n: int): (o: Outcome)
      reads this
      requires Valid()
      ensures o.Pass? <==> n <= len - 1 - Used()
      ensures o.Fail? ==> o.error == Overflow
    {
      if !SpaceAvailable(n) then Fail(Overflow) else Pass
    }

    /** validate_data: throws underflow_error unless `n` samples are queued. */
    function ValidateData(n: int): (o: Outcome)
      reads this
      requires Valid()
      ensures o.Pass? <==> n <= Used()
      ensures o.Fail? ==> o.error == Underflow
    {
      if !DataAvailable(n) then Fail(Underflow) else Pass
    }

    /**
     * push: writes `input[..n]` behind the queued samples and advances `inpos`,
     * or throws overflow_error and changes nothing.
     */
    method Push(input: array<Sample>, n: nat) returns (o: Outcome)
      requires Valid() && n <= input.Length && input != audio
      modifies this`inpos, audio
      ensures Valid() && outpos == old(outpos)
      ensures o == old(ValidateSpace(n))
      ensures o.Fail? ==> inpos == old(inpos) && unchanged(audio)
      ensures o.Pass? ==> inpos == (old(inpos) + n) % len
      ensures o.Pass? ==> audio[..] == Written(old(audio[..]), old(inpos), input[..n])
      ensures Contents() == if o.Pass? then old(Contents()) + input[..n] else old(Contents())
    {
      o := ValidateSpace(n);
      if o.Fail? {
        return;
      }
      ghost var buf, a, u := audio[..], inpos, Used();
      Write(input, n);
      inpos := (inpos + n) % len;
      DistanceAfterWrite(a, outpos, len, n);
      QueuedAfterWrite(buf, outpos, u, input[..n]);
    }

    /** The copy loop of push: `input[..n]` into the slots from `inpos` on. */
    method Write(input: array<Sample>, n: nat)
      requires Valid() && n < len && n <= input.Length && input != audio
      modifies audio
      ensures audio[..] == Written(old(audio[..]), inpos, input[..n])
    {
      ghost var buf := audio[..];
      WrittenNothing(buf, inpos);
      var i := 0;
      while i < n
        invariant 0 <= i <= n
        invariant audio[..] == Written(buf, inpos, input[..i])
      {
        WrittenStep(buf, inpos, input[..i], input[i]);
        audio[(inpos + i) % len] := input[i];
        assert input[..i + 1] == input[..i] + [input[i]];
        i := i + 1;
      }
    }

    /**
     * pop: copies the `n` oldest samples to `output` and advances `outpos`,
     * or throws underflow_error and changes nothing.
     */
    method Pop(output: array<Sample>, n: nat) returns (o: Outcome)
      requires Valid() && n <= output.Length && output != audio
      modifies this`outpos, output
      ensures Valid() && inpos == old(inpos) && unchanged(audio)
      ensures o == old(ValidateData(n))
      ensures o.Fail? ==> outpos == old(outpos) && unchanged(output)
      ensures o.Pass? ==> outpos == (old(outpos) + n) % len
      ensures o.Pass? ==> output[..n] == old(Contents())[..n] && output[n..] == old(output[n..])
      ensures Contents() == if o.Pass? then old(Contents())[n..] else old(Contents())
    {
      o := ValidateData(n);
      if o.Fail? {
        return;
      }
      ghost var before, b, u := Contents(), outpos, Used();
      var i := 0;
      while i < n
        invariant 0 <= i <= n
        invariant outpos == b
        invariant output[..i] == before[..i]
        invariant output[n..] == old(output[n..])
      {
        output[i] := audio[(outpos + i) % len];
        assert output[..i + 1] == output[..i] + [output[i]];
        assert before[..i + 1] == before[..i] + [before[i]];
        i := i + 1;
      }
      outpos := (outpos + n) % len;
      DistanceAfterRead(inpos, b, len, n);
      QueuedAfterRead(audio[..], b, u, n);
    }

    /** peek: yields what pop would yield, changing nothing but `output`. */
    method Peek(output: array<Sample>, n: nat) returns (o: Outcome)
      requires Valid() && n <= output.Length && output != audio
      modifies output
      ensures o == ValidateData(n)
      ensures o.Fail? ==> unchanged(output)
      ensures o.Pass? ==> output[..n] == Contents()[..n] && output[n..] == old(output[n..])
    {
      o := ValidateData(n);
      if o.Fail? {
        return;
      }
      ghost var contents := Contents();
      var i := 0;
      while i < n
        invariant 0 <= i <= n
        invariant output[..i] == contents[..i]
        invariant output[n..] == old(output[n..])
      {
        output[i] := audio[(outpos + i) % len];
        assert output[..i + 1] == output[..i] + [output[i]];
        assert contents[..i + 1] == contents[..i] + [contents[i]];
        i := i + 1;
      }
    }

    /**
     * peekFreshData: yields the `n` most recently written samples, oldest first,
     * reading backward from `inpos`; the guard still counts the data from `outpos`.
     */
    method PeekFreshData(output: array<Sample>, n: nat) returns (o: Outcome)
      requires Valid() && n <= output.Length && output != audio
      modifies output
      ensures o == ValidateData(n)
      ensures o.Fail? ==> unchanged(output)
      ensures o.Pass? ==> output[..n] == Contents()[Used() - n..] && output[n..] == old(output[n..])
    {
      o := ValidateData(n);
      if o.Fail? {
        return;
      }
      ReadLatest(output, n);
      QueuedTail(audio[..], outpos, Used(), n);
    }

    /** The copy loop of peekFreshData: the `n` slots before `inpos`, filled from the back. */
    method ReadLatest(output: array<Sample>, n: nat)
      requires Valid() && n < len && n <= output.Length && output != audio
      modifies output
      ensures output[..n] == Queued(audio[..], inpos - n, n) && output[n..] == old(output[n..])
    {
      ghost var latest := Queued(audio[..], inpos - n, n);
      var i := 0;
      while i < n
        invariant 0 <= i <= n
        invariant output[n - i..n] == latest[n - i..]
        invariant output[n..] == old(output[n..])
      {
        Wrap(len + inpos - i - 1, len);
        Wrap(inpos - i - 1, len);
        output[n - i - 1] := audio[(len + inpos - i - 1) % len];
        assert output[n - i - 1..n] == [output[n - i - 1]] + output[n - i..n];
        assert latest[n - i - 1..] == [latest[n - i - 1]] + latest[n - i..];
        i := i + 1;
      }
    }
  }

  // ---------------------------------------------------------------------------
  // Scenarios from the queue's own tests, and the first-in first-out property
  // ---------------------------------------------------------------------------

  /** Pushing `n` samples and then popping everything yields the old contents followed by the pushed samples. */
  method PushThenPop(q: AudioQueue, input: array<Sample>, n: nat, output: array<Sample>)
    returns (pushed: Outcome, popped: Outcome)
    requires q.Valid() && n <= input.Length && n <= q.len - 1 - q.Used() && q.Used() + n <= output.Length
    requires input != q.audio && output != q.audio && output != input
    modifies q, q.audio, output
    ensures pushed == Pass && popped == Pass
    ensures output[..old(q.Used()) + n] == old(q.Contents()) + input[..n]
    ensures q.Valid() && q.Contents() == []
  {
    ghost var before := q.Contents();
    pushed := q.Push(input, n);
    popped := q.Pop(output, q.Used());
    assert output[..|before| + n] == (before + input[..n])[..|before| + n];
  }

  /** A 1024-slot queue takes 512 samples, then refuses 513 more. */
  method OverflowScenario() returns (first: Outcome, second: Outcome)
    ensures first == Pass && second == Fail(Overflow)
  {
    var r := AudioQueue.Create(1024);
    var q := r.value;
    var input := new Sample[1024](i => if i == 0 then 1 else 0);
    first := q.Push(input, 512);
    second := q.Push(input, 513);
  }

  /** Popping from a fresh queue underflows, and so does peeking at its newest samples. */
  method UnderflowScenario() returns (popped: Outcome, peeked: Outcome)
    ensures popped == Fail(Underflow) && peeked == Fail(Underflow)
  {
    var r := AudioQueue.Create(1024);
    var q := r.value;
    var output := new Sample[512];
    popped := q.Pop(output, 512);
    peeked := q.PeekFreshData(output, 512);
  }

  // ---------------------------------------------------------------------------
  // Negative counts
  // ---------------------------------------------------------------------------

  /** The write index `push` stores as written, with a signed count and C++ `%`. */
  function PushIndexAsWritten(inpos: int, len: int, n: int): (r: int)
    requires len > 0
    ensures n >= 0 && inpos >= 0 ==> 0 <= r < len
    ensures 0 - len < inpos + n < 0 ==> r == inpos + n
  {
    TruncMod(inpos + n, len)
  }

  /** A count of -1 passes the space guard of an empty queue of two or more slots and leaves a negative write index. */
  lemma NegativeCountEscapesTheRing(q: AudioQueue)
    requires q.Valid() && q.len > 1 && q.inpos == 0 && q.outpos == 0
    ensures q.ValidateSpace(-1).Pass?
    ensures PushIndexAsWritten(q.inpos, q.len, -1) == -1
  {
  }

  // ---------------------------------------------------------------------------
  // The size guard of fft and FindFrequencyContent
  // ---------------------------------------------------------------------------

  /** C++ `a & b` on non-negative integers, bit by bit from the lowest. */
  function BitAnd(a: nat, b: nat): (r: nat)
    ensures r <= a && r <= b
  {
    if a == 0 || b == 0 then 0
    else 2 * BitAnd(a / 2, b / 2) + (if a % 2 == 1 && b % 2 == 1 then 1 else 0)
  }

  /** `n` is 1, 2, 4, 8, ... */
  ghost predicate IsPowerOfTwo(n: int)
    decreases if n < 0 then 0 else n
  {
    n == 1 || (n > 1 && n % 2 == 0 && IsPowerOfTwo(n / 2))
  }

  lemma {:induction false} BitAndSelf(m: nat)
    ensures BitAnd(m, m) == m
  {
    if m > 0 {
      BitAndSelf(m / 2);
    }
  }

  /** `n & (n - 1)` clears the lowest set bit, so it is zero exactly for powers of two. */
  lemma {:induction false} PowerOfTwoBitTest(n: nat)
    requires n > 0
    ensures BitAnd(n, n - 1) == 0 <==> IsPowerOfTwo(n)
  {
    if n > 1 {
      if n % 2 == 0 {
        assert (n - 1) / 2 == n / 2 - 1;
        PowerOfTwoBitTest(n / 2);
      } else {
        assert (n - 1) / 2 == n / 2;
        BitAndSelf(n / 2);
      }
    }
  }

  /** The guard: invalid_argument unless `n` is a positive power of two. */
  function CheckTransformSize(n: int): (o: Outcome)
    ensures o.Pass? <==> IsPowerOfTwo(n)
    ensures o.Fail? ==> o.error == InvalidArgument
  {
    if n <= 0 then Fail(InvalidArgument)
    else
      PowerOfTwoBitTest(n);
      if BitAnd(n, n - 1) != 0 then Fail(InvalidArgument) else Pass
  }

  /** Six samples are refused; eight are accepted. */
  lemma TransformSizeExamples()
    ensures CheckTransformSize(6) == Fail(InvalidArgument)
    ensures CheckTransformSize(8) == Pass
  {
    assert IsPowerOfTwo(8) by {
      assert IsPowerOfTwo(2);
      assert IsPowerOfTwo(4);
    }
    assert !IsPowerOfTwo(6) by {
      assert !IsPowerOfTwo(3);
    }
  }
}
