/** What the reader must agree with: a scan of the whole byte stream that knows nothing of reads. */
module StreamScan {
  import opened Pong
  import opened Wrappers

  /** What one offset of a stream says about a frame starting there. */
  datatype Verdict =
    | Noise
    | Undecided
    | Rejected(error: HandshakeError)
    | Found(pong: PongResponse)

  predicate MagicAt(s: seq<byte>, i: nat) {
    i + 1 < |s| && s[i] == MAGIC_HI && s[i + 1] == MAGIC_LO
  }

  function VerdictAt(s: seq<byte>, i: nat): Verdict
    requires i <= |s|
  {
    if i == |s| then Undecided
    else if i + 1 == |s| then if s[i] == MAGIC_HI then Undecided else Noise
    else if !MagicAt(s, i) then Noise
    else if i + 2 == |s| then Undecided
    else if s[i + 2] != OPCODE_PONG then Rejected(WrongOpcode)
    else if |s| < i + PONG_FRAME_LEN then Undecided
    else
      match Decode(s[i..i + PONG_FRAME_LEN])
      case Accepted(pong) => Found(pong)
      case Refused(error) => Rejected(error)
  }

  predicate Settled(v: Verdict) {
    v.Noise? || v.Rejected?
  }

  /** Every offset below `d` is known not to start a valid frame. */
  ghost predicate SettledBelow(s: seq<byte>, d: nat) {
    d <= |s| && forall i: nat :: i < d ==> Settled(VerdictAt(s, i))
  }

  /** The offset a left-to-right scan stops at: the first not settled one. */
  function Frontier(s: seq<byte>, from: nat): (f: nat)
    requires from <= |s|
    ensures from <= f <= |s|
    ensures !Settled(VerdictAt(s, f))
    ensures forall i: nat :: from <= i < f ==> Settled(VerdictAt(s, i))
    decreases |s| - from
  {
    if Settled(VerdictAt(s, from)) then Frontier(s, from + 1) else from
  }

  /** The reason the last rejected frame starting below `d` was rejected. */
  function LastRejection(s: seq<byte>, d: nat): Option<HandshakeError>
    requires d <= |s|
  {
    if d == 0 then None
    else
      match VerdictAt(s, d - 1)
      case Rejected(error) => Some(error)
      case _ => LastRejection(s, d - 1)
  }

  /** What a deadline reports over a stream that held no valid PONG. */
  function StreamError(s: seq<byte>): HandshakeError {
    var f := Frontier(s, 0);
    match LastRejection(s, f)
    case Some(error) => error
    case None => if f > 0 && !MagicAt(s, f) then BadMagic else TooShort
  }

  ghost predicate ValidAt(s: seq<byte>, i: nat) {
    i + PONG_FRAME_LEN <= |s| && Decode(s[i..i + PONG_FRAME_LEN]).Accepted?
  }

  ghost predicate HoldsValid(s: seq<byte>) {
    exists i: nat :: ValidAt(s, i)
  }

  lemma ValidIsFound(s: seq<byte>, i: nat)
    requires i <= |s|
    ensures ValidAt(s, i) <==> VerdictAt(s, i).Found?
    ensures ValidAt(s, i) ==> VerdictAt(s, i).pong == Decode(s[i..i + PONG_FRAME_LEN]).pong
  {
    if ValidAt(s, i) {
      var f := s[i..i + PONG_FRAME_LEN];
      assert f[0] == s[i] && f[1] == s[i + 1] && f[2] == s[i + 2];
    }
  }

  /** All frames are equally long, so a frame that starts later cannot be complete while one
      that starts earlier is still open. */
  lemma OpenFrameHidesNothing(s: seq<byte>, f: nat, i: nat)
    requires f <= |s| && VerdictAt(s, f).Undecided? && f <= i
    ensures !ValidAt(s, i)
  {
    if f == i {
      ValidIsFound(s, i);
    }
  }

  /** The scan finds a PONG exactly when the stream holds one, and then the first one. */
  lemma FrontierIsFirstValid(s: seq<byte>)
    ensures VerdictAt(s, Frontier(s, 0)).Found? <==> HoldsValid(s)
    ensures HoldsValid(s) ==> ValidAt(s, Frontier(s, 0))
    ensures forall i: nat :: i < Frontier(s, 0) ==> !ValidAt(s, i)
  {
    var f := Frontier(s, 0);
    ValidIsFound(s, f);
    forall i: nat | i < f
      ensures !ValidAt(s, i)
    {
      ValidIsFound(s, i);
    }
    if VerdictAt(s, f).Undecided? {
      forall i: nat
        ensures !ValidAt(s, i)
      {
        if f <= i {
          OpenFrameHidesNothing(s, f, i);
        }
      }
    }
  }

  /** A settled or found offset keeps its verdict whatever arrives later. */
  lemma VerdictsAreStable(s: seq<byte>, more: seq<byte>, i: nat)
    requires i <= |s| && !VerdictAt(s, i).Undecided?
    ensures VerdictAt(s + more, i) == VerdictAt(s, i)
  {
    if i + PONG_FRAME_LEN <= |s| {
      assert (s + more)[i..i + PONG_FRAME_LEN] == s[i..i + PONG_FRAME_LEN];
    }
  }

  lemma {:induction false} RejectionsAreStable(s: seq<byte>, more: seq<byte>, d: nat)
    requires SettledBelow(s, d)
    ensures SettledBelow(s + more, d)
    ensures LastRejection(s + more, d) == LastRejection(s, d)
  {
    forall i: nat | i < d
      ensures VerdictAt(s + more, i) == VerdictAt(s, i)
    {
      VerdictsAreStable(s, more, i);
    }
    if d > 0 {
      RejectionsAreStable(s, more, d - 1);
    }
  }

  lemma FrontierIsUnique(s: seq<byte>, d: nat)
    requires SettledBelow(s, d) && !Settled(VerdictAt(s, d))
    ensures Frontier(s, 0) == d
  {
  }

  /** What is still open at the frontier is shorter than one frame. */
  lemma OpenTailIsShort(s: seq<byte>)
    requires !HoldsValid(s)
    ensures |s| - Frontier(s, 0) < PONG_FRAME_LEN
    ensures VerdictAt(s, Frontier(s, 0)).Undecided?
  {
    FrontierIsFirstValid(s);
  }

  /** Frames are only ever rejected for their opcode, checksum, profile or layout. */
  lemma {:induction false} RejectionKinds(s: seq<byte>, d: nat)
    requires d <= |s|
    ensures LastRejection(s, d).Some? ==>
      LastRejection(s, d).value in {WrongOpcode, BadChecksum, UnknownProfile, UnknownPixelLayout}
  {
    if d > 0 {
      RejectionKinds(s, d - 1);
      var i := d - 1;
      if MagicAt(s, i) && i + PONG_FRAME_LEN <= |s| {
        var f := s[i..i + PONG_FRAME_LEN];
        assert f[0] == s[i] && f[1] == s[i + 1] && f[2] == s[i + 2];
      }
    }
  }

  /** A silent line, and a lone half frame, read as silence; bytes with no magic among them as
      noise. */
  lemma QuietStreams(s: seq<byte>)
    requires !HoldsValid(s) && LastRejection(s, Frontier(s, 0)).None?
    ensures StreamError(s) == TooShort <==> Frontier(s, 0) == 0 || MagicAt(s, Frontier(s, 0))
    ensures StreamError(s) in {TooShort, BadMagic}
  {
  }

  /** The bytes of the first `k` chunks, in order. */
  function Joined(chunks: seq<seq<byte>>, k: nat): seq<byte>
    requires k <= |chunks|
  {
    if k == 0 then [] else Joined(chunks, k - 1) + chunks[k - 1]
  }

  /** A valid frame stays valid, and stays the first one, as the stream grows. */
  lemma {:induction false} PrefixAnswersForAll(chunks: seq<seq<byte>>, k: nat, n: nat)
    requires k <= n <= |chunks| && HoldsValid(Joined(chunks, k))
    ensures HoldsValid(Joined(chunks, n))
    ensures Frontier(Joined(chunks, n), 0) == Frontier(Joined(chunks, k), 0)
    ensures VerdictAt(Joined(chunks, n), Frontier(Joined(chunks, n), 0))
         == VerdictAt(Joined(chunks, k), Frontier(Joined(chunks, k), 0))
    decreases n - k
  {
    if k < n {
      var s, last := Joined(chunks, n - 1), chunks[n - 1];
      PrefixAnswersForAll(chunks, k, n - 1);
      FrontierIsFirstValid(s);
      var f := Frontier(s, 0);
      RejectionsAreStable(s, last, f);
      VerdictsAreStable(s, last, f);
      FrontierIsUnique(s + last, f);
      FrontierIsFirstValid(s + last);
    }
  }

  /** However the same bytes are cut into reads, and however early each cut completes a PONG, the
      answer is the same frame. */
  lemma SameAnswerHoweverCut(a: seq<seq<byte>>, b: seq<seq<byte>>, j: nat, k: nat)
    requires Joined(a, |a|) == Joined(b, |b|) && j <= |a| && k <= |b|
    requires HoldsValid(Joined(a, j)) && HoldsValid(Joined(b, k))
    ensures VerdictAt(Joined(a, j), Frontier(Joined(a, j), 0))
         == VerdictAt(Joined(b, k), Frontier(Joined(b, k), 0))
  {
    PrefixAnswersForAll(a, j, |a|);
    PrefixAnswersForAll(b, k, |b|);
  }
}

/** `ResponseReader` and the round trip built on it. */
module HandshakeReader {
  import opened Arith
  import opened Pong
  import opened StreamScan
  import opened Wrappers

  datatype Candidate = Pending | Complete(len: nat) | UnknownOpcode

  function ResponseFrameLen(opcode: byte): Option<nat> {
    if opcode == OPCODE_PONG then Some(PONG_FRAME_LEN) else None
  }

  /** First position of the magic in `s` at or after `from`; without one, a trailing first magic
      byte is kept and everything else dropped. */
  function MagicStart(s: seq<byte>, from: nat): (start: nat)
    requires from <= |s|
    ensures from <= start <= |s|
    ensures forall i: nat :: from <= i < start ==> VerdictAt(s, i) == Noise
    ensures MagicAt(s, start) || start == |s| || (start + 1 == |s| && s[start] == MAGIC_HI)
    decreases |s| - from
  {
    if MagicAt(s, from) || from == |s| then from
    else if from + 1 == |s| then if s[from] == MAGIC_HI then from else |s|
    else MagicStart(s, from + 1)
  }

  function Classify(pending: seq<byte>): Candidate {
    if |pending| <= 2 then Pending
    else
      match ResponseFrameLen(pending[2])
      case None => UnknownOpcode
      case Some(len) => if |pending| >= len then Complete(len) else Pending
  }

  class ResponseReader {
    var pending: seq<byte>
    var skippedNoise: bool

    constructor ()
      ensures pending == [] && !skippedNoise
    {
      pending, skippedNoise := [], false;
    }

    /** The reader has seen `stream`, let go of its first `d` bytes, and lost no frame by it. */
    ghost predicate Tracks(stream: seq<byte>, d: nat)
      reads this
    {
      && d <= |stream| && SettledBelow(stream, d)
      && pending == stream[d..]
      && skippedNoise == (d > 0)
    }

    method Extend(bytes: seq<byte>)
      modifies this
      ensures pending == old(pending) + bytes && skippedNoise == old(skippedNoise)
    {
      pending := pending + bytes;
    }

    method NextCandidate() returns (candidate: Candidate)
      modifies this
      ensures pending == old(pending)[MagicStart(old(pending), 0)..]
      ensures skippedNoise == (old(skippedNoise) || MagicStart(old(pending), 0) > 0)
      ensures candidate == Classify(pending)
    {
      var start := MagicStart(pending, 0);
      if start > 0 {
        pending := pending[start..];
        skippedNoise := true;
      }
      candidate := Classify(pending);
    }

    method Consume(len: nat)
      modifies this
      ensures pending == old(pending)[if len < |old(pending)| then len else |old(pending)|..]
      ensures skippedNoise == old(skippedNoise)
    {
      pending := pending[if len < |pending| then len else |pending|..];
    }

    method SkipOne()
      modifies this
      ensures pending == old(pending)[if 1 < |old(pending)| then 1 else |old(pending)|..]
      ensures skippedNoise
    {
      Consume(1);
      skippedNoise := true;
    }

    method TimeoutError(lastRejection: Option<HandshakeError>) returns (error: HandshakeError)
      ensures lastRejection.Some? ==> error == lastRejection.value
      ensures lastRejection.None? ==>
        error == if skippedNoise && !MagicAt(pending, 0) then BadMagic else TooShort
    {
      if lastRejection.Some? {
        return lastRejection.value;
      }
      var holdsPartialFrame := MagicAt(pending, 0);
      error := if skippedNoise && !holdsPartialFrame then BadMagic else TooShort;
    }
  }

  // -------------------------------------------------------------------------
  // Buffer positions and stream offsets
  // -------------------------------------------------------------------------

  lemma SuffixVerdict(s: seq<byte>, d: nat, i: nat)
    requires d + i <= |s|
    ensures VerdictAt(s[d..], i) == VerdictAt(s, d + i)
  {
    if d + i + PONG_FRAME_LEN <= |s| {
      assert s[d..][i..i + PONG_FRAME_LEN] == s[d + i..d + i + PONG_FRAME_LEN];
    }
  }

  /** Dropping to the next magic passes only settled offsets, and what stands there reads the
      same in the buffer and in the stream. */
  lemma DropToMagic(s: seq<byte>, d: nat, start: nat)
    requires SettledBelow(s, d) && start == MagicStart(s[d..], 0)
    ensures SettledBelow(s, d + start)
    ensures LastRejection(s, d + start) == LastRejection(s, d)
    ensures s[d..][start..] == s[d + start..]
    ensures VerdictAt(s[d + start..], 0) == VerdictAt(s, d + start)
  {
    forall i: nat | d <= i < d + start
      ensures VerdictAt(s, i) == Noise
    {
      SuffixVerdict(s, d, i - d);
      assert VerdictAt(s[d..], i - d) == Noise;
    }
    SuffixVerdict(s, d + start, 0);
    NoiseRejectsNothing(s, d, start);
  }

  lemma {:induction false} NoiseRejectsNothing(s: seq<byte>, d: nat, k: nat)
    requires d + k <= |s| && forall i: nat :: d <= i < d + k ==> VerdictAt(s, i) == Noise
    ensures LastRejection(s, d + k) == LastRejection(s, d)
  {
    if k > 0 {
      NoiseRejectsNothing(s, d, k - 1);
      assert VerdictAt(s, d + k - 1) == Noise;
    }
  }

  /** The candidate at the front of the buffer is the verdict of its offset. */
  lemma ClassifyIsVerdict(p: seq<byte>)
    requires MagicStart(p, 0) == 0
    ensures Classify(p).Pending? <==> VerdictAt(p, 0).Undecided?
    ensures Classify(p).UnknownOpcode? ==> VerdictAt(p, 0) == Rejected(WrongOpcode)
    ensures Classify(p).Complete? ==>
      && Classify(p).len == PONG_FRAME_LEN <= |p|
      && VerdictAt(p, 0) == match Decode(p[..PONG_FRAME_LEN])
                            case Accepted(pong) => Found(pong)
                            case Refused(error) => Rejected(error)
  {
    assert |p| >= PONG_FRAME_LEN ==> p[0..PONG_FRAME_LEN] == p[..PONG_FRAME_LEN];
  }

  lemma MagicStartAtMagic(p: seq<byte>)
    ensures MagicStart(p[MagicStart(p, 0)..], 0) == 0
  {
    var start := MagicStart(p, 0);
    assert MagicAt(p, start) ==> MagicAt(p[start..], 0);
  }

  // -------------------------------------------------------------------------
  // The port, as the script of what its reads will answer
  // -------------------------------------------------------------------------

  const READ_CAPACITY: nat := 16

  type Chunk = c: seq<byte> | |c| <= READ_CAPACITY

  /** One scripted read: the bytes it returns, or an I/O failure, and the time until then. */
  datatype Reply = Bytes(data: Chunk, after: nat) | Broken(after: nat)

  class SerialPort {
    var writable: bool
    var written: seq<byte>
    var script: seq<Reply>
    var now: nat

    constructor (writable: bool, script: seq<Reply>)
      ensures this.writable == writable && this.script == script && now == 0 && written == []
    {
      this.writable, this.script, this.now, this.written := writable, script, 0, [];
    }

    method WriteAll(bytes: seq<byte>) returns (ok: bool)
      modifies this`written
      ensures ok == writable
      ensures written == if ok then old(written) + bytes else old(written)
    {
      ok := writable;
      if ok {
        written := written + bytes;
      }
    }

    /** Returns at the first bytes, or with none once `timeout` has passed. */
    method ReadWithTimeout(timeout: nat) returns (reply: Option<Chunk>)
      modifies this`script, this`now
      ensures old(script) != [] && old(script)[0].after < timeout ==>
        && script == old(script)[1..]
        && now == old(now) + old(script)[0].after
        && reply == (if old(script)[0].Bytes? then Some(old(script)[0].data) else None)
      ensures old(script) == [] || old(script)[0].after >= timeout ==>
        script == old(script) && now == old(now) + timeout && reply == Some([])
    {
      if script != [] && script[0].after < timeout {
        reply := if script[0].Bytes? then Some(script[0].data) else None;
        now := now + script[0].after;
        script := script[1..];
      } else {
        now := now + timeout;
        reply := Some([]);
      }
    }
  }

  datatype RoundTrip = Answered(pong: PongResponse, elapsedMs: nat) | Failed(error: HandshakeError)

  const U32_MAX: nat := 0xFFFF_FFFF

  /** One turn of the scan, seen from the stream: where the next candidate stands, and what each
      way of handling it means there. */
  lemma CandidateMeans(stream: seq<byte>, d: nat)
    requires SettledBelow(stream, d)
    ensures
      var at := d + MagicStart(stream[d..], 0);
      var front := stream[at..];
      && SettledBelow(stream, at)
      && stream[d..][at - d..] == front
      && match Classify(front)
         case Pending =>
           && at == Frontier(stream, 0) && !HoldsValid(stream)
           && LastRejection(stream, at) == LastRejection(stream, d)
         case UnknownOpcode => Passed(stream, at, WrongOpcode)
         case Complete(len) =>
           && len == PONG_FRAME_LEN <= |front|
           && match Decode(front[..len])
              case Accepted(pong) => at == Frontier(stream, 0) && IsFirstPong(stream, pong)
                                     && LastRejection(stream, at) == LastRejection(stream, d)
              case Refused(error) => Passed(stream, at, error)
  {
    hide Decode, MagicStart, Frontier, Classify;
    var start := MagicStart(stream[d..], 0);
    var at := d + start;
    DropToMagic(stream, d, start);
    MagicStartAtMagic(stream[d..]);
    ClassifyIsVerdict(stream[at..]);
    SettledVerdictMeans(stream, at);
    OpenVerdictMeans(stream, at);
  }

  lemma SettledVerdictMeans(stream: seq<byte>, at: nat)
    requires SettledBelow(stream, at)
    ensures VerdictAt(stream, at).Rejected? ==> Passed(stream, at, VerdictAt(stream, at).error)
  {
  }

  lemma OpenVerdictMeans(stream: seq<byte>, at: nat)
    requires SettledBelow(stream, at)
    ensures VerdictAt(stream, at).Undecided? ==> at == Frontier(stream, 0) && !HoldsValid(stream)
    ensures VerdictAt(stream, at).Found? ==>
      at == Frontier(stream, 0) && IsFirstPong(stream, VerdictAt(stream, at).pong)
  {
    if !Settled(VerdictAt(stream, at)) {
      FrontierIsUnique(stream, at);
      FrontierIsFirstValid(stream);
    }
  }

  /** `pong` is the answer the first valid frame of the stream decodes to. */
  ghost predicate IsFirstPong(stream: seq<byte>, pong: PongResponse) {
    HoldsValid(stream) && VerdictAt(stream, Frontier(stream, 0)) == Found(pong)
  }

  ghost predicate Passed(stream: seq<byte>, at: nat, error: HandshakeError) {
    at < |stream| && SettledBelow(stream, at + 1) && LastRejection(stream, at + 1) == Some(error)
  }

  /** One scan of what is buffered: either the first valid PONG of the stream stands at the front
      of the buffer, or the stream holds none and the buffer is its open tail. */
  method ScanBuffered(reader: ResponseReader, lastRejection: Option<HandshakeError>,
                      ghost stream: seq<byte>, ghost d0: nat)
    returns (found: Option<PongResponse>, rejection: Option<HandshakeError>, ghost d: nat)
    requires reader.Tracks(stream, d0) && lastRejection == LastRejection(stream, d0)
    modifies reader
    ensures reader.Tracks(stream, d) && rejection == LastRejection(stream, d)
    ensures d == Frontier(stream, 0)
    ensures found.Some? <==> HoldsValid(stream)
    ensures found.Some? ==> IsFirstPong(stream, found.value)
  {
    hide VerdictAt, Decode, MagicStart, Classify, Frontier, LastRejection, SettledBelow, HoldsValid;
    d := d0;
    rejection := lastRejection;
    while true
      invariant d <= |stream| && reader.Tracks(stream, d) && rejection == LastRejection(stream, d)
      decreases |reader.pending|
    {
      CandidateMeans(stream, d);
      ghost var at: nat := d + MagicStart(stream[d..], 0);
      var candidate := reader.NextCandidate();
      d := at;
      assert reader.pending == stream[d..];
      if candidate.Pending? {
        found := None;
        return;
      } else if candidate.UnknownOpcode? {
        rejection := Some(WrongOpcode);
        reader.SkipOne();
        d := OneFurther(reader, stream, at);
      } else {
        match Decode(reader.pending[..candidate.len])
        case Accepted(pong) =>
          found := Some(pong);
          return;
        case Refused(error) =>
          rejection := Some(error);
          reader.SkipOne();
          d := OneFurther(reader, stream, at);
      }
    }
  }

  /** After a skipped byte the reader stands one offset further. */
  lemma OneFurther(reader: ResponseReader, stream: seq<byte>, at: nat) returns (d: nat)
    requires at < |stream| && reader.pending == stream[at..][1..] && reader.skippedNoise
    requires SettledBelow(stream, at + 1)
    ensures d == at + 1 && reader.Tracks(stream, d) && |reader.pending| < |stream[at..]|
  {
    hide SettledBelow;
    d := at + 1;
    assert stream[at..][1..] == stream[at + 1..];
  }

  /** The chunks scripted replies deliver, I/O failures aside. */
  ghost function Delivered(replies: seq<Reply>): (chunks: seq<seq<byte>>)
    ensures |chunks| == |replies|
  {
    seq(|replies|, i requires 0 <= i < |replies| => if replies[i].Bytes? then replies[i].data else [])
  }

  /** What the first `k` reads brought in. */
  ghost function StreamOf(replies: seq<Reply>, k: nat): seq<byte>
    requires k <= |replies|
  {
    Joined(Delivered(replies), k)
  }

  lemma StreamGrows(replies: seq<Reply>, k: nat)
    requires k < |replies|
    ensures replies[k].Bytes? ==> StreamOf(replies, k + 1) == StreamOf(replies, k) + replies[k].data
    ensures replies[k].Broken? ==> StreamOf(replies, k + 1) == StreamOf(replies, k)
  {
  }

  lemma NoEarlierPrefix(replies: seq<Reply>, n: nat)
    requires n <= |replies| && !HoldsValid(StreamOf(replies, n))
    ensures NoneBy(replies, n)
  {
    forall k: nat | k <= n
      ensures !HoldsValid(StreamOf(replies, k))
    {
      if HoldsValid(StreamOf(replies, k)) {
        PrefixAnswersForAll(Delivered(replies), k, n);
      }
    }
  }

  /** No valid PONG within the first `n` reads, at any of them. */
  ghost predicate NoneBy(replies: seq<Reply>, n: nat)
    requires n <= |replies|
  {
    forall k: nat :: k <= n ==> !HoldsValid(StreamOf(replies, k))
  }

  /** When the `k`th read answers, measured from the start of the round trip. */
  function Arrival(replies: seq<Reply>, k: nat): nat
    requires k <= |replies|
  {
    if k == 0 then 0 else Arrival(replies, k - 1) + replies[k - 1].after
  }

  lemma {:induction false} ArrivalsAreOrdered(replies: seq<Reply>, j: nat, k: nat)
    requires j <= k <= |replies|
    ensures Arrival(replies, j) <= Arrival(replies, k)
  {
    if j < k {
      ArrivalsAreOrdered(replies, j, k - 1);
    }
  }

  /** The first `n` reads all answer before the deadline, none of them with a failure. */
  ghost predicate InTime(replies: seq<Reply>, n: nat, timeout: nat) {
    && n <= |replies|
    && (n > 0 ==> Arrival(replies, n) < timeout)
    && forall i: nat :: i < n ==> replies[i].Bytes?
  }

  /** The device answers: reads that come in time complete a valid PONG. */
  ghost predicate AnswersInTime(replies: seq<Reply>, timeout: nat) {
    exists n: nat :: InTime(replies, n, timeout) && HoldsValid(StreamOf(replies, n))
  }

  lemma NothingReadYet(replies: seq<Reply>, timeout: nat)
    ensures InTime(replies, 0, timeout) && StreamOf(replies, 0) == [] && Arrival(replies, 0) == 0
  {
  }

  lemma ArrivalStep(replies: seq<Reply>, n: nat)
    requires n < |replies|
    ensures Arrival(replies, n + 1) == Arrival(replies, n) + replies[n].after
  {
  }

  lemma OneMoreInTime(replies: seq<Reply>, used: nat, timeout: nat)
    requires 1 <= used <= |replies| && InTime(replies, used - 1, timeout)
    requires replies[used - 1].Bytes? && Arrival(replies, used) < timeout
    ensures InTime(replies, used, timeout)
  {
  }

  lemma AnsweredInTime(replies: seq<Reply>, used: nat, timeout: nat, pong: PongResponse)
    requires InTime(replies, used, timeout) && IsFirstPong(StreamOf(replies, used), pong)
    requires used > 0 ==> NoneBy(replies, used - 1)
    ensures AnswersInTime(replies, timeout) && Completes(replies, used, timeout, pong)
  {
    hide Frontier, VerdictAt;
  }

  /** The `used`th read is the first to complete a valid PONG, and it came in time. */
  ghost predicate Completes(replies: seq<Reply>, used: nat, timeout: nat, pong: PongResponse) {
    && 0 < used <= |replies|
    && InTime(replies, used, timeout) && NoneBy(replies, used - 1)
    && IsFirstPong(StreamOf(replies, used), pong)
  }

  /** Nothing that came in time completed a valid PONG: the last read failed, or every reply that
      came in time was read, and `error` is what its bytes leave. */
  ghost predicate GivesUp(replies: seq<Reply>, used: nat, timeout: nat, error: HandshakeError) {
    && used <= |replies| && NoneBy(replies, used)
    && if used > 0 && replies[used - 1].Broken? then
         error == TooShort && InTime(replies, used - 1, timeout) && Arrival(replies, used) < timeout
       else
         && error == StreamError(StreamOf(replies, used))
         && InTime(replies, used, timeout)
         && (used == |replies| || Arrival(replies, used + 1) >= timeout)
  }

  lemma DeadlineReached(replies: seq<Reply>, used: nat, timeout: nat, timedOut: bool, error: HandshakeError)
    requires InTime(replies, used, timeout) && !HoldsValid(StreamOf(replies, used))
    requires timedOut ==> used == |replies| || Arrival(replies, used + 1) >= timeout
    requires !timedOut ==> Arrival(replies, used) >= timeout
    requires error == StreamError(StreamOf(replies, used))
    ensures GivesUp(replies, used, timeout, error) && !AnswersInTime(replies, timeout)
  {
    hide HoldsValid, StreamError, StreamOf, NoneBy;
    NoEarlierPrefix(replies, used);
    ReadAllFoundNone(replies, used, timeout);
  }

  lemma ReadFailed(replies: seq<Reply>, used: nat, timeout: nat)
    requires 0 < used <= |replies| && replies[used - 1].Broken?
    requires InTime(replies, used - 1, timeout) && Arrival(replies, used) < timeout
    requires !HoldsValid(StreamOf(replies, used))
    ensures GivesUp(replies, used, timeout, TooShort) && !AnswersInTime(replies, timeout)
  {
    hide HoldsValid, StreamError, StreamOf, InTime, NoneBy;
    NoEarlierPrefix(replies, used);
    ReadAllFoundNone(replies, used, timeout);
  }

  /** A round trip that has read all there was to read in time, up to a failure, and found nothing,
      was given nothing. */
  lemma ReadAllFoundNone(replies: seq<Reply>, used: nat, timeout: nat)
    requires used <= |replies| && NoneBy(replies, used)
    requires
      || (used > 0 && replies[used - 1].Broken?)
      || used == |replies|
      || Arrival(replies, used + 1) >= timeout
    ensures !AnswersInTime(replies, timeout)
  {
    hide HoldsValid, StreamOf, Arrival;
    forall n: nat | InTime(replies, n, timeout)
      ensures !HoldsValid(StreamOf(replies, n))
    {
      if n > used && used < |replies| {
        ArrivalsAreOrdered(replies, used + 1, n);
      }
      assert n <= used;
    }
  }

  /** What the reader is left with at the frontier is all the deadline needs. */
  lemma DeadlineReads(stream: seq<byte>, d: nat)
    requires d == Frontier(stream, 0)
    ensures StreamError(stream) ==
      match LastRejection(stream, d)
      case Some(error) => error
      case None => if d > 0 && !MagicAt(stream[d..], 0) then BadMagic else TooShort
  {
  }

  lemma NothingDelivered()
    ensures LastRejection([], 0) == None && SettledBelow([], 0)
  {
  }

  /** A script leaves no choice: how many reads are used, and what is reported, are its own. */
  lemma OutcomeIsDetermined(replies: seq<Reply>, timeout: nat, j: nat, k: nat, p: PongResponse, q: PongResponse,
                            e: HandshakeError, f: HandshakeError)
    ensures Completes(replies, j, timeout, p) && Completes(replies, k, timeout, q) ==> j == k && p == q
    ensures GivesUp(replies, j, timeout, e) && GivesUp(replies, k, timeout, f) ==> j == k && e == f
  {
    hide HoldsValid, StreamError, StreamOf, Arrival, VerdictAt, Frontier;
    if Completes(replies, j, timeout, p) && Completes(replies, k, timeout, q) {
      assert HoldsValid(StreamOf(replies, j)) && HoldsValid(StreamOf(replies, k));
    }
    if GivesUp(replies, j, timeout, e) && GivesUp(replies, k, timeout, f) {
      if j < k {
        UsedAllInTime(replies, j, k, timeout, e, f);
      } else if k < j {
        UsedAllInTime(replies, k, j, timeout, f, e);
      }
    }
  }

  lemma UsedAllInTime(replies: seq<Reply>, j: nat, k: nat, timeout: nat, e: HandshakeError, f: HandshakeError)
    requires GivesUp(replies, j, timeout, e) && GivesUp(replies, k, timeout, f)
    ensures j >= k
  {
    hide HoldsValid, StreamError, StreamOf, NoneBy;
    if j < k {
      ArrivalsAreOrdered(replies, j + 1, k);
    }
  }

  /** The timed read of a round trip: the next reply if it comes before the time runs out, and what
      the reader makes of it. */
  method ReadNext(port: SerialPort, reader: ResponseReader, remaining: nat,
                  ghost replies: seq<Reply>, ghost n: nat, ghost d: nat)
    returns (failed: bool, ghost used: nat)
    requires n <= |replies| && port.script == replies[n..] && reader.Tracks(StreamOf(replies, n), d)
    modifies port`script, port`now, reader
    ensures n <= used <= |replies| && port.script == replies[used..]
    ensures used == if n < |replies| && replies[n].after < remaining then n + 1 else n
    ensures port.now == old(port.now) + if used > n then replies[n].after else remaining
    ensures failed <==> used > n && replies[n].Broken?
    ensures !failed ==>
      && reader.Tracks(StreamOf(replies, used), d)
      && LastRejection(StreamOf(replies, used), d) == LastRejection(StreamOf(replies, n), d)
    ensures used == n || failed ==> StreamOf(replies, used) == StreamOf(replies, n)
  {
    hide VerdictAt, LastRejection, SettledBelow, StreamOf;
    ghost var stream := StreamOf(replies, n);
    var reply := port.ReadWithTimeout(remaining);
    used := if n < |replies| && replies[n].after < remaining then n + 1 else n;
    if used > n {
      StreamGrows(replies, n);
    }
    failed := reply.None?;
    if !failed {
      RejectionsAreStable(stream, reply.value, d);
      reader.Extend(reply.value);
      assert stream[d..] + reply.value == (stream + reply.value)[d..];
      assert stream + [] == stream;
    }
  }

  /** `perform_handshake`. `used` counts the reads that answered. It answers exactly when reads that
      come in time complete a valid PONG: with the first one of the stream, on the very read that
      completed it. Otherwise it has read everything that came in time, and the error is
      `StreamError` of those bytes alone, unless a read failed. */
  method PerformHandshake(port: SerialPort, timeout: nat)
    returns (result: RoundTrip, ghost used: nat)
    modifies port
    ensures used <= |old(port.script)| && port.script == old(port.script)[used..]
    ensures port.writable == old(port.writable)
    ensures port.written == if port.writable then old(port.written) + EncodePing() else old(port.written)
    ensures !port.writable ==> used == 0 && result == Failed(TooShort)
    ensures result.Answered? <==> port.writable && AnswersInTime(old(port.script), timeout)
    ensures result.Answered? ==>
      && Completes(old(port.script), used, timeout, result.pong)
      && result.elapsedMs == Min(Arrival(old(port.script), used), U32_MAX)
    ensures result.Failed? && port.writable ==> GivesUp(old(port.script), used, timeout, result.error)
  {
    hide VerdictAt, Decode, Frontier, LastRejection, HoldsValid, StreamError, Delivered, IsFirstPong,
         SettledBelow, MagicAt, NoneBy, StreamOf, InTime, AnswersInTime, Completes, GivesUp, Arrival;
    used := 0;
    ghost var replies := port.script;
    var ok := port.WriteAll(EncodePing());
    if !ok {
      return Failed(TooShort), 0;
    }
    var start := port.now;
    var deadline := start + timeout;
    var reader := new ResponseReader();
    var lastRejection: Option<HandshakeError> := None;
    ghost var d: nat, timedOut := 0, false;
    NothingDelivered();
    NothingReadYet(replies, timeout);
    while true
      invariant used <= |replies| && port.script == replies[used..]
      invariant port.writable && port.written == old(port.written) + EncodePing()
      invariant reader.Tracks(StreamOf(replies, used), d)
      invariant lastRejection == LastRejection(StreamOf(replies, used), d)
      invariant InTime(replies, used, timeout)
      invariant used > 0 ==> NoneBy(replies, used - 1)
      invariant port.now == start + if timedOut then timeout else Arrival(replies, used)
      invariant timedOut ==> !HoldsValid(StreamOf(replies, used))
      invariant timedOut ==> used == |replies| || Arrival(replies, used + 1) >= timeout
      decreases |port.script|, deadline - port.now
    {
      var found;
      found, lastRejection, d := ScanBuffered(reader, lastRejection, StreamOf(replies, used), d);
      if found.Some? {
        AnsweredInTime(replies, used, timeout, found.value);
        return Answered(found.value, Min(port.now - start, U32_MAX)), used;
      }
      if port.now >= deadline {
        var error := reader.TimeoutError(lastRejection);
        DeadlineReads(StreamOf(replies, used), d);
        DeadlineReached(replies, used, timeout, timedOut, error);
        return Failed(error), used;
      }
      var failed;
      ghost var n := used;
      if n < |replies| {
        ArrivalStep(replies, n);
      }
      failed, used := ReadNext(port, reader, deadline - port.now, replies, n, d);
      timedOut := used == n;
      if failed {
        ReadFailed(replies, used, timeout);
        return Failed(TooShort), used;
      }
      if used > n {
        NoEarlierPrefix(replies, n);
        OneMoreInTime(replies, used, timeout);
      }
    }
  }

  // -------------------------------------------------------------------------
  // probe_firmware
  // -------------------------------------------------------------------------

  datatype FirmwareProbe = Heard(pong: PongResponse) | Silent | Garbled(error: HandshakeError)

  /** `probe_firmware`: the device is heard exactly when reads that come in time complete a valid PONG.
      A port that failed, and a line that stayed quiet, are both silence. */
  method ProbeFirmware(port: SerialPort, timeout: nat) returns (probe: FirmwareProbe, ghost used: nat)
    modifies port
    ensures used <= |old(port.script)| && port.writable == old(port.writable)
    ensures probe.Heard? <==> port.writable && AnswersInTime(old(port.script), timeout)
    ensures probe.Heard? ==> Completes(old(port.script), used, timeout, probe.pong)
    ensures probe.Garbled? ==> probe.error != TooShort
    ensures !probe.Heard? && port.writable ==>
      GivesUp(old(port.script), used, timeout, if probe.Silent? then TooShort else probe.error)
  {
    var result;
    result, used := PerformHandshake(port, timeout);
    match result
    case Answered(pong, _) => probe := Heard(pong);
    case Failed(error) => probe := if error == TooShort then Silent else Garbled(error);
  }
}
