/**
 * The SoM's end of the serial line (impl/src/io/SerialController.cpp).
 *
 * Library contracts assumed of the asynchronous reads and writes:
 *  - an exact read appends exactly `size` new bytes to the stream buffer, however many it already
 *    holds, or, when the deadline passes first, whatever arrived, which stays in the buffer;
 *  - `consume` removes at most what is there;
 *  - a read-until stops at the first match and may have buffered more bytes after it;
 *  - a write that misses its deadline has sent some prefix.
 * What the line delivers during a call (`arriving`), how far a read-until reads ahead and how many
 * bytes a write gets rid of are chosen by the environment.
 */
module SerialController {
  import opened Common
  import opened Packet

  /** m_streamBuffer, and the bytes that reached the port and were not read yet. */
  datatype Line = Line(buffer: seq<byte>, arrived: seq<byte>)

  datatype ReadOutcome = ReadOutcome(line: Line, bytes: Option<seq<byte>>)

  datatype FlushOutcome = FlushOutcome(line: Line, ok: bool)

  /** "flush" and the end of line that println appends. */
  const FLUSH: seq<byte> := [102, 108, 117, 115, 104, 13, 10]

  function Pending(line: Line): seq<byte> {
    line.buffer + line.arrived
  }

  /** readPacket on raw bytes; None is a timeout. */
  function ReadExactly(line: Line, size: nat, arriving: seq<byte>): (r: ReadOutcome)
    ensures r.bytes.Some? ==> |r.bytes.value| == size
  {
    var available := line.arrived + arriving;
    if |available| >= size then
      var buffer := line.buffer + available[..size];
      ReadOutcome(Line(buffer[size..], available[size..]), Some(buffer[..size]))
    else
      ReadOutcome(Line(line.buffer + available, []), None)
  }

  /** The packet a read returns; a timed-out one returns the value-initialised packet. */
  function RcOf(bytes: Option<seq<byte>>): RcRxPacket
    requires bytes.Some? ==> |bytes.value| == RC_SIZE
  {
    match bytes
    case Some(b) => DecodeRc(b)
    case None => DEFAULT_RC
  }

  function ImuOf(bytes: Option<seq<byte>>): ImuPacket
    requires bytes.Some? ==> |bytes.value| == IMU_SIZE
  {
    match bytes
    case Some(b) => DecodeImu(b)
    case None => DEFAULT_IMU
  }

  predicate MatchEndsAt(s: seq<byte>, pattern: seq<byte>, end: nat) {
    |pattern| <= end <= |s| && s[end - |pattern|..end] == pattern
  }

  /** The least position at or after `from` where a match of the pattern ends. */
  function FirstMatchEnd(s: seq<byte>, pattern: seq<byte>, from: nat := 0): (r: Option<nat>)
    ensures r.Some? ==> from <= r.value && MatchEndsAt(s, pattern, r.value)
    ensures forall end :: from <= end < (if r.Some? then r.value else |s| + 1) ==> !MatchEndsAt(s, pattern, end)
    decreases |s| + 1 - from
  {
    if from > |s| then None
    else if MatchEndsAt(s, pattern, from) then Some(from)
    else FirstMatchEnd(s, pattern, from + 1)
  }

  /** `m_streamBuffer.consume(n)`. */
  function Consume(buffer: seq<byte>, n: nat): seq<byte> {
    buffer[Min(n, |buffer|)..]
  }

  /** The line once a match that ends at `end` was found: twice as many bytes are dropped, if buffered. */
  function AfterMatch(buffer: seq<byte>, available: seq<byte>, end: nat, readAhead: nat): (r: Line)
    ensures |Pending(r)| <= |buffer| + |available|
  {
    var taken := if end <= |buffer| then 0 else Min(end - |buffer| + readAhead, |available|);
    Line(Consume(buffer + available[..taken], end * 2), available[taken..])
  }

  /** flush: read until the first flush string, then drop twice as many bytes as that took, if buffered. */
  function FlushLine(line: Line, arriving: seq<byte>, readAhead: nat): (r: FlushOutcome)
    ensures |Pending(r.line)| <= |Pending(line)| + |arriving|
  {
    var available := line.arrived + arriving;
    match FirstMatchEnd(line.buffer + available, FLUSH)
    case None => FlushOutcome(Line(line.buffer + available, []), false)
    case Some(end) => FlushOutcome(AfterMatch(line.buffer, available, end, readAhead), true)
  }

  // ----- Byte fidelity under any pattern of timeouts -----

  /** One call of readPacket: the packet's size and what the line delivers before its deadline. */
  datatype Read = Read(size: nat, arriving: seq<byte>)

  function LineAfter(line: Line, calls: seq<Read>): Line {
    if calls == [] then line
    else
      var last := calls[|calls| - 1];
      ReadExactly(LineAfter(line, calls[..|calls| - 1]), last.size, last.arriving).line
  }

  /** What the i-th read of a run returns. */
  function ReadResult(line: Line, calls: seq<Read>, i: nat): (r: Option<seq<byte>>)
    requires i < |calls|
    ensures r.Some? ==> |r.value| == calls[i].size
  {
    ReadExactly(LineAfter(line, calls[..i]), calls[i].size, calls[i].arriving).bytes
  }

  function Arrivals(calls: seq<Read>): seq<byte> {
    if calls == [] then [] else Arrivals(calls[..|calls| - 1]) + calls[|calls| - 1].arriving
  }

  function BytesOf(result: Option<seq<byte>>): seq<byte> {
    match result
    case Some(b) => b
    case None => []
  }

  /** The bytes of all delivered packets, in order. */
  function Delivered(line: Line, calls: seq<Read>): seq<byte> {
    if calls == [] then []
    else
      var n := |calls| - 1;
      Delivered(line, calls[..n]) + BytesOf(ReadResult(line, calls, n))
  }

  /**
   * One read, exactly: it succeeds if and only if enough new bytes are there. A success leaves the
   * leftover length as it was; a timeout adds exactly the partial bytes. Nothing is lost or reordered.
   */
  lemma ReadAccounting(line: Line, size: nat, arriving: seq<byte>)
    ensures var r := ReadExactly(line, size, arriving);
      && (r.bytes.Some? <==> |line.arrived| + |arriving| >= size)
      && (r.bytes.Some? ==> |r.line.buffer| == |line.buffer|
                            && r.bytes.value + Pending(r.line) == Pending(line) + arriving)
      && BytesOf(r.bytes) + Pending(r.line) == Pending(line) + arriving
      && (r.bytes.None? ==> r.line.buffer == Pending(line) + arriving && r.line.arrived == []
                            && |r.line.buffer| == |line.buffer| + |line.arrived| + |arriving| < |line.buffer| + size)
  {
    var available := line.arrived + arriving;
    assert line.buffer + available == Pending(line) + arriving;
    if |available| >= size {
      CutAndShift(line.buffer, available, size);
    }
  }

  /** Appending the next bytes and cutting as many off the front loses and reorders nothing. */
  lemma CutAndShift(buffer: seq<byte>, available: seq<byte>, size: nat)
    requires size <= |available|
    ensures var longer := buffer + available[..size];
      longer[..size] + (longer[size..] + available[size..]) == buffer + available
  {
    var longer := buffer + available[..size];
    assert longer[..size] + longer[size..] == longer;
    assert available[..size] + available[size..] == available;
  }

  /**
   * Byte fidelity: under any pattern of timeouts the delivered packets' bytes, followed by what is
   * left, are exactly the bytes left behind by flush followed by everything that arrived.
   */
  lemma {:induction false} ByteFidelity(line: Line, calls: seq<Read>)
    ensures Delivered(line, calls) + Pending(LineAfter(line, calls)) == Pending(line) + Arrivals(calls)
  {
    if calls == [] {
      assert [] + Pending(line) == Pending(line) + [];
    } else {
      var past, call := calls[..|calls| - 1], calls[|calls| - 1];
      ByteFidelity(line, past);
      var before := LineAfter(line, past);
      ReadAccounting(before, call.size, call.arriving);
      var r := ReadExactly(before, call.size, call.arriving);
      OneMoreRead(Delivered(line, past), Pending(before), Pending(line), Arrivals(past), call.arriving,
                  BytesOf(r.bytes), Pending(r.line));
      assert Delivered(line, calls) == Delivered(line, past) + BytesOf(r.bytes);
    }
  }

  /** What one read delivers and leaves is what was left before it and what arrived. */
  lemma OneMoreRead(delivered: seq<byte>, before: seq<byte>, pending: seq<byte>, arrivals: seq<byte>,
                    arriving: seq<byte>, bytes: seq<byte>, after: seq<byte>)
    requires delivered + before == pending + arrivals && bytes + after == before + arriving
    ensures delivered + bytes + after == pending + (arrivals + arriving)
  {
    assert delivered + bytes + after == delivered + (bytes + after);
    assert delivered + (before + arriving) == (delivered + before) + arriving;
    assert (pending + arrivals) + arriving == pending + (arrivals + arriving);
  }

  lemma PrefixExtends(a: seq<byte>, b: seq<byte>, c: seq<byte>)
    requires a <= b
    ensures a <= b + c
  {
  }

  /** What a prefix of a run delivers is delivered first. */
  lemma {:induction false} PrefixOfRun(line: Line, calls: seq<Read>, i: nat)
    requires i <= |calls|
    ensures Delivered(line, calls[..i]) <= Delivered(line, calls)
  {
    if i == |calls| {
      assert calls[..i] == calls;
    } else {
      var n := |calls| - 1;
      var past := calls[..n];
      assert past[..i] == calls[..i];
      PrefixOfRun(line, past, i);
      PrefixExtends(Delivered(line, past[..i]), Delivered(line, past), BytesOf(ReadResult(line, calls, n)));
    }
  }

  /**
   * Every delivered packet is cut from the stream at the total size of the packets delivered before
   * it: timeouts move nothing and skip nothing, they only change which kind of packet is cut next.
   */
  lemma {:induction false} DeliveredIsSliceOfStream(line: Line, calls: seq<Read>, i: nat)
    requires i < |calls| && ReadResult(line, calls, i).Some?
    ensures IsCutAt(ReadResult(line, calls, i).value, Pending(line) + Arrivals(calls), |Delivered(line, calls[..i])|)
  {
    var before, bytes, delivered := Delivered(line, calls[..i]), ReadResult(line, calls, i).value, Delivered(line, calls);
    var rest, stream := Pending(LineAfter(line, calls)), Pending(line) + Arrivals(calls);
    NextDelivered(line, calls, i);
    PrefixOfRun(line, calls, i + 1);
    ByteFidelity(line, calls);
    SliceOfStream(before, bytes, delivered, rest, stream);
  }

  predicate IsCutAt(bytes: seq<byte>, stream: seq<byte>, at: nat) {
    at + |bytes| <= |stream| && bytes == stream[at..at + |bytes|]
  }

  lemma SliceOfStream(before: seq<byte>, bytes: seq<byte>, delivered: seq<byte>, rest: seq<byte>, stream: seq<byte>)
    requires before + bytes <= delivered && delivered + rest == stream
    ensures IsCutAt(bytes, stream, |before|)
  {
    PrefixExtends(before + bytes, delivered, rest);
    SliceOfPrefix(before, bytes, stream);
  }

  lemma {:induction false} NextDelivered(line: Line, calls: seq<Read>, i: nat)
    requires i < |calls|
    ensures Delivered(line, calls[..i + 1]) == Delivered(line, calls[..i]) + BytesOf(ReadResult(line, calls, i))
  {
    var past := calls[..i + 1];
    assert past[..i] == calls[..i] && past[i] == calls[i];
  }

  lemma SliceOfPrefix(before: seq<byte>, bytes: seq<byte>, s: seq<byte>)
    requires before + bytes <= s
    ensures |before| + |bytes| <= |s| && bytes == s[|before|..|before| + |bytes|]
  {
    assert bytes == (before + bytes)[|before|..];
  }

  // ----- When the frames stay in step under timeouts -----

  /** The main loop reads an RcRxPacket, then an ImuPacket, whatever the outcome of either. */
  predicate Alternating(calls: seq<Read>) {
    forall i :: 0 <= i < |calls| ==> calls[i].size == if i % 2 == 0 then RC_SIZE else IMU_SIZE
  }

  /** How many reads at positions of the given parity returned a packet. */
  function Successes(line: Line, calls: seq<Read>, parity: nat): nat {
    if calls == [] then 0
    else
      var n := |calls| - 1;
      Successes(line, calls[..n], parity) + if n % 2 == parity && ReadResult(line, calls, n).Some? then 1 else 0
  }

  lemma {:induction false} DeliveredLength(line: Line, calls: seq<Read>)
    requires Alternating(calls)
    ensures |Delivered(line, calls)| == RC_SIZE * Successes(line, calls, 0) + IMU_SIZE * Successes(line, calls, 1)
  {
    if calls == [] {
    } else {
      DeliveredLength(line, calls[..|calls| - 1]);
    }
  }

  /** Nine is invertible modulo the frame size. */
  lemma NineTimes(d: int, b: int)
    ensures (9 * d + 37 * b) % 37 == 0 <==> d % 37 == 0
  {
    var x := 9 * d + 37 * b;
    if x % 37 == 0 {
      assert d == 37 * (33 * (x / 37 - b) - 8 * d);
    }
    if d % 37 == 0 {
      assert x == 37 * (9 * (d / 37) + b);
    }
  }

  /** Where in a frame a whole number of packets of either kind ends: at its start, or behind an RC packet. */
  lemma FrameOffset(a: int, b: int, parity: nat)
    requires parity < 2
    ensures (RC_SIZE * a + IMU_SIZE * b) % FRAME_SIZE == (if parity == 0 then 0 else RC_SIZE)
            <==> (a - b - parity) % FRAME_SIZE == 0
  {
    NineTimes(a - b - parity, b);
    var at := RC_SIZE * a + IMU_SIZE * b;
    assert at - 9 * parity == 9 * (a - b - parity) + 37 * b;
    if parity == 1 {
      RemainderNine(at);
    }
  }

  lemma RemainderNine(at: int)
    ensures at % 37 == 9 <==> (at - 9) % 37 == 0
  {
  }

  /** How many more RC than IMU packets were delivered. */
  function Lead(line: Line, calls: seq<Read>): int {
    var rc: int, imu: int := Successes(line, calls, 0), Successes(line, calls, 1);
    rc - imu
  }

  /** A position is at a frame's start, or behind its RC packet, exactly if the lead says so. */
  predicate LeadTells(at: int, lead: int, parity: nat) {
    at % FRAME_SIZE == (if parity == 0 then 0 else RC_SIZE) <==> (lead - parity) % FRAME_SIZE == 0
  }

  /** The lead alone decides where in a frame the next packet is cut. */
  lemma {:induction false} LeadDecidesOffset(line: Line, calls: seq<Read>, parity: nat)
    requires Alternating(calls) && parity < 2
    ensures LeadTells(|Delivered(line, calls)|, Lead(line, calls), parity)
  {
    var at: int, rc: int, imu: int := |Delivered(line, calls)|, Successes(line, calls, 0), Successes(line, calls, 1);
    DeliveredLength(line, calls);
    LeadOffset(at, rc, imu, parity);
    assert Lead(line, calls) == rc - imu;
  }

  lemma LeadOffset(at: int, rc: int, imu: int, parity: nat)
    requires at == RC_SIZE * rc + IMU_SIZE * imu && parity < 2
    ensures LeadTells(at, rc - imu, parity)
  {
    FrameOffset(rc, imu, parity);
  }

  // ----- What the flush condition means -----

  /** 'f' occurs in the flush string once, so no match can begin in the stale bytes and end in the fresh string. */
  lemma NoStraddlingMatch(stale: seq<byte>, end: nat)
    requires |stale| < end < |stale| + |FLUSH|
    ensures !MatchEndsAt(stale + FLUSH, FLUSH, end)
  {
    if |FLUSH| <= end {
      var k := |stale| - (end - |FLUSH|);
      assert (stale + FLUSH)[end - |FLUSH|..end][k] == 102;
      assert FLUSH[k] != 102;
    }
  }

  lemma StaleMatch(stale: seq<byte>, end: nat)
    requires end <= |stale|
    ensures MatchEndsAt(stale + FLUSH, FLUSH, end) <==> MatchEndsAt(stale, FLUSH, end)
  {
    if |FLUSH| <= end {
      assert (stale + FLUSH)[end - |FLUSH|..end] == stale[end - |FLUSH|..end];
    }
  }

  lemma {:induction false} FirstMatchIsLeast(s: seq<byte>, end: nat)
    requires MatchEndsAt(s, FLUSH, end)
    requires forall e: nat :: e < end ==> !MatchEndsAt(s, FLUSH, e)
    ensures FirstMatchEnd(s, FLUSH) == Some(end)
  {
    var r := FirstMatchEnd(s, FLUSH);
  }

  lemma FreshMatch(stale: seq<byte>)
    ensures MatchEndsAt(stale + FLUSH, FLUSH, |stale| + |FLUSH|)
  {
    assert (stale + FLUSH)[|stale|..|stale| + |FLUSH|] == FLUSH;
  }

  lemma {:induction false} NoEarlierMatch(stale: seq<byte>, end: nat)
    requires FirstMatchEnd(stale, FLUSH) == None && end < |stale| + |FLUSH|
    ensures !MatchEndsAt(stale + FLUSH, FLUSH, end)
  {
    if end <= |stale| { StaleMatch(stale, end); } else { NoStraddlingMatch(stale, end); }
  }

  /**
   * The first match ends at the fresh flush string if and only if the stale bytes before it contain
   * none of their own: a match can never straddle the two.
   */
  lemma {:induction false} CleanFlushCondition(stale: seq<byte>)
    ensures FirstMatchEnd(stale + FLUSH, FLUSH) == Some(|stale| + |FLUSH|) <==> FirstMatchEnd(stale, FLUSH) == None
  {
    match FirstMatchEnd(stale, FLUSH)
    case Some(end) =>
      StaleMatch(stale, end);
      assert MatchEndsAt(stale + FLUSH, FLUSH, end);
    case None =>
      FreshMatch(stale);
      forall end: nat | end < |stale| + |FLUSH|
        ensures !MatchEndsAt(stale + FLUSH, FLUSH, end)
      {
        NoEarlierMatch(stale, end);
      }
      FirstMatchIsLeast(stale + FLUSH, |stale| + |FLUSH|);
  }

  /** Where the flush stops: the end of the first flush string in the stale bytes and the fresh string. */
  function MatchEnd(stale: seq<byte>): nat {
    match FirstMatchEnd(stale + FLUSH, FLUSH)
    case Some(end) => end
    case None => |stale| + |FLUSH|
  }

  /** What is behind the first flush string once the fresh one was sent; nothing, if the fresh one is the first. */
  function Rest(stale: seq<byte>): seq<byte> {
    (stale + FLUSH)[Min(MatchEnd(stale), |stale| + |FLUSH|)..]
  }

  lemma {:induction false} MatchEndFound(stale: seq<byte>)
    ensures FirstMatchEnd(stale + FLUSH, FLUSH) == Some(MatchEnd(stale))
    ensures |FLUSH| <= MatchEnd(stale) && (MatchEnd(stale) <= |stale| || MatchEnd(stale) == |stale| + |FLUSH|)
    ensures MatchEnd(stale) + |Rest(stale)| == |stale| + |FLUSH|
  {
    FreshMatch(stale);
    var end := MatchEnd(stale);
    if |stale| < end < |stale| + |FLUSH| {
      NoStraddlingMatch(stale, end);
    }
  }

  lemma MatchInPrefix(a: seq<byte>, b: seq<byte>, end: nat)
    requires end <= |a|
    ensures MatchEndsAt(a + b, FLUSH, end) <==> MatchEndsAt(a, FLUSH, end)
  {
    if |FLUSH| <= end {
      assert (a + b)[end - |FLUSH|..end] == a[end - |FLUSH|..end];
    }
  }

  /** A first match is still the first when more bytes follow. */
  lemma {:induction false} FirstMatchExtends(a: seq<byte>, b: seq<byte>)
    requires FirstMatchEnd(a, FLUSH).Some?
    ensures FirstMatchEnd(a + b, FLUSH) == FirstMatchEnd(a, FLUSH)
  {
    var end := FirstMatchEnd(a, FLUSH).value;
    MatchInPrefix(a, b, end);
    forall e: nat | e < end
      ensures !MatchEndsAt(a + b, FLUSH, e)
    {
      MatchInPrefix(a, b, e);
    }
    FirstMatchIsLeast(a + b, end);
  }

  /** How much a flush of an empty buffer drops: what it took in, but no more than twice the match. */
  function FlushDropped(end: nat, size: nat, readAhead: nat): nat {
    Min(2 * end, Min(end + readAhead, size))
  }

  lemma MatchDrops(arrived: seq<byte>, end: nat, readAhead: nat)
    requires 0 < end <= |arrived|
    ensures var line, dropped := AfterMatch([], arrived, end, readAhead), FlushDropped(end, |arrived|, readAhead);
      && end <= dropped <= |arrived|
      && Pending(line) == arrived[dropped..]
      && (|arrived| <= 2 * end || readAhead == 0 ==> line.buffer == [])
      && |line.buffer| == Min(end + readAhead, |arrived|) - dropped
  {
    var taken, dropped := Min(end + readAhead, |arrived|), FlushDropped(end, |arrived|, readAhead);
    assert [] + arrived[..taken] == arrived[..taken];
    assert arrived[..taken][dropped..] == arrived[dropped..taken];
    assert arrived[dropped..taken] + arrived[taken..] == arrived[dropped..];
  }

  /** A flush of an empty buffer drops everything up to the match and at most as much again; the rest stays in order. */
  lemma {:induction false} FlushDrops(arrived: seq<byte>, readAhead: nat)
    requires FirstMatchEnd(arrived, FLUSH).Some?
    ensures var end, line := FirstMatchEnd(arrived, FLUSH).value, FlushLine(Line([], arrived), [], readAhead).line;
      var dropped := FlushDropped(end, |arrived|, readAhead);
      && end <= dropped <= |arrived|
      && Pending(line) == arrived[dropped..]
      && (|arrived| <= 2 * end || readAhead == 0 ==> line.buffer == [])
      && |line.buffer| == Min(end + readAhead, |arrived|) - dropped
  {
    assert arrived + [] == arrived && [] + arrived == arrived;
    MatchDrops(arrived, FirstMatchEnd(arrived, FLUSH).value, readAhead);
  }

  /** How much is in the stream buffer when a match that ends at `end` is found. */
  function Buffered(buffer: nat, available: nat, end: nat, readAhead: nat): nat {
    if end <= buffer then buffer else Min(end + readAhead, buffer + available)
  }

  lemma MatchDropsAny(buffer: seq<byte>, available: seq<byte>, end: nat, readAhead: nat)
    requires 0 < end <= |buffer| + |available|
    ensures var line, held := AfterMatch(buffer, available, end, readAhead), Buffered(|buffer|, |available|, end, readAhead);
      && end <= Min(2 * end, held) <= held <= |buffer| + |available|
      && Pending(line) == (buffer + available)[Min(2 * end, held)..]
      && |line.buffer| == held - Min(2 * end, held)
  {
    var held := Buffered(|buffer|, |available|, end, readAhead);
    TakenAndLeft(buffer, available, held, Min(2 * end, held));
  }

  lemma TakenAndLeft(buffer: seq<byte>, available: seq<byte>, held: nat, dropped: nat)
    requires |buffer| <= held <= |buffer| + |available| && dropped <= held
    ensures var taken := held - |buffer|;
      (buffer + available[..taken])[dropped..] + available[taken..] == (buffer + available)[dropped..]
  {
    assert buffer + available == buffer + available[..held - |buffer|] + available[held - |buffer|..];
  }

  /**
   * A flush, whatever the buffer holds: it succeeds if and only if the flush string is among the bytes it has
   * or gets, and then drops everything up to its end and at most as much again of what it holds; otherwise
   * it keeps every byte in order, in the buffer.
   */
  lemma {:induction false} FlushExactly(line: Line, arriving: seq<byte>, readAhead: nat)
    ensures var all, r := Pending(line) + arriving, FlushLine(line, arriving, readAhead);
      && (r.ok <==> exists end: nat :: MatchEndsAt(all, FLUSH, end))
      && (!r.ok ==> r.line == Line(all, []))
      && (r.ok ==>
            var end := FirstMatchEnd(all, FLUSH);
            && end.Some?
            && var held := Buffered(|line.buffer|, |line.arrived| + |arriving|, end.value, readAhead);
            && end.value <= Min(2 * end.value, held) <= |all|
            && Pending(r.line) == all[Min(2 * end.value, held)..]
            && |r.line.buffer| == held - Min(2 * end.value, held))
  {
    var available, all := line.arrived + arriving, Pending(line) + arriving;
    assert line.buffer + available == all;
    match FirstMatchEnd(all, FLUSH)
    case None =>
      assert !exists end: nat :: MatchEndsAt(all, FLUSH, end);
    case Some(end) =>
      MatchDropsAny(line.buffer, available, end, readAhead);
  }

  // ----- The controller itself -----

  class Port {
    var streamBuffer: seq<byte>
    var arrived: seq<byte>
    var sent: seq<byte>

    function State(): Line
      reads this
    {
      Line(streamBuffer, arrived)
    }

    constructor ()
      ensures State() == Line([], []) && sent == []
    {
      streamBuffer, arrived, sent := [], [], [];
    }

    method ReadPacket(size: nat, arriving: seq<byte>) returns (bytes: Option<seq<byte>>)
      modifies this`streamBuffer, this`arrived
      ensures ReadOutcome(State(), bytes) == ReadExactly(old(State()), size, arriving)
    {
      arrived := arrived + arriving;
      if |arrived| >= size {
        streamBuffer, arrived := streamBuffer + arrived[..size], arrived[size..];
        bytes := Some(streamBuffer[..size]);
        streamBuffer := Consume(streamBuffer, size);
      } else {
        streamBuffer, arrived := streamBuffer + arrived, [];
        bytes := None;
      }
    }

    method WritePacket(packet: seq<byte>, accepted: nat) returns (ok: bool)
      modifies this`sent
      ensures ok <==> accepted >= |packet|
      ensures sent == old(sent) + packet[..Min(accepted, |packet|)]
    {
      sent := sent + packet[..Min(accepted, |packet|)];
      ok := accepted >= |packet|;
    }

    method Flush(arriving: seq<byte>, readAhead: nat) returns (ok: bool)
      modifies this`streamBuffer, this`arrived
      ensures FlushOutcome(State(), ok) == FlushLine(old(State()), arriving, readAhead)
    {
      arrived := arrived + arriving;
      var match_ := FirstMatchEnd(streamBuffer + arrived, FLUSH);
      if match_.None? {
        streamBuffer, arrived := streamBuffer + arrived, [];
        return false;
      }
      var end := match_.value;
      var taken := if end <= |streamBuffer| then 0 else Min(end - |streamBuffer| + readAhead, |arrived|);
      streamBuffer, arrived := streamBuffer + arrived[..taken], arrived[taken..];
      streamBuffer := Consume(streamBuffer, end * 2);
      ok := true;
    }
  }
}
