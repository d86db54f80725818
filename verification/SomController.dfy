/**
 * The SoM's main program (impl/src/som/SomController.cpp): the handshake with its bounded number of
 * attempts, the main loop over the serial port and the autopilot, the counters and the telemetry.
 */
module SomController {
  import opened Common
  import opened AutopilotUtility
  import opened Packet
  import opened StabilizeAutopilot
  import opened AutopilotManager
  import opened SerialController
  import T = Telemetry

  // ----- Handshake -----

  datatype HandshakeResult = FlushTimedOut | WriteTimedOut | NotAcknowledged | Acknowledged

  /** Where the attempts end: the line, the counters, the number of reads made and how many timed out. */
  datatype Attempts = Attempts(line: Line, debug: T.DebugMessage, used: nat, timeouts: nat, acknowledged: bool)

  const ZERO_DEBUG := T.DebugMessage(0, 0, 0, 0, 0)
  const HANDSHAKE: byte := 1

  function CountRead(d: T.DebugMessage, didTimeout: bool): T.DebugMessage {
    if didTimeout then d.(serialReadTimeouts := Increment(d.serialReadTimeouts))
    else d.(serialReads := Increment(d.serialReads))
  }

  function CountWrite(d: T.DebugMessage, ok: bool): T.DebugMessage {
    if ok then d.(serialWrites := Increment(d.serialWrites))
    else d.(serialWriteTimeouts := Increment(d.serialWriteTimeouts))
  }

  /** The attempts numbered i and later; arriving(i) is what the line delivers during attempt i. */
  function Attempt(line: Line, debug: T.DebugMessage, limit: nat, arriving: nat -> seq<byte>, i: nat,
                   timeouts: nat): Attempts
    decreases limit - i
  {
    if i >= limit then Attempts(line, debug, i, timeouts, false)
    else
      var r := ReadExactly(line, HANDSHAKE_SIZE, arriving(i));
      match r.bytes
      case None => Attempt(r.line, CountRead(debug, true), limit, arriving, i + 1, timeouts + 1)
      case Some(b) =>
        if b[0] == HANDSHAKE then Attempts(r.line, CountRead(debug, false), i + 1, timeouts, true)
        else Attempt(r.line, debug, limit, arriving, i + 1, timeouts)
  }

  /** Everything the line holds or delivers up to attempt n. */
  function Received(line: Line, arriving: nat -> seq<byte>, n: nat): seq<byte> {
    if n == 0 then Pending(line) else Received(line, arriving, n - 1) + arriving(n - 1)
  }

  lemma {:induction false} ReceivedGrows(line: Line, arriving: nat -> seq<byte>, m: nat, n: nat)
    requires m <= n
    ensures Received(line, arriving, m) <= Received(line, arriving, n)
  {
    if m == n {
    } else {
      ReceivedGrows(line, arriving, m, n - 1);
    }
  }

  /** The line is at position i of what was received. */
  predicate At(line: Line, received: seq<byte>, i: nat) {
    i <= |received| && Pending(line) == received[i..]
  }

  /** One attempt that reads a byte: it is the next of the stream, and the leftover keeps its length. */
  lemma AttemptReadsNext(line0: Line, line: Line, arriving: nat -> seq<byte>, i: nat)
    requires At(line, Received(line0, arriving, i), i)
    requires ReadExactly(line, HANDSHAKE_SIZE, arriving(i)).bytes.Some?
    ensures var r, received := ReadExactly(line, HANDSHAKE_SIZE, arriving(i)), Received(line0, arriving, i + 1);
      At(r.line, received, i + 1) && received[i] == r.bytes.value[0] && |r.line.buffer| == |line.buffer|
  {
    var r := ReadExactly(line, HANDSHAKE_SIZE, arriving(i));
    var now, next := Received(line0, arriving, i), Received(line0, arriving, i + 1);
    ReadAccounting(line, HANDSHAKE_SIZE, arriving(i));
    assert next[i..] == now[i..] + arriving(i) == r.bytes.value + Pending(r.line);
    assert next[i] == next[i..][0];
    assert Pending(r.line) == next[i..][1..] == next[i + 1..];
  }

  /** Attempts are bounded, and an acknowledged handshake had at least one read that did not time out. */
  lemma {:induction false} AttemptsCounted(line: Line, debug: T.DebugMessage, limit: nat,
                                           arriving: nat -> seq<byte>, i: nat, timeouts: nat)
    requires i <= limit
    ensures var a := Attempt(line, debug, limit, arriving, i, timeouts);
      && i <= a.used <= limit && timeouts <= a.timeouts
      && (a.acknowledged ==> i < a.used && a.timeouts - timeouts < a.used - i)
    decreases limit - i
  {
    if i == limit {
    } else {
      var r := ReadExactly(line, HANDSHAKE_SIZE, arriving(i));
      if r.bytes.None? {
        AttemptsCounted(r.line, CountRead(debug, true), limit, arriving, i + 1, timeouts + 1);
      } else if r.bytes.value[0] != HANDSHAKE {
        AttemptsCounted(r.line, debug, limit, arriving, i + 1, timeouts);
      }
    }
  }

  /** Where attempts without timeouts end: behind the first handshake byte, or after the last attempt. */
  predicate EndsAtHandshake(a: Attempts, stream: seq<byte>, from: nat, limit: nat) {
    && from <= a.used <= limit && a.used <= |stream|
    && (a.acknowledged ==> from < a.used && stream[a.used - 1] == HANDSHAKE)
    && (!a.acknowledged ==> a.used == limit)
    && (forall j :: from <= j < (if a.acknowledged then a.used - 1 else a.used) ==> stream[j] != HANDSHAKE)
  }

  lemma EndsOneLater(a: Attempts, stream: seq<byte>, i: nat, limit: nat)
    requires EndsAtHandshake(a, stream, i + 1, limit) && i < |stream| && stream[i] != HANDSHAKE
    ensures EndsAtHandshake(a, stream, i, limit)
  {
  }

  lemma SameByte(prefix: seq<byte>, whole: seq<byte>, i: nat)
    requires prefix <= whole && i < |prefix|
    ensures prefix[i] == whole[i]
  {
  }

  /** Where attempts end that start at attempt i: at the handshake byte, on the stream, with the leftover as it was. */
  predicate EndOnStream(a: Attempts, line0: Line, arriving: nat -> seq<byte>, i: nat, limit: nat, leftover: nat) {
    && EndsAtHandshake(a, Received(line0, arriving, limit), i, limit)
    && At(a.line, Received(line0, arriving, a.used), a.used)
    && |a.line.buffer| == leftover
  }

  lemma {:induction false} AttemptsOnStream(line0: Line, line: Line, debug: T.DebugMessage, limit: nat,
                                            arriving: nat -> seq<byte>, i: nat, timeouts: nat)
    requires i <= limit && At(line, Received(line0, arriving, i), i)
    requires Attempt(line, debug, limit, arriving, i, timeouts).timeouts == timeouts
    ensures EndOnStream(Attempt(line, debug, limit, arriving, i, timeouts), line0, arriving, i, limit, |line.buffer|)
    decreases limit - i
  {
    if i == limit {
    } else {
      var r := ReadExactly(line, HANDSHAKE_SIZE, arriving(i));
      if r.bytes.None? {
        AttemptsCounted(r.line, CountRead(debug, true), limit, arriving, i + 1, timeouts + 1);
        assert false;
      }
      var stream := Received(line0, arriving, limit);
      AttemptReadsNext(line0, line, arriving, i);
      ReceivedGrows(line0, arriving, i + 1, limit);
      SameByte(Received(line0, arriving, i + 1), stream, i);
      if r.bytes.value[0] != HANDSHAKE {
        AttemptsOnStream(line0, r.line, debug, limit, arriving, i + 1, timeouts);
        EndsOneLater(Attempt(r.line, debug, limit, arriving, i + 1, timeouts), stream, i, limit);
      }
    }
  }

  /**
   * The handshake, when no read times out: it succeeds if and only if the byte 1 is among the next
   * `limit` bytes after flush, and then leaves the stream immediately behind the first such byte.
   */
  lemma {:induction false} HandshakeExactly(line: Line, debug: T.DebugMessage, limit: nat, arriving: nat -> seq<byte>)
    requires Attempt(line, debug, limit, arriving, 0, 0).timeouts == 0
    ensures var a := Attempt(line, debug, limit, arriving, 0, 0);
      var stream := Received(line, arriving, limit);
      && a.used <= limit && a.used <= |stream|
      && (a.acknowledged <==> HANDSHAKE in stream[..Min(limit, |stream|)])
      && (a.acknowledged ==> a.used > 0 && stream[a.used - 1] == HANDSHAKE && HANDSHAKE !in stream[..a.used - 1])
      && At(a.line, Received(line, arriving, a.used), a.used)
      && |a.line.buffer| == |line.buffer|
  {
    AttemptsOnStream(line, line, debug, limit, arriving, 0, 0);
    var a := Attempt(line, debug, limit, arriving, 0, 0);
    var stream := Received(line, arriving, limit);
    if a.acknowledged {
      assert stream[..Min(limit, |stream|)][a.used - 1] == HANDSHAKE;
    }
  }

  /** The reads that the attempts allowed would make. */
  function Tries(arriving: nat -> seq<byte>, limit: nat): seq<Read> {
    seq(limit, i requires 0 <= i < limit => Read(1, arriving(i)))
  }

  /** How many of the reads timed out. */
  function TimedOut(line: Line, calls: seq<Read>): nat {
    if calls == [] then 0
    else
      var n := |calls| - 1;
      TimedOut(line, calls[..n]) + if ReadResult(line, calls, n) == None then 1 else 0
  }

  /** The attempts from one on end behind the first read that returns the byte 1, or when all were made. */
  predicate EndsAtEcho(a: Attempts, line: Line, tries: seq<Read>, from: nat) {
    && from <= a.used <= |tries|
    && a.line == LineAfter(line, tries[..a.used])
    && a.timeouts == TimedOut(line, tries[..a.used])
    && (a.acknowledged ==> from < a.used && ReadResult(line, tries, a.used - 1) == Some([1]))
    && (!a.acknowledged ==> a.used == |tries|)
    && (forall i :: from <= i < (if a.acknowledged then a.used - 1 else a.used) ==> ReadResult(line, tries, i) != Some([1]))
  }

  lemma {:induction false} NextTry(line: Line, tries: seq<Read>, i: nat)
    requires i < |tries|
    ensures var r := ReadExactly(LineAfter(line, tries[..i]), tries[i].size, tries[i].arriving);
      && ReadResult(line, tries, i) == r.bytes
      && LineAfter(line, tries[..i + 1]) == r.line
      && TimedOut(line, tries[..i + 1]) == TimedOut(line, tries[..i]) + if r.bytes == None then 1 else 0
  {
    assert tries[..i + 1][..i] == tries[..i];
  }

  lemma EchoOneLater(a: Attempts, line: Line, tries: seq<Read>, i: nat)
    requires EndsAtEcho(a, line, tries, i + 1) && i < |tries| && ReadResult(line, tries, i) != Some([1])
    ensures EndsAtEcho(a, line, tries, i)
  {
  }

  lemma {:induction false} AttemptsEndAtEcho(line0: Line, line: Line, debug: T.DebugMessage, limit: nat,
                                             arriving: nat -> seq<byte>, i: nat, timeouts: nat)
    requires var tries := Tries(arriving, limit);
      i <= limit && line == LineAfter(line0, tries[..i]) && timeouts == TimedOut(line0, tries[..i])
    ensures EndsAtEcho(Attempt(line, debug, limit, arriving, i, timeouts), line0, Tries(arriving, limit), i)
    decreases limit - i
  {
    var tries := Tries(arriving, limit);
    if i == limit {
    } else {
      NextTry(line0, tries, i);
      var r := ReadExactly(line, HANDSHAKE_SIZE, arriving(i));
      if r.bytes.None? {
        AttemptsEndAtEcho(line0, r.line, CountRead(debug, true), limit, arriving, i + 1, timeouts + 1);
        EchoOneLater(Attempt(r.line, CountRead(debug, true), limit, arriving, i + 1, timeouts + 1), line0, tries, i);
      } else if r.bytes.value[0] != HANDSHAKE {
        AttemptsEndAtEcho(line0, r.line, debug, limit, arriving, i + 1, timeouts);
        EchoOneLater(Attempt(r.line, debug, limit, arriving, i + 1, timeouts), line0, tries, i);
      } else {
        assert r.bytes.value == [1];
      }
    }
  }

  /**
   * The handshake under any pattern of timeouts: it succeeds if and only if one of the reads allowed returns
   * the byte 1, ends behind the first that does, and has used up an attempt for every read, timed out or not.
   */
  lemma {:induction false} HandshakeIsFirstEcho(line: Line, debug: T.DebugMessage, limit: nat, arriving: nat -> seq<byte>)
    ensures var a, tries := Attempt(line, debug, limit, arriving, 0, 0), Tries(arriving, limit);
      && (a.acknowledged <==> exists i :: 0 <= i < limit && ReadResult(line, tries, i) == Some([1]))
      && EndsAtEcho(a, line, tries, 0)
  {
    var tries := Tries(arriving, limit);
    assert tries[..0] == [];
    AttemptsEndAtEcho(line, line, debug, limit, arriving, 0, 0);
  }

  // ----- One pass of the main loop -----

  datatype SomState = SomState(
    line: Line, sent: seq<byte>, manager: ManagerState,
    debug: T.DebugMessage, attitude: T.AttitudeMessage, onboard: T.OnboardStateMessage)

  /** What the environment decides during one pass: arrivals during each read, bytes the write gets rid of. */
  datatype Pass = Pass(rcArriving: seq<byte>, imuArriving: seq<byte>, accepted: nat)

  function RcRead(s: SomState, pass: Pass): ReadOutcome {
    ReadExactly(s.line, RC_SIZE, pass.rcArriving)
  }

  function ImuRead(s: SomState, pass: Pass): ReadOutcome {
    ReadExactly(RcRead(s, pass).line, IMU_SIZE, pass.imuArriving)
  }

  /** The two packets the pass hands to the manager. */
  function PassInput(s: SomState, pass: Pass): Input {
    Input(RcOf(RcRead(s, pass).bytes), ImuOf(ImuRead(s, pass).bytes))
  }

  function OnboardReport(c: Config, o: T.OnboardStateMessage, input: Input, p: ControlSurfacePacket, mode: Mode)
    : T.OnboardStateMessage {
    o.(mcuTimestamp := input.rc.timestamp,
       throttle := p.motorSpeed, aileron := p.aileron, elevator := p.elevator, rudder := p.rudder,
       autopilotType := if mode == Manual then T.ManualAutopilot else T.StabilizeAutopilot,
       imuTemperature := CastByte(c, c.platform.floatValue(input.imu.temperature)))
  }

  function AttitudeReport(c: Config, a: T.AttitudeMessage, imu: ImuPacket): T.AttitudeMessage {
    a.(rollAngle := c.platform.floatValue(imu.gyroX), pitchAngle := c.platform.floatValue(imu.gyroY),
       yawAngle := c.platform.floatValue(imu.gyroZ))
  }

  /** The counters after the two reads of a pass. */
  function CountReads(s: SomState, pass: Pass): T.DebugMessage {
    CountRead(CountRead(s.debug, RcRead(s, pass).bytes.None?), ImuRead(s, pass).bytes.None?)
  }

  function NextPass(c: Config, s: SomState, pass: Pass): SomState {
    var input := PassInput(s, pass);
    var packet := ManagerOutput(c, s.manager, input);
    var manager := ManagerNext(c, s.manager, input);
    var written := CountWrite(CountReads(s, pass), pass.accepted >= CS_SIZE);
    SomState(ImuRead(s, pass).line,
             s.sent + EncodeCs(packet)[..Min(pass.accepted, CS_SIZE)],
             manager,
             written.(mainLoopCounter := Increment(written.mainLoopCounter)),
             AttitudeReport(c, s.attitude, input.imu),
             OnboardReport(c, s.onboard, input, packet, manager.mode))
  }

  function SomRun(c: Config, s: SomState, script: seq<Pass>): SomState {
    if script == [] then s
    else NextPass(c, SomRun(c, s, script[..|script| - 1]), script[|script| - 1])
  }

  function ReportOf(s: SomState): T.Report {
    T.Report(s.debug, s.attitude, s.onboard)
  }

  /** The reports of a run, one before the loop and one after every pass. */
  function Reports(c: Config, s: SomState, script: seq<Pass>): seq<T.Report> {
    seq(|script| + 1, n requires 0 <= n <= |script| => ReportOf(SomRun(c, s, script[..n])))
  }

  // ----- Counters -----

  function ReadSum(d: T.DebugMessage): int { d.serialReads + d.serialReadTimeouts }
  function WriteSum(d: T.DebugMessage): int { d.serialWrites + d.serialWriteTimeouts }

  /** Equality of uint32_t counters that may have wrapped around. */
  predicate Congruent(x: int, y: int) {
    x % 0x1_0000_0000 == y % 0x1_0000_0000
  }

  /** Modulo 2^32, with h timed-out handshake reads. */
  predicate CountersAgree(d: T.DebugMessage, passes: nat, h: nat) {
    && Congruent(d.mainLoopCounter, passes)
    && Congruent(WriteSum(d), passes + 1)
    && Congruent(ReadSum(d), 2 * passes + 1 + h)
  }

  lemma IncrementRemainder(n: nat)
    ensures Increment(n % 0x1_0000_0000) == (n + 1) % 0x1_0000_0000
  {
  }

  lemma {:induction false} HandshakeCounters(line: Line, debug: T.DebugMessage, limit: nat,
                                             arriving: nat -> seq<byte>, i: nat, timeouts: nat)
    requires Attempt(line, debug, limit, arriving, i, timeouts).acknowledged
    requires debug.serialReads == 0 && debug.serialReadTimeouts == timeouts % 0x1_0000_0000
    ensures var a := Attempt(line, debug, limit, arriving, i, timeouts);
      a.debug == debug.(serialReads := 1, serialReadTimeouts := a.timeouts % 0x1_0000_0000)
    decreases limit - i
  {
    var r := ReadExactly(line, HANDSHAKE_SIZE, arriving(i));
    if r.bytes.None? {
      IncrementRemainder(timeouts);
      var counted := debug.(serialReadTimeouts := (timeouts + 1) % 0x1_0000_0000);
      assert CountRead(debug, true) == counted;
      HandshakeCounters(r.line, counted, limit, arriving, i + 1, timeouts + 1);
    } else if r.bytes.value[0] != HANDSHAKE {
      HandshakeCounters(r.line, debug, limit, arriving, i + 1, timeouts);
    } else {
      assert Increment(0) == 1;
    }
  }

  /** Counting on from congruent values. */
  lemma CongruentStep(x: int, y: int, z: int, k: int)
    requires Congruent(x, y) && Congruent(z, x + k)
    ensures Congruent(z, y + k)
  {
  }

  /** Adding one to either counter of a sum. */
  lemma IncrementInSum(x: uint32, y: uint32)
    ensures Congruent(Increment(x) + y, x + y + 1)
  {
    if x == 0xFFFF_FFFF {
      assert x + y + 1 == (Increment(x) + y) + 0x1_0000_0000;
    }
  }

  lemma CountReadAddsOne(d: T.DebugMessage, didTimeout: bool)
    ensures Congruent(ReadSum(CountRead(d, didTimeout)), ReadSum(d) + 1)
  {
    if didTimeout {
      IncrementInSum(d.serialReadTimeouts, d.serialReads);
    } else {
      IncrementInSum(d.serialReads, d.serialReadTimeouts);
    }
  }

  lemma CountWriteAddsOne(d: T.DebugMessage, ok: bool)
    ensures Congruent(WriteSum(CountWrite(d, ok)), WriteSum(d) + 1)
  {
    if ok {
      IncrementInSum(d.serialWrites, d.serialWriteTimeouts);
    } else {
      IncrementInSum(d.serialWriteTimeouts, d.serialWrites);
    }
  }

  lemma IncrementAddsOne(x: uint32)
    ensures Congruent(Increment(x), x + 1)
  {
  }

  /** The counters after a pass whose two reads and write succeeded or not. */
  function Tallied(d: T.DebugMessage, rc: bool, imu: bool, written: bool): T.DebugMessage {
    var counted := CountWrite(CountRead(CountRead(d, !rc), !imu), written);
    counted.(mainLoopCounter := Increment(counted.mainLoopCounter))
  }

  lemma PassTallies(c: Config, s: SomState, pass: Pass)
    ensures NextPass(c, s, pass).debug
         == Tallied(s.debug, RcRead(s, pass).bytes.Some?, ImuRead(s, pass).bytes.Some?, pass.accepted >= 4)
  {
  }

  lemma PassCounters(c: Config, s: SomState, pass: Pass, passes: nat, h: nat)
    requires CountersAgree(s.debug, passes, h)
    ensures CountersAgree(NextPass(c, s, pass).debug, passes + 1, h)
  {
    PassTallies(c, s, pass);
    TallyAgrees(s.debug, RcRead(s, pass).bytes.Some?, ImuRead(s, pass).bytes.Some?, pass.accepted >= 4, passes, h);
  }

  lemma TallyAgrees(d: T.DebugMessage, rc: bool, imu: bool, written: bool, passes: nat, h: nat)
    requires CountersAgree(d, passes, h)
    ensures CountersAgree(Tallied(d, rc, imu, written), passes + 1, h)
  {
    var d1 := CountRead(d, !rc);
    var d2 := CountRead(d1, !imu);
    var d3 := CountWrite(d2, written);
    CountReadAddsOne(d, !rc);
    CountReadAddsOne(d1, !imu);
    CountWriteAddsOne(d2, written);
    IncrementAddsOne(d.mainLoopCounter);
    CountersStep(d, d1, d2, d3, passes, h);
  }

  lemma CountersStep(d: T.DebugMessage, d1: T.DebugMessage, d2: T.DebugMessage, d3: T.DebugMessage, passes: nat, h: nat)
    requires CountersAgree(d, passes, h)
    requires Congruent(ReadSum(d1), ReadSum(d) + 1) && Congruent(ReadSum(d2), ReadSum(d1) + 1)
    requires Congruent(WriteSum(d3), WriteSum(d) + 1) && Congruent(Increment(d.mainLoopCounter), d.mainLoopCounter + 1)
    requires d3 == d2.(serialWrites := d3.serialWrites, serialWriteTimeouts := d3.serialWriteTimeouts)
    ensures CountersAgree(d3.(mainLoopCounter := Increment(d.mainLoopCounter)), passes + 1, h)
  {
    var last := d3.(mainLoopCounter := Increment(d.mainLoopCounter));
    assert Congruent(ReadSum(last), 2 * (passes + 1) + 1 + h) by {
      CongruentStep(ReadSum(d), 2 * passes + 1 + h, ReadSum(d1), 1);
      CongruentStep(ReadSum(d1), 2 * passes + 2 + h, ReadSum(d2), 1);
      assert ReadSum(last) == ReadSum(d2);
    }
    assert Congruent(WriteSum(last), passes + 1 + 1) by {
      CongruentStep(WriteSum(d), passes + 1, WriteSum(d3), 1);
      assert WriteSum(last) == WriteSum(d3);
    }
    assert Congruent(last.mainLoopCounter, passes + 1) by {
      CongruentStep(d.mainLoopCounter, passes, Increment(d.mainLoopCounter), 1);
    }
  }

  lemma {:induction false} RunCounters(c: Config, s: SomState, script: seq<Pass>, h: nat)
    requires CountersAgree(s.debug, 0, h)
    ensures CountersAgree(SomRun(c, s, script).debug, |script|, h)
  {
    if script == [] {
    } else {
      var n := |script| - 1;
      RunCounters(c, s, script[..n], h);
      PassCounters(c, SomRun(c, s, script[..n]), script[n], n, h);
    }
  }

  /**
   * Counter conservation over whole runs, modulo 2^32: after a handshake acknowledged with h timed-out
   * reads, fewer than the attempts allowed, every debug message offered to telemetry accounts for one
   * write per pass and the handshake's, and for two reads per pass, the handshake's and the h timeouts.
   */
  lemma {:induction false} CountersConserved(c: Config, line: Line, limit: nat, arriving: nat -> seq<byte>,
                          s: SomState, script: seq<Pass>, n: nat)
    requires n <= |script|
    requires var a := Attempt(line, ZERO_DEBUG.(serialWrites := 1), limit, arriving, 0, 0);
      a.acknowledged && s.debug == a.debug
    ensures var h := Attempt(line, ZERO_DEBUG.(serialWrites := 1), limit, arriving, 0, 0).timeouts;
      h < limit && CountersAgree(Reports(c, s, script)[n].debug, n, h)
  {
    var debug := ZERO_DEBUG.(serialWrites := 1);
    var h := Attempt(line, debug, limit, arriving, 0, 0).timeouts;
    HandshakeCounters(line, debug, limit, arriving, 0, 0);
    AttemptsCounted(line, debug, limit, arriving, 0, 0);
    AcknowledgedCounters(h);
    RunCounters(c, s, script[..n], h);
  }

  lemma RemainderCongruent(h: int, k: int)
    ensures Congruent(h % 0x1_0000_0000 + k, h + k)
  {
  }

  lemma AcknowledgedCounters(h: nat)
    ensures CountersAgree(ZERO_DEBUG.(serialWrites := 1, serialReads := 1, serialReadTimeouts := h % 0x1_0000_0000), 0, h)
  {
    RemainderCongruent(h, 1);
  }

  // ----- The loop as a whole -----

  /** The packets handed to the manager, pass by pass. */
  function Inputs(c: Config, s: SomState, script: seq<Pass>): seq<Input> {
    if script == [] then []
    else
      var n := |script| - 1;
      Inputs(c, s, script[..n]) + [PassInput(SomRun(c, s, script[..n]), script[n])]
  }

  /** The reads of a run on its port. */
  function ReadsOf(script: seq<Pass>): seq<Read> {
    if script == [] then []
    else
      var last := script[|script| - 1];
      ReadsOf(script[..|script| - 1]) + [Read(RC_SIZE, last.rcArriving), Read(IMU_SIZE, last.imuArriving)]
  }

  lemma {:induction false} RunIsManagerRun(c: Config, s: SomState, script: seq<Pass>)
    requires s.manager == MANAGER_INIT
    ensures SomRun(c, s, script).manager == ManagerRun(c, Inputs(c, s, script))
  {
    if script == [] {
    } else {
      var n := |script| - 1;
      RunIsManagerRun(c, s, script[..n]);
      var before, after := Inputs(c, s, script[..n]), Inputs(c, s, script);
      assert after[..|after| - 1] == before;
    }
  }

  lemma {:induction false} ReadsAlternate(script: seq<Pass>)
    ensures |ReadsOf(script)| == 2 * |script| && Alternating(ReadsOf(script))
  {
    if script == [] {
    } else {
      var n := |script| - 1;
      ReadsAlternate(script[..n]);
      TwoMoreAlternate(ReadsOf(script[..n]), n, script[n]);
    }
  }

  lemma TwoMoreAlternate(past: seq<Read>, n: nat, pass: Pass)
    requires |past| == 2 * n && Alternating(past)
    ensures Alternating(past + [Read(RC_SIZE, pass.rcArriving), Read(IMU_SIZE, pass.imuArriving)])
  {
    assert (2 * n) % 2 == 0 && (2 * n + 1) % 2 == 1;
  }

  lemma {:induction false} TwoMoreReads(line: Line, past: seq<Read>, first: Read, second: Read)
    ensures LineAfter(line, past + [first, second])
         == ReadExactly(ReadExactly(LineAfter(line, past), first.size, first.arriving).line, second.size, second.arriving).line
  {
    var p, q := past + [first], past + [first, second];
    assert p[..|past|] == past && q[..|past| + 1] == p;
  }

  lemma {:induction false} RunIsReads(c: Config, s: SomState, script: seq<Pass>)
    ensures SomRun(c, s, script).line == LineAfter(s.line, ReadsOf(script))
  {
    if script == [] {
    } else {
      var n := |script| - 1;
      RunIsReads(c, s, script[..n]);
      TwoMoreReads(s.line, ReadsOf(script[..n]), Read(RC_SIZE, script[n].rcArriving), Read(IMU_SIZE, script[n].imuArriving));
    }
  }

  /**
   * The loop is the manager run on the delivered packets and the port read alternately, so what is
   * proved of each holds of the loop: which mode answers, and when its framing survives timeouts.
   */
  lemma {:induction false} RunDecomposes(c: Config, s: SomState, script: seq<Pass>)
    requires s.manager == MANAGER_INIT
    ensures SomRun(c, s, script).manager == ManagerRun(c, Inputs(c, s, script))
    ensures Alternating(ReadsOf(script))
    ensures SomRun(c, s, script).line == LineAfter(s.line, ReadsOf(script))
  {
    RunIsManagerRun(c, s, script);
    ReadsAlternate(script);
    RunIsReads(c, s, script);
  }

  // ----- Each counter on its own -----

  /** The passes whose answer the port accepted whole. */
  function Accepted(script: seq<Pass>): (r: nat)
    ensures r <= |script|
  {
    if script == [] then 0
    else Accepted(script[..|script| - 1]) + if script[|script| - 1].accepted >= 4 then 1 else 0
  }

  /** The reads of a script that returned a packet. */
  function Completed(line: Line, script: seq<Pass>): nat {
    Successes(line, ReadsOf(script), 0) + Successes(line, ReadsOf(script), 1)
  }

  function OneIf(b: bool): nat {
    if b then 1 else 0
  }

  /** The counters, each modulo 2^32. */
  predicate CountersAre(d: T.DebugMessage, completed: int, readTimeouts: int, written: int, writeTimeouts: int, loops: int) {
    && d.serialReads == completed % 0x1_0000_0000
    && d.serialReadTimeouts == readTimeouts % 0x1_0000_0000
    && d.serialWrites == written % 0x1_0000_0000
    && d.serialWriteTimeouts == writeTimeouts % 0x1_0000_0000
    && d.mainLoopCounter == loops % 0x1_0000_0000
  }

  lemma CountReadCounts(d: T.DebugMessage, didTimeout: bool, r: nat, rt: nat, w: nat, wt: nat, loops: nat)
    requires CountersAre(d, r, rt, w, wt, loops)
    ensures CountersAre(CountRead(d, didTimeout), r + OneIf(!didTimeout), rt + OneIf(didTimeout), w, wt, loops)
  {
    if didTimeout { IncrementRemainder(rt); } else { IncrementRemainder(r); }
  }

  lemma CountWriteCounts(d: T.DebugMessage, ok: bool, r: nat, rt: nat, w: nat, wt: nat, loops: nat)
    requires CountersAre(d, r, rt, w, wt, loops)
    ensures CountersAre(CountWrite(d, ok), r, rt, w + OneIf(ok), wt + OneIf(!ok), loops)
  {
    if ok { IncrementRemainder(w); } else { IncrementRemainder(wt); }
  }

  lemma LoopCounts(d: T.DebugMessage, r: nat, rt: nat, w: nat, wt: nat, loops: nat)
    requires CountersAre(d, r, rt, w, wt, loops)
    ensures CountersAre(d.(mainLoopCounter := Increment(d.mainLoopCounter)), r, rt, w, wt, loops + 1)
  {
    IncrementRemainder(loops);
  }

  lemma TallyCounts(d: T.DebugMessage, rc: bool, imu: bool, written: bool, r: nat, rt: nat, w: nat, wt: nat, loops: nat)
    requires CountersAre(d, r, rt, w, wt, loops)
    ensures CountersAre(Tallied(d, rc, imu, written), r + OneIf(rc) + OneIf(imu), rt + OneIf(!rc) + OneIf(!imu),
                        w + OneIf(written), wt + OneIf(!written), loops + 1)
  {
    var d1 := CountRead(d, !rc);
    var d2 := CountRead(d1, !imu);
    var r1, rt1 := r + OneIf(rc), rt + OneIf(!rc);
    var r2, rt2 := r1 + OneIf(imu), rt1 + OneIf(!imu);
    CountReadCounts(d, !rc, r, rt, w, wt, loops);
    CountReadCounts(d1, !imu, r1, rt1, w, wt, loops);
    CountWriteCounts(d2, written, r2, rt2, w, wt, loops);
    LoopCounts(CountWrite(d2, written), r2, rt2, w + OneIf(written), wt + OneIf(!written), loops);
  }

  /** Two more reads, seen by the two counts of successes. */
  lemma {:induction false} TwoMoreSuccesses(line: Line, past: seq<Read>, first: Read, second: Read)
    requires |past| % 2 == 0
    ensures var calls, one := past + [first, second], ReadExactly(LineAfter(line, past), first.size, first.arriving);
      var two := ReadExactly(one.line, second.size, second.arriving);
      && Successes(line, calls, 0) == Successes(line, past, 0) + OneIf(one.bytes.Some?)
      && Successes(line, calls, 1) == Successes(line, past, 1) + OneIf(two.bytes.Some?)
  {
    var p, q := past + [first], past + [first, second];
    assert p[..|past|] == past && q[..|past| + 1] == p;
    assert ReadResult(line, p, |past|) == ReadExactly(LineAfter(line, past), first.size, first.arriving).bytes;
    assert ReadResult(line, q, |past| + 1) == ReadExactly(LineAfter(line, p), second.size, second.arriving).bytes;
  }

  /** A pass whose reads are the next two of the port. */
  lemma {:induction false} CompletedGrows(line: Line, script: seq<Pass>, before: SomState)
    requires script != [] && before.line == LineAfter(line, ReadsOf(script[..|script| - 1]))
    ensures var n := |script| - 1;
      Completed(line, script)
      == Completed(line, script[..n]) + OneIf(RcRead(before, script[n]).bytes.Some?) + OneIf(ImuRead(before, script[n]).bytes.Some?)
  {
    var n := |script| - 1;
    ReadsAlternate(script[..n]);
    TwoMoreSuccesses(line, ReadsOf(script[..n]), Read(RC_SIZE, script[n].rcArriving), Read(IMU_SIZE, script[n].imuArriving));
  }

  /**
   * The counters after passes in which `ok` of the two reads each returned a packet and `written` of the answers
   * were accepted whole, and a handshake with one write, one completed read and h timed-out ones.
   */
  predicate RunCounted(d: T.DebugMessage, ok: nat, written: nat, passes: nat, h: nat) {
    && ok <= 2 * passes && written <= passes
    && CountersAre(d, 1 + ok, h + 2 * passes - ok, 1 + written, passes - written, passes)
  }

  lemma OneMoreCounted(d: T.DebugMessage, ok: nat, ok': nat, written: nat, written': nat, passes: nat, h: nat,
                       rc: bool, imu: bool, w: bool)
    requires RunCounted(d, ok, written, passes, h)
    requires ok' == ok + OneIf(rc) + OneIf(imu) && written' == written + OneIf(w)
    ensures RunCounted(Tallied(d, rc, imu, w), ok', written', passes + 1, h)
  {
    TallyCounts(d, rc, imu, w, 1 + ok, h + 2 * passes - ok, 1 + written, passes - written, passes);
    assert h + 2 * passes - ok + OneIf(!rc) + OneIf(!imu) == h + 2 * (passes + 1) - ok';
    assert passes - written + OneIf(!w) == passes + 1 - written';
  }

  lemma {:induction false} AcceptedGrows(script: seq<Pass>)
    requires script != []
    ensures Accepted(script) == Accepted(script[..|script| - 1]) + OneIf(script[|script| - 1].accepted >= 4)
  {
  }

  lemma {:induction false} PassCounted(d: T.DebugMessage, line: Line, script: seq<Pass>, before: SomState, h: nat)
    requires script != [] && before.line == LineAfter(line, ReadsOf(script[..|script| - 1]))
    requires RunCounted(d, Completed(line, script[..|script| - 1]), Accepted(script[..|script| - 1]), |script| - 1, h)
    ensures var pass := script[|script| - 1];
      RunCounted(Tallied(d, RcRead(before, pass).bytes.Some?, ImuRead(before, pass).bytes.Some?, pass.accepted >= 4),
                 Completed(line, script), Accepted(script), |script|, h)
  {
    var n := |script| - 1;
    var pass := script[n];
    CompletedGrows(line, script, before);
    AcceptedGrows(script);
    OneMoreCounted(d, Completed(line, script[..n]), Completed(line, script), Accepted(script[..n]), Accepted(script), n, h,
                   RcRead(before, pass).bytes.Some?, ImuRead(before, pass).bytes.Some?, pass.accepted >= 4);
  }

  lemma {:induction false} RunCounts(c: Config, s: SomState, script: seq<Pass>, h: nat)
    requires CountersAre(s.debug, 1, h, 1, 0, 0)
    ensures RunCounted(SomRun(c, s, script).debug, Completed(s.line, script), Accepted(script), |script|, h)
  {
    if script == [] {
    } else {
      var n := |script| - 1;
      var before := SomRun(c, s, script[..n]);
      RunCounts(c, s, script[..n], h);
      RunIsReads(c, s, script[..n]);
      PassTallies(c, before, script[n]);
      PassCounted(before.debug, s.line, script, before, h);
    }
  }

  /** Whatever arrived before the deadline, a timed-out read hands the manager a packet of zero bytes. */
  lemma TimedOutReadsAreZeros(s: SomState, pass: Pass)
    ensures |s.line.arrived| + |pass.rcArriving| < 9 ==> EncodeRc(PassInput(s, pass).rc) == Zeros(9)
    ensures |RcRead(s, pass).line.arrived| + |pass.imuArriving| < 28 ==> EncodeImu(PassInput(s, pass).imu) == Zeros(28)
  {
    DefaultsAreZeros(PassInput(s, pass).rc, PassInput(s, pass).imu);
  }

  /**
   * Fail-safe for every history, even out of stabilize mode: a pass whose RC read times out sends
   * (as much of it as the port accepts) throttle 0 with all surfaces centred, reports manual mode and
   * timestamp 0, and leaves the controller's state untouched.
   */
  lemma {:induction false} FailSafe(c: Config, start: SomState, script: seq<Pass>, pass: Pass)
    requires start.manager == MANAGER_INIT
    requires |SomRun(c, start, script).line.arrived| + |pass.rcArriving| < RC_SIZE
    ensures var s := SomRun(c, start, script);
      var s' := NextPass(c, s, pass);
      && s'.sent == s.sent + [0, 0, 0, 0][..Min(pass.accepted, 4)]
      && s'.manager.mode == Manual && s'.manager.pid == s.manager.pid
      && s'.onboard.autopilotType == T.ManualAutopilot && s'.onboard.mcuTimestamp == 0
      && s'.onboard.throttle == s'.onboard.aileron == s'.onboard.elevator == s'.onboard.rudder == 0
  {
    RunDecomposes(c, start, script);
    ManagerInvariant(c, Inputs(c, start, script));
    var s := SomRun(c, start, script);
    DefaultPacketIsSafe(c, s.manager, ImuOf(ImuRead(s, pass).bytes));
  }

  /** Two fields of the reports are never written. */
  lemma {:induction false} UnreportedStay(c: Config, start: SomState, script: seq<Pass>)
    ensures var s := SomRun(c, start, script);
      s.attitude.courseHeading == start.attitude.courseHeading && s.onboard.gpsFix == start.onboard.gpsFix
  {
    if script == [] {
    } else {
      UnreportedStay(c, start, script[..|script| - 1]);
    }
  }

  /** The angles and the temperature of a report are the numbers these words stand for. */
  predicate ImuReported(c: Config, s: SomState, gyroX: uint32, gyroY: uint32, gyroZ: uint32, temperature: uint32) {
    && s.attitude.rollAngle == c.platform.floatValue(gyroX)
    && s.attitude.pitchAngle == c.platform.floatValue(gyroY)
    && s.attitude.yawAngle == c.platform.floatValue(gyroZ)
    && TemperatureReported(c.platform.floatValue(temperature), s.onboard.imuTemperature)
  }

  /**
   * What telemetry reports of a pass of any run is what crossed the line: the bytes sent are those of the
   * reported surfaces, as many as the port accepted; time, angles and temperature are those of the delivered
   * bytes, or of zeros after a timeout; the autopilot type is that of the delivered assistance flag; the
   * course heading and the GPS fix are never anything but their initial values.
   */
  lemma {:induction false} ReportMatchesLine(c: Config, start: SomState, script: seq<Pass>, pass: Pass)
    requires start.manager == MANAGER_INIT
    ensures var s := SomRun(c, start, script);
      var s' := NextPass(c, s, pass);
      var o := s'.onboard;
      && s'.sent == s.sent + [o.throttle, EncodeInt8(o.aileron), EncodeInt8(o.elevator), EncodeInt8(o.rudder)][..Min(pass.accepted, 4)]
      && s'.attitude.courseHeading == start.attitude.courseHeading && o.gpsFix == start.onboard.gpsFix
      && (match RcRead(s, pass).bytes
          case Some(b) =>
            && o.mcuTimestamp == DecodeWord(b[..4])
            && o.autopilotType == (if b[4] >= 0x80 then T.StabilizeAutopilot else T.ManualAutopilot)
          case None => o.mcuTimestamp == 0 && o.autopilotType == T.ManualAutopilot)
      && (match ImuRead(s, pass).bytes
          case Some(b) =>
            ImuReported(c, s', DecodeWord(b[0..4]), DecodeWord(b[4..8]), DecodeWord(b[8..12]), DecodeWord(b[24..28]))
          case None => ImuReported(c, s', 0, 0, 0, 0))
  {
    var s := SomRun(c, start, script);
    UnreportedStay(c, start, script);
    RunDecomposes(c, start, script);
    ManagerInvariant(c, Inputs(c, start, script));
    ModeFollowsFlag(c, s.manager, PassInput(s, pass));
    TemperatureIsTruncated(c, c.platform.floatValue(ImuOf(ImuRead(s, pass).bytes).temperature));
  }

  /** A temperature that converts to a byte is reported without its fraction. */
  predicate TemperatureReported(temperature: real, reported: byte) {
    -1.0 < temperature < 256.0 ==> TruncatesTo(temperature, reported)
  }

  lemma TemperatureIsTruncated(c: Config, temperature: real)
    ensures TemperatureReported(temperature, CastByte(c, temperature))
  {
    TruncateDiscardsFraction(temperature);
  }

  lemma ModeFollowsFlag(c: Config, s: ManagerState, input: Input)
    requires (s.mode == Stabilize <==> HasAssistance(s.prevState)) && s.prevState == Masked(s.prevState)
    ensures ManagerNext(c, s, input).mode == if HasAssistance(input.rc.state) then Stabilize else Manual
  {
  }

  // ----- Telemetry of a run, through any interleaving -----

  /** Received loop counters are strictly increasing while the reports made so far are numbered in order. */
  lemma {:induction false} NumberedReportsIncrease(capacity: nat, reports: nat -> T.Report,
                                                   schedule: seq<T.Step>, i: nat, j: nat)
    requires var s := T.After(capacity, reports, schedule);
      && i < j < |s.debug.received|
      && forall n: nat :: n < s.call || (n == s.call && s.sender != T.AtDebug) ==>
           reports(n).debug.mainLoopCounter == n
    ensures var r := T.After(capacity, reports, schedule).debug.received; r[i].mainLoopCounter < r[j].mainLoopCounter
  {
    T.DebugReceivedInOrder(capacity, reports, schedule, i, j);
  }

  /** The reports of a run as the telemetry sender sees them; it makes no more calls than there are. */
  function ReportSource(c: Config, s: SomState, script: seq<Pass>): nat -> T.Report {
    (n: nat) => ReportOf(SomRun(c, s, script[..Min(n, |script|)]))
  }

  lemma SourceIsReports(c: Config, s: SomState, script: seq<Pass>, n: nat)
    requires n <= |script|
    ensures ReportSource(c, s, script)(n) == Reports(c, s, script)[n]
  {
  }

  /**
   * What a run of the loop leaves in queues that start empty and are not received from is what the sender of
   * the telemetry system leaves there, so what is proved of every schedule holds of the program's messages.
   */
  lemma {:induction false} LoopIsSender(c: Config, s: SomState, script: seq<Pass>, capacity: nat)
    ensures T.PostAll(T.Mailboxes([], [], []), capacity, Reports(c, s, script))
         == T.ContentsOf(T.After(capacity, ReportSource(c, s, script), T.Sends(3 * (|script| + 1))))
  {
    var list := Reports(c, s, script);
    assert T.AreFirst(ReportSource(c, s, script), list);
    T.SendsPostAll(capacity, ReportSource(c, s, script), list);
  }

  /** A state that an acknowledged handshake left behind, in which h reads timed out. */
  predicate AfterHandshake(line: Line, limit: nat, arriving: nat -> seq<byte>, s: SomState, h: nat) {
    var a := Attempt(line, ZERO_DEBUG.(serialWrites := 1), limit, arriving, 0, 0);
    a.acknowledged && s.debug == a.debug && h == a.timeouts
  }

  /**
   * Every counter of every debug message, modulo 2^32, after a handshake with h timed-out reads: reads are one
   * more than the packets delivered, read timeouts h more than those that were not, writes one more than the
   * answers accepted whole, write timeouts the other answers, and loops the passes.
   */
  lemma {:induction false} EachCounterCounts(c: Config, line: Line, limit: nat, arriving: nat -> seq<byte>,
                                             s: SomState, script: seq<Pass>, n: nat, h: nat)
    requires AfterHandshake(line, limit, arriving, s, h) && n <= |script|
    ensures var calls := ReadsOf(script[..n]);
      RunCounted(Reports(c, s, script)[n].debug, Successes(s.line, calls, 0) + Successes(s.line, calls, 1),
                 Accepted(script[..n]), n, h)
  {
    HandshakeCounted(line, limit, arriving, s, h);
    RunCounts(c, s, script[..n], h);
  }

  lemma HandshakeCounted(line: Line, limit: nat, arriving: nat -> seq<byte>, s: SomState, h: nat)
    requires AfterHandshake(line, limit, arriving, s, h)
    ensures CountersAre(s.debug, 1, h, 1, 0, 0)
  {
    HandshakeCounters(line, ZERO_DEBUG.(serialWrites := 1), limit, arriving, 0, 0);
  }

  lemma ReportsAreNumbered(c: Config, line: Line, limit: nat, arriving: nat -> seq<byte>,
                           s: SomState, script: seq<Pass>, n: nat, h: nat)
    requires AfterHandshake(line, limit, arriving, s, h) && n <= |script| && n < 0x1_0000_0000
    ensures Reports(c, s, script)[n].debug.mainLoopCounter == n
  {
    CountersConserved(c, line, limit, arriving, s, script, n);
    CounterIs(Reports(c, s, script)[n].debug.mainLoopCounter, n);
  }

  /**
   * The loop counters that the ground receives are strictly increasing: for the reports of any run of the
   * main loop after an acknowledged handshake, whatever is dropped and however the receiver is interleaved,
   * as long as at most 2^32 reports are made.
   */
  lemma {:induction false} CountersIncreaseAtReceiver(c: Config, line: Line, limit: nat,
                                                      arriving: nat -> seq<byte>, h: nat,
                                   s: SomState, script: seq<Pass>,
                                   capacity: nat, schedule: seq<T.Step>, i: nat, j: nat)
    requires AfterHandshake(line, limit, arriving, s, h) && |script| < 0x1_0000_0000
    requires var t := T.After(capacity, ReportSource(c, s, script), schedule);
      && i < j < |t.debug.received|
      && (t.call <= |script| || (t.call == |script| + 1 && t.sender == T.AtDebug))
    ensures var r := T.After(capacity, ReportSource(c, s, script), schedule).debug.received;
      r[i].mainLoopCounter < r[j].mainLoopCounter
  {
    var source := ReportSource(c, s, script);
    var t := T.After(capacity, source, schedule);
    forall n: nat | n < t.call || (n == t.call && t.sender != T.AtDebug)
      ensures source(n).debug.mainLoopCounter == n
    {
      SourceIsReports(c, s, script, n);
      ReportsAreNumbered(c, line, limit, arriving, s, script, n, h);
    }
    NumberedReportsIncrease(capacity, source, schedule, i, j);
  }

  lemma CounterIs(counter: uint32, n: nat)
    requires Congruent(counter, n) && n < 0x1_0000_0000
    ensures counter == n
  {
  }

  // ----- The program itself -----

  class Controller {
    const config: Config
    const handshakeAttempts: uint32
    const port: Port
    const manager: Manager
    const transmitter: T.Transmitter
    var debugMessage: T.DebugMessage
    var attitudeMessage: T.AttitudeMessage
    var onboardMessage: T.OnboardStateMessage

    ghost predicate Valid() {
      manager.config == config && manager.controller.config == config && transmitter.Valid()
    }

    function State(): SomState
      reads this, port, manager, manager.controller
    {
      SomState(port.State(), port.sent, manager.State(), debugMessage, attitudeMessage, onboardMessage)
    }

    constructor (config: Config, handshakeAttempts: uint32, messageQueueSize: uint32)
      ensures Valid() && this.config == config && this.handshakeAttempts == handshakeAttempts
      ensures State() == SomState(Line([], []), [], MANAGER_INIT, ZERO_DEBUG, T.AttitudeMessage(0.0, 0.0, 0.0, 0.0),
                                  T.OnboardStateMessage(0, 0, 0, 0, 0, T.AutopilotError, T.GpsError, 0))
      ensures transmitter.size == messageQueueSize && transmitter.Contents() == T.Mailboxes([], [], [])
    {
      this.config := config;
      this.handshakeAttempts := handshakeAttempts;
      port := new Port();
      manager := new Manager(config);
      transmitter := new T.Transmitter(messageQueueSize);
      debugMessage := ZERO_DEBUG;
      attitudeMessage := T.AttitudeMessage(0.0, 0.0, 0.0, 0.0);
      onboardMessage := T.OnboardStateMessage(0, 0, 0, 0, 0, T.AutopilotError, T.GpsError, 0);
    }

    method HandshakeMCU(flushArriving: seq<byte>, readAhead: nat, accepted: nat, arriving: nat -> seq<byte>)
      returns (result: HandshakeResult)
      modifies this`debugMessage, port
      ensures var flushed := FlushLine(old(port.State()), flushArriving, readAhead);
        var counted := old(debugMessage).(serialWrites := Increment(old(debugMessage).serialWrites));
        var a := Attempt(flushed.line, counted, handshakeAttempts, arriving, 0, 0);
        if !flushed.ok then
          result == FlushTimedOut && port.State() == flushed.line && port.sent == old(port.sent) && debugMessage == old(debugMessage)
        else if accepted < HANDSHAKE_SIZE then
          result == WriteTimedOut && port.State() == flushed.line && port.sent == old(port.sent) && debugMessage == old(debugMessage)
        else
          && (result == Acknowledged <==> a.acknowledged) && (result == NotAcknowledged <==> !a.acknowledged)
          && port.State() == a.line && port.sent == old(port.sent) + [HANDSHAKE] && debugMessage == a.debug
    {
      var flushed := port.Flush(flushArriving, readAhead);
      if !flushed { return FlushTimedOut; }
      var written := port.WritePacket([HANDSHAKE], accepted);
      if !written { return WriteTimedOut; }
      debugMessage := debugMessage.(serialWrites := Increment(debugMessage.serialWrites));
      ghost var line, counted := port.State(), debugMessage;
      ghost var goal := Attempt(line, counted, handshakeAttempts, arriving, 0, 0);
      var i := 0;
      ghost var timeouts := 0;
      while i < handshakeAttempts
        invariant 0 <= i <= handshakeAttempts
        invariant Attempt(port.State(), debugMessage, handshakeAttempts, arriving, i, timeouts) == goal
        invariant port.sent == old(port.sent) + [HANDSHAKE]
      {
        var bytes := port.ReadPacket(HANDSHAKE_SIZE, arriving(i));
        if bytes.None? {
          debugMessage := CountRead(debugMessage, true);
          timeouts := timeouts + 1;
        } else if bytes.value[0] == HANDSHAKE {
          debugMessage := CountRead(debugMessage, false);
          return Acknowledged;
        }
        i := i + 1;
      }
      result := NotAcknowledged;
    }

    method SendTelemetry()
      requires Valid()
      modifies transmitter.debugQueue, transmitter.attitudeQueue, transmitter.onboardQueue
      ensures transmitter.Contents()
           == T.Post(old(transmitter.Contents()), transmitter.size, T.Report(debugMessage, attitudeMessage, onboardMessage))
    {
      var debugOk := transmitter.SendDebugMessage(debugMessage);
      var attitudeOk := transmitter.SendAttitudeMessage(attitudeMessage);
      var onboardOk := transmitter.SendOnboardMessage(onboardMessage);
    }

    /** The two reads of a pass and their counters. */
    method ReadPackets(pass: Pass) returns (rc: RcRxPacket, imu: ImuPacket)
      modifies this`debugMessage, port`streamBuffer, port`arrived
      ensures Input(rc, imu) == PassInput(old(State()), pass) && port.State() == ImuRead(old(State()), pass).line
      ensures debugMessage == CountReads(old(State()), pass)
    {
      var rcBytes := port.ReadPacket(RC_SIZE, pass.rcArriving);
      debugMessage := CountRead(debugMessage, rcBytes.None?);
      var imuBytes := port.ReadPacket(IMU_SIZE, pass.imuArriving);
      debugMessage := CountRead(debugMessage, imuBytes.None?);
      rc, imu := RcOf(rcBytes), ImuOf(imuBytes);
    }

    method RunPass(pass: Pass)
      requires Valid()
      modifies this`debugMessage, this`attitudeMessage, this`onboardMessage, port, manager, manager.controller
      ensures State() == NextPass(config, old(State()), pass)
    {
      var rc, imu := ReadPackets(pass);
      var packet := manager.Trigger(rc, imu);
      onboardMessage := OnboardReport(config, onboardMessage, Input(rc, imu), packet,
                                      if manager.IsInManualMode() then Manual else Stabilize);
      var ok := port.WritePacket(EncodeCs(packet), pass.accepted);
      debugMessage := CountWrite(debugMessage, ok);
      debugMessage := debugMessage.(mainLoopCounter := Increment(debugMessage.mainLoopCounter));
      attitudeMessage := AttitudeReport(config, attitudeMessage, imu);
    }

    /** One pass and the report after it. */
    method RunPassAndReport(pass: Pass)
      requires Valid()
      modifies this`debugMessage, this`attitudeMessage, this`onboardMessage, port, manager, manager.controller,
               transmitter.debugQueue, transmitter.attitudeQueue, transmitter.onboardQueue
      ensures State() == NextPass(config, old(State()), pass)
      ensures transmitter.Contents() == T.Post(old(transmitter.Contents()), transmitter.size, ReportOf(State()))
    {
      RunPass(pass);
      SendTelemetry();
    }

    /** The main loop until the io service stops, after as many passes as the script has. */
    method RunMainLoop(script: seq<Pass>)
      requires Valid()
      modifies this`debugMessage, this`attitudeMessage, this`onboardMessage, port, manager, manager.controller,
               transmitter.debugQueue, transmitter.attitudeQueue, transmitter.onboardQueue
      ensures State() == SomRun(config, old(State()), script)
      ensures transmitter.Contents()
           == T.PostAll(old(transmitter.Contents()), transmitter.size, Reports(config, old(State()), script))
      ensures old(transmitter.Contents()) == T.Mailboxes([], [], []) ==>
        transmitter.Contents()
        == T.ContentsOf(T.After(transmitter.size, ReportSource(config, old(State()), script), T.Sends(3 * (|script| + 1))))
    {
      ghost var start, contents := State(), transmitter.Contents();
      FirstReport(config, start, contents, transmitter.size);
      SendTelemetry();
      assert script[..0] == [] && script[..|script|] == script;
      var i := 0;
      while i < |script|
        invariant 0 <= i <= |script|
        invariant State() == SomRun(config, start, script[..i])
        invariant transmitter.Contents() == T.PostAll(contents, transmitter.size, Reports(config, start, script[..i]))
      {
        RunPassAndReport(script[i]);
        i := i + 1;
        OneMorePass(config, start, script, i, contents, transmitter.size);
      }
      LoopIsSender(config, start, script, transmitter.size);
    }
  }

  lemma {:induction false} FirstReport(c: Config, s: SomState, m: T.Mailboxes, capacity: nat)
    ensures T.PostAll(m, capacity, Reports(c, s, [])) == T.Post(m, capacity, ReportOf(s))
  {
    assert Reports(c, s, []) == [ReportOf(s)];
    assert [ReportOf(s)][..0] == [];
  }

  /** How the run and what its reports post grow by the i-th pass. */
  lemma {:induction false} OneMorePass(c: Config, start: SomState, script: seq<Pass>, i: nat, m: T.Mailboxes, capacity: nat)
    requires 0 < i <= |script|
    ensures SomRun(c, start, script[..i]) == NextPass(c, SomRun(c, start, script[..i - 1]), script[i - 1])
    ensures T.PostAll(m, capacity, Reports(c, start, script[..i]))
         == T.Post(T.PostAll(m, capacity, Reports(c, start, script[..i - 1])), capacity, ReportOf(SomRun(c, start, script[..i])))
  {
    assert script[..i][..i - 1] == script[..i - 1];
    NextReport(c, start, script[..i], m, capacity);
  }

  lemma PrefixOfPrefix(script: seq<Pass>, n: nat, k: nat)
    requires k <= n <= |script|
    ensures script[..n][..k] == script[..k]
  {
  }

  lemma {:induction false} ReportsGrow(c: Config, s: SomState, script: seq<Pass>)
    requires script != []
    ensures var n := |script| - 1;
      Reports(c, s, script)[..n + 1] == Reports(c, s, script[..n])
      && Reports(c, s, script)[n + 1] == ReportOf(SomRun(c, s, script))
  {
    var n := |script| - 1;
    assert script[..n + 1] == script;
    forall k | 0 <= k <= n
      ensures Reports(c, s, script)[k] == Reports(c, s, script[..n])[k]
    {
      PrefixOfPrefix(script, n, k);
    }
  }

  lemma NextReport(c: Config, s: SomState, script: seq<Pass>, m: T.Mailboxes, capacity: nat)
    requires script != []
    ensures T.PostAll(m, capacity, Reports(c, s, script))
         == T.Post(T.PostAll(m, capacity, Reports(c, s, script[..|script| - 1])), capacity, ReportOf(SomRun(c, s, script)))
  {
    ReportsGrow(c, s, script);
  }
}
