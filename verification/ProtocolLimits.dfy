/**
 * Exactly which bytes on the line at power-up the protocol copes with: the runs that show the conditions
 * of the guarantees to be necessary, and the guarantees as equivalences.
 */
module ProtocolLimits {
  import opened Common
  import opened Packet
  import opened SerialController
  import opened WireFormat
  import opened SerialProtocol
  import opened ProtocolTheorems

  // ----- The MCU prints, everything arrives, and the SoM flushes -----

  function Opening(stale: seq<byte>, readAhead: nat): seq<Step> {
    [] + [McuFlush] + [DeliverToSom(|stale| + |FLUSH|)] + [SomFlush(readAhead)]
  }

  function Opened(stale: seq<byte>, readAhead: nat): Sys {
    var line := Flushed(Line([], stale + FLUSH), readAhead);
    Start(stale).(mcu := McuAwaitHandshake, som := SomSendHandshake, toSom := [], line := line,
                  delivered := |stale| + |FLUSH|, skipped := |stale| + |FLUSH| - |Pending(line)|)
  }

  lemma EverythingArrives(brain: Brain, attempts: nat, stale: seq<byte>) returns (s: Sys)
    ensures Run(brain, attempts, stale, [] + [McuFlush] + [DeliverToSom(|stale| + |FLUSH|)]) == Reached(s)
    ensures s == Start(stale).(mcu := McuAwaitHandshake, toSom := [], line := Line([], stale + FLUSH),
                               delivered := |stale| + |FLUSH|)
  {
    var all := stale + FLUSH;
    var printed := Start(stale).(mcu := McuAwaitHandshake, toSom := all);
    RunAppend(brain, attempts, stale, [], Start(stale), McuFlush);
    RunAppend(brain, attempts, stale, [] + [McuFlush], printed, DeliverToSom(|all|));
    assert [] + all == all && all[|all|..] == [] && all[..|all|] == all;
    s := ApplyDelivery(printed, DeliverToSom(|all|));
  }

  lemma {:induction false} OpeningReached(brain: Brain, attempts: nat, stale: seq<byte>, readAhead: nat)
    ensures Run(brain, attempts, stale, Opening(stale, readAhead)) == Reached(Opened(stale, readAhead))
  {
    MatchEndFound(stale);
    var s := EverythingArrives(brain, attempts, stale);
    assert Pending(s.line) == [] + (stale + FLUSH) == stale + FLUSH;
    RunAppend(brain, attempts, stale, [] + [McuFlush] + [DeliverToSom(|stale| + |FLUSH|)], s, SomFlush(readAhead));
  }

  lemma OpenedExactly(stale: seq<byte>)
    ensures Opened(stale, 0).line == Line([], Rest(stale))
  {
    MatchEndFound(stale);
    FlushDrops(stale + FLUSH, 0);
    var line := Opened(stale, 0).line;
    assert Pending(line) == [] + line.arrived == line.arrived;
  }

  // ----- Bytes behind the first flush string that cannot be skipped -----

  /** The SoM has n attempts to find the echo in these bytes, all of which have arrived. */
  predicate AwaitsEcho(s: Sys, bytes: seq<byte>, n: nat) {
    s.som == SomAwaitEcho(n) && n > 0 && s.line == Line([], bytes) && s.taken == []
  }

  /** The MCU has echoed and sent its first packet, and all of it waits behind what the flush left. */
  lemma EchoBehindRest(brain: Brain, attempts: nat, stale: seq<byte>, rc: RcRxPacket) returns (steps: seq<Step>, s: Sys)
    requires attempts > 0
    ensures Run(brain, attempts, stale, steps) == Reached(s)
    ensures AwaitsEcho(s, Rest(stale) + ([1] + EncodeRc(rc)), attempts) && s.written == [RcItem(rc)]
  {
    var s0 := Opened(stale, 0);
    OpeningReached(brain, attempts, stale, 0);
    OpenedExactly(stale);
    var s1 := s0.(som := SomAwaitEcho(attempts), toMcu := [] + [1]);
    steps := Opening(stale, 0) + [SomWriteHandshake];
    RunAppend(brain, attempts, stale, Opening(stale, 0), s0, SomWriteHandshake);
    steps, s := HandshakeAnswered(brain, attempts, stale, steps, s1, rc);
    steps, s := EchoDelivered(brain, attempts, stale, steps, s, Rest(stale), [1] + EncodeRc(rc));
  }

  lemma HandshakeAnswered(brain: Brain, attempts: nat, stale: seq<byte>, steps: seq<Step>, s: Sys, rc: RcRxPacket)
    returns (more: seq<Step>, t: Sys)
    requires Run(brain, attempts, stale, steps) == Reached(s)
    requires s.mcu == McuAwaitHandshake && s.toMcu == [1] && s.mcuArrived == [] && s.toSom == [] && s.written == []
    ensures Run(brain, attempts, stale, more) == Reached(t)
    ensures t.toSom == [1] + EncodeRc(rc) && t.written == [RcItem(rc)]
    ensures t.som == s.som && t.line == s.line && t.taken == s.taken
  {
    var s1 := ApplyDelivery(s, DeliverToMcu(1));
    RunAppend(brain, attempts, stale, steps, s, DeliverToMcu(1));
    assert s1.mcuArrived == [1];
    var s2 := ApplyMcu(s1, McuReadHandshake);
    RunAppend(brain, attempts, stale, steps + [DeliverToMcu(1)], s1, McuReadHandshake);
    var s3 := ApplyMcu(s2, McuSendEcho);
    RunAppend(brain, attempts, stale, steps + [DeliverToMcu(1)] + [McuReadHandshake], s2, McuSendEcho);
    t := ApplyMcu(s3, McuSendRc(rc));
    more := steps + [DeliverToMcu(1)] + [McuReadHandshake] + [McuSendEcho] + [McuSendRc(rc)];
    RunAppend(brain, attempts, stale, steps + [DeliverToMcu(1)] + [McuReadHandshake] + [McuSendEcho], s3, McuSendRc(rc));
    assert [] + [1] + EncodeRc(rc) == [1] + EncodeRc(rc);
  }

  lemma EchoDelivered(brain: Brain, attempts: nat, stale: seq<byte>, steps: seq<Step>, s: Sys, rest: seq<byte>,
                      bytes: seq<byte>)
    returns (more: seq<Step>, t: Sys)
    requires Run(brain, attempts, stale, steps) == Reached(s)
    requires s.line == Line([], rest) && s.toSom == bytes && bytes != []
    ensures Run(brain, attempts, stale, more) == Reached(t)
    ensures t.line == Line([], rest + bytes) && t.som == s.som && t.written == s.written && t.taken == s.taken
  {
    assert bytes[..|bytes|] == bytes;
    t := ApplyDelivery(s, DeliverToSom(|bytes|));
    more := steps + [DeliverToSom(|bytes|)];
    RunAppend(brain, attempts, stale, steps, s, DeliverToSom(|bytes|));
  }

  /** One attempt that reads another byte. */
  lemma OtherByteRead(brain: Brain, attempts: nat, s: Sys, bytes: seq<byte>, n: nat)
    requires AwaitsEcho(s, bytes, n) && bytes != [] && bytes[0] != 1
    ensures Enabled(s, SomReadEcho)
    ensures var t := ApplySom(brain, attempts, s, SomReadEcho);
      t.written == s.written && if n == 1 then t.som == SomFailed else AwaitsEcho(t, bytes[1..], n - 1)
  {
    assert bytes == [bytes[0]] + bytes[1..] && Pending(s.line) + [] == bytes;
    ReadFront(s.line, [], [bytes[0]], bytes[1..]);
    var r := ReadExactly(s.line, HANDSHAKE_SIZE, []);
    assert Pending(r.line) + [] == r.line.arrived;
  }

  /** As many attempts as there are bytes before the first handshake byte, or until they are used up. */
  lemma {:induction false} AttemptsUsed(brain: Brain, attempts: nat, stale: seq<byte>, steps: seq<Step>, s: Sys,
                                        bytes: seq<byte>, n: nat, i: nat)
    returns (more: seq<Step>, t: Sys)
    requires Run(brain, attempts, stale, steps) == Reached(s) && AwaitsEcho(s, bytes, n)
    requires i <= n && i <= |bytes| && 1 !in bytes[..i]
    ensures Run(brain, attempts, stale, more) == Reached(t)
    ensures t.written == s.written && if i == n then t.som == SomFailed else AwaitsEcho(t, bytes[i..], n - i)
    decreases i
  {
    if i == 0 {
      more, t := steps, s;
      assert bytes[0..] == bytes;
    } else {
      assert bytes[0] == bytes[..i][0];
      OtherByteRead(brain, attempts, s, bytes, n);
      RunAppend(brain, attempts, stale, steps, s, SomReadEcho);
      t := ApplySom(brain, attempts, s, SomReadEcho);
      more := steps + [SomReadEcho];
      if n > 1 {
        assert forall b :: b in bytes[1..][..i - 1] ==> b in bytes[..i];
        more, t := AttemptsUsed(brain, attempts, stale, more, t, bytes[1..], n - 1, i - 1);
        assert bytes[1..][i - 1..] == bytes[i..];
      }
    }
  }

  lemma OneReadAsEcho(brain: Brain, attempts: nat, s: Sys, bytes: seq<byte>, n: nat)
    requires AwaitsEcho(s, bytes, n) && bytes != [] && bytes[0] == 1
    ensures Enabled(s, SomReadEcho)
    ensures var t := ApplySom(brain, attempts, s, SomReadEcho);
      t.som == SomReadRc && t.line == Line([], bytes[1..]) && t.taken == [] && t.written == s.written && t.mcu == s.mcu
  {
    assert bytes == [1] + bytes[1..] && Pending(s.line) + [] == bytes;
    ReadFront(s.line, [], [1], bytes[1..]);
    var r := ReadExactly(s.line, HANDSHAKE_SIZE, []);
    assert Pending(r.line) + [] == r.line.arrived;
  }

  lemma BytesReadAsRc(brain: Brain, attempts: nat, s: Sys, bytes: seq<byte>)
    requires s.som == SomReadRc && s.line == Line([], bytes) && |bytes| >= RC_SIZE
    ensures Enabled(s, SomTakeRc)
    ensures ApplySom(brain, attempts, s, SomTakeRc).taken == s.taken + [RcItem(DecodeRc(bytes[..RC_SIZE]))]
    ensures ApplySom(brain, attempts, s, SomTakeRc).written == s.written && ApplySom(brain, attempts, s, SomTakeRc).mcu == s.mcu
  {
    assert bytes == bytes[..RC_SIZE] + bytes[RC_SIZE..] && Pending(s.line) + [] == bytes;
    ReadFront(s.line, [], bytes[..RC_SIZE], bytes[RC_SIZE..]);
  }

  /** A byte 1 is taken for the echo, and the nine bytes behind it for an RC packet. */
  lemma FalseEcho(brain: Brain, attempts: nat, stale: seq<byte>, steps: seq<Step>, s: Sys,
                  bytes: seq<byte>, n: nat)
    returns (more: seq<Step>, t: Sys)
    requires Run(brain, attempts, stale, steps) == Reached(s) && AwaitsEcho(s, bytes, n)
    requires |bytes| >= HANDSHAKE_SIZE + RC_SIZE && bytes[0] == 1
    ensures Run(brain, attempts, stale, more) == Reached(t)
    ensures t.taken == [RcItem(DecodeRc(bytes[1..10]))] && t.written == s.written && t.mcu == s.mcu
  {
    OneReadAsEcho(brain, attempts, s, bytes, n);
    var s1 := ApplySom(brain, attempts, s, SomReadEcho);
    RunAppend(brain, attempts, stale, steps, s, SomReadEcho);
    BytesReadAsRc(brain, attempts, s1, bytes[1..]);
    assert bytes[1..][..RC_SIZE] == bytes[1..10];
    t := ApplySom(brain, attempts, s1, SomTakeRc);
    more := steps + [SomReadEcho] + [SomTakeRc];
    RunAppend(brain, attempts, stale, steps + [SomReadEcho], s1, SomTakeRc);
  }

  lemma {:induction false} FirstIndex(s: seq<byte>, b: byte) returns (i: nat)
    requires b in s
    ensures i < |s| && s[i] == b && b !in s[..i]
  {
    if s[0] == b {
      i := 0;
    } else {
      i := FirstIndex(s[1..], b);
      i := i + 1;
      assert s[..i] == [s[0]] + s[1..][..i - 1];
    }
  }

  lemma FreshByte(stale: seq<byte>, at: nat)
    requires |stale| <= at < |stale| + |FLUSH|
    ensures (stale + FLUSH)[at] != 1
  {
    assert FLUSH[at - |stale|] != 1;
  }

  /** The fresh flush string is always the end of what the flush leaves, if it leaves anything. */
  lemma HandshakeByteIsStale(stale: seq<byte>, i: nat)
    requires i < |Rest(stale)| && Rest(stale)[i] == 1
    ensures i + HANDSHAKE_SIZE + |FLUSH| <= |Rest(stale)|
  {
    MatchEndFound(stale);
    var at := MatchEnd(stale) + i;
    assert Rest(stale)[i] == (stale + FLUSH)[at];
    if |stale| <= at { FreshByte(stale, at); }
  }

  /** An RC packet whose throttle stick is not the given byte. */
  function OtherRc(b: byte): RcRxPacket {
    DEFAULT_RC.(motorStick := if b == 0 then 1 else 0)
  }

  lemma MisreadDiffers(bytes: seq<byte>, b: byte)
    requires |bytes| == RC_SIZE && bytes[5] == b
    ensures DecodeRc(bytes) != OtherRc(b)
  {
  }

  /** Too many bytes, or a handshake byte among them: some run fails its handshake or reads what was never written. */
  lemma UnskippableBreaksLockStep(brain: Brain, attempts: nat, stale: seq<byte>) returns (steps: seq<Step>, s: Sys)
    requires !Skippable(stale, attempts)
    ensures Run(brain, attempts, stale, steps) == Reached(s) && !InLockStep(brain, s)
  {
    if attempts == 0 {
      OpeningReached(brain, attempts, stale, 0);
      RunAppend(brain, attempts, stale, Opening(stale, 0), Opened(stale, 0), SomWriteHandshake);
      steps, s := Opening(stale, 0) + [SomWriteHandshake], ApplySom(brain, attempts, Opened(stale, 0), SomWriteHandshake);
    } else if 1 !in Rest(stale)[..Min(attempts, |Rest(stale)|)] {
      steps, s := HandshakeFails(brain, attempts, stale);
    } else {
      steps, s := HandshakeMisled(brain, attempts, stale);
    }
  }

  lemma HandshakeFails(brain: Brain, attempts: nat, stale: seq<byte>) returns (steps: seq<Step>, s: Sys)
    requires attempts > 0 && !Skippable(stale, attempts) && 1 !in Rest(stale)[..Min(attempts, |Rest(stale)|)]
    ensures Run(brain, attempts, stale, steps) == Reached(s) && s.som == SomFailed
  {
    var rest := Rest(stale);
    assert rest[..|rest|] == rest;
    var bytes := rest + ([1] + EncodeRc(DEFAULT_RC));
    steps, s := EchoBehindRest(brain, attempts, stale, DEFAULT_RC);
    assert bytes[..attempts] == rest[..attempts];
    steps, s := AttemptsUsed(brain, attempts, stale, steps, s, bytes, attempts, attempts);
  }

  lemma HandshakeMisled(brain: Brain, attempts: nat, stale: seq<byte>) returns (steps: seq<Step>, s: Sys)
    requires attempts > 0 && 1 in Rest(stale)[..Min(attempts, |Rest(stale)|)]
    ensures Run(brain, attempts, stale, steps) == Reached(s)
    ensures |s.taken| == 1 == |s.written| && s.taken != s.written
  {
    var rest := Rest(stale);
    var i := FirstIndex(rest[..Min(attempts, |rest|)], 1);
    assert rest[..Min(attempts, |rest|)][..i] == rest[..i];
    HandshakeByteIsStale(stale, i);
    var rc := OtherRc(rest[i + 6]);
    var bytes := rest + ([1] + EncodeRc(rc));
    steps, s := EchoBehindRest(brain, attempts, stale, rc);
    assert bytes[..i] == rest[..i];
    steps, s := AttemptsUsed(brain, attempts, stale, steps, s, bytes, attempts, i);
    steps, s := FalseEcho(brain, attempts, stale, steps, s, bytes[i..], attempts - i);
    assert bytes[i..][1..10][5] == rest[i + 6];
    MisreadDiffers(bytes[i..][1..10], rest[i + 6]);
  }

  // ----- A flush that reads ahead too far -----

  ghost predicate CanStep(s: Sys) {
    exists step :: Enabled(s, step) && step != McuTimeout
  }

  /** With bytes stuck in the stream buffer the first IMU read never has enough new ones. */
  predicate Starved(s: Sys) {
    s.timeouts == 0 && s.line.buffer != [] ==> |s.taken| <= 1
  }

  lemma FirstImuStarves(s: Sys, stale: seq<byte>)
    requires LineAgrees(s, stale) && s.som == SomReadImu && |s.taken| == 1 && s.timeouts == 0 && s.line.buffer != []
    ensures |s.line.arrived| < IMU_SIZE
  {
    assert |s.written| <= 2;
    WireLength(s.written, 1);
    WindowBytes(0, |s.written|, 1);
    assert |TowardSom(s)| <= IMU_SIZE;
  }

  lemma StarvedKept(brain: Brain, attempts: nat, s: Sys, stale: seq<byte>, step: Step)
    requires LineAgrees(s, stale) && Starved(s) && Enabled(s, step)
    ensures Starved(Apply(brain, attempts, s, step))
  {
    if step.SomFlush? {
      assert Apply(brain, attempts, s, step).taken == [];
    } else {
      BufferKept(brain, attempts, s, step);
      if step.SomTakeImu? && s.timeouts == 0 && s.line.buffer != [] {
        FirstImuStarves(s, stale);
      }
    }
  }

  lemma {:induction false} StarvedHolds(brain: Brain, attempts: nat, stale: seq<byte>, steps: seq<Step>)
    requires Skippable(stale, attempts) && Run(brain, attempts, stale, steps).Reached?
    ensures Starved(Run(brain, attempts, stale, steps).sys)
  {
    if steps == [] {
      assert Starved(Start(stale));
    } else {
      var n := |steps| - 1;
      StarvedHolds(brain, attempts, stale, steps[..n]);
      InvariantHolds(brain, attempts, stale, steps[..n]);
      StarvedKept(brain, attempts, Run(brain, attempts, stale, steps[..n]).sys, stale, steps[n]);
    }
  }

  /**
   * Whatever the interleaving, once the flush has left bytes in the stream buffer the SoM answers
   * nothing until the MCU gives up waiting.
   */
  lemma {:induction false} OverreadStarves(brain: Brain, attempts: nat, stale: seq<byte>, steps: seq<Step>, s: Sys)
    requires Skippable(stale, attempts) && Run(brain, attempts, stale, steps) == Reached(s)
    requires s.line.buffer != [] && s.timeouts == 0
    ensures s.answers == s.obtained == []
  {
    StarvedHolds(brain, attempts, stale, steps);
    InvariantHolds(brain, attempts, stale, steps);
  }

  lemma StillOverread(brain: Brain, attempts: nat, s: Sys, stale: seq<byte>, step: Step)
    requires ToSomAgrees(s, stale) && s.line.buffer != [] && Enabled(s, step) && step != McuTimeout
    ensures var t := Apply(brain, attempts, s, step); t.line.buffer != [] && t.timeouts == s.timeouts
  {
    BufferKept(brain, attempts, s, step);
    TimeoutsOnlyByTimeout(brain, attempts, s, step);
  }

  /** However the run goes on, it gets stuck: each step is progress, and there is none without an answer. */
  lemma {:induction false} OverreadGetsStuck(brain: Brain, attempts: nat, stale: seq<byte>, steps: seq<Step>, s: Sys)
    returns (more: seq<Step>, t: Sys)
    requires Skippable(stale, attempts) && Run(brain, attempts, stale, steps) == Reached(s)
    requires s.line.buffer != [] && s.timeouts == 0
    ensures Run(brain, attempts, stale, more) == Reached(t) && !CanStep(t)
    decreases StepsFor(stale, 0) - |steps|
  {
    if !CanStep(s) {
      more, t := steps, s;
    } else {
      var step :| Enabled(s, step) && step != McuTimeout;
      var next := Apply(brain, attempts, s, step);
      InvariantHolds(brain, attempts, stale, steps);
      StillOverread(brain, attempts, s, stale, step);
      RunAppend(brain, attempts, stale, steps, s, step);
      OverreadStarves(brain, attempts, stale, steps + [step], next);
      ProgressBounded(brain, attempts, stale, steps + [step], next);
      more, t := OverreadGetsStuck(brain, attempts, stale, steps + [step], next);
    }
  }

  lemma FarReadAheadGetsStuck(brain: Brain, attempts: nat, stale: seq<byte>) returns (steps: seq<Step>, s: Sys)
    requires Skippable(stale, attempts) && !ReadAheadHarmless(stale)
    ensures Run(brain, attempts, stale, steps) == Reached(s) && !CanStep(s)
  {
    var n := |stale| + |FLUSH|;
    OpeningReached(brain, attempts, stale, n);
    MatchEndFound(stale);
    FlushDrops(stale + FLUSH, n);
    assert Opened(stale, n).line.buffer != [];
    steps, s := OverreadGetsStuck(brain, attempts, stale, Opening(stale, n), Opened(stale, n));
  }

  // ----- The guarantees as equivalences -----

  ghost predicate AlwaysInLockStep(brain: Brain, attempts: nat, stale: seq<byte>) {
    forall steps :: Run(brain, attempts, stale, steps).Reached? ==> InLockStep(brain, Run(brain, attempts, stale, steps).sys)
  }

  ghost predicate NeverStuck(brain: Brain, attempts: nat, stale: seq<byte>) {
    forall steps :: Run(brain, attempts, stale, steps).Reached? ==> CanStep(Run(brain, attempts, stale, steps).sys)
  }

  /**
   * Lock-step in every run, for any bytes on the line at power-up, if and only if the bytes behind the
   * first flush string are fewer than the handshake attempts and none of them is the handshake byte.
   */
  lemma LockStepExactly(brain: Brain, attempts: nat, stale: seq<byte>)
    ensures AlwaysInLockStep(brain, attempts, stale) <==> Skippable(stale, attempts)
  {
    if Skippable(stale, attempts) {
      forall steps | Run(brain, attempts, stale, steps).Reached?
        ensures InLockStep(brain, Run(brain, attempts, stale, steps).sys)
      {
        LockStep(brain, attempts, stale, steps, Run(brain, attempts, stale, steps).sys);
      }
    } else {
      var steps, s := UnskippableBreaksLockStep(brain, attempts, stale);
    }
  }

  /** In lock-step, nobody waits for ever in any run if and only if the flush cannot leave bytes in the stream buffer. */
  lemma NeverStuckExactly(brain: Brain, attempts: nat, stale: seq<byte>)
    requires Skippable(stale, attempts)
    ensures NeverStuck(brain, attempts, stale) <==> ReadAheadHarmless(stale)
  {
    if ReadAheadHarmless(stale) {
      forall steps | Run(brain, attempts, stale, steps).Reached?
        ensures CanStep(Run(brain, attempts, stale, steps).sys)
      {
        NeverDeadlocks(brain, attempts, stale, steps, Run(brain, attempts, stale, steps).sys);
      }
    } else {
      var steps, s := FarReadAheadGetsStuck(brain, attempts, stale);
    }
  }

  /**
   * Lock-step and nobody waiting for ever, for any bytes on the line at power-up: both conditions are
   * needed and together they are enough.
   */
  lemma LiveLockStepExactly(brain: Brain, attempts: nat, stale: seq<byte>)
    ensures AlwaysInLockStep(brain, attempts, stale) && NeverStuck(brain, attempts, stale)
       <==> Skippable(stale, attempts) && ReadAheadHarmless(stale)
  {
    LockStepExactly(brain, attempts, stale);
    if Skippable(stale, attempts) { NeverStuckExactly(brain, attempts, stale); }
  }

  lemma TwiceSkippable(attempts: nat)
    ensures Skippable(FLUSH, attempts) <==> attempts > 7
    ensures ReadAheadHarmless(FLUSH)
  {
    FirstOfTwo([]);
    assert FLUSH + [] == FLUSH && [] + FLUSH == FLUSH;
  }

  /** The flush string printed twice: the second one is skipped in the handshake, given more than seven attempts. */
  lemma PrintedTwice(brain: Brain, attempts: nat)
    ensures AlwaysInLockStep(brain, attempts, FLUSH) <==> attempts > 7
    ensures attempts > 7 ==> NeverStuck(brain, attempts, FLUSH)
  {
    TwiceSkippable(attempts);
    LockStepExactly(brain, attempts, FLUSH);
    if attempts > 7 { NeverStuckExactly(brain, attempts, FLUSH); }
  }

  /** One byte between them is one too many: a flush that reads ahead over all of it leaves the SoM a byte short for ever. */
  lemma OneByteTooMany(brain: Brain, attempts: nat)
    requires attempts > 8
    ensures AlwaysInLockStep(brain, attempts, FLUSH + [0]) && !NeverStuck(brain, attempts, FLUSH + [0])
  {
    FirstOfTwo([0]);
    LockStepExactly(brain, attempts, FLUSH + [0]);
    NeverStuckExactly(brain, attempts, FLUSH + [0]);
  }

  /** Where the first flush string ends when it opens the stale bytes. */
  lemma FirstOfTwo(between: seq<byte>)
    ensures MatchEnd(FLUSH + between) == |FLUSH| && Rest(FLUSH + between) == between + FLUSH
  {
    var stale := FLUSH + between;
    assert MatchEndsAt(FLUSH, FLUSH, |FLUSH|);
    FirstMatchIsLeast(FLUSH, |FLUSH|);
    FirstMatchExtends(FLUSH, between + FLUSH);
    assert stale + FLUSH == FLUSH + (between + FLUSH);
    MatchEndFound(stale);
  }

  // ----- An old session taken for a new one -----

  /** Stale bytes of a session that was broken off after its first RC packet. */
  function BrokenOffSession(noise: seq<byte>, rc: RcRxPacket): seq<byte> {
    noise + FLUSH + ([1] + EncodeRc(rc))
  }

  lemma {:induction false} FirstMatchBeforeRest(noise: seq<byte>, rest: seq<byte>)
    requires FirstMatchEnd(noise, FLUSH) == None
    ensures FirstMatchEnd(noise + FLUSH + rest, FLUSH) == Some(|noise| + |FLUSH|)
  {
    CleanFlushCondition(noise);
    FirstMatchExtends(noise + FLUSH, rest);
  }

  lemma {:induction false} FlushLeavesRest(noise: seq<byte>, rest: seq<byte>)
    requires FirstMatchEnd(noise, FLUSH) == None
    ensures Flushed(Line([], noise + FLUSH + rest), 0) == Line([], rest)
  {
    var all := noise + FLUSH + rest;
    FirstMatchBeforeRest(noise, rest);
    FlushDrops(all, 0);
    assert all[|noise| + |FLUSH|..] == rest;
    var line := Flushed(Line([], all), 0);
    assert Pending(line) == [] + line.arrived == line.arrived;
  }

  /** The SoM has flushed; only an echo and a packet of the earlier session are left on the line. */
  predicate FooledAfterFlush(s: Sys, rc: RcRxPacket) {
    && s.som == SomSendHandshake && s.mcu == McuStart && s.written == [] && s.taken == []
    && s.line == Line([], [1] + EncodeRc(rc)) && s.toSom == []
  }

  lemma {:induction false} FlushFooled(brain: Brain, attempts: nat, noise: seq<byte>, rc: RcRxPacket)
    requires FirstMatchEnd(noise, FLUSH) == None
    ensures var stale := BrokenOffSession(noise, rc);
      var r := Run(brain, attempts, stale, [DeliverToSom(|stale|)] + [SomFlush(0)]);
      r.Reached? && FooledAfterFlush(r.sys, rc)
  {
    var stale := BrokenOffSession(noise, rc);
    var s := Start(stale).(toSom := [], line := Line([], stale), delivered := |stale|);
    assert stale[|stale|..] == [] && [] + stale[..|stale|] == stale == Pending(s.line);
    RunAppend(brain, attempts, stale, [], Start(stale), DeliverToSom(|stale|));
    assert [] + [DeliverToSom(|stale|)] == [DeliverToSom(|stale|)];
    FirstMatchBeforeRest(noise, [1] + EncodeRc(rc));
    FlushLeavesRest(noise, [1] + EncodeRc(rc));
    RunAppend(brain, attempts, stale, [DeliverToSom(|stale|)], s, SomFlush(0));
  }

  lemma HandshakeFooled(brain: Brain, attempts: nat, stale: seq<byte>, steps: seq<Step>, s: Sys, rc: RcRxPacket)
    returns (more: seq<Step>, t: Sys)
    requires Run(brain, attempts, stale, steps) == Reached(s) && FooledAfterFlush(s, rc) && attempts > 0
    ensures Run(brain, attempts, stale, more) == Reached(t)
    ensures t.mcu == McuStart && t.written == [] && t.taken == [RcItem(rc)]
  {
    var bytes := [1] + EncodeRc(rc);
    RunAppend(brain, attempts, stale, steps, s, SomWriteHandshake);
    t := s.(som := SomAwaitEcho(attempts), toMcu := s.toMcu + [1]);
    more, t := FalseEcho(brain, attempts, stale, steps + [SomWriteHandshake], t, bytes, attempts);
    assert bytes[1..10] == EncodeRc(rc);
    RcRoundTrip(rc, EncodeRc(rc));
  }

  /**
   * What an earlier session left on the line can be taken for the flush, the echo and the first packet
   * before the MCU has done anything.
   */
  lemma StaleSessionIsAccepted(brain: Brain, attempts: nat, noise: seq<byte>, rc: RcRxPacket)
    requires FirstMatchEnd(noise, FLUSH) == None && attempts > 0
    ensures exists steps ::
      var r := Run(brain, attempts, BrokenOffSession(noise, rc), steps);
      r.Reached? && r.sys.mcu == McuStart && r.sys.written == [] && r.sys.taken == [RcItem(rc)]
  {
    var stale := BrokenOffSession(noise, rc);
    var steps := [DeliverToSom(|stale|)] + [SomFlush(0)];
    FlushFooled(brain, attempts, noise, rc);
    var more, t := HandshakeFooled(brain, attempts, stale, steps, Run(brain, attempts, stale, steps).sys, rc);
  }
}
