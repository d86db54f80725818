/**
 * The SoM of the protocol is the program of SomController: in every run of the protocol its handshake
 * is handshakeMCU on the bytes that arrived during each call, and its cycle is the main loop.
 */
module SomRefinement {
  import opened Common
  import opened Packet
  import opened AutopilotUtility
  import opened AutopilotManager
  import opened SerialController
  import opened WireFormat
  import opened SerialProtocol
  import opened ProtocolTheorems
  import opened EndToEnd
  import S = SomController

  /**
   * A run seen from the program: what arrived before the flush found its match and how far that read
   * ahead; what arrived during each handshake read; the passes completed; and what has arrived so far
   * during the current flush, handshake read or RC read, the current IMU read, and the current answer.
   */
  datatype Recording = Recording(
    flushArriving: seq<byte>, readAhead: nat, echoArriving: seq<seq<byte>>,
    script: seq<S.Pass>, now: seq<byte>, imu: seq<byte>, early: seq<byte>)

  function CurrentPass(r: Recording): S.Pass {
    S.Pass(r.now, r.imu, CS_SIZE)
  }

  function RecordArrival(som: SomStage, bytes: seq<byte>, r: Recording): Recording {
    if som.SomReadImu? then r.(imu := r.imu + bytes)
    else if som.SomAnswer? then r.(early := r.early + bytes)
    else r.(now := r.now + bytes)
  }

  function EchoRecorded(r: Recording): Recording {
    r.(echoArriving := r.echoArriving + [r.now], now := [])
  }

  function PassRecorded(r: Recording): Recording {
    r.(script := r.script + [CurrentPass(r)], now := r.early, imu := [], early := [])
  }

  /** The recording after a step from s. */
  function Record(r: Recording, s: Sys, step: Step): Recording
    requires Enabled(s, step)
  {
    match step
    case DeliverToSom(n) => RecordArrival(s.som, s.toSom[..n], r)
    case SomFlush(readAhead) => r.(flushArriving := r.now, readAhead := readAhead, now := [])
    case SomReadEcho => EchoRecorded(r)
    case SomWriteAnswer => PassRecorded(r)
    case _ => r
  }

  function Recorded(c: Config, attempts: nat, stale: seq<byte>, steps: seq<Step>): Recording
    requires Run(Autopilot(c), attempts, stale, steps).Reached?
  {
    if steps == [] then Recording([], 0, [], [], [], [], [])
    else
      var before := steps[..|steps| - 1];
      Record(Recorded(c, attempts, stale, before), Run(Autopilot(c), attempts, stale, before).sys, steps[|steps| - 1])
  }

  function Arrived(line: Line, bytes: seq<byte>): Line {
    line.(arrived := line.arrived + bytes)
  }

  /** Bytes that arrived before a read and bytes that arrive during it are the same to it. */
  lemma ReadNow(line: Line, size: nat, bytes: seq<byte>)
    ensures ReadExactly(Arrived(line, bytes), size, []) == ReadExactly(line, size, bytes)
    ensures Arrived(line, []) == line
  {
    assert line.arrived + bytes + [] == line.arrived + bytes;
  }

  lemma ArrivedTwice(line: Line, a: seq<byte>, b: seq<byte>)
    ensures Arrived(Arrived(line, a), b) == Arrived(line, a + b)
  {
    assert line.arrived + (a + b) == line.arrived + a + b;
  }

  // ----- The handshake -----

  /** What flush does in the program. */
  function FlushOf(r: Recording): FlushOutcome {
    FlushLine(Line([], []), r.flushArriving, r.readAhead)
  }

  function EchoReads(echoArriving: seq<seq<byte>>): seq<Read> {
    seq(|echoArriving|, i requires 0 <= i < |echoArriving| => Read(HANDSHAKE_SIZE, echoArriving[i]))
  }

  /** The line after flush and the handshake reads made. */
  function HandshakeLine(r: Recording): Line {
    LineAfter(FlushOf(r).line, EchoReads(r.echoArriving))
  }

  predicate ReadsByte(line: Line, arriving: seq<byte>, isEcho: bool) {
    var bytes := ReadExactly(line, HANDSHAKE_SIZE, arriving).bytes;
    bytes.Some? && (bytes.value[0] == S.HANDSHAKE <==> isEcho)
  }

  /** None of the handshake reads timed out, and only the last may have found the echo. */
  predicate EchoesRead(line: Line, echoArriving: seq<seq<byte>>, found: bool) {
    forall i :: 0 <= i < |echoArriving| ==>
      ReadsByte(LineAfter(line, EchoReads(echoArriving)[..i]), echoArriving[i], found && i == |echoArriving| - 1)
  }

  lemma {:induction false} OneMoreEchoRead(line: Line, echoArriving: seq<seq<byte>>, arriving: seq<byte>)
    ensures var more := EchoReads(echoArriving + [arriving]);
      && more[..|echoArriving|] == EchoReads(echoArriving)
      && LineAfter(line, more)
         == ReadExactly(LineAfter(line, EchoReads(echoArriving)), HANDSHAKE_SIZE, arriving).line
  {
    assert EchoReads(echoArriving + [arriving])[..|echoArriving|] == EchoReads(echoArriving);
  }

  lemma {:induction false} EchoesExtended(line: Line, echoArriving: seq<seq<byte>>, arriving: seq<byte>, found: bool)
    requires EchoesRead(line, echoArriving, false)
    requires ReadsByte(LineAfter(line, EchoReads(echoArriving)), arriving, found)
    ensures EchoesRead(line, echoArriving + [arriving], found)
  {
    var more := echoArriving + [arriving];
    OneMoreEchoRead(line, echoArriving, arriving);
    forall i | 0 <= i < |more|
      ensures ReadsByte(LineAfter(line, EchoReads(more)[..i]), more[i], found && i == |more| - 1)
    {
      if i < |echoArriving| {
        assert EchoReads(more)[..i] == EchoReads(echoArriving)[..i];
      }
    }
  }

  function ArrivingOf(echoArriving: seq<seq<byte>>): nat -> seq<byte> {
    (i: nat) => if i < |echoArriving| then echoArriving[i] else []
  }

  /** The handshake's attempts of the program make the same reads, and are acknowledged by the last. */
  lemma {:induction false} AttemptsAreReads(line: Line, d: S.T.DebugMessage, limit: nat,
                                            echoArriving: seq<seq<byte>>, i: nat)
    requires EchoesRead(line, echoArriving, true) && i < |echoArriving| <= limit
    ensures var a := S.Attempt(LineAfter(line, EchoReads(echoArriving)[..i]), d, limit, ArrivingOf(echoArriving), i, 0);
      && a.acknowledged && a.used == |echoArriving| && a.timeouts == 0
      && a.line == LineAfter(line, EchoReads(echoArriving))
    decreases |echoArriving| - i
  {
    var calls := EchoReads(echoArriving);
    assert ReadsByte(LineAfter(line, calls[..i]), echoArriving[i], i == |echoArriving| - 1);
    assert calls[..i + 1][..i] == calls[..i];
    if i == |echoArriving| - 1 {
      assert calls[..i + 1] == calls;
    } else {
      AttemptsAreReads(line, d, limit, echoArriving, i + 1);
    }
  }

  // ----- The main loop -----

  /** The main loop after the passes of a recording. */
  function Loop(c: Config, start: S.SomState, r: Recording): S.SomState {
    S.SomRun(c, start.(line := HandshakeLine(r)), r.script)
  }

  function RcOfPass(m: S.SomState, r: Recording): RcRxPacket {
    RcOf(S.RcRead(m, CurrentPass(r)).bytes)
  }

  function ImuOfPass(m: S.SomState, r: Recording): ImuPacket {
    ImuOf(S.ImuRead(m, CurrentPass(r)).bytes)
  }

  /** The stage of the protocol is the place in the pass. */
  predicate PlaceMirrored(m: S.SomState, r: Recording, som: SomStage, line: Line, past: seq<Item>, taken: seq<Item>) {
    match som
    case SomReadRc => r.imu == r.early == [] && line == Arrived(m.line, r.now) && taken == past
    case SomReadImu =>
      r.early == [] && line == Arrived(S.RcRead(m, CurrentPass(r)).line, r.imu)
      && taken == past + [RcItem(RcOfPass(m, r))]
    case SomAnswer(_) =>
      line == Arrived(S.ImuRead(m, CurrentPass(r)).line, r.early)
      && taken == past + [RcItem(RcOfPass(m, r)), ImuItem(ImuOfPass(m, r))]
    case _ => true
  }

  /** The packets of the passes completed. */
  function Past(taken: seq<Item>, answers: seq<ControlSurfacePacket>): seq<Item> {
    taken[..Min(2 * |answers|, |taken|)]
  }

  predicate ManagerMirrored(c: Config, manager: ManagerState, past: seq<Item>) {
    manager == ManagerRun(c, Pairs(past))
  }

  /** The completed passes of the main loop read the pairs and sent the answers of the protocol, behind the handshake byte. */
  predicate PastMirrored(c: Config, m: S.SomState, past: seq<Item>, answers: seq<ControlSurfacePacket>) {
    |past| == 2 * |answers| && ManagerMirrored(c, m.manager, past) && m.sent == [S.HANDSHAKE] + AnswerWire(answers, 0)
  }

  /** The SoM's part of a protocol state is where the main loop is. */
  predicate LoopMirrored(c: Config, start: S.SomState, r: Recording,
                         som: SomStage, line: Line, taken: seq<Item>, answers: seq<ControlSurfacePacket>) {
    && |r.script| == |answers|
    && PastMirrored(c, Loop(c, start, r), Past(taken, answers), answers)
    && PlaceMirrored(Loop(c, start, r), r, som, line, Past(taken, answers), taken)
  }

  /** Nothing of the main loop has been recorded, and `from` is where the handshake has come to. */
  predicate BeforeLoop(r: Recording, line: Line, from: Line) {
    r.script == [] && r.imu == r.early == [] && line == Arrived(from, r.now)
  }

  predicate HandshakeMirrored(attempts: nat, r: Recording, som: SomStage, line: Line) {
    match som
    case SomFlushing => BeforeLoop(r, line, Line([], [])) && r.echoArriving == []
    case SomSendHandshake => BeforeLoop(r, line, FlushOf(r).line) && r.echoArriving == [] && FlushOf(r).ok
    case SomAwaitEcho(n) =>
      BeforeLoop(r, line, HandshakeLine(r)) && FlushOf(r).ok && n + |r.echoArriving| == attempts
      && EchoesRead(FlushOf(r).line, r.echoArriving, false)
    case SomFailed => true
    case _ =>
      FlushOf(r).ok && 0 < |r.echoArriving| <= attempts && EchoesRead(FlushOf(r).line, r.echoArriving, true)
  }

  /** The program's state when its main loop starts, but for the line. */
  predicate AtLoopStart(start: S.SomState) {
    start.manager == MANAGER_INIT && start.sent == [S.HANDSHAKE]
  }

  // ----- Every step keeps the handshake mirrored -----

  lemma ArrivalKeepsHandshake(attempts: nat, r: Recording, som: SomStage, line: Line, bytes: seq<byte>)
    requires HandshakeMirrored(attempts, r, som, line)
    ensures HandshakeMirrored(attempts, RecordArrival(som, bytes, r), som, Arrived(line, bytes))
  {
    match som
    case SomFlushing => ArrivedTwice(Line([], []), r.now, bytes);
    case SomSendHandshake => ArrivedTwice(FlushOf(r).line, r.now, bytes);
    case SomAwaitEcho(_) => ArrivedTwice(HandshakeLine(r), r.now, bytes);
    case _ =>
  }

  lemma FlushKeepsHandshake(attempts: nat, r: Recording, line: Line, readAhead: nat)
    requires HandshakeMirrored(attempts, r, SomFlushing, line) && FirstMatchEnd(Pending(line), FLUSH).Some?
    ensures HandshakeMirrored(attempts, r.(flushArriving := r.now, readAhead := readAhead, now := []),
                              SomSendHandshake, Flushed(line, readAhead))
  {
    assert [] + r.now == r.now && r.now + [] == r.now;
    ReadNow(Flushed(line, readAhead), 0, []);
  }

  lemma WritingKeepsHandshake(attempts: nat, r: Recording, line: Line)
    requires HandshakeMirrored(attempts, r, SomSendHandshake, line)
    ensures attempts > 0 ==> HandshakeMirrored(attempts, r, SomAwaitEcho(attempts), line)
  {
    assert EchoReads([]) == [];
  }

  /** One handshake read of the protocol is one of the program. */
  lemma EchoReadMirrored(attempts: nat, r: Recording, n: nat, line: Line)
    requires HandshakeMirrored(attempts, r, SomAwaitEcho(n), line) && line.arrived != []
    ensures var read := ReadExactly(line, HANDSHAKE_SIZE, []);
      && EchoesRead(FlushOf(r).line, r.echoArriving + [r.now], read.bytes.value[0] == 1)
      && read.line == Arrived(LineAfter(FlushOf(r).line, EchoReads(r.echoArriving + [r.now])), [])
  {
    ReadNow(HandshakeLine(r), HANDSHAKE_SIZE, r.now);
    var read := ReadExactly(line, HANDSHAKE_SIZE, []);
    OneMoreEchoRead(FlushOf(r).line, r.echoArriving, r.now);
    EchoesExtended(FlushOf(r).line, r.echoArriving, r.now, read.bytes.value[0] == 1);
    ReadNow(read.line, 0, []);
  }

  lemma EchoKeepsHandshake(attempts: nat, r: Recording, n: nat, line: Line)
    requires HandshakeMirrored(attempts, r, SomAwaitEcho(n), line) && line.arrived != [] && n > 0
    ensures var read, next := ReadExactly(line, HANDSHAKE_SIZE, []), EchoRecorded(r);
      && BeforeLoop(next, read.line, HandshakeLine(next))
      && HandshakeMirrored(attempts, next, if read.bytes.value[0] == 1 then SomReadRc else SomAwaitEcho(n - 1), read.line)
  {
    EchoReadMirrored(attempts, r, n, line);
  }

  lemma FlushStepKeepsHandshake(c: Config, attempts: nat, s: Sys, r: Recording, readAhead: nat)
    requires HandshakeMirrored(attempts, r, s.som, s.line) && Enabled(s, SomFlush(readAhead))
    ensures var t := ApplySom(Autopilot(c), attempts, s, SomFlush(readAhead));
      HandshakeMirrored(attempts, Record(r, s, SomFlush(readAhead)), t.som, t.line)
  {
    FlushKeepsHandshake(attempts, r, s.line, readAhead);
  }

  lemma WriteStepKeepsHandshake(c: Config, attempts: nat, s: Sys, r: Recording)
    requires HandshakeMirrored(attempts, r, s.som, s.line) && Enabled(s, SomWriteHandshake)
    ensures var t := ApplySom(Autopilot(c), attempts, s, SomWriteHandshake); HandshakeMirrored(attempts, r, t.som, t.line)
  {
    WritingKeepsHandshake(attempts, r, s.line);
  }

  lemma EchoStepKeepsHandshake(c: Config, attempts: nat, s: Sys, r: Recording)
    requires HandshakeMirrored(attempts, r, s.som, s.line) && Enabled(s, SomReadEcho)
    ensures var t := ApplySom(Autopilot(c), attempts, s, SomReadEcho);
      HandshakeMirrored(attempts, EchoRecorded(r), t.som, t.line)
  {
    var t := ApplySom(Autopilot(c), attempts, s, SomReadEcho);
    EchoKeepsHandshake(attempts, r, s.som.attempts, s.line);
    assert t.line == ReadExactly(s.line, HANDSHAKE_SIZE, []).line;
    assert t.som == SomFailed || t.som == SomReadRc || t.som == SomAwaitEcho(s.som.attempts - 1);
  }

  /** The steps of the main cycle and of the MCU leave the handshake behind. */
  predicate IsCycleStep(step: Step) {
    step.SomTakeRc? || step.SomTakeImu? || step.SomWriteAnswer?
  }

  lemma CycleStepKeepsHandshake(c: Config, attempts: nat, s: Sys, step: Step, r: Recording)
    requires HandshakeMirrored(attempts, r, s.som, s.line) && Enabled(s, step) && IsCycleStep(step)
    ensures var t := ApplySom(Autopilot(c), attempts, s, step); HandshakeMirrored(attempts, Record(r, s, step), t.som, t.line)
  {
  }

  lemma StepKeepsHandshake(c: Config, attempts: nat, s: Sys, step: Step, r: Recording)
    requires HandshakeMirrored(attempts, r, s.som, s.line) && Enabled(s, step)
    ensures var t := Apply(Autopilot(c), attempts, s, step); HandshakeMirrored(attempts, Record(r, s, step), t.som, t.line)
  {
    match step
    case DeliverToSom(n) => ArrivalKeepsHandshake(attempts, r, s.som, s.line, s.toSom[..n]);
    case SomFlush(readAhead) => FlushStepKeepsHandshake(c, attempts, s, r, readAhead);
    case SomWriteHandshake => WriteStepKeepsHandshake(c, attempts, s, r);
    case SomReadEcho => EchoStepKeepsHandshake(c, attempts, s, r);
    case SomTakeRc => CycleStepKeepsHandshake(c, attempts, s, step, r);
    case SomTakeImu => CycleStepKeepsHandshake(c, attempts, s, step, r);
    case SomWriteAnswer => CycleStepKeepsHandshake(c, attempts, s, step, r);
    case _ =>
  }

  lemma {:induction false} RunKeepsHandshake(c: Config, attempts: nat, stale: seq<byte>, steps: seq<Step>)
    requires Run(Autopilot(c), attempts, stale, steps).Reached?
    ensures var s := Run(Autopilot(c), attempts, stale, steps).sys;
      HandshakeMirrored(attempts, Recorded(c, attempts, stale, steps), s.som, s.line)
  {
    if steps == [] {
      ReadNow(Line([], []), 0, []);
    } else {
      var n := |steps| - 1;
      RunKeepsHandshake(c, attempts, stale, steps[..n]);
      StepKeepsHandshake(c, attempts, Run(Autopilot(c), attempts, stale, steps[..n]).sys, steps[n],
                         Recorded(c, attempts, stale, steps[..n]));
    }
  }

  // ----- Every step keeps the main loop mirrored -----

  lemma LoopStarts(c: Config, start: S.SomState, r: Recording, line: Line)
    requires AtLoopStart(start) && r.now == [] && BeforeLoop(r, line, HandshakeLine(r))
    ensures LoopMirrored(c, start, r, SomReadRc, line, [], [])
  {
    AnswerWireEnd([], 0);
    assert Pairs([]) == [] && [S.HANDSHAKE] + [] == [S.HANDSHAKE];
  }

  lemma ArrivalKeepsLoop(c: Config, start: S.SomState, r: Recording, som: SomStage, line: Line,
                         taken: seq<Item>, answers: seq<ControlSurfacePacket>, bytes: seq<byte>)
    requires InMain(som) && LoopMirrored(c, start, r, som, line, taken, answers)
    ensures LoopMirrored(c, start, RecordArrival(som, bytes, r), som, Arrived(line, bytes), taken, answers)
  {
    var m := Loop(c, start, r);
    match som
    case SomReadRc => ArrivedTwice(m.line, r.now, bytes);
    case SomReadImu => ArrivedTwice(S.RcRead(m, CurrentPass(r)).line, r.imu, bytes);
    case SomAnswer(_) => ArrivedTwice(S.ImuRead(m, CurrentPass(r)).line, r.early, bytes);
  }

  lemma RcPlace(m: S.SomState, r: Recording, line: Line, past: seq<Item>)
    requires PlaceMirrored(m, r, SomReadRc, line, past, past)
    ensures var read := ReadExactly(line, RC_SIZE, []);
      PlaceMirrored(m, r, SomReadImu, read.line, past, past + [RcItem(RcOf(read.bytes))])
  {
    ReadNow(m.line, RC_SIZE, r.now);
    ReadNow(S.RcRead(m, CurrentPass(r)).line, 0, []);
  }

  lemma ImuPlace(m: S.SomState, r: Recording, line: Line, past: seq<Item>, taken: seq<Item>, p: ControlSurfacePacket)
    requires PlaceMirrored(m, r, SomReadImu, line, past, taken)
    ensures var read := ReadExactly(line, IMU_SIZE, []);
      PlaceMirrored(m, r, SomAnswer(p), read.line, past, taken + [ImuItem(ImuOf(read.bytes))])
  {
    ReadNow(S.RcRead(m, CurrentPass(r)).line, IMU_SIZE, r.imu);
    ReadNow(S.ImuRead(m, CurrentPass(r)).line, 0, []);
  }

  lemma PastKept(taken: seq<Item>, item: Item, answers: seq<ControlSurfacePacket>)
    requires 2 * |answers| <= |taken|
    ensures Past(taken + [item], answers) == Past(taken, answers)
  {
  }

  lemma TakeRcKeepsLoop(c: Config, start: S.SomState, r: Recording, line: Line,
                        taken: seq<Item>, answers: seq<ControlSurfacePacket>)
    requires LoopMirrored(c, start, r, SomReadRc, line, taken, answers)
    ensures var read := ReadExactly(line, RC_SIZE, []);
      LoopMirrored(c, start, r, SomReadImu, read.line, taken + [RcItem(RcOf(read.bytes))], answers)
  {
    RcPlace(Loop(c, start, r), r, line, taken);
    PastKept(taken, RcItem(RcOf(ReadExactly(line, RC_SIZE, []).bytes)), answers);
  }

  lemma TakeImuKeepsLoop(c: Config, start: S.SomState, r: Recording, line: Line,
                         taken: seq<Item>, answers: seq<ControlSurfacePacket>, p: ControlSurfacePacket)
    requires LoopMirrored(c, start, r, SomReadImu, line, taken, answers)
    ensures var read := ReadExactly(line, IMU_SIZE, []);
      LoopMirrored(c, start, r, SomAnswer(p), read.line, taken + [ImuItem(ImuOf(read.bytes))], answers)
  {
    ImuPlace(Loop(c, start, r), r, line, Past(taken, answers), taken, p);
    PastKept(taken, ImuItem(ImuOf(ReadExactly(line, IMU_SIZE, []).bytes)), answers);
  }

  lemma OneMorePair(past: seq<Item>, rc: RcRxPacket, imu: ImuPacket)
    requires |past| % 2 == 0
    ensures Pairs(past + [RcItem(rc), ImuItem(imu)]) == Pairs(past) + [Input(rc, imu)]
  {
  }

  lemma {:induction false} NextAnswer(c: Config, inputs: seq<Input>, input: Input)
    ensures Autopilot(c)(inputs + [input]) == ManagerOutput(c, ManagerRun(c, inputs), input)
    ensures ManagerRun(c, inputs + [input]) == ManagerNext(c, ManagerRun(c, inputs), input)
  {
    assert (inputs + [input])[..|inputs|] == inputs;
  }

  lemma ManagerNextMirrored(c: Config, manager: ManagerState, past: seq<Item>, rc: RcRxPacket, imu: ImuPacket)
    requires |past| % 2 == 0 && ManagerMirrored(c, manager, past)
    ensures var taken, input := past + [RcItem(rc), ImuItem(imu)], Input(rc, imu);
      ManagerMirrored(c, ManagerNext(c, manager, input), taken)
      && Autopilot(c)(Pairs(taken)) == ManagerOutput(c, manager, input)
  {
    OneMorePair(past, rc, imu);
    NextAnswer(c, Pairs(past), Input(rc, imu));
  }

  lemma PassEffects(c: Config, m: S.SomState, r: Recording)
    ensures var m', input := S.NextPass(c, m, CurrentPass(r)), Input(RcOfPass(m, r), ImuOfPass(m, r));
      && m'.manager == ManagerNext(c, m.manager, input)
      && m'.sent == m.sent + EncodeCs(ManagerOutput(c, m.manager, input))
  {
    var packet := ManagerOutput(c, m.manager, S.PassInput(m, CurrentPass(r)));
    assert EncodeCs(packet)[..CS_SIZE] == EncodeCs(packet);
  }

  /** The answer the protocol's SoM holds is the one its main loop computes in this pass. */
  lemma AnswerMirrored(c: Config, m: S.SomState, r: Recording, past: seq<Item>, taken: seq<Item>,
                       answers: seq<ControlSurfacePacket>)
    requires PastMirrored(c, m, past, answers)
    requires taken == past + [RcItem(RcOfPass(m, r)), ImuItem(ImuOfPass(m, r))]
    ensures PastMirrored(c, S.NextPass(c, m, CurrentPass(r)), taken, answers + [Autopilot(c)(Pairs(taken))])
  {
    ManagerNextMirrored(c, m.manager, past, RcOfPass(m, r), ImuOfPass(m, r));
    PassEffects(c, m, r);
    AnswerWireAppend(answers, 0, Autopilot(c)(Pairs(taken)));
    Associative([S.HANDSHAKE], AnswerWire(answers, 0), EncodeCs(Autopilot(c)(Pairs(taken))));
  }

  lemma LoopNext(c: Config, start: S.SomState, r: Recording)
    ensures Loop(c, start, PassRecorded(r)) == S.NextPass(c, Loop(c, start, r), CurrentPass(r))
  {
    assert PassRecorded(r).script[..|r.script|] == r.script;
  }

  lemma NextPlace(c: Config, m: S.SomState, r: Recording, p: ControlSurfacePacket,
                  line: Line, past: seq<Item>, taken: seq<Item>)
    requires PlaceMirrored(m, r, SomAnswer(p), line, past, taken)
    ensures PlaceMirrored(S.NextPass(c, m, CurrentPass(r)), PassRecorded(r), SomReadRc, line, taken, taken)
  {
  }

  lemma PastOfAll(taken: seq<Item>, answers: seq<ControlSurfacePacket>)
    requires |taken| == 2 * |answers|
    ensures Past(taken, answers) == taken
  {
  }

  lemma AnswerKeepsLoop(c: Config, start: S.SomState, r: Recording, line: Line,
                        taken: seq<Item>, answers: seq<ControlSurfacePacket>, p: ControlSurfacePacket)
    requires LoopMirrored(c, start, r, SomAnswer(p), line, taken, answers) && p == Autopilot(c)(Pairs(taken))
    ensures LoopMirrored(c, start, PassRecorded(r), SomReadRc, line, taken, answers + [p])
  {
    var m, past := Loop(c, start, r), Past(taken, answers);
    AnswerMirrored(c, m, r, past, taken, answers);
    LoopNext(c, start, r);
    NextPlace(c, m, r, p, line, past, taken);
    PastOfAll(taken, answers + [p]);
  }

  predicate Mirrored(c: Config, start: S.SomState, s: Sys, r: Recording) {
    InMain(s.som) ==> LoopMirrored(c, start, r, s.som, s.line, s.taken, s.answers)
  }

  /** The main loop starts on the line that the handshake read has left. */
  lemma EchoLeavesLine(attempts: nat, r: Recording, n: nat, line: Line)
    requires HandshakeMirrored(attempts, r, SomAwaitEcho(n), line) && line.arrived != [] && n > 0
    ensures BeforeLoop(EchoRecorded(r), ReadExactly(line, HANDSHAKE_SIZE, []).line, HandshakeLine(EchoRecorded(r)))
  {
    EchoKeepsHandshake(attempts, r, n, line);
  }

  lemma EchoStepStartsLoop(c: Config, attempts: nat, start: S.SomState, s: Sys, r: Recording)
    requires Stages(s) && Enabled(s, SomReadEcho) && AtLoopStart(start) && r.now == []
    requires BeforeLoop(r, ReadExactly(s.line, HANDSHAKE_SIZE, []).line, HandshakeLine(r))
    ensures Mirrored(c, start, ApplySom(Autopilot(c), attempts, s, SomReadEcho), r)
  {
    var t := ApplySom(Autopilot(c), attempts, s, SomReadEcho);
    if InMain(t.som) {
      assert t.som == SomReadRc && t.taken == [] && t.answers == [];
      LoopStarts(c, start, r, t.line);
    }
  }

  lemma TakeStepKeepsLoop(c: Config, attempts: nat, start: S.SomState, s: Sys, step: Step, r: Recording)
    requires Mirrored(c, start, s, r) && Enabled(s, step) && (step.SomTakeRc? || step.SomTakeImu?)
    ensures Mirrored(c, start, ApplySom(Autopilot(c), attempts, s, step), r)
  {
    if step.SomTakeRc? {
      TakeRcKeepsLoop(c, start, r, s.line, s.taken, s.answers);
    } else {
      TakeImuKeepsLoop(c, start, r, s.line, s.taken, s.answers, ApplySom(Autopilot(c), attempts, s, step).som.packet);
    }
  }

  lemma AnswerStepKeepsLoop(c: Config, attempts: nat, start: S.SomState, s: Sys, r: Recording)
    requires Mirrored(c, start, s, r) && History(Autopilot(c), s) && Enabled(s, SomWriteAnswer)
    ensures Mirrored(c, start, ApplySom(Autopilot(c), attempts, s, SomWriteAnswer), PassRecorded(r))
  {
    AnswerKeepsLoop(c, start, r, s.line, s.taken, s.answers, s.som.packet);
  }

  lemma ArrivalStepKeepsLoop(c: Config, start: S.SomState, s: Sys, r: Recording, n: nat)
    requires Mirrored(c, start, s, r) && Enabled(s, DeliverToSom(n))
    ensures Mirrored(c, start, ApplyDelivery(s, DeliverToSom(n)), RecordArrival(s.som, s.toSom[..n], r))
  {
    if InMain(s.som) { ArrivalKeepsLoop(c, start, r, s.som, s.line, s.taken, s.answers, s.toSom[..n]); }
  }

  lemma OtherStepKeepsLoop(c: Config, attempts: nat, start: S.SomState, s: Sys, step: Step, r: Recording)
    requires Mirrored(c, start, s, r) && Enabled(s, step)
    requires IsMcuStep(step) || step.DeliverToMcu? || step.SomFlush? || step.SomWriteHandshake?
    ensures Mirrored(c, start, Apply(Autopilot(c), attempts, s, step), Record(r, s, step))
  {
    var t := Apply(Autopilot(c), attempts, s, step);
    if InMain(t.som) {
      assert t.som == s.som && t.line == s.line && t.taken == s.taken && t.answers == s.answers;
      assert Record(r, s, step) == r;
    }
  }

  lemma CycleStepKeepsLoop(c: Config, attempts: nat, start: S.SomState, s: Sys, step: Step, r: Recording)
    requires Mirrored(c, start, s, r) && History(Autopilot(c), s) && Enabled(s, step) && IsCycleStep(step)
    ensures Mirrored(c, start, ApplySom(Autopilot(c), attempts, s, step), Record(r, s, step))
  {
    if step.SomWriteAnswer? {
      AnswerStepKeepsLoop(c, attempts, start, s, r);
    } else {
      TakeStepKeepsLoop(c, attempts, start, s, step, r);
    }
  }

  lemma StepKeepsLoop(c: Config, attempts: nat, start: S.SomState, s: Sys, step: Step, r: Recording)
    requires Mirrored(c, start, s, r) && HandshakeMirrored(attempts, r, s.som, s.line)
    requires Stages(s) && History(Autopilot(c), s) && Enabled(s, step) && AtLoopStart(start)
    ensures Mirrored(c, start, Apply(Autopilot(c), attempts, s, step), Record(r, s, step))
  {
    if step.DeliverToSom? {
      ArrivalStepKeepsLoop(c, start, s, r, step.n);
    } else if step.SomReadEcho? {
      EchoLeavesLine(attempts, r, s.som.attempts, s.line);
      EchoStepStartsLoop(c, attempts, start, s, EchoRecorded(r));
    } else if IsCycleStep(step) {
      CycleStepKeepsLoop(c, attempts, start, s, step, r);
    } else {
      OtherStepKeepsLoop(c, attempts, start, s, step, r);
    }
  }

  lemma {:induction false} RunKeepsLoop(c: Config, attempts: nat, start: S.SomState, stale: seq<byte>, steps: seq<Step>)
    requires Skippable(stale, attempts) && Run(Autopilot(c), attempts, stale, steps).Reached? && AtLoopStart(start)
    ensures Mirrored(c, start, Run(Autopilot(c), attempts, stale, steps).sys, Recorded(c, attempts, stale, steps))
  {
    if steps == [] {
      assert !InMain(Start(stale).som);
    } else {
      var n := |steps| - 1;
      RunKeepsLoop(c, attempts, start, stale, steps[..n]);
      RunKeepsHandshake(c, attempts, stale, steps[..n]);
      InvariantHolds(Autopilot(c), attempts, stale, steps[..n]);
      StepKeepsLoop(c, attempts, start, Run(Autopilot(c), attempts, stale, steps[..n]).sys, steps[n],
                    Recorded(c, attempts, stale, steps[..n]));
    }
  }

  /** What handshakeMCU makes of what arrived during its calls. */
  function HandshakeOf(r: Recording, d: S.T.DebugMessage, attempts: nat): S.Attempts {
    S.Attempt(FlushOf(r).line, d, attempts, ArrivingOf(r.echoArriving), 0, 0)
  }

  /**
   * The protocol refines the program, handshake included: whatever the interleaving, between two passes
   * the flush of the program succeeded on what arrived before it, its attempts were acknowledged without
   * a timeout, and the SoM is exactly where the main loop is after as many passes as it has answered,
   * on the bytes that arrived during each call: same line, same autopilot state, same bytes sent, and
   * the pairs it read are the first ones the MCU wrote.
   */
  lemma {:induction false} ProtocolRunsProgram(c: Config, attempts: nat, start: S.SomState, d: S.T.DebugMessage,
                            stale: seq<byte>, steps: seq<Step>, s: Sys)
    requires Skippable(stale, attempts) && Run(Autopilot(c), attempts, stale, steps) == Reached(s) && s.som == SomReadRc
    requires AtLoopStart(start)
    ensures var r := Recorded(c, attempts, stale, steps);
      var a := HandshakeOf(r, d, attempts);
      var m := S.SomRun(c, start.(line := a.line), r.script);
      && FlushOf(r).ok && a.acknowledged && a.used == |r.echoArriving| && a.timeouts == 0
      && |r.script| == |s.answers|
      && s.line == Arrived(m.line, r.now)
      && m.manager == ManagerRun(c, Pairs(s.taken))
      && m.sent == [S.HANDSHAKE] + AnswerWire(s.answers, 0)
    ensures s.taken <= s.written && |s.taken| == 2 * |s.answers|
  {
    RunKeepsHandshake(c, attempts, stale, steps);
    RunKeepsLoop(c, attempts, start, stale, steps);
    InvariantHolds(Autopilot(c), attempts, stale, steps);
    var r := Recorded(c, attempts, stale, steps);
    assert EchoReads(r.echoArriving)[..0] == [];
    AttemptsAreReads(FlushOf(r).line, d, attempts, r.echoArriving, 0);
  }
}
