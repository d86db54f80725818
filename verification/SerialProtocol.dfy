/**
 * The MCU and the SoM as two processes over the serial line (impl/src/mcu/mcu.ino, and the serial side
 * of impl/src/som/SomController.cpp). Each step is one library call of one side or the arrival of some
 * bytes, so every interleaving is a sequence of steps. SoM reads and all writes meet their deadlines
 * here; a read of the MCU may time out while nothing at all has arrived.
 */
module SerialProtocol {
  import opened Common
  import opened Packet
  import opened AutopilotManager
  import opened SerialController
  import opened WireFormat

  // ----- The two processes -----

  datatype McuStage = McuStart | McuAwaitHandshake | McuEcho(handshake: byte) | McuWriteRc | McuWriteImu | McuAwaitAnswer

  datatype SomStage = SomFlushing | SomSendHandshake | SomAwaitEcho(attempts: nat) | SomFailed
                    | SomReadRc | SomReadImu | SomAnswer(packet: ControlSurfacePacket)

  /**
   * `toSom` and `toMcu` are bytes in flight; `line` holds what reached the SoM and `mcuArrived` what
   * reached the MCU. The rest is history: packets the MCU wrote, packets the SoM read, answers it
   * wrote, answers the MCU read, empty MCU timeouts, bytes delivered in either direction, and bytes
   * that the SoM dropped in the flush or read in the handshake.
   */
  datatype Sys = Sys(
    mcu: McuStage, som: SomStage,
    toSom: seq<byte>, line: Line, toMcu: seq<byte>, mcuArrived: seq<byte>,
    written: seq<Item>, taken: seq<Item>,
    answers: seq<ControlSurfacePacket>, obtained: seq<ControlSurfacePacket>,
    timeouts: nat, delivered: nat, skipped: nat)

  datatype Step =
    | DeliverToSom(n: nat) | DeliverToMcu(n: nat)
    | McuFlush | McuReadHandshake | McuSendEcho
    | McuSendRc(rc: RcRxPacket) | McuSendImu(imu: ImuPacket) | McuReadAnswer | McuTimeout
    | SomFlush(readAhead: nat) | SomWriteHandshake | SomReadEcho | SomTakeRc | SomTakeImu | SomWriteAnswer

  function Start(stale: seq<byte>): Sys {
    Sys(McuStart, SomFlushing, stale, Line([], []), [], [], [], [], [], [], 0, 0, 0)
  }

  /** When a step can happen: each side is at that call, and a read has all its bytes (or, to time out, none). */
  predicate Enabled(s: Sys, step: Step) {
    match step
    case DeliverToSom(n) => 0 < n <= |s.toSom|
    case DeliverToMcu(n) => 0 < n <= |s.toMcu|
    case McuFlush => s.mcu == McuStart
    case McuReadHandshake => s.mcu == McuAwaitHandshake && s.mcuArrived != []
    case McuSendEcho => s.mcu.McuEcho?
    case McuSendRc(_) => s.mcu == McuWriteRc
    case McuSendImu(_) => s.mcu == McuWriteImu
    case McuReadAnswer => s.mcu == McuAwaitAnswer && |s.mcuArrived| >= CS_SIZE
    case McuTimeout => s.mcu == McuAwaitAnswer && s.mcuArrived == []
    case SomFlush(_) => s.som == SomFlushing && FirstMatchEnd(Pending(s.line), FLUSH).Some?
    case SomWriteHandshake => s.som == SomSendHandshake
    case SomReadEcho => s.som.SomAwaitEcho? && s.som.attempts > 0 && s.line.arrived != []
    case SomTakeRc => s.som == SomReadRc && |s.line.arrived| >= RC_SIZE
    case SomTakeImu => s.som == SomReadImu && |s.line.arrived| >= IMU_SIZE
    case SomWriteAnswer => s.som.SomAnswer?
  }

  /**
   * What the SoM computes from the pairs it has read, the latest last. The theorems hold for any such
   * function; the autopilot is the one that the end-to-end theorem supplies.
   */
  type Brain = seq<Input> -> ControlSurfacePacket

  function ApplyDelivery(s: Sys, step: Step): Sys
    requires Enabled(s, step) && (step.DeliverToSom? || step.DeliverToMcu?)
  {
    match step
    case DeliverToSom(n) =>
      s.(toSom := s.toSom[n..], line := s.line.(arrived := s.line.arrived + s.toSom[..n]), delivered := s.delivered + n)
    case DeliverToMcu(n) =>
      s.(toMcu := s.toMcu[n..], mcuArrived := s.mcuArrived + s.toMcu[..n], delivered := s.delivered + n)
  }

  predicate IsMcuStep(step: Step) {
    step.McuFlush? || step.McuReadHandshake? || step.McuSendEcho? || step.McuSendRc? || step.McuSendImu?
    || step.McuReadAnswer? || step.McuTimeout?
  }

  /** setup and loop of the MCU. */
  function ApplyMcu(s: Sys, step: Step): Sys
    requires Enabled(s, step) && IsMcuStep(step)
  {
    match step
    case McuFlush => s.(mcu := McuAwaitHandshake, toSom := s.toSom + FLUSH)
    case McuReadHandshake => s.(mcu := McuEcho(s.mcuArrived[0]), mcuArrived := s.mcuArrived[1..])
    case McuSendEcho => s.(mcu := McuWriteRc, toSom := s.toSom + [s.mcu.handshake])
    case McuSendRc(rc) => s.(mcu := McuWriteImu, toSom := s.toSom + EncodeRc(rc), written := s.written + [RcItem(rc)])
    case McuSendImu(imu) => s.(mcu := McuAwaitAnswer, toSom := s.toSom + EncodeImu(imu), written := s.written + [ImuItem(imu)])
    case McuReadAnswer =>
      s.(mcu := McuWriteRc, mcuArrived := s.mcuArrived[CS_SIZE..], obtained := s.obtained + [DecodeCs(s.mcuArrived[..CS_SIZE])])
    case McuTimeout => s.(mcu := McuWriteRc, timeouts := s.timeouts + 1)
  }

  /** The line after a flush, by how far it reads ahead. */
  function Flushed(line: Line, readAhead: nat): (r: Line)
    ensures |Pending(r)| <= |Pending(line)|
  {
    FlushLine(line, [], readAhead).line
  }

  /** handshakeMCU and runMainLoop of the SoM. */
  function ApplySom(brain: Brain, attempts: nat, s: Sys, step: Step): Sys
    requires Enabled(s, step) && !IsMcuStep(step) && !step.DeliverToSom? && !step.DeliverToMcu?
  {
    match step
    case SomFlush(readAhead) =>
      var line := Flushed(s.line, readAhead);
      s.(som := SomSendHandshake, line := line, skipped := |Pending(s.line)| - |Pending(line)|)
    case SomWriteHandshake =>
      s.(som := if attempts == 0 then SomFailed else SomAwaitEcho(attempts), toMcu := s.toMcu + [1])
    case SomReadEcho =>
      var r := ReadExactly(s.line, HANDSHAKE_SIZE, []);
      s.(line := r.line, skipped := s.skipped + 1,
         som := if r.bytes.value[0] == 1 then SomReadRc
                else if s.som.attempts == 1 then SomFailed
                else SomAwaitEcho(s.som.attempts - 1))
    case SomTakeRc =>
      var r := ReadExactly(s.line, RC_SIZE, []);
      s.(line := r.line, som := SomReadImu, taken := s.taken + [RcItem(RcOf(r.bytes))])
    case SomTakeImu =>
      var r := ReadExactly(s.line, IMU_SIZE, []);
      var taken := s.taken + [ImuItem(ImuOf(r.bytes))];
      s.(line := r.line, som := SomAnswer(brain(Pairs(taken))), taken := taken)
    case SomWriteAnswer =>
      s.(som := SomReadRc, toMcu := s.toMcu + EncodeCs(s.som.packet), answers := s.answers + [s.som.packet])
  }

  function Apply(brain: Brain, attempts: nat, s: Sys, step: Step): Sys
    requires Enabled(s, step)
  {
    if step.DeliverToSom? || step.DeliverToMcu? then ApplyDelivery(s, step)
    else if IsMcuStep(step) then ApplyMcu(s, step)
    else ApplySom(brain, attempts, s, step)
  }

  /** Where a sequence of steps leads, if every step is possible in its turn. */
  datatype Outcome = Impossible | Reached(sys: Sys)

  function Run(brain: Brain, attempts: nat, stale: seq<byte>, steps: seq<Step>): Outcome {
    if steps == [] then Reached(Start(stale))
    else
      var last := steps[|steps| - 1];
      match Run(brain, attempts, stale, steps[..|steps| - 1])
      case Impossible => Impossible
      case Reached(s) => if Enabled(s, last) then Reached(Apply(brain, attempts, s, last)) else Impossible
  }

  lemma {:induction false} RunAppend(brain: Brain, attempts: nat, stale: seq<byte>, steps: seq<Step>, s: Sys,
                                     step: Step)
    requires Run(brain, attempts, stale, steps) == Reached(s) && Enabled(s, step)
    ensures Run(brain, attempts, stale, steps + [step]) == Reached(Apply(brain, attempts, s, step))
  {
    assert (steps + [step])[..|steps|] == steps;
  }

  // ----- The invariant -----

  function TowardSom(s: Sys): seq<byte> {
    Pending(s.line) + s.toSom
  }

  function TowardMcu(s: Sys): seq<byte> {
    s.mcuArrived + s.toMcu
  }

  predicate InMain(som: SomStage) {
    som.SomReadRc? || som.SomReadImu? || som.SomAnswer?
  }

  predicate McuInMain(mcu: McuStage) {
    mcu.McuWriteRc? || mcu.McuWriteImu? || mcu.McuAwaitAnswer?
  }

  /** Where the two sides are relative to each other, and how many packets each has written and read. */
  predicate StagesAgree(mcu: McuStage, som: SomStage, written: nat, taken: nat, answers: nat, obtained: nat, timeouts: nat) {
    && taken <= written && obtained <= answers
    && (match som
        case SomFlushing => (mcu == McuStart || mcu == McuAwaitHandshake) && taken == 0 && answers == 0
        case SomSendHandshake => (mcu == McuStart || mcu == McuAwaitHandshake) && taken == 0 && answers == 0
        case SomAwaitEcho(n) => n > 0 && taken == 0 && answers == 0
        case SomFailed => false
        case SomReadRc => McuInMain(mcu) && taken == 2 * answers
        case SomReadImu => McuInMain(mcu) && taken == 2 * answers + 1
        case SomAnswer(_) => McuInMain(mcu) && taken == 2 * answers + 2)
    && (match mcu
        case McuWriteRc => written == 2 * (obtained + timeouts)
        case McuWriteImu => written == 2 * (obtained + timeouts) + 1
        case McuAwaitAnswer => written == 2 * (obtained + timeouts) + 2
        case _ => written == 0 && obtained == 0 && timeouts == 0)
  }

  predicate Stages(s: Sys) {
    StagesAgree(s.mcu, s.som, |s.written|, |s.taken|, |s.answers|, |s.obtained|, s.timeouts)
  }

  /** What was on the line toward the SoM before the MCU's echo. */
  function Prelude(mcu: McuStage, stale: seq<byte>): seq<byte> {
    if mcu == McuStart then stale else stale + FLUSH
  }

  /** The part of it that the SoM has neither dropped nor read. */
  function Junk(mcu: McuStage, stale: seq<byte>, skipped: nat): seq<byte> {
    Prelude(mcu, stale)[Min(skipped, |Prelude(mcu, stale)|)..]
  }

  /**
   * How far the SoM is through the bytes before the echo: past the first flush string after the flush,
   * with more attempts than bytes left during the handshake, and past the echo in the main cycle.
   */
  predicate SkipAgrees(mcu: McuStage, som: SomStage, skipped: nat, stale: seq<byte>) {
    match som
    case SomFlushing => skipped == 0
    case SomSendHandshake => MatchEnd(stale) <= skipped <= |Prelude(mcu, stale)|
    case SomAwaitEcho(n) =>
      MatchEnd(stale) <= skipped <= |Prelude(mcu, stale)| && |stale| + |FLUSH| < skipped + n
    case SomFailed => false
    case _ => skipped == |stale| + |FLUSH| + HANDSHAKE_SIZE
  }

  /** The MCU's echo and the packets behind it. */
  function EchoAndPackets(mcu: McuStage, written: seq<Item>): seq<byte> {
    if McuInMain(mcu) then [1] + Wire(written, 0) else []
  }

  /** What is on its way to the SoM: in the main cycle, the bytes of the packets written and not yet read. */
  function ExpectedToSom(mcu: McuStage, som: SomStage, written: seq<Item>, taken: nat, stale: seq<byte>,
                         skipped: nat): seq<byte> {
    match som
    case SomFlushing => Prelude(mcu, stale)
    case SomSendHandshake => Junk(mcu, stale, skipped)
    case SomAwaitEcho(_) => Junk(mcu, stale, skipped) + EchoAndPackets(mcu, written)
    case SomFailed => []
    case _ => Wire(written, taken)
  }

  predicate ToSomAgrees(s: Sys, stale: seq<byte>) {
    && SkipAgrees(s.mcu, s.som, s.skipped, stale)
    && TowardSom(s) == ExpectedToSom(s.mcu, s.som, s.written, |s.taken|, stale, s.skipped)
    && (s.som == SomFlushing ==> s.line.buffer == [])
  }

  /** What is on its way to the MCU: in the main cycle, the answers written and not yet read. */
  function ExpectedToMcu(mcu: McuStage, som: SomStage, answers: seq<ControlSurfacePacket>, obtained: nat): seq<byte> {
    if som.SomAwaitEcho? && (mcu == McuStart || mcu == McuAwaitHandshake) then [1] else AnswerWire(answers, obtained)
  }

  predicate ToMcuAgrees(s: Sys) {
    && TowardMcu(s) == ExpectedToMcu(s.mcu, s.som, s.answers, |s.obtained|)
    && (s.mcu.McuEcho? ==> s.mcu.handshake == 1)
  }

  /** Each side reads what the other wrote, from the first packet on. */
  predicate ReadsAreWrites(s: Sys) {
    s.taken <= s.written && Alternates(s.written) && s.obtained <= s.answers
  }

  predicate LineAgrees(s: Sys, stale: seq<byte>) {
    Stages(s) && ToSomAgrees(s, stale) && ToMcuAgrees(s) && ReadsAreWrites(s)
  }

  /**
   * The bytes behind the first flush string can be read away by the handshake: none of them is the
   * handshake byte, and there are fewer of them than attempts.
   */
  predicate Skippable(stale: seq<byte>, attempts: nat) {
    1 !in Rest(stale) && |Rest(stale)| < attempts
  }

  // ----- Every step keeps the line in agreement -----

  lemma ArrivalKeepsToSom(line: Line, toSom: seq<byte>, n: nat)
    requires n <= |toSom|
    ensures Pending(line.(arrived := line.arrived + toSom[..n])) + toSom[n..] == Pending(line) + toSom
  {
    assert toSom == toSom[..n] + toSom[n..];
  }

  lemma DeliverToSomKeeps(s: Sys, stale: seq<byte>, n: nat)
    requires LineAgrees(s, stale) && Enabled(s, DeliverToSom(n))
    ensures LineAgrees(ApplyDelivery(s, DeliverToSom(n)), stale)
  {
    ArrivalKeepsToSom(s.line, s.toSom, n);
  }

  lemma DeliverToMcuKeeps(s: Sys, stale: seq<byte>, n: nat)
    requires LineAgrees(s, stale) && Enabled(s, DeliverToMcu(n))
    ensures LineAgrees(ApplyDelivery(s, DeliverToMcu(n)), stale)
  {
    assert s.toMcu == s.toMcu[..n] + s.toMcu[n..];
    assert TowardMcu(ApplyDelivery(s, DeliverToMcu(n))) == TowardMcu(s);
  }

  lemma JunkGrows(stale: seq<byte>, skipped: nat)
    requires skipped <= |stale|
    ensures Junk(McuAwaitHandshake, stale, skipped) == Junk(McuStart, stale, skipped) + FLUSH
  {
    assert (stale + FLUSH)[skipped..] == stale[skipped..] + FLUSH;
  }

  /** The fresh flush string goes behind whatever the SoM has not taken yet. */
  lemma PreludeGrows(som: SomStage, written: seq<Item>, taken: nat, stale: seq<byte>, skipped: nat)
    requires som.SomFlushing? || som.SomSendHandshake? || som.SomAwaitEcho?
    requires SkipAgrees(McuStart, som, skipped, stale)
    ensures ExpectedToSom(McuAwaitHandshake, som, written, taken, stale, skipped)
         == ExpectedToSom(McuStart, som, written, taken, stale, skipped) + FLUSH
  {
    if !som.SomFlushing? {
      JunkGrows(stale, skipped);
      var junk := Junk(McuStart, stale, skipped);
      assert (junk + FLUSH) + [] == (junk + []) + FLUSH;
    }
  }

  lemma McuFlushKeeps(s: Sys, stale: seq<byte>)
    requires LineAgrees(s, stale) && Enabled(s, McuFlush)
    ensures LineAgrees(ApplyMcu(s, McuFlush), stale)
  {
    Associative(Pending(s.line), s.toSom, FLUSH);
    PreludeGrows(s.som, s.written, |s.taken|, stale, s.skipped);
  }

  lemma McuReadHandshakeKeeps(s: Sys, stale: seq<byte>)
    requires LineAgrees(s, stale) && Enabled(s, McuReadHandshake)
    ensures LineAgrees(ApplyMcu(s, McuReadHandshake), stale)
  {
    var s' := ApplyMcu(s, McuReadHandshake);
    assert TowardMcu(s) == [s.mcuArrived[0]] + TowardMcu(s');
    AnswerWireEnd(s.answers, 0);
    assert TowardMcu(s)[0] == 1;
  }

  lemma McuSendEchoKeeps(s: Sys, stale: seq<byte>)
    requires LineAgrees(s, stale) && Enabled(s, McuSendEcho)
    ensures LineAgrees(ApplyMcu(s, McuSendEcho), stale)
  {
    WireEnd([], 0);
    Associative(Pending(s.line), s.toSom, [1]);
    var junk := Junk(s.mcu, stale, s.skipped);
    assert junk + [] + [1] == junk + ([1] + []);
  }

  lemma ExpectedGrows(before: McuStage, after: McuStage, som: SomStage, written: seq<Item>, taken: nat,
                      item: Item, stale: seq<byte>, skipped: nat)
    requires McuInMain(before) && McuInMain(after) && (som.SomAwaitEcho? || InMain(som)) && taken <= |written|
    ensures ExpectedToSom(after, som, written + [item], taken, stale, skipped)
         == ExpectedToSom(before, som, written, taken, stale, skipped) + EncodeItem(item)
  {
    if som.SomAwaitEcho? {
      WireAppend(written, 0, item);
      Associative([1], Wire(written, 0), EncodeItem(item));
      Associative(Junk(before, stale, skipped), [1] + Wire(written, 0), EncodeItem(item));
    } else {
      WireAppend(written, taken, item);
    }
  }

  /** One more packet of the MCU is written, as any bytes that go behind what the SoM has not read. */
  lemma SendKeeps(s: Sys, stale: seq<byte>, item: Item, bytes: seq<byte>, after: McuStage)
    requires LineAgrees(s, stale) && Alternates(s.written + [item])
    requires (s.mcu == McuWriteRc && after == McuWriteImu) || (s.mcu == McuWriteImu && after == McuAwaitAnswer)
    requires ExpectedToSom(after, s.som, s.written + [item], |s.taken|, stale, s.skipped)
          == ExpectedToSom(s.mcu, s.som, s.written, |s.taken|, stale, s.skipped) + bytes
    ensures LineAgrees(s.(mcu := after, toSom := s.toSom + bytes, written := s.written + [item]), stale)
  {
    Associative(Pending(s.line), s.toSom, bytes);
  }

  lemma WrittenParity(s: Sys)
    requires Stages(s) && (s.mcu == McuWriteRc || s.mcu == McuWriteImu)
    ensures |s.written| % 2 == 0 <==> s.mcu == McuWriteRc
    ensures s.som.SomAwaitEcho? || InMain(s.som)
  {
  }

  lemma McuSendRcKeeps(s: Sys, stale: seq<byte>, rc: RcRxPacket)
    requires LineAgrees(s, stale) && Enabled(s, McuSendRc(rc))
    ensures LineAgrees(ApplyMcu(s, McuSendRc(rc)), stale)
  {
    WrittenParity(s);
    AlternatesAppend(s.written, RcItem(rc));
    ExpectedGrows(s.mcu, McuWriteImu, s.som, s.written, |s.taken|, RcItem(rc), stale, s.skipped);
    SendKeeps(s, stale, RcItem(rc), EncodeRc(rc), McuWriteImu);
  }

  lemma McuSendImuKeeps(s: Sys, stale: seq<byte>, imu: ImuPacket)
    requires LineAgrees(s, stale) && Enabled(s, McuSendImu(imu))
    ensures LineAgrees(ApplyMcu(s, McuSendImu(imu)), stale)
  {
    WrittenParity(s);
    AlternatesAppend(s.written, ImuItem(imu));
    ExpectedGrows(s.mcu, McuAwaitAnswer, s.som, s.written, |s.taken|, ImuItem(imu), stale, s.skipped);
    SendKeeps(s, stale, ImuItem(imu), EncodeImu(imu), McuAwaitAnswer);
  }

  lemma McuReadAnswerKeeps(s: Sys, stale: seq<byte>)
    requires LineAgrees(s, stale) && Enabled(s, McuReadAnswer)
    ensures LineAgrees(ApplyMcu(s, McuReadAnswer), stale)
  {
    var o := |s.obtained|;
    assert |TowardMcu(s)| >= 4;
    if o >= |s.answers| { AnswerWireEnd(s.answers, o); }
    AnswerWireNext(s.answers, o);
    SameCut(s.mcuArrived, s.toMcu, EncodeCs(s.answers[o]), AnswerWire(s.answers, o + 1));
    CsRoundTrip(s.answers[o], EncodeCs(s.answers[o]));
    PrefixGrows(s.obtained, s.answers);
  }

  lemma McuTimeoutKeeps(s: Sys, stale: seq<byte>)
    requires LineAgrees(s, stale) && Enabled(s, McuTimeout)
    ensures LineAgrees(ApplyMcu(s, McuTimeout), stale)
  {
  }

  /** However much has arrived, the flush can only stop at the end of the first flush string. */
  lemma {:induction false} FlushFindsMatch(arrived: seq<byte>, inFlight: seq<byte>, mcu: McuStage, stale: seq<byte>)
    requires FirstMatchEnd(arrived, FLUSH).Some? && arrived + inFlight == Prelude(mcu, stale)
    ensures FirstMatchEnd(arrived, FLUSH).value == MatchEnd(stale)
    ensures |arrived| <= MatchEnd(stale) + |Rest(stale)|
  {
    var behind := if mcu == McuStart then FLUSH else [];
    FirstMatchExtends(arrived, inFlight + behind);
    Associative(arrived, inFlight, behind);
    assert (arrived + inFlight) + behind == stale + FLUSH;
    MatchEndFound(stale);
  }

  /** Wherever the flush stops, what is left is what follows the dropped bytes. */
  lemma {:induction false} FlushLeavesJunk(arrived: seq<byte>, inFlight: seq<byte>, mcu: McuStage,
                                           stale: seq<byte>, readAhead: nat)
    requires FirstMatchEnd(arrived, FLUSH).Some? && arrived + inFlight == Prelude(mcu, stale)
    ensures var line := Flushed(Line([], arrived), readAhead);
      var dropped := |arrived| - |Pending(line)|;
      && MatchEnd(stale) <= dropped <= |Prelude(mcu, stale)|
      && Pending(line) + inFlight == Junk(mcu, stale, dropped)
      && (|Rest(stale)| <= MatchEnd(stale) ==> line.buffer == [])
  {
    FlushFindsMatch(arrived, inFlight, mcu, stale);
    FlushDrops(arrived, readAhead);
    DropOfSum(arrived, inFlight, FlushDropped(MatchEnd(stale), |arrived|, readAhead));
  }

  lemma DropOfSum(a: seq<byte>, b: seq<byte>, n: nat)
    requires n <= |a|
    ensures (a + b)[n..] == a[n..] + b
  {
  }

  lemma FlushFacts(s: Sys, stale: seq<byte>, readAhead: nat)
    requires s.som == SomFlushing && ToSomAgrees(s, stale) && FirstMatchEnd(Pending(s.line), FLUSH).Some?
    ensures var line := Flushed(s.line, readAhead);
      var dropped := |Pending(s.line)| - |Pending(line)|;
      && MatchEnd(stale) <= dropped <= |Prelude(s.mcu, stale)|
      && Pending(line) + s.toSom == Junk(s.mcu, stale, dropped)
      && (|Rest(stale)| <= MatchEnd(stale) ==> line.buffer == [])
  {
    var arrived := s.line.arrived;
    assert [] + arrived == arrived;
    assert s.line == Line([], arrived) && Pending(s.line) == arrived;
    FlushLeavesJunk(arrived, s.toSom, s.mcu, stale, readAhead);
  }

  lemma SomFlushKeeps(brain: Brain, attempts: nat, s: Sys, stale: seq<byte>, readAhead: nat)
    requires LineAgrees(s, stale) && Enabled(s, SomFlush(readAhead))
    ensures LineAgrees(ApplySom(brain, attempts, s, SomFlush(readAhead)), stale)
    ensures |Rest(stale)| <= MatchEnd(stale) ==> ApplySom(brain, attempts, s, SomFlush(readAhead)).line.buffer == []
  {
    FlushFacts(s, stale, readAhead);
    var line := Flushed(s.line, readAhead);
    FlushedKeeps(s, stale, line, |Pending(s.line)| - |Pending(line)|);
  }

  lemma FlushedKeeps(s: Sys, stale: seq<byte>, line: Line, dropped: nat)
    requires LineAgrees(s, stale) && s.som == SomFlushing
    requires MatchEnd(stale) <= dropped <= |Prelude(s.mcu, stale)|
    requires Pending(line) + s.toSom == Junk(s.mcu, stale, dropped)
    ensures LineAgrees(s.(som := SomSendHandshake, line := line, skipped := dropped), stale)
  {
  }

  lemma SomWriteHandshakeKeeps(brain: Brain, attempts: nat, s: Sys, stale: seq<byte>)
    requires LineAgrees(s, stale) && Enabled(s, SomWriteHandshake) && Skippable(stale, attempts)
    ensures LineAgrees(ApplySom(brain, attempts, s, SomWriteHandshake), stale)
  {
    MatchEndFound(stale);
    AnswerWireEnd(s.answers, 0);
    assert TowardMcu(ApplySom(brain, attempts, s, SomWriteHandshake)) == TowardMcu(s) + [1] == [1];
    assert Junk(s.mcu, stale, s.skipped) + [] == Junk(s.mcu, stale, s.skipped);
  }

  lemma HeadAndTail(s: seq<byte>, i: nat)
    requires i < |s|
    ensures s[i..] == [s[i]] + s[i + 1..]
  {
  }

  lemma NoHandshakeByte(mcu: McuStage, stale: seq<byte>, i: nat)
    requires 1 !in Rest(stale) && MatchEnd(stale) <= i < |Prelude(mcu, stale)|
    ensures Prelude(mcu, stale)[i] != 1
  {
    MatchEndFound(stale);
    assert Rest(stale)[i - MatchEnd(stale)] == (stale + FLUSH)[i] == Prelude(mcu, stale)[i];
  }

  /** A byte of the junk is not the handshake byte, and leaves the junk behind it. */
  lemma JunkFront(mcu: McuStage, stale: seq<byte>, skipped: nat)
    requires 1 !in Rest(stale) && MatchEnd(stale) <= skipped < |Prelude(mcu, stale)|
    ensures var b := Prelude(mcu, stale)[skipped];
      b != 1 && Junk(mcu, stale, skipped) == [b] + Junk(mcu, stale, skipped + 1)
  {
    NoHandshakeByte(mcu, stale, skipped);
    HeadAndTail(Prelude(mcu, stale), skipped);
  }

  lemma ReadJunk(s: Sys, stale: seq<byte>)
    requires LineAgrees(s, stale) && Enabled(s, SomReadEcho) && 1 !in Rest(stale) && s.skipped < |Prelude(s.mcu, stale)|
    ensures var r := ReadExactly(s.line, HANDSHAKE_SIZE, []);
      && r.bytes.value[0] != 1 && |r.line.buffer| == |s.line.buffer|
      && Pending(r.line) + s.toSom == Junk(s.mcu, stale, s.skipped + 1) + EchoAndPackets(s.mcu, s.written)
  {
    JunkFront(s.mcu, stale, s.skipped);
    var b, echo := Prelude(s.mcu, stale)[s.skipped], EchoAndPackets(s.mcu, s.written);
    Associative([b], Junk(s.mcu, stale, s.skipped + 1), echo);
    ReadFront(s.line, s.toSom, [b], Junk(s.mcu, stale, s.skipped + 1) + echo);
  }

  lemma ReadEcho(s: Sys, stale: seq<byte>)
    requires LineAgrees(s, stale) && Enabled(s, SomReadEcho) && s.skipped == |Prelude(s.mcu, stale)|
    ensures var r := ReadExactly(s.line, HANDSHAKE_SIZE, []);
      && r.bytes.value[0] == 1 && |r.line.buffer| == |s.line.buffer|
      && Pending(r.line) + s.toSom == Wire(s.written, 0) && McuInMain(s.mcu)
  {
    assert Junk(s.mcu, stale, s.skipped) == [];
    var echo := EchoAndPackets(s.mcu, s.written);
    assert [] + echo == echo;
    assert |TowardSom(s)| > 0;
    ReadFront(s.line, s.toSom, [1], Wire(s.written, 0));
  }

  lemma JunkReadKeeps(s: Sys, stale: seq<byte>, line: Line)
    requires LineAgrees(s, stale) && s.som.SomAwaitEcho? && s.skipped < |Prelude(s.mcu, stale)|
    requires Pending(line) + s.toSom == Junk(s.mcu, stale, s.skipped + 1) + EchoAndPackets(s.mcu, s.written)
    ensures s.som.attempts > 1
    ensures LineAgrees(s.(som := SomAwaitEcho(s.som.attempts - 1), line := line, skipped := s.skipped + 1), stale)
  {
  }

  lemma EchoReadKeeps(s: Sys, stale: seq<byte>, line: Line)
    requires LineAgrees(s, stale) && s.som.SomAwaitEcho? && s.skipped == |Prelude(s.mcu, stale)| && McuInMain(s.mcu)
    requires Pending(line) + s.toSom == Wire(s.written, 0)
    ensures LineAgrees(s.(som := SomReadRc, line := line, skipped := s.skipped + 1), stale)
  {
  }

  lemma OtherByteStep(brain: Brain, attempts: nat, s: Sys, line: Line)
    requires Enabled(s, SomReadEcho) && s.som.attempts > 1
    requires var r := ReadExactly(s.line, HANDSHAKE_SIZE, []); r.bytes.value[0] != 1 && r.line == line
    ensures ApplySom(brain, attempts, s, SomReadEcho)
         == s.(som := SomAwaitEcho(s.som.attempts - 1), line := line, skipped := s.skipped + 1)
  {
  }

  lemma SomSkipJunkKeeps(brain: Brain, attempts: nat, s: Sys, stale: seq<byte>)
    requires LineAgrees(s, stale) && Enabled(s, SomReadEcho) && 1 !in Rest(stale) && s.skipped < |Prelude(s.mcu, stale)|
    ensures LineAgrees(ApplySom(brain, attempts, s, SomReadEcho), stale)
  {
    var line := ReadExactly(s.line, HANDSHAKE_SIZE, []).line;
    ReadJunk(s, stale);
    JunkReadKeeps(s, stale, line);
    OtherByteStep(brain, attempts, s, line);
  }

  lemma SomFindEchoKeeps(brain: Brain, attempts: nat, s: Sys, stale: seq<byte>)
    requires LineAgrees(s, stale) && Enabled(s, SomReadEcho) && s.skipped == |Prelude(s.mcu, stale)|
    ensures LineAgrees(ApplySom(brain, attempts, s, SomReadEcho), stale)
  {
    ReadEcho(s, stale);
    EchoReadKeeps(s, stale, ReadExactly(s.line, HANDSHAKE_SIZE, []).line);
  }

  lemma SomReadEchoKeeps(brain: Brain, attempts: nat, s: Sys, stale: seq<byte>)
    requires LineAgrees(s, stale) && Enabled(s, SomReadEcho) && 1 !in Rest(stale)
    ensures LineAgrees(ApplySom(brain, attempts, s, SomReadEcho), stale)
  {
    if s.skipped < |Prelude(s.mcu, stale)| {
      SomSkipJunkKeeps(brain, attempts, s, stale);
    } else {
      SomFindEchoKeeps(brain, attempts, s, stale);
    }
  }

  lemma NextKind(s: Sys)
    requires Stages(s) && ReadsAreWrites(s) && |s.taken| < |s.written| && (s.som == SomReadRc || s.som == SomReadImu)
    ensures s.written[|s.taken|].RcItem? <==> s.som == SomReadRc
  {
    assert |s.taken| % 2 == 0 <==> s.som == SomReadRc;
  }

  /** What waits for the SoM when it is behind starts with the next packet the MCU wrote, of the kind it reads next. */
  lemma NextItem(s: Sys, stale: seq<byte>)
    requires LineAgrees(s, stale) && |s.taken| < |s.written| && (s.som == SomReadRc || s.som == SomReadImu)
    ensures var m := |s.taken|;
      && (s.written[m].RcItem? <==> s.som == SomReadRc)
      && Pending(s.line) + s.toSom == EncodeItem(s.written[m]) + Wire(s.written, m + 1)
      && s.taken + [s.written[m]] <= s.written
  {
    var m := |s.taken|;
    NextKind(s);
    WireNext(s.written, m);
    PrefixGrows(s.taken, s.written);
  }

  /** Bytes only arrive while the SoM is behind. */
  lemma ArrivedMeansBehind(s: Sys, stale: seq<byte>)
    requires LineAgrees(s, stale) && s.line.arrived != [] && (s.som == SomReadRc || s.som == SomReadImu)
    ensures |s.taken| < |s.written|
  {
    assert |TowardSom(s)| > 0;
    if |s.taken| == |s.written| { WireEnd(s.written, |s.taken|); }
  }

  /** Once the SoM has read the next packet, whatever it is, the line is in agreement again. */
  lemma TakeKeeps(s: Sys, stale: seq<byte>, line: Line, after: SomStage)
    requires LineAgrees(s, stale) && |s.taken| < |s.written|
    requires (s.som == SomReadRc && after == SomReadImu) || (s.som == SomReadImu && after.SomAnswer?)
    requires s.taken + [s.written[|s.taken|]] <= s.written
    requires Pending(line) + s.toSom == Wire(s.written, |s.taken| + 1)
    ensures LineAgrees(s.(som := after, line := line, taken := s.taken + [s.written[|s.taken|]]), stale)
  {
  }

  lemma SomTakeRcKeeps(brain: Brain, attempts: nat, s: Sys, stale: seq<byte>)
    requires LineAgrees(s, stale) && Enabled(s, SomTakeRc)
    ensures LineAgrees(ApplySom(brain, attempts, s, SomTakeRc), stale)
  {
    var m := |s.taken|;
    ArrivedMeansBehind(s, stale);
    NextItem(s, stale);
    ReadRcFront(s.line, s.toSom, s.written[m].rc, Wire(s.written, m + 1));
    TakeKeeps(s, stale, ReadExactly(s.line, RC_SIZE, []).line, SomReadImu);
  }

  lemma SomTakeImuKeeps(brain: Brain, attempts: nat, s: Sys, stale: seq<byte>)
    requires LineAgrees(s, stale) && Enabled(s, SomTakeImu)
    ensures LineAgrees(ApplySom(brain, attempts, s, SomTakeImu), stale)
  {
    var m := |s.taken|;
    ArrivedMeansBehind(s, stale);
    NextItem(s, stale);
    ReadImuFront(s.line, s.toSom, s.written[m].imu, Wire(s.written, m + 1));
    TakeKeeps(s, stale, ReadExactly(s.line, IMU_SIZE, []).line, ApplySom(brain, attempts, s, SomTakeImu).som);
  }

  lemma SomWriteAnswerKeeps(brain: Brain, attempts: nat, s: Sys, stale: seq<byte>)
    requires LineAgrees(s, stale) && Enabled(s, SomWriteAnswer)
    ensures LineAgrees(ApplySom(brain, attempts, s, SomWriteAnswer), stale)
  {
    var s' := ApplySom(brain, attempts, s, SomWriteAnswer);
    assert TowardMcu(s') == TowardMcu(s) + EncodeCs(s.som.packet);
    AnswerWireAppend(s.answers, |s.obtained|, s.som.packet);
  }

  // ----- Whose pairs the answers answer -----

  /** The k-th answer is computed from the first k + 1 pairs. */
  ghost predicate Answered(brain: Brain, taken: seq<Item>, answers: seq<ControlSurfacePacket>) {
    && 2 * |answers| <= |taken|
    && forall k :: 0 <= k < |answers| ==> answers[k] == brain(Pairs(taken[..2 * k + 2]))
  }

  lemma AnsweredGrows(brain: Brain, taken: seq<Item>, all: seq<Item>, answers: seq<ControlSurfacePacket>)
    requires Answered(brain, taken, answers) && taken <= all
    ensures Answered(brain, all, answers)
  {
    forall k | 0 <= k < |answers|
      ensures answers[k] == brain(Pairs(all[..2 * k + 2]))
    {
      assert all[..2 * k + 2] == taken[..2 * k + 2];
    }
  }

  lemma AnsweredNext(brain: Brain, taken: seq<Item>, answers: seq<ControlSurfacePacket>)
    requires Answered(brain, taken, answers) && |taken| == 2 * |answers| + 2
    ensures Answered(brain, taken, answers + [brain(Pairs(taken))])
  {
    assert taken[..2 * |answers| + 2] == taken;
  }

  ghost predicate History(brain: Brain, s: Sys) {
    Answered(brain, s.taken, s.answers) && (s.som.SomAnswer? ==> s.som.packet == brain(Pairs(s.taken)))
  }

  ghost predicate Invariant(brain: Brain, s: Sys, stale: seq<byte>) {
    LineAgrees(s, stale) && History(brain, s)
  }

  lemma HistoryKept(brain: Brain, attempts: nat, s: Sys, step: Step)
    requires Stages(s) && History(brain, s) && Enabled(s, step)
    ensures History(brain, Apply(brain, attempts, s, step))
  {
    var s' := Apply(brain, attempts, s, step);
    if step.SomTakeRc? || step.SomTakeImu? {
      AnsweredGrows(brain, s.taken, s'.taken, s.answers);
    } else if step.SomWriteAnswer? {
      AnsweredNext(brain, s.taken, s.answers);
    }
  }

  lemma LineKept(brain: Brain, attempts: nat, s: Sys, stale: seq<byte>, step: Step)
    requires LineAgrees(s, stale) && Enabled(s, step)
    requires Skippable(stale, attempts)
    ensures LineAgrees(Apply(brain, attempts, s, step), stale)
  {
    match step
    case DeliverToSom(n) => DeliverToSomKeeps(s, stale, n);
    case DeliverToMcu(n) => DeliverToMcuKeeps(s, stale, n);
    case McuFlush => McuFlushKeeps(s, stale);
    case McuReadHandshake => McuReadHandshakeKeeps(s, stale);
    case McuSendEcho => McuSendEchoKeeps(s, stale);
    case McuSendRc(rc) => McuSendRcKeeps(s, stale, rc);
    case McuSendImu(imu) => McuSendImuKeeps(s, stale, imu);
    case McuReadAnswer => McuReadAnswerKeeps(s, stale);
    case McuTimeout => McuTimeoutKeeps(s, stale);
    case SomFlush(readAhead) => SomFlushKeeps(brain, attempts, s, stale, readAhead);
    case SomWriteHandshake => SomWriteHandshakeKeeps(brain, attempts, s, stale);
    case SomReadEcho => SomReadEchoKeeps(brain, attempts, s, stale);
    case SomTakeRc => SomTakeRcKeeps(brain, attempts, s, stale);
    case SomTakeImu => SomTakeImuKeeps(brain, attempts, s, stale);
    case SomWriteAnswer => SomWriteAnswerKeeps(brain, attempts, s, stale);
  }

  lemma StartAgrees(brain: Brain, stale: seq<byte>)
    ensures Invariant(brain, Start(stale), stale)
  {
    AnswerWireEnd([], 0);
    assert TowardSom(Start(stale)) == stale;
  }

  lemma {:induction false} InvariantHolds(brain: Brain, attempts: nat, stale: seq<byte>, steps: seq<Step>)
    requires Skippable(stale, attempts) && Run(brain, attempts, stale, steps).Reached?
    ensures Invariant(brain, Run(brain, attempts, stale, steps).sys, stale)
  {
    if steps == [] {
      StartAgrees(brain, stale);
    } else {
      var n := |steps| - 1;
      InvariantHolds(brain, attempts, stale, steps[..n]);
      var s := Run(brain, attempts, stale, steps[..n]).sys;
      LineKept(brain, attempts, s, stale, steps[n]);
      HistoryKept(brain, attempts, s, steps[n]);
    }
  }
}
