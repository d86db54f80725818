/**
 * The MCU of the protocol is the board's program: in every run of the protocol, whatever the stale bytes
 * and whatever the SoM does, it is setup once and then loop again and again, on the bytes that arrived
 * during each read.
 */
module McuRefinement {
  import opened Common
  import opened Packet
  import opened SerialController
  import opened WireFormat
  import opened SerialProtocol
  import opened Mcu
  import F = Framing

  /** One call of loop: the packets it sent and what arrived before its read was over. */
  datatype Cycle = Cycle(rc: RcRxPacket, imu: ImuPacket, arriving: seq<byte>)

  /**
   * A run seen from the board: the bytes it put on the line, what arrived before the handshake was read,
   * the calls of loop completed, the packets of the current one, and what has arrived since the last read.
   */
  datatype Recording = Recording(
    sent: seq<byte>, setupArriving: seq<byte>, cycles: seq<Cycle>, rc: RcRxPacket, imu: ImuPacket, now: seq<byte>)

  const RECORDING_INIT := Recording([], [], [], DEFAULT_RC, DEFAULT_IMU, [])

  /** What a step put behind the bytes in flight. */
  function Appended(before: seq<byte>, after: seq<byte>): seq<byte> {
    after[Min(|before|, |after|)..]
  }

  function CycleRecorded(r: Recording): Recording {
    r.(cycles := r.cycles + [Cycle(r.rc, r.imu, r.now)], now := [])
  }

  /** The recording after a step from s to t. */
  function Record(r: Recording, s: Sys, step: Step, t: Sys): Recording
    requires Enabled(s, step)
  {
    match step
    case DeliverToMcu(n) => r.(now := r.now + s.toMcu[..n])
    case McuFlush => r.(sent := r.sent + Appended(s.toSom, t.toSom))
    case McuReadHandshake => r.(setupArriving := r.now, now := [])
    case McuSendEcho => r.(sent := r.sent + Appended(s.toSom, t.toSom))
    case McuSendRc(rc) => r.(sent := r.sent + Appended(s.toSom, t.toSom), rc := rc)
    case McuSendImu(imu) => r.(sent := r.sent + Appended(s.toSom, t.toSom), imu := imu)
    case McuReadAnswer => CycleRecorded(r)
    case McuTimeout => CycleRecorded(r)
    case _ => r
  }

  function Recorded(brain: Brain, attempts: nat, stale: seq<byte>, steps: seq<Step>): Recording
    requires Run(brain, attempts, stale, steps).Reached?
  {
    if steps == [] then RECORDING_INIT
    else
      var before := steps[..|steps| - 1];
      Record(Recorded(brain, attempts, stale, before), Run(brain, attempts, stale, before).sys,
             steps[|steps| - 1], Run(brain, attempts, stale, steps).sys)
  }

  function AfterCycles(b: BoardState, cycles: seq<Cycle>): (r: BoardState)
    requires ValidBoard(b)
    ensures ValidBoard(r)
  {
    if cycles == [] then b
    else
      var last := cycles[|cycles| - 1];
      AfterLoop(AfterCycles(b, cycles[..|cycles| - 1]), last.rc, last.imu, last.arriving)
  }

  /** The board after setup and the calls of loop of a recording. */
  function BoardOf(r: Recording): (b: BoardState)
    ensures ValidBoard(b)
  {
    AfterCycles(AfterSetup(BOARD_INIT, r.setupArriving), r.cycles)
  }

  lemma NextCycle(r: Recording)
    ensures BoardOf(CycleRecorded(r)) == AfterLoop(BoardOf(r), r.rc, r.imu, r.now)
  {
    assert CycleRecorded(r).cycles[..|r.cycles|] == r.cycles;
  }

  /** The surfaces in the board's memory are the last answer obtained, or the initial zeros. */
  predicate SurfacesAre(surfaces: seq<byte>, obtained: seq<ControlSurfacePacket>) {
    surfaces == if obtained == [] then [0, 0, 0, 0] else EncodeCs(obtained[|obtained| - 1])
  }

  /** The board was left here by its last completed call, and has sent `more` since. */
  predicate BoardAt(b: BoardState, r: Recording, more: seq<byte>, arrived: seq<byte>, obtained: seq<ControlSurfacePacket>) {
    r.sent == b.sent + more && arrived == b.arrived + r.now && SurfacesAre(b.surfaces, obtained)
  }

  predicate BoardMirrored(r: Recording, mcu: McuStage, arrived: seq<byte>, obtained: seq<ControlSurfacePacket>, timeouts: nat) {
    && |r.cycles| == |obtained| + timeouts
    && (match mcu
        case McuStart => BoardAt(BOARD_INIT, r, [], arrived, obtained) && obtained == [] && timeouts == 0
        case McuAwaitHandshake => BoardAt(BOARD_INIT, r, FLUSH, arrived, obtained) && obtained == [] && timeouts == 0
        case McuEcho(handshake) =>
          var b := AfterSetup(BOARD_INIT, r.setupArriving);
          && handshake == b.handshake && r.sent == FLUSH && arrived == b.arrived + r.now
          && obtained == [] && timeouts == 0
        case McuWriteRc => BoardAt(BoardOf(r), r, [], arrived, obtained)
        case McuWriteImu => BoardAt(BoardOf(r), r, EncodeRc(r.rc), arrived, obtained)
        case McuAwaitAnswer => BoardAt(BoardOf(r), r, EncodeRc(r.rc) + EncodeImu(r.imu), arrived, obtained))
  }

  predicate Mirrored(s: Sys, r: Recording) {
    BoardMirrored(r, s.mcu, s.mcuArrived, s.obtained, s.timeouts)
  }

  // ----- Every step keeps the mirror -----

  lemma AppendedBehind(before: seq<byte>, more: seq<byte>)
    ensures Appended(before, before + more) == more
  {
  }

  lemma ArrivalMirrored(r: Recording, mcu: McuStage, arrived: seq<byte>, obtained: seq<ControlSurfacePacket>,
                        timeouts: nat, bytes: seq<byte>)
    requires BoardMirrored(r, mcu, arrived, obtained, timeouts)
    ensures BoardMirrored(r.(now := r.now + bytes), mcu, arrived + bytes, obtained, timeouts)
  {
    Associative(BOARD_INIT.arrived, r.now, bytes);
    Associative(AfterSetup(BOARD_INIT, r.setupArriving).arrived, r.now, bytes);
    Associative(BoardOf(r).arrived, r.now, bytes);
  }

  lemma FlushMirrored(s: Sys, r: Recording)
    requires Mirrored(s, r) && Enabled(s, McuFlush)
    ensures Mirrored(ApplyMcu(s, McuFlush), Record(r, s, McuFlush, ApplyMcu(s, McuFlush)))
  {
    AppendedBehind(s.toSom, FLUSH);
    assert [] + [] + FLUSH == [] + FLUSH;
  }

  lemma ReadHandshakeMirrored(s: Sys, r: Recording)
    requires Mirrored(s, r) && Enabled(s, McuReadHandshake)
    ensures Mirrored(ApplyMcu(s, McuReadHandshake), Record(r, s, McuReadHandshake, ApplyMcu(s, McuReadHandshake)))
  {
    assert [] + r.now == r.now && [] + FLUSH == FLUSH;
    assert s.mcuArrived[1..] + [] == s.mcuArrived[1..];
  }

  lemma EchoMirrored(s: Sys, r: Recording)
    requires Mirrored(s, r) && Enabled(s, McuSendEcho)
    ensures Mirrored(ApplyMcu(s, McuSendEcho), Record(r, s, McuSendEcho, ApplyMcu(s, McuSendEcho)))
  {
    AppendedBehind(s.toSom, [s.mcu.handshake]);
    assert [] + FLUSH == FLUSH;
    assert FLUSH + [s.mcu.handshake] + [] == FLUSH + [s.mcu.handshake];
  }

  lemma SendMirrored(b: BoardState, r: Recording, more: seq<byte>, bytes: seq<byte>, arrived: seq<byte>,
                     obtained: seq<ControlSurfacePacket>)
    requires BoardAt(b, r, more, arrived, obtained)
    ensures BoardAt(b, r.(sent := r.sent + bytes), more + bytes, arrived, obtained)
  {
    Associative(b.sent, more, bytes);
  }

  lemma SendRcMirrored(s: Sys, r: Recording, rc: RcRxPacket)
    requires Mirrored(s, r) && Enabled(s, McuSendRc(rc))
    ensures Mirrored(ApplyMcu(s, McuSendRc(rc)), Record(r, s, McuSendRc(rc), ApplyMcu(s, McuSendRc(rc))))
  {
    AppendedBehind(s.toSom, EncodeRc(rc));
    SendMirrored(BoardOf(r), r, [], EncodeRc(rc), s.mcuArrived, s.obtained);
    assert [] + EncodeRc(rc) == EncodeRc(rc);
  }

  lemma SendImuMirrored(s: Sys, r: Recording, imu: ImuPacket)
    requires Mirrored(s, r) && Enabled(s, McuSendImu(imu))
    ensures Mirrored(ApplyMcu(s, McuSendImu(imu)), Record(r, s, McuSendImu(imu), ApplyMcu(s, McuSendImu(imu))))
  {
    AppendedBehind(s.toSom, EncodeImu(imu));
    SendMirrored(BoardOf(r), r, EncodeRc(r.rc), EncodeImu(imu), s.mcuArrived, s.obtained);
  }

  /** The board's read got an answer, or nothing at all. */
  lemma CycleEnds(b: BoardState, rc: RcRxPacket, imu: ImuPacket, now: seq<byte>, arrived: seq<byte>)
    requires ValidBoard(b) && arrived == b.arrived + now && (arrived == [] || |arrived| >= CS_SIZE)
    ensures var next := AfterLoop(b, rc, imu, now);
      && next.sent == b.sent + EncodeRc(rc) + EncodeImu(imu)
      && next.arrived == (if arrived == [] then [] else arrived[CS_SIZE..])
      && next.surfaces == (if arrived == [] then b.surfaces else arrived[..CS_SIZE])
  {
    if arrived == [] {
      assert ReadUpTo(arrived, CS_SIZE) == [] && [] + b.surfaces[0..] == b.surfaces;
    } else {
      assert arrived[..CS_SIZE] + b.surfaces[CS_SIZE..] == arrived[..CS_SIZE];
    }
  }

  lemma ReadAnswerMirrored(s: Sys, r: Recording)
    requires Mirrored(s, r) && Enabled(s, McuReadAnswer)
    ensures Mirrored(ApplyMcu(s, McuReadAnswer), CycleRecorded(r))
  {
    CycleEnds(BoardOf(r), r.rc, r.imu, r.now, s.mcuArrived);
    NextCycle(r);
    CycleSent(r, BoardOf(r));
    CsRoundTrip(DecodeCs(s.mcuArrived[..CS_SIZE]), s.mcuArrived[..CS_SIZE]);
    assert s.mcuArrived[CS_SIZE..] + [] == s.mcuArrived[CS_SIZE..];
  }

  lemma TimeoutMirrored(s: Sys, r: Recording)
    requires Mirrored(s, r) && Enabled(s, McuTimeout)
    ensures Mirrored(ApplyMcu(s, McuTimeout), CycleRecorded(r))
  {
    CycleEnds(BoardOf(r), r.rc, r.imu, r.now, s.mcuArrived);
    NextCycle(r);
    CycleSent(r, BoardOf(r));
  }

  lemma CycleSent(r: Recording, b: BoardState)
    requires r.sent == b.sent + (EncodeRc(r.rc) + EncodeImu(r.imu))
    ensures r.sent == b.sent + EncodeRc(r.rc) + EncodeImu(r.imu) + []
  {
    Associative(b.sent, EncodeRc(r.rc), EncodeImu(r.imu));
  }

  lemma McuStepMirrored(s: Sys, step: Step, r: Recording)
    requires Mirrored(s, r) && Enabled(s, step) && IsMcuStep(step)
    ensures Mirrored(ApplyMcu(s, step), Record(r, s, step, ApplyMcu(s, step)))
  {
    match step
    case McuFlush => FlushMirrored(s, r);
    case McuReadHandshake => ReadHandshakeMirrored(s, r);
    case McuSendEcho => EchoMirrored(s, r);
    case McuSendRc(rc) => SendRcMirrored(s, r, rc);
    case McuSendImu(imu) => SendImuMirrored(s, r, imu);
    case McuReadAnswer => ReadAnswerMirrored(s, r);
    case McuTimeout => TimeoutMirrored(s, r);
  }

  lemma StepMirrored(brain: Brain, attempts: nat, s: Sys, step: Step, r: Recording)
    requires Mirrored(s, r) && Enabled(s, step)
    ensures Mirrored(Apply(brain, attempts, s, step), Record(r, s, step, Apply(brain, attempts, s, step)))
  {
    if IsMcuStep(step) {
      McuStepMirrored(s, step, r);
    } else if step.DeliverToMcu? {
      ArrivalMirrored(r, s.mcu, s.mcuArrived, s.obtained, s.timeouts, s.toMcu[..step.n]);
    }
  }

  lemma {:induction false} RunMirrored(brain: Brain, attempts: nat, stale: seq<byte>, steps: seq<Step>)
    requires Run(brain, attempts, stale, steps).Reached?
    ensures Mirrored(Run(brain, attempts, stale, steps).sys, Recorded(brain, attempts, stale, steps))
  {
    if steps == [] {
      assert Mirrored(Start(stale), RECORDING_INIT);
    } else {
      var n := |steps| - 1;
      RunMirrored(brain, attempts, stale, steps[..n]);
      StepMirrored(brain, attempts, Run(brain, attempts, stale, steps[..n]).sys, steps[n],
                   Recorded(brain, attempts, stale, steps[..n]));
    }
  }

  /**
   * The protocol refines the board's program: between two calls of loop, in every run from any stale
   * bytes, the board after setup and as many calls of loop as the MCU obtained answers or gave up on has
   * sent exactly the bytes that the MCU put on the line, has the same bytes unread, and holds the last
   * answer obtained, or the initial zeros, as its surfaces.
   */
  lemma {:induction false} ProtocolRunsBoard(brain: Brain, attempts: nat, stale: seq<byte>, steps: seq<Step>, s: Sys)
    requires Run(brain, attempts, stale, steps) == Reached(s) && s.mcu == McuWriteRc
    ensures var r := Recorded(brain, attempts, stale, steps);
      var b := AfterCycles(AfterSetup(BOARD_INIT, r.setupArriving), r.cycles);
      && |r.cycles| == |s.obtained| + s.timeouts
      && b.sent == r.sent && s.mcuArrived == b.arrived + r.now
      && DecodeCs(b.surfaces) == if s.obtained == [] then ControlSurfacePacket(0, 0, 0, 0) else s.obtained[|s.obtained| - 1]
  {
    RunMirrored(brain, attempts, stale, steps);
    var r := Recorded(brain, attempts, stale, steps);
    assert BoardOf(r).sent + [] == BoardOf(r).sent;
    if s.obtained != [] {
      var last := s.obtained[|s.obtained| - 1];
      CsRoundTrip(last, EncodeCs(last));
    }
  }

  // ----- The board on its own, under any pattern of timeouts -----

  function Arrivals(cycles: seq<Cycle>): seq<seq<byte>> {
    seq(|cycles|, i requires 0 <= i < |cycles| => cycles[i].arriving)
  }

  /** The k-th byte of the latest read that got more than k. */
  function LatestByte(initial: byte, arrived: seq<byte>, calls: seq<seq<byte>>, k: nat): byte {
    if calls == [] then initial
    else
      var n := |calls| - 1;
      var received := F.Received(arrived, calls, n);
      if k < |received| then received[k] else LatestByte(initial, arrived, calls[..n], k)
  }

  function PacketBytes(cycles: seq<Cycle>): seq<byte> {
    if cycles == [] then []
    else
      var last := cycles[|cycles| - 1];
      PacketBytes(cycles[..|cycles| - 1]) + (EncodeRc(last.rc) + EncodeImu(last.imu))
  }

  /** What calls of loop during which these bytes arrived have made of the board. */
  predicate HasRead(b: BoardState, after: BoardState, calls: seq<seq<byte>>, sent: seq<byte>)
    requires ValidBoard(b) && ValidBoard(after)
  {
    && after.arrived == F.Unread(b.arrived, calls)
    && (forall k :: 0 <= k < 4 ==> after.surfaces[k] == LatestByte(b.surfaces[k], b.arrived, calls, k))
    && after.sent == b.sent + sent && after.handshake == b.handshake
  }

  lemma {:induction false} OneMoreLoop(b: BoardState, before: BoardState, cycle: Cycle, calls: seq<seq<byte>>, sent: seq<byte>)
    requires ValidBoard(b) && ValidBoard(before) && HasRead(b, before, calls, sent)
    ensures HasRead(b, AfterLoop(before, cycle.rc, cycle.imu, cycle.arriving), calls + [cycle.arriving],
                    sent + (EncodeRc(cycle.rc) + EncodeImu(cycle.imu)))
  {
    var more, rc, imu := calls + [cycle.arriving], EncodeRc(cycle.rc), EncodeImu(cycle.imu);
    assert more[..|calls|] == calls;
    assert b.sent + sent + rc + imu == b.sent + (sent + (rc + imu));
    var received := F.Received(b.arrived, more, |calls|);
    var after := AfterLoop(before, cycle.rc, cycle.imu, cycle.arriving);
    assert forall k :: 0 <= k < 4 ==> after.surfaces[k] == if k < |received| then received[k] else before.surfaces[k];
  }

  /**
   * Any number of calls of loop, whatever arrives in each: every call reads the bytes that follow those of the
   * calls before it, the k-th byte of the surfaces is that of the latest call that read more than k, and the
   * packets are sent one behind the other.
   */
  lemma {:induction false} LoopsReadStream(b: BoardState, cycles: seq<Cycle>)
    requires ValidBoard(b)
    ensures HasRead(b, AfterCycles(b, cycles), Arrivals(cycles), PacketBytes(cycles))
  {
    if cycles == [] {
      assert b.sent + [] == b.sent;
    } else {
      var n := |cycles| - 1;
      LoopsReadStream(b, cycles[..n]);
      assert Arrivals(cycles) == Arrivals(cycles[..n]) + [cycles[n].arriving];
      OneMoreLoop(b, AfterCycles(b, cycles[..n]), cycles[n], Arrivals(cycles[..n]), PacketBytes(cycles[..n]));
    }
  }
}
