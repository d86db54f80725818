/**
 * The bounds on what waits are attained: for every number of timeouts there is a run in which as many
 * frames and one more wait for the SoM, and one in which as many answers and one more wait for the MCU.
 */
module ProtocolBacklog {
  import opened Common
  import opened Packet
  import opened SerialController
  import opened WireFormat
  import opened SerialProtocol
  import opened ProtocolTheorems
  import opened ProtocolLimits

  /** The MCU has sent pair after pair, and the SoM, in its main cycle, has not read any. */
  predicate Piling(s: Sys, timeouts: nat) {
    && s.som == SomReadRc && s.taken == [] && s.line.buffer == []
    && s.mcu == McuAwaitAnswer && s.timeouts == timeouts
  }

  /** Nothing has been answered yet. */
  lemma UnansweredMeans(s: Sys)
    requires Stages(s) && ToMcuAgrees(s) && s.som == SomReadRc && s.taken == []
    ensures s.answers == [] && s.obtained == [] && s.mcuArrived == [] && s.toMcu == []
  {
    assert |TowardMcu(s)| == 0;
  }

  lemma {:induction false} FirstPairSent(brain: Brain, attempts: nat, stale: seq<byte>, rc: RcRxPacket, imu: ImuPacket)
    returns (steps: seq<Step>, s: Sys)
    requires Skippable(stale, attempts)
    ensures Run(brain, attempts, stale, steps) == Reached(s) && Piling(s, 0)
  {
    var rest, echo := Rest(stale), [1] + EncodeRc(rc);
    steps, s := EchoBehindRest(brain, attempts, stale, rc);
    assert (rest + echo)[..|rest|] == rest && (rest + echo)[|rest|..] == echo;
    steps, s := AttemptsUsed(brain, attempts, stale, steps, s, rest + echo, attempts, |rest|);
    OneReadAsEcho(brain, attempts, s, echo, attempts - |rest|);
    RunAppend(brain, attempts, stale, steps, s, SomReadEcho);
    steps, s := steps + [SomReadEcho], ApplySom(brain, attempts, s, SomReadEcho);
    InvariantHolds(brain, attempts, stale, steps);
    UnansweredMeans(s);
    RunAppend(brain, attempts, stale, steps, s, McuSendImu(imu));
    steps, s := steps + [McuSendImu(imu)], ApplyMcu(s, McuSendImu(imu));
  }

  lemma {:induction false} PairPiled(brain: Brain, attempts: nat, stale: seq<byte>, steps: seq<Step>, s: Sys,
                                     rc: RcRxPacket, imu: ImuPacket)
    returns (more: seq<Step>, t: Sys)
    requires Skippable(stale, attempts) && Run(brain, attempts, stale, steps) == Reached(s) && Piling(s, s.timeouts)
    ensures Run(brain, attempts, stale, more) == Reached(t) && Piling(t, s.timeouts + 1)
  {
    InvariantHolds(brain, attempts, stale, steps);
    UnansweredMeans(s);
    RunAppend(brain, attempts, stale, steps, s, McuTimeout);
    more, t := steps + [McuTimeout], ApplyMcu(s, McuTimeout);
    RunAppend(brain, attempts, stale, more, t, McuSendRc(rc));
    more, t := more + [McuSendRc(rc)], ApplyMcu(t, McuSendRc(rc));
    RunAppend(brain, attempts, stale, more, t, McuSendImu(imu));
    more, t := more + [McuSendImu(imu)], ApplyMcu(t, McuSendImu(imu));
  }

  lemma {:induction false} PairsPile(brain: Brain, attempts: nat, stale: seq<byte>, rc: RcRxPacket, imu: ImuPacket,
                                     timeouts: nat)
    returns (steps: seq<Step>, s: Sys)
    requires Skippable(stale, attempts)
    ensures Run(brain, attempts, stale, steps) == Reached(s) && Piling(s, timeouts)
  {
    if timeouts == 0 {
      steps, s := FirstPairSent(brain, attempts, stale, rc, imu);
    } else {
      steps, s := PairsPile(brain, attempts, stale, rc, imu, timeouts - 1);
      steps, s := PairPiled(brain, attempts, stale, steps, s, rc, imu);
    }
  }

  lemma PiledBytes(s: Sys, stale: seq<byte>)
    requires LineAgrees(s, stale) && Piling(s, s.timeouts)
    ensures |TowardSom(s)| == FRAME_SIZE * (s.timeouts + 1)
    ensures |s.written| == 2 * (s.timeouts + 1) && s.obtained == [] && s.answers == []
  {
    UnansweredMeans(s);
    WireLength(s.written, 0);
  }

  // ----- The SoM works them off, and nothing is delivered to the MCU -----

  /** Everything written has reached the SoM, which has answered k pairs; none of its answers has arrived. */
  predicate WorkedOff(s: Sys, timeouts: nat, k: nat) {
    && s.som == SomReadRc && s.line.buffer == [] && s.toSom == []
    && s.mcu == McuAwaitAnswer && s.timeouts == timeouts && s.obtained == []
    && |s.answers| == k && |s.taken| == 2 * k && |s.written| == 2 * (timeouts + 1)
  }

  /** The next packet has arrived. */
  lemma ItemArrived(s: Sys, stale: seq<byte>)
    requires LineAgrees(s, stale) && s.line.buffer == [] && s.toSom == [] && |s.taken| < |s.written|
    requires s.som == SomReadRc || s.som == SomReadImu
    ensures |s.line.arrived| >= if s.som == SomReadRc then RC_SIZE else IMU_SIZE
  {
    NextItem(s, stale);
    assert |Pending(s.line) + s.toSom| == |s.line.arrived|;
  }

  lemma RcTaken(brain: Brain, attempts: nat, s: Sys)
    requires s.som == SomReadRc && |s.line.arrived| >= RC_SIZE && s.line.buffer == []
    ensures Enabled(s, SomTakeRc)
    ensures var t := ApplySom(brain, attempts, s, SomTakeRc);
      t.line.buffer == [] && t.som == SomReadImu && |t.taken| == |s.taken| + 1
      && t == s.(line := t.line, som := t.som, taken := t.taken)
  {
    ReadAccounting(s.line, RC_SIZE, []);
  }

  lemma ImuTaken(brain: Brain, attempts: nat, s: Sys)
    requires s.som == SomReadImu && |s.line.arrived| >= IMU_SIZE && s.line.buffer == []
    ensures Enabled(s, SomTakeImu)
    ensures var t := ApplySom(brain, attempts, s, SomTakeImu);
      t.line.buffer == [] && t.som.SomAnswer? && |t.taken| == |s.taken| + 1
      && t == s.(line := t.line, som := t.som, taken := t.taken)
  {
    ReadAccounting(s.line, IMU_SIZE, []);
  }

  lemma {:induction false} PairAnswered(brain: Brain, attempts: nat, stale: seq<byte>, steps: seq<Step>, s: Sys, k: nat)
    returns (more: seq<Step>, t: Sys)
    requires Skippable(stale, attempts) && Run(brain, attempts, stale, steps) == Reached(s)
    requires WorkedOff(s, s.timeouts, k) && k <= s.timeouts
    ensures Run(brain, attempts, stale, more) == Reached(t) && WorkedOff(t, s.timeouts, k + 1)
  {
    InvariantHolds(brain, attempts, stale, steps);
    ItemArrived(s, stale);
    RcTaken(brain, attempts, s);
    RunAppend(brain, attempts, stale, steps, s, SomTakeRc);
    more, t := steps + [SomTakeRc], ApplySom(brain, attempts, s, SomTakeRc);
    InvariantHolds(brain, attempts, stale, more);
    ItemArrived(t, stale);
    ImuTaken(brain, attempts, t);
    RunAppend(brain, attempts, stale, more, t, SomTakeImu);
    more, t := more + [SomTakeImu], ApplySom(brain, attempts, t, SomTakeImu);
    RunAppend(brain, attempts, stale, more, t, SomWriteAnswer);
    more, t := more + [SomWriteAnswer], ApplySom(brain, attempts, t, SomWriteAnswer);
  }

  lemma {:induction false} PairsAnswered(brain: Brain, attempts: nat, stale: seq<byte>, steps: seq<Step>, s: Sys, k: nat)
    returns (more: seq<Step>, t: Sys)
    requires Skippable(stale, attempts) && Run(brain, attempts, stale, steps) == Reached(s)
    requires WorkedOff(s, s.timeouts, 0) && k <= s.timeouts + 1
    ensures Run(brain, attempts, stale, more) == Reached(t) && WorkedOff(t, s.timeouts, k)
  {
    if k == 0 {
      more, t := steps, s;
    } else {
      more, t := PairsAnswered(brain, attempts, stale, steps, s, k - 1);
      more, t := PairAnswered(brain, attempts, stale, more, t, k - 1);
    }
  }

  lemma {:induction false} EverythingDelivered(brain: Brain, attempts: nat, stale: seq<byte>, steps: seq<Step>, s: Sys)
    returns (more: seq<Step>, t: Sys)
    requires Skippable(stale, attempts) && Run(brain, attempts, stale, steps) == Reached(s) && Piling(s, s.timeouts)
    ensures Run(brain, attempts, stale, more) == Reached(t) && WorkedOff(t, s.timeouts, 0)
  {
    InvariantHolds(brain, attempts, stale, steps);
    PiledBytes(s, stale);
    if s.toSom == [] {
      more, t := steps, s;
    } else {
      RunAppend(brain, attempts, stale, steps, s, DeliverToSom(|s.toSom|));
      more, t := steps + [DeliverToSom(|s.toSom|)], ApplyDelivery(s, DeliverToSom(|s.toSom|));
    }
  }

  /**
   * The backlog bounds are exact: for every number t of timeouts, whatever the stale bytes that keep the
   * protocol in lock-step, some run has t timeouts and 37 * (t + 1) bytes waiting for the SoM in the main
   * cycle, and some run has t timeouts and 4 * (t + 1) bytes waiting for the MCU.
   */
  lemma {:induction false} BacklogIsTight(brain: Brain, attempts: nat, stale: seq<byte>, timeouts: nat)
    returns (one: seq<Step>, s: Sys, other: seq<Step>, t: Sys)
    requires Skippable(stale, attempts)
    ensures Run(brain, attempts, stale, one) == Reached(s) && InMain(s.som)
    ensures s.timeouts == timeouts && |TowardSom(s)| == 37 * (timeouts + 1)
    ensures Run(brain, attempts, stale, other) == Reached(t) && InMain(t.som)
    ensures t.timeouts == timeouts && |TowardMcu(t)| == 4 * (timeouts + 1)
  {
    one, s := PairsPile(brain, attempts, stale, DEFAULT_RC, DEFAULT_IMU, timeouts);
    InvariantHolds(brain, attempts, stale, one);
    PiledBytes(s, stale);
    other, t := EverythingDelivered(brain, attempts, stale, one, s);
    other, t := PairsAnswered(brain, attempts, stale, other, t, timeouts + 1);
    InvariantHolds(brain, attempts, stale, other);
    AnswerWireLength(t.answers, 0);
  }
}
