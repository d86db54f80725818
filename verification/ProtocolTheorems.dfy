/**
 * What the serial protocol guarantees, and exactly when: lock-step, the age of answers, absence of
 * deadlock, backlogs and progress, over every run and for every content of the line at power-up.
 */
module ProtocolTheorems {
  import opened Common
  import opened Packet
  import opened AutopilotManager
  import opened SerialController
  import opened WireFormat
  import opened SerialProtocol

  // ----- Lock-step -----

  /**
   * The packets the SoM read are the packets the MCU wrote, in order, RC and IMU in turn; the answers
   * the MCU read are the SoM's, in order, the n-th computed from the first n pairs the MCU wrote; and
   * the handshake did not fail.
   */
  ghost predicate InLockStep(brain: Brain, s: Sys) {
    && s.taken <= s.written && Alternates(s.written)
    && s.obtained <= s.answers && 2 * |s.obtained| <= |s.written|
    && (forall k :: 0 <= k < |s.obtained| ==> s.obtained[k] == brain(Pairs(s.written[..2 * k + 2])))
    && s.som != SomFailed
  }

  /** Every run is in lock-step, whatever the interleaving; empty timeouts of the MCU change none of it. */
  lemma {:induction false} LockStep(brain: Brain, attempts: nat, stale: seq<byte>, steps: seq<Step>, s: Sys)
    requires Skippable(stale, attempts) && Run(brain, attempts, stale, steps) == Reached(s)
    ensures InLockStep(brain, s)
  {
    InvariantHolds(brain, attempts, stale, steps);
    AnsweredGrows(brain, s.taken, s.written, s.answers);
  }

  /** With no flush string in the stale bytes there is nothing to skip. */
  lemma {:induction false} CleanStartIsSkippable(stale: seq<byte>, attempts: nat)
    requires FirstMatchEnd(stale, FLUSH) == None && attempts > 0
    ensures Rest(stale) == [] && Skippable(stale, attempts)
  {
    CleanFlushCondition(stale);
  }

  /** What the MCU reads next is the SoM's next answer. */
  lemma AnswerRead(s: Sys, stale: seq<byte>)
    requires LineAgrees(s, stale) && Enabled(s, McuReadAnswer)
    ensures |s.obtained| < |s.answers| && DecodeCs(s.mcuArrived[..CS_SIZE]) == s.answers[|s.obtained|]
  {
    var s' := ApplyMcu(s, McuReadAnswer);
    McuReadAnswerKeeps(s, stale);
    assert s'.obtained[|s.obtained|] == s.answers[|s.obtained|];
  }

  /**
   * How old an answer is when the MCU gets it: after t empty timeouts it was computed from the pairs
   * up to the one written t cycles ago. Without timeouts that is the pair of the current cycle.
   */
  lemma {:induction false} AnswerLag(brain: Brain, attempts: nat, stale: seq<byte>, steps: seq<Step>, s: Sys)
    requires Skippable(stale, attempts) && Run(brain, attempts, stale, steps) == Reached(s)
    requires Enabled(s, McuReadAnswer)
    ensures 2 * s.timeouts + 2 <= |s.written|
    ensures var answer := DecodeCs(s.mcuArrived[..CS_SIZE]);
      answer == brain(Pairs(s.written[..|s.written| - 2 * s.timeouts]))
  {
    InvariantHolds(brain, attempts, stale, steps);
    AnsweredGrows(brain, s.taken, s.written, s.answers);
    AnswerRead(s, stale);
    assert |s.written| - 2 * s.timeouts == 2 * |s.obtained| + 2;
  }

  // ----- How much waits -----

  lemma BehindByTimeouts(s: Sys)
    requires Stages(s) && InMain(s.som)
    ensures |s.written| <= |s.taken| + 2 * (s.timeouts + 1)
    ensures |s.answers| <= |s.obtained| + s.timeouts + 1
  {
  }

  /**
   * In the main cycle, after t empty timeouts of the MCU, at most 37 * (t + 1) bytes wait toward the
   * SoM and 4 * (t + 1) toward the MCU, in flight and buffered together.
   */
  lemma {:induction false} BacklogBounded(brain: Brain, attempts: nat, stale: seq<byte>, steps: seq<Step>, s: Sys)
    requires Skippable(stale, attempts) && Run(brain, attempts, stale, steps) == Reached(s)
    requires InMain(s.som)
    ensures |TowardSom(s)| <= FRAME_SIZE * (s.timeouts + 1)
    ensures |TowardMcu(s)| <= CS_SIZE * (s.timeouts + 1)
  {
    InvariantHolds(brain, attempts, stale, steps);
    BehindByTimeouts(s);
    WireLength(s.written, |s.taken|);
    WindowBytes(|s.taken|, |s.written|, s.timeouts + 1);
    AnswerWireLength(s.answers, |s.obtained|);
  }

  // ----- How soon answers come -----

  /** Bytes that either side has put on the line, the stale ones included. */
  function Produced(s: Sys, stale: seq<byte>): nat {
    |Prelude(s.mcu, stale)| + (if McuInMain(s.mcu) then HANDSHAKE_SIZE else 0) + PrefixBytes(|s.written|)
    + (if s.som == SomFlushing || s.som == SomSendHandshake then 0 else HANDSHAKE_SIZE) + CS_SIZE * |s.answers|
  }

  /** Every byte put on the line has arrived or is in flight. */
  predicate Accounted(s: Sys, stale: seq<byte>) {
    s.delivered + |s.toSom| + |s.toMcu| == Produced(s, stale)
  }

  lemma SendingAccounted(s: Sys, stale: seq<byte>, step: Step)
    requires Stages(s) && Accounted(s, stale) && Enabled(s, step) && (step.McuSendRc? || step.McuSendImu?)
    ensures Accounted(ApplyMcu(s, step), stale)
  {
    WrittenParity(s);
    NextPrefix(|s.written|);
  }

  lemma McuAccounted(s: Sys, stale: seq<byte>, step: Step)
    requires Stages(s) && Accounted(s, stale) && Enabled(s, step) && IsMcuStep(step)
    ensures Accounted(ApplyMcu(s, step), stale)
  {
    if step.McuSendRc? || step.McuSendImu? {
      SendingAccounted(s, stale, step);
    }
  }

  lemma AccountedKept(brain: Brain, attempts: nat, s: Sys, stale: seq<byte>, step: Step)
    requires Stages(s) && Accounted(s, stale) && Enabled(s, step)
    ensures Accounted(Apply(brain, attempts, s, step), stale)
  {
    if IsMcuStep(step) {
      McuAccounted(s, stale, step);
    }
  }

  /** How far a state is into the run: deliveries, stages passed, bytes skipped and packets handled. */
  function Work(s: Sys): nat {
    s.delivered + s.skipped + |s.written| + |s.taken| + |s.answers| + |s.obtained| + s.timeouts
    + McuProgress(s.mcu) + SomProgress(s.som)
  }

  function McuProgress(mcu: McuStage): nat {
    match mcu
    case McuStart => 0
    case McuAwaitHandshake => 1
    case McuEcho(_) => 2
    case _ => 3
  }

  function SomProgress(som: SomStage): nat {
    match som
    case SomFlushing => 0
    case SomSendHandshake => 1
    case _ => 2
  }

  lemma DeliveryIsWork(s: Sys, step: Step)
    requires Enabled(s, step) && (step.DeliverToSom? || step.DeliverToMcu?)
    ensures Work(ApplyDelivery(s, step)) > Work(s)
  {
  }

  lemma McuStepIsWork(s: Sys, step: Step)
    requires Enabled(s, step) && IsMcuStep(step)
    ensures Work(ApplyMcu(s, step)) > Work(s)
  {
  }

  lemma SomStepIsWork(brain: Brain, attempts: nat, s: Sys, stale: seq<byte>, step: Step)
    requires ToSomAgrees(s, stale)
    requires Enabled(s, step) && !IsMcuStep(step) && !step.DeliverToSom? && !step.DeliverToMcu?
    ensures Work(ApplySom(brain, attempts, s, step)) > Work(s)
  {
  }

  lemma StepIsWork(brain: Brain, attempts: nat, s: Sys, stale: seq<byte>, step: Step)
    requires ToSomAgrees(s, stale) && Enabled(s, step)
    ensures Work(Apply(brain, attempts, s, step)) > Work(s)
  {
    if step.DeliverToSom? || step.DeliverToMcu? {
      DeliveryIsWork(s, step);
    } else if IsMcuStep(step) {
      McuStepIsWork(s, step);
    } else {
      SomStepIsWork(brain, attempts, s, stale, step);
    }
  }

  lemma {:induction false} RunIsWork(brain: Brain, attempts: nat, stale: seq<byte>, steps: seq<Step>)
    requires Skippable(stale, attempts) && Run(brain, attempts, stale, steps).Reached?
    ensures var s := Run(brain, attempts, stale, steps).sys; |steps| <= Work(s) && Accounted(s, stale)
  {
    if steps == [] {
      assert Accounted(Start(stale), stale);
    } else {
      var n := |steps| - 1;
      RunIsWork(brain, attempts, stale, steps[..n]);
      InvariantHolds(brain, attempts, stale, steps[..n]);
      var s := Run(brain, attempts, stale, steps[..n]).sys;
      AccountedKept(brain, attempts, s, stale, steps[n]);
      StepIsWork(brain, attempts, s, stale, steps[n]);
    }
  }

  /** The most steps a run can take up to its k-th answer or timeout. */
  function StepsFor(stale: seq<byte>, k: nat): nat {
    2 * |stale| + 68 + 47 * k
  }

  lemma SkipBounded(s: Sys, stale: seq<byte>)
    requires ToSomAgrees(s, stale)
    ensures s.skipped <= |stale| + 8
  {
  }

  lemma WorkBounded(s: Sys, stale: seq<byte>)
    requires Stages(s) && ToSomAgrees(s, stale) && Accounted(s, stale)
    ensures Work(s) <= StepsFor(stale, |s.obtained| + s.timeouts)
  {
    var n := |s.obtained| + s.timeouts;
    SkipBounded(s, stale);
    assert |s.written| <= 2 * n + 2 && |s.answers| <= n + 1;
    WindowBytes(0, |s.written|, n + 1);
  }

  /**
   * Progress: however the two sides and the line are interleaved, a run cannot go on for long without
   * the MCU getting an answer or giving up on one; every 47 steps there is another.
   */
  lemma {:induction false} ProgressBounded(brain: Brain, attempts: nat, stale: seq<byte>, steps: seq<Step>, s: Sys)
    requires Skippable(stale, attempts) && Run(brain, attempts, stale, steps) == Reached(s)
    ensures |steps| <= StepsFor(stale, |s.obtained| + s.timeouts)
  {
    RunIsWork(brain, attempts, stale, steps);
    InvariantHolds(brain, attempts, stale, steps);
    WorkBounded(s, stale);
  }

  // ----- Nobody waits for ever, unless the flush read ahead too far -----

  /** The flush can drop whatever it reads ahead: at most as much as precedes the match. */
  predicate ReadAheadHarmless(stale: seq<byte>) {
    |Rest(stale)| <= MatchEnd(stale)
  }

  /** No step but the flush changes how much the stream buffer holds between reads. */
  lemma BufferKept(brain: Brain, attempts: nat, s: Sys, step: Step)
    requires Enabled(s, step) && !step.SomFlush?
    ensures |Apply(brain, attempts, s, step).line.buffer| == |s.line.buffer|
  {
    if step.SomReadEcho? {
      ReadAccounting(s.line, HANDSHAKE_SIZE, []);
    } else if step.SomTakeRc? {
      ReadAccounting(s.line, RC_SIZE, []);
    } else if step.SomTakeImu? {
      ReadAccounting(s.line, IMU_SIZE, []);
    }
  }

  lemma {:induction false} BufferStaysEmpty(brain: Brain, attempts: nat, stale: seq<byte>, steps: seq<Step>)
    requires Skippable(stale, attempts) && ReadAheadHarmless(stale) && Run(brain, attempts, stale, steps).Reached?
    ensures Run(brain, attempts, stale, steps).sys.line.buffer == []
  {
    if steps == [] {
      assert Start(stale).line.buffer == [];
    } else {
      var n := |steps| - 1;
      BufferStaysEmpty(brain, attempts, stale, steps[..n]);
      InvariantHolds(brain, attempts, stale, steps[..n]);
      var s := Run(brain, attempts, stale, steps[..n]).sys;
      if steps[n].SomFlush? {
        SomFlushKeeps(brain, attempts, s, stale, steps[n].readAhead);
      } else {
        BufferKept(brain, attempts, s, steps[n]);
      }
    }
  }

  /** A step that is possible in every reachable state: bytes in flight arrive, or else one side is ready. */
  function NextStep(s: Sys): Step {
    if s.toSom != [] then DeliverToSom(1)
    else if s.toMcu != [] then DeliverToMcu(1)
    else if s.mcu == McuStart then McuFlush
    else if s.mcu.McuEcho? then McuSendEcho
    else if s.mcu == McuWriteRc then McuSendRc(DEFAULT_RC)
    else if s.mcu == McuWriteImu then McuSendImu(DEFAULT_IMU)
    else WaitingStep(s)
  }

  /** The MCU waits for the SoM, and everything written has arrived. */
  function WaitingStep(s: Sys): Step {
    if s.som == SomFlushing then SomFlush(0)
    else if s.som == SomSendHandshake then SomWriteHandshake
    else if s.som.SomAnswer? then SomWriteAnswer
    else if s.mcu == McuAwaitHandshake then McuReadHandshake
    else if s.som.SomAwaitEcho? then SomReadEcho
    else if |s.taken| == |s.written| then McuReadAnswer
    else if s.som == SomReadRc then SomTakeRc
    else SomTakeImu
  }

  predicate AllArrived(s: Sys) {
    s.toSom == [] && s.toMcu == [] && s.line.buffer == []
  }

  lemma AllArrivedMeans(s: Sys)
    requires AllArrived(s)
    ensures TowardSom(s) == Pending(s.line) == s.line.arrived && TowardMcu(s) == s.mcuArrived
  {
    assert [] + s.line.arrived == s.line.arrived;
  }

  /** Before the main cycle, whoever is to act has what it waits for. */
  lemma HandshakeProceeds(s: Sys, stale: seq<byte>)
    requires LineAgrees(s, stale) && AllArrived(s) && !InMain(s.som)
    requires s.mcu == McuAwaitHandshake || s.mcu == McuAwaitAnswer
    ensures Enabled(s, WaitingStep(s))
  {
    AllArrivedMeans(s);
    if s.som == SomFlushing {
      MatchEndFound(stale);
    } else if s.som.SomAwaitEcho? && s.mcu == McuAwaitAnswer {
      EchoWaits(s, stale);
    }
  }

  lemma EchoWaits(s: Sys, stale: seq<byte>)
    requires ToSomAgrees(s, stale) && s.som.SomAwaitEcho? && s.mcu == McuAwaitAnswer
    ensures |TowardSom(s)| > 0
  {
    assert |EchoAndPackets(s.mcu, s.written)| > 0;
  }

  lemma CaughtUp(s: Sys)
    requires Stages(s) && s.mcu == McuAwaitAnswer && InMain(s.som) && !s.som.SomAnswer? && |s.taken| == |s.written|
    ensures s.som == SomReadRc && |s.obtained| < |s.answers|
  {
  }

  /** In the main cycle, either a packet waits for the SoM or an answer waits for the MCU. */
  lemma CycleProceeds(s: Sys, stale: seq<byte>)
    requires LineAgrees(s, stale) && AllArrived(s)
    requires s.mcu == McuAwaitAnswer && InMain(s.som) && !s.som.SomAnswer?
    ensures Enabled(s, WaitingStep(s))
  {
    AllArrivedMeans(s);
    if |s.taken| == |s.written| {
      CaughtUp(s);
      AnswerWireNext(s.answers, |s.obtained|);
    } else {
      NextItem(s, stale);
    }
  }

  lemma WaitingProceeds(s: Sys, stale: seq<byte>)
    requires LineAgrees(s, stale) && AllArrived(s) && (s.mcu == McuAwaitHandshake || s.mcu == McuAwaitAnswer)
    ensures Enabled(s, WaitingStep(s))
  {
    if !InMain(s.som) {
      HandshakeProceeds(s, stale);
    } else if !s.som.SomAnswer? {
      CycleProceeds(s, stale);
    }
  }

  lemma StateProceeds(s: Sys, stale: seq<byte>)
    requires LineAgrees(s, stale) && s.line.buffer == []
    ensures Enabled(s, NextStep(s)) && NextStep(s) != McuTimeout
  {
    if AllArrived(s) && (s.mcu == McuAwaitHandshake || s.mcu == McuAwaitAnswer) {
      WaitingProceeds(s, stale);
    }
  }

  /** The two sides never both wait for each other: in every reachable state a step other than a timeout is possible. */
  lemma {:induction false} NeverDeadlocks(brain: Brain, attempts: nat, stale: seq<byte>, steps: seq<Step>, s: Sys)
    requires Skippable(stale, attempts) && ReadAheadHarmless(stale) && Run(brain, attempts, stale, steps) == Reached(s)
    ensures Enabled(s, NextStep(s)) && NextStep(s) != McuTimeout
  {
    InvariantHolds(brain, attempts, stale, steps);
    BufferStaysEmpty(brain, attempts, stale, steps);
    StateProceeds(s, stale);
  }

  /** A run continued by n steps of the scheduler above. */
  function Continued(brain: Brain, attempts: nat, stale: seq<byte>, steps: seq<Step>, n: nat): seq<Step> {
    if n == 0 then steps
    else
      var before := Continued(brain, attempts, stale, steps, n - 1);
      match Run(brain, attempts, stale, before)
      case Impossible => before
      case Reached(s) => before + [NextStep(s)]
  }

  lemma TimeoutsOnlyByTimeout(brain: Brain, attempts: nat, s: Sys, step: Step)
    requires Enabled(s, step) && step != McuTimeout
    ensures Apply(brain, attempts, s, step).timeouts == s.timeouts
  {
  }

  /** Where n more steps lead: the run is as much longer and has no more timeouts. */
  predicate Extends(brain: Brain, attempts: nat, stale: seq<byte>, steps: seq<Step>, more: seq<Step>, n: nat) {
    && |more| == |steps| + n
    && Run(brain, attempts, stale, steps).Reached? && Run(brain, attempts, stale, more).Reached?
    && Run(brain, attempts, stale, more).sys.timeouts == Run(brain, attempts, stale, steps).sys.timeouts
  }

  lemma {:induction false} ExtendsByOne(brain: Brain, attempts: nat, stale: seq<byte>, steps: seq<Step>,
                                        before: seq<Step>, n: nat, step: Step)
    requires Extends(brain, attempts, stale, steps, before, n)
    requires Enabled(Run(brain, attempts, stale, before).sys, step) && step != McuTimeout
    ensures Extends(brain, attempts, stale, steps, before + [step], n + 1)
  {
    var s := Run(brain, attempts, stale, before).sys;
    RunAppend(brain, attempts, stale, before, s, step);
    TimeoutsOnlyByTimeout(brain, attempts, s, step);
  }

  lemma {:induction false} ContinuedRuns(brain: Brain, attempts: nat, stale: seq<byte>, steps: seq<Step>, n: nat)
    requires Skippable(stale, attempts) && ReadAheadHarmless(stale) && Run(brain, attempts, stale, steps).Reached?
    ensures Extends(brain, attempts, stale, steps, Continued(brain, attempts, stale, steps, n), n)
  {
    if n == 0 {
      assert Continued(brain, attempts, stale, steps, 0) == steps;
    } else {
      ContinuedRuns(brain, attempts, stale, steps, n - 1);
      var before := Continued(brain, attempts, stale, steps, n - 1);
      var s := Run(brain, attempts, stale, before).sys;
      NeverDeadlocks(brain, attempts, stale, before, s);
      ExtendsByOne(brain, attempts, stale, steps, before, n - 1, NextStep(s));
    }
  }

  /** Liveness: from every reachable state the run can go on, without any further timeout, to any number of answers. */
  lemma AnswersKeepComing(brain: Brain, attempts: nat, stale: seq<byte>, steps: seq<Step>, s: Sys, k: nat)
    requires Skippable(stale, attempts) && ReadAheadHarmless(stale) && Run(brain, attempts, stale, steps) == Reached(s)
    ensures var r := Run(brain, attempts, stale, Continued(brain, attempts, stale, steps, StepsFor(stale, k + s.timeouts)));
      r.Reached? && r.sys.timeouts == s.timeouts && |r.sys.obtained| >= k
  {
    var n := StepsFor(stale, k + s.timeouts);
    ContinuedRuns(brain, attempts, stale, steps, n);
    var more := Continued(brain, attempts, stale, steps, n);
    ProgressBounded(brain, attempts, stale, more, Run(brain, attempts, stale, more).sys);
  }
}
