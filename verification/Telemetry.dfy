/**
 * The telemetry pipeline: three bounded message queues, a sender that never blocks and a receiver that
 * does (impl/src/io/telemetry/TelemetryTransmitterMQ.cpp, impl/src/io/telemetry/TelemetryReceiverMQ.cpp,
 * impl/src/pc/main.cpp, SomController::sendTelemetry).
 */
module Telemetry {
  import opened Common

  datatype DebugMessage = DebugMessage(
    serialReads: uint32, serialReadTimeouts: uint32,
    serialWrites: uint32, serialWriteTimeouts: uint32, mainLoopCounter: uint32)

  datatype AttitudeMessage = AttitudeMessage(
    courseHeading: real, rollAngle: real, pitchAngle: real, yawAngle: real)

  datatype AutopilotType = AutopilotError | ManualAutopilot | StabilizeAutopilot
  datatype GpsFixType = GpsError | Fix1D | Fix2D | Fix3D

  datatype OnboardStateMessage = OnboardStateMessage(
    mcuTimestamp: uint32, throttle: byte, aileron: int8, elevator: int8, rudder: int8,
    autopilotType: AutopilotType, gpsFix: GpsFixType, imuTemperature: byte)

  /** What one sendTelemetry call hands to the transmitter. */
  datatype Report = Report(debug: DebugMessage, attitude: AttitudeMessage, onboard: OnboardStateMessage)

  /** `try_send`: a full queue drops the new message. */
  function TrySend<T>(queue: seq<T>, capacity: nat, message: T): seq<T> {
    if |queue| < capacity then queue + [message] else queue
  }

  /** The contents of the three queues, and what sendTelemetry does to them when nobody receives. */
  datatype Mailboxes = Mailboxes(
    debug: seq<DebugMessage>, attitude: seq<AttitudeMessage>, onboard: seq<OnboardStateMessage>)

  function Post(m: Mailboxes, capacity: nat, r: Report): Mailboxes {
    Mailboxes(TrySend(m.debug, capacity, r.debug), TrySend(m.attitude, capacity, r.attitude),
              TrySend(m.onboard, capacity, r.onboard))
  }

  function PostAll(m: Mailboxes, capacity: nat, reports: seq<Report>): Mailboxes {
    if reports == [] then m
    else Post(PostAll(m, capacity, reports[..|reports| - 1]), capacity, reports[|reports| - 1])
  }

  // ----- Sender and receiver as interleaved steps -----

  /**
   * A queue with its history: everything received from it, the numbers of the sendTelemetry calls
   * whose message it accepted, and how many messages were dropped.
   */
  datatype Channel<T> = Channel(queue: seq<T>, received: seq<T>, accepted: seq<nat>, dropped: nat)

  function Offer<T>(ch: Channel<T>, capacity: nat, message: T, call: nat): Channel<T> {
    var queue := TrySend(ch.queue, capacity, message);
    if |queue| > |ch.queue| then ch.(queue := queue, accepted := ch.accepted + [call])
    else ch.(dropped := ch.dropped + 1)
  }

  /** A receive takes the oldest message; on an empty queue it stays blocked and nothing changes. */
  function Take<T>(ch: Channel<T>): Channel<T>
    requires ch.queue != []
  {
    ch.(queue := ch.queue[1..], received := ch.received + [ch.queue[0]])
  }

  /** The queue that a side turns to next. Both sides go round in this order. */
  datatype Stage = AtDebug | AtAttitude | AtOnboard

  /** `call` counts completed sendTelemetry calls, `round` completed rounds of the receiver's loop. */
  datatype System = System(
    debug: Channel<DebugMessage>, attitude: Channel<AttitudeMessage>, onboard: Channel<OnboardStateMessage>,
    call: nat, sender: Stage, round: nat, receiver: Stage)

  datatype Step = Send | Receive

  const EMPTY_SYSTEM :=
    System(Channel([], [], [], 0), Channel([], [], [], 0), Channel([], [], [], 0), 0, AtDebug, 0, AtDebug)

  function ApplySend(capacity: nat, reports: nat -> Report, s: System): System {
    var report := reports(s.call);
    match s.sender
    case AtDebug => s.(debug := Offer(s.debug, capacity, report.debug, s.call), sender := AtAttitude)
    case AtAttitude => s.(attitude := Offer(s.attitude, capacity, report.attitude, s.call), sender := AtOnboard)
    case AtOnboard =>
      s.(onboard := Offer(s.onboard, capacity, report.onboard, s.call), sender := AtDebug, call := s.call + 1)
  }

  function ApplyReceive(s: System): System {
    match s.receiver
    case AtDebug => if s.debug.queue == [] then s else s.(debug := Take(s.debug), receiver := AtAttitude)
    case AtAttitude => if s.attitude.queue == [] then s else s.(attitude := Take(s.attitude), receiver := AtOnboard)
    case AtOnboard =>
      if s.onboard.queue == [] then s
      else s.(onboard := Take(s.onboard), receiver := AtDebug, round := s.round + 1)
  }

  function Apply(capacity: nat, reports: nat -> Report, s: System, step: Step): System {
    match step
    case Send => ApplySend(capacity, reports, s)
    case Receive => ApplyReceive(s)
  }

  /** The system after any schedule of steps, blocked receives included. */
  function After(capacity: nat, reports: nat -> Report, schedule: seq<Step>): System {
    if schedule == [] then EMPTY_SYSTEM
    else
      var n := |schedule| - 1;
      Apply(capacity, reports, After(capacity, reports, schedule[..n]), schedule[n])
  }

  // ----- The sender's steps are sendTelemetry calls -----

  function ContentsOf(s: System): Mailboxes {
    Mailboxes(s.debug.queue, s.attitude.queue, s.onboard.queue)
  }

  /** A schedule in which only the sender runs. */
  function Sends(n: nat): (r: seq<Step>)
    ensures |r| == n
  {
    if n == 0 then [] else Sends(n - 1) + [Send]
  }

  /** Three steps of the sender. */
  function AfterCall(capacity: nat, reports: nat -> Report, s: System): System {
    ApplySend(capacity, reports, ApplySend(capacity, reports, ApplySend(capacity, reports, s)))
  }

  /** Three steps of the sender are one sendTelemetry call. */
  lemma ThreeSendsPost(capacity: nat, reports: nat -> Report, s: System)
    requires s.sender == AtDebug
    ensures var t := AfterCall(capacity, reports, s);
      && ContentsOf(t) == Post(ContentsOf(s), capacity, reports(s.call))
      && t.sender == AtDebug && t.call == s.call + 1
      && t.debug.received == s.debug.received && t.attitude.received == s.attitude.received
      && t.onboard.received == s.onboard.received && t.round == s.round && t.receiver == s.receiver
  {
  }

  function AfterSends(capacity: nat, reports: nat -> Report, steps: nat): System {
    if steps == 0 then EMPTY_SYSTEM else ApplySend(capacity, reports, AfterSends(capacity, reports, steps - 1))
  }

  lemma {:induction false} SendAppended(capacity: nat, reports: nat -> Report, schedule: seq<Step>)
    ensures After(capacity, reports, schedule + [Send]) == ApplySend(capacity, reports, After(capacity, reports, schedule))
  {
    assert (schedule + [Send])[..|schedule|] == schedule;
  }

  lemma {:induction false} SendsAreScheduled(capacity: nat, reports: nat -> Report, steps: nat)
    ensures After(capacity, reports, Sends(steps)) == AfterSends(capacity, reports, steps)
  {
    if steps == 0 {
      assert Sends(0) == [];
    } else {
      SendsAreScheduled(capacity, reports, steps - 1);
      SendAppended(capacity, reports, Sends(steps - 1));
    }
  }

  lemma {:induction false} ThreeMoreSends(capacity: nat, reports: nat -> Report, steps: nat)
    requires steps >= 3
    ensures AfterSends(capacity, reports, steps) == AfterCall(capacity, reports, AfterSends(capacity, reports, steps - 3))
  {
    assert AfterSends(capacity, reports, steps - 2) == ApplySend(capacity, reports, AfterSends(capacity, reports, steps - 3));
    assert AfterSends(capacity, reports, steps - 1) == ApplySend(capacity, reports, AfterSends(capacity, reports, steps - 2));
  }

  /** What n calls leave in queues that start empty. */
  function Posted(capacity: nat, reports: nat -> Report, n: nat): Mailboxes {
    if n == 0 then Mailboxes([], [], []) else Post(Posted(capacity, reports, n - 1), capacity, reports(n - 1))
  }

  predicate AreFirst(reports: nat -> Report, list: seq<Report>) {
    forall i :: 0 <= i < |list| ==> list[i] == reports(i)
  }

  lemma {:induction false} PostedIsPostAll(capacity: nat, reports: nat -> Report, list: seq<Report>)
    requires AreFirst(reports, list)
    ensures Posted(capacity, reports, |list|) == PostAll(Mailboxes([], [], []), capacity, list)
  {
    if list == [] {
    } else {
      PostedIsPostAll(capacity, reports, list[..|list| - 1]);
    }
  }

  predicate BetweenCalls(s: System, contents: Mailboxes, n: nat) {
    ContentsOf(s) == contents && s.sender == AtDebug && s.call == n
  }

  lemma {:induction false} PostOneMore(capacity: nat, reports: nat -> Report, s: System, t: System, m: Mailboxes, n: nat)
    requires BetweenCalls(s, m, n) && t == AfterCall(capacity, reports, s)
    ensures BetweenCalls(t, Post(m, capacity, reports(n)), n + 1)
  {
    ThreeSendsPost(capacity, reports, s);
  }

  lemma {:induction false} CallsPost(capacity: nat, reports: nat -> Report, n: nat, steps: nat)
    requires steps == 3 * n
    ensures BetweenCalls(AfterSends(capacity, reports, steps), Posted(capacity, reports, n), n)
  {
    if n == 0 {
    } else {
      var before, after := AfterSends(capacity, reports, steps - 3), AfterSends(capacity, reports, steps);
      var m := Posted(capacity, reports, n - 1);
      CallsPost(capacity, reports, n - 1, steps - 3);
      ThreeMoreSends(capacity, reports, steps);
      PostOneMore(capacity, reports, before, after, m, n - 1);
    }
  }

  /** Three steps of the sender for each of its first reports leave in the queues what posting these does. */
  lemma {:induction false} SendsPostAll(capacity: nat, reports: nat -> Report, list: seq<Report>)
    requires AreFirst(reports, list)
    ensures var s := After(capacity, reports, Sends(3 * |list|));
      ContentsOf(s) == PostAll(Mailboxes([], [], []), capacity, list) && s.sender == AtDebug && s.call == |list|
  {
    SendsAreScheduled(capacity, reports, 3 * |list|);
    CallsPost(capacity, reports, |list|, 3 * |list|);
    PostedIsPostAll(capacity, reports, list);
  }

  // ----- What one queue keeps -----

  predicate Increasing(indices: seq<nat>) {
    forall i, j :: 0 <= i < j < |indices| ==> indices[i] < indices[j]
  }

  /** In order and unaltered: what was received and is queued are the messages of the accepted calls. */
  ghost predicate ChannelInvariant<T>(ch: Channel<T>, capacity: nat, message: nat -> T, calls: nat) {
    && |ch.queue| <= capacity
    && |ch.accepted| + ch.dropped == calls
    && |ch.received| + |ch.queue| == |ch.accepted|
    && Increasing(ch.accepted)
    && (forall j :: 0 <= j < |ch.accepted| ==> ch.accepted[j] < calls)
    && (forall j :: 0 <= j < |ch.received| ==> ch.received[j] == message(ch.accepted[j]))
    && (forall j :: 0 <= j < |ch.queue| ==> ch.queue[j] == message(ch.accepted[|ch.received| + j]))
  }

  lemma AcceptKeeps<T>(ch: Channel<T>, capacity: nat, message: nat -> T, calls: nat)
    requires ChannelInvariant(ch, capacity, message, calls) && |ch.queue| < capacity
    ensures ChannelInvariant(Channel(ch.queue + [message(calls)], ch.received, ch.accepted + [calls], ch.dropped),
                             capacity, message, calls + 1)
  {
    var queue, accepted, n := ch.queue + [message(calls)], ch.accepted + [calls], |ch.received|;
    forall j | 0 <= j < |queue|
      ensures queue[j] == message(accepted[n + j])
    {
      if j < |ch.queue| { assert accepted[n + j] == ch.accepted[n + j]; }
    }
  }

  lemma DropKeeps<T>(ch: Channel<T>, capacity: nat, message: nat -> T, calls: nat)
    requires ChannelInvariant(ch, capacity, message, calls)
    ensures ChannelInvariant(ch.(dropped := ch.dropped + 1), capacity, message, calls + 1)
  {
  }

  lemma OfferKeeps<T>(ch: Channel<T>, capacity: nat, message: nat -> T, calls: nat)
    requires ChannelInvariant(ch, capacity, message, calls)
    ensures ChannelInvariant(Offer(ch, capacity, message(calls), calls), capacity, message, calls + 1)
  {
    if |ch.queue| < capacity {
      AcceptKeeps(ch, capacity, message, calls);
    } else {
      DropKeeps(ch, capacity, message, calls);
    }
  }

  lemma TakeKeeps<T>(ch: Channel<T>, capacity: nat, message: nat -> T, calls: nat)
    requires ChannelInvariant(ch, capacity, message, calls) && ch.queue != []
    ensures ChannelInvariant(Take(ch), capacity, message, calls)
  {
  }

  // ----- What two queues keep between them -----

  /**
   * The earlier queue of a sendTelemetry call against a later one. Once the earlier was offered a
   * message that the later was not (`ahead`), it leads by up to two, and leads by two only through
   * the message of that very call.
   */
  predicate Balanced(earlier: seq<nat>, later: seq<nat>, ahead: bool, call: nat) {
    if ahead then
      |later| <= |earlier| <= |later| + 2
      && (|earlier| == |later| + 2 ==> earlier[|earlier| - 1] == call)
    else |earlier| - 1 <= |later| <= |earlier| + 1
  }

  /** A message accepted by one queue is never newer than any later one of the other queue. */
  predicate Skewed(a: seq<nat>, b: seq<nat>) {
    && (forall i, j :: 0 <= i < |a| && i < j < |b| ==> a[i] <= b[j])
    && (forall i, j :: 0 <= i < |b| && i < j < |a| ==> b[i] <= a[j])
  }

  predicate PairInvariant(earlier: seq<nat>, later: seq<nat>, ahead: bool, call: nat) {
    Balanced(earlier, later, ahead, call) && Skewed(earlier, later)
  }

  /** The newest call is no older than anything either queue has accepted. */
  predicate UpTo(indices: seq<nat>, call: nat) {
    forall i :: 0 <= i < |indices| ==> indices[i] <= call
  }

  lemma SkewedByOne(a: seq<nat>, b: seq<nat>, call: nat)
    requires Skewed(a, b) && UpTo(b, call) && |b| <= |a| + 1
    ensures Skewed(a + [call], b)
  {
    var c := a + [call];
    forall i, j | 0 <= i < |c| && i < j < |b|
      ensures c[i] <= b[j]
    {
      assert i < |a|;
    }
    forall i, j | 0 <= i < |b| && i < j < |c|
      ensures b[i] <= c[j]
    {
      if j < |a| { assert b[i] <= a[j]; }
    }
  }

  lemma ChannelUpTo<T>(ch: Channel<T>, capacity: nat, message: nat -> T, calls: nat, call: nat)
    requires ChannelInvariant(ch, capacity, message, calls) && calls <= call + 1
    ensures UpTo(ch.accepted, call)
  {
  }

  /** Offering to the earlier queue: it drops only when full, and then it cannot be behind. */
  lemma EarlierOffer<T, U>(x: Channel<T>, y: Channel<U>, capacity: nat, f: nat -> T, g: nat -> U, call: nat)
    requires ChannelInvariant(x, capacity, f, call) && ChannelInvariant(y, capacity, g, call)
    requires |y.received| <= |x.received| <= |y.received| + 1
    requires PairInvariant(x.accepted, y.accepted, false, call)
    ensures PairInvariant(Offer(x, capacity, f(call), call).accepted, y.accepted, true, call)
  {
    if |x.queue| < capacity {
      ChannelUpTo(y, capacity, g, call, call);
      SkewedByOne(x.accepted, y.accepted, call);
    }
  }

  /** Offering to the later queue: it drops only when full, and then the earlier leads by one at most. */
  lemma LaterOffer<T, U>(x: Channel<T>, y: Channel<U>, capacity: nat, f: nat -> T, g: nat -> U, call: nat)
    requires ChannelInvariant(x, capacity, f, call + 1) && ChannelInvariant(y, capacity, g, call)
    requires |y.received| <= |x.received| <= |y.received| + 1
    requires PairInvariant(x.accepted, y.accepted, true, call)
    ensures PairInvariant(x.accepted, Offer(y, capacity, g(call), call).accepted, false, call + 1)
  {
    if |y.queue| < capacity {
      LaterAccepts(x, y, capacity, f, call);
    }
  }

  lemma LaterAccepts<T, U>(x: Channel<T>, y: Channel<U>, capacity: nat, f: nat -> T, call: nat)
    requires ChannelInvariant(x, capacity, f, call + 1) && PairInvariant(x.accepted, y.accepted, true, call)
    ensures Skewed(x.accepted, y.accepted + [call])
  {
    ChannelUpTo(x, capacity, f, call + 1, call);
    LastIsNewest(x.accepted, y.accepted, call);
  }

  /** Where the later queue is two behind, the message in between is that of this very call. */
  lemma LastIsNewest(a: seq<nat>, b: seq<nat>, call: nat)
    requires Balanced(a, b, true, call) && Skewed(a, b) && UpTo(a, call)
    ensures Skewed(a, b + [call])
  {
    var c := b + [call];
    forall i, j | 0 <= i < |a| && i < j < |c|
      ensures a[i] <= c[j]
    {
      if j < |b| { assert a[i] <= b[j]; }
    }
    forall i, j | 0 <= i < |c| && i < j < |a|
      ensures c[i] <= a[j]
    {
      if i < |b| { assert b[i] <= a[j]; }
    }
  }

  // ----- The whole system -----

  function DebugOf(reports: nat -> Report): nat -> DebugMessage { (n: nat) => reports(n).debug }
  function AttitudeOf(reports: nat -> Report): nat -> AttitudeMessage { (n: nat) => reports(n).attitude }
  function OnboardOf(reports: nat -> Report): nat -> OnboardStateMessage { (n: nat) => reports(n).onboard }

  ghost predicate ChannelsInvariant(capacity: nat, reports: nat -> Report, s: System) {
    && ChannelInvariant(s.debug, capacity, DebugOf(reports), if s.sender == AtDebug then s.call else s.call + 1)
    && ChannelInvariant(s.attitude, capacity, AttitudeOf(reports), if s.sender == AtOnboard then s.call + 1 else s.call)
    && ChannelInvariant(s.onboard, capacity, OnboardOf(reports), s.call)
  }

  predicate PairsInvariant(s: System) {
    && PairInvariant(s.debug.accepted, s.attitude.accepted, s.sender == AtAttitude, s.call)
    && PairInvariant(s.debug.accepted, s.onboard.accepted, s.sender != AtDebug, s.call)
    && PairInvariant(s.attitude.accepted, s.onboard.accepted, s.sender == AtOnboard, s.call)
  }

  predicate ReceivedInRounds(s: System) {
    && |s.debug.received| == (if s.receiver == AtDebug then s.round else s.round + 1)
    && |s.attitude.received| == (if s.receiver == AtOnboard then s.round + 1 else s.round)
    && |s.onboard.received| == s.round
  }

  ghost predicate SystemInvariant(capacity: nat, reports: nat -> Report, s: System) {
    ChannelsInvariant(capacity, reports, s) && PairsInvariant(s) && ReceivedInRounds(s)
  }

  lemma ReceiveKeepsDebug(s: System, capacity: nat, message: nat -> DebugMessage, calls: nat)
    requires ChannelInvariant(s.debug, capacity, message, calls)
    ensures ChannelInvariant(ApplyReceive(s).debug, capacity, message, calls)
  {
    if s.receiver == AtDebug && s.debug.queue != [] { TakeKeeps(s.debug, capacity, message, calls); }
  }

  lemma ReceiveKeepsAttitude(s: System, capacity: nat, message: nat -> AttitudeMessage, calls: nat)
    requires ChannelInvariant(s.attitude, capacity, message, calls)
    ensures ChannelInvariant(ApplyReceive(s).attitude, capacity, message, calls)
  {
    if s.receiver == AtAttitude && s.attitude.queue != [] { TakeKeeps(s.attitude, capacity, message, calls); }
  }

  lemma ReceiveKeepsOnboard(s: System, capacity: nat, message: nat -> OnboardStateMessage, calls: nat)
    requires ChannelInvariant(s.onboard, capacity, message, calls)
    ensures ChannelInvariant(ApplyReceive(s).onboard, capacity, message, calls)
  {
    if s.receiver == AtOnboard && s.onboard.queue != [] { TakeKeeps(s.onboard, capacity, message, calls); }
  }

  lemma ReceiveKeepsChannels(capacity: nat, reports: nat -> Report, s: System)
    requires ChannelsInvariant(capacity, reports, s)
    ensures ChannelsInvariant(capacity, reports, ApplyReceive(s))
  {
    ReceiveKeepsDebug(s, capacity, DebugOf(reports), if s.sender == AtDebug then s.call else s.call + 1);
    ReceiveKeepsAttitude(s, capacity, AttitudeOf(reports), if s.sender == AtOnboard then s.call + 1 else s.call);
    ReceiveKeepsOnboard(s, capacity, OnboardOf(reports), s.call);
  }

  lemma ReceiveKeeps(capacity: nat, reports: nat -> Report, s: System)
    requires SystemInvariant(capacity, reports, s)
    ensures SystemInvariant(capacity, reports, ApplyReceive(s))
  {
    ReceiveKeepsChannels(capacity, reports, s);
    ReceiveKeepsRest(s);
  }

  lemma ReceiveKeepsRest(s: System)
    requires PairsInvariant(s) && ReceivedInRounds(s)
    ensures PairsInvariant(ApplyReceive(s)) && ReceivedInRounds(ApplyReceive(s))
  {
  }

  lemma SendDebugKeeps(capacity: nat, reports: nat -> Report, s: System)
    requires SystemInvariant(capacity, reports, s) && s.sender == AtDebug
    ensures SystemInvariant(capacity, reports, ApplySend(capacity, reports, s))
  {
    OfferKeeps(s.debug, capacity, DebugOf(reports), s.call);
    EarlierOffer(s.debug, s.attitude, capacity, DebugOf(reports), AttitudeOf(reports), s.call);
    EarlierOffer(s.debug, s.onboard, capacity, DebugOf(reports), OnboardOf(reports), s.call);
  }

  lemma SendAttitudeKeeps(capacity: nat, reports: nat -> Report, s: System)
    requires SystemInvariant(capacity, reports, s) && s.sender == AtAttitude
    ensures SystemInvariant(capacity, reports, ApplySend(capacity, reports, s))
  {
    SendAttitudeKeepsChannels(capacity, reports, s);
    SendAttitudeKeepsPairs(capacity, reports, s);
  }

  lemma SendAttitudeKeepsChannels(capacity: nat, reports: nat -> Report, s: System)
    requires ChannelsInvariant(capacity, reports, s) && s.sender == AtAttitude
    ensures ChannelsInvariant(capacity, reports, ApplySend(capacity, reports, s))
  {
    OfferKeeps(s.attitude, capacity, AttitudeOf(reports), s.call);
  }

  lemma SendAttitudeKeepsPairs(capacity: nat, reports: nat -> Report, s: System)
    requires SystemInvariant(capacity, reports, s) && s.sender == AtAttitude
    ensures PairsInvariant(ApplySend(capacity, reports, s))
  {
    LaterOffer(s.debug, s.attitude, capacity, DebugOf(reports), AttitudeOf(reports), s.call);
    EarlierOffer(s.attitude, s.onboard, capacity, AttitudeOf(reports), OnboardOf(reports), s.call);
  }

  lemma SendOnboardKeeps(capacity: nat, reports: nat -> Report, s: System)
    requires SystemInvariant(capacity, reports, s) && s.sender == AtOnboard
    ensures SystemInvariant(capacity, reports, ApplySend(capacity, reports, s))
  {
    OfferKeeps(s.onboard, capacity, OnboardOf(reports), s.call);
    SendOnboardKeepsPairs(capacity, reports, s);
  }

  lemma SendOnboardKeepsPairs(capacity: nat, reports: nat -> Report, s: System)
    requires SystemInvariant(capacity, reports, s) && s.sender == AtOnboard
    ensures PairsInvariant(ApplySend(capacity, reports, s))
  {
    LaterOffer(s.debug, s.onboard, capacity, DebugOf(reports), OnboardOf(reports), s.call);
    LaterOffer(s.attitude, s.onboard, capacity, AttitudeOf(reports), OnboardOf(reports), s.call);
  }

  lemma SendKeeps(capacity: nat, reports: nat -> Report, s: System)
    requires SystemInvariant(capacity, reports, s)
    ensures SystemInvariant(capacity, reports, ApplySend(capacity, reports, s))
  {
    match s.sender
    case AtDebug => SendDebugKeeps(capacity, reports, s);
    case AtAttitude => SendAttitudeKeeps(capacity, reports, s);
    case AtOnboard => SendOnboardKeeps(capacity, reports, s);
  }

  lemma {:induction false} InvariantHolds(capacity: nat, reports: nat -> Report, schedule: seq<Step>)
    ensures SystemInvariant(capacity, reports, After(capacity, reports, schedule))
  {
    if schedule == [] {
    } else {
      var n := |schedule| - 1;
      InvariantHolds(capacity, reports, schedule[..n]);
      var s := After(capacity, reports, schedule[..n]);
      if schedule[n] == Send { SendKeeps(capacity, reports, s); } else { ReceiveKeeps(capacity, reports, s); }
    }
  }

  // ----- The theorems about every interleaving -----

  predicate WithinOne(a: nat, b: nat) {
    a <= b + 1 && b <= a + 1
  }

  /**
   * Whatever the interleaving and whatever was dropped, between sendTelemetry calls the three queues
   * have accepted the same number of messages, up to one.
   */
  lemma {:induction false} QueuesStayBalanced(capacity: nat, reports: nat -> Report, schedule: seq<Step>)
    requires After(capacity, reports, schedule).sender == AtDebug
    ensures var s := After(capacity, reports, schedule);
      && WithinOne(|s.debug.accepted|, |s.attitude.accepted|)
      && WithinOne(|s.debug.accepted|, |s.onboard.accepted|)
      && WithinOne(|s.attitude.accepted|, |s.onboard.accepted|)
  {
    InvariantHolds(capacity, reports, schedule);
  }

  /**
   * At every moment of every interleaving a queue holds at most its capacity; what was accepted is what
   * was received followed by what is queued; accepted and dropped messages add up to the calls made; and
   * the j-th message received is, unaltered, that of the call whose number the queue accepted j-th.
   */
  lemma {:induction false} DeliveryIsFaithful(capacity: nat, reports: nat -> Report, schedule: seq<Step>)
    ensures var s := After(capacity, reports, schedule);
      && |s.debug.queue| <= capacity && |s.attitude.queue| <= capacity && |s.onboard.queue| <= capacity
      && |s.debug.received| + |s.debug.queue| + s.debug.dropped == (if s.sender == AtDebug then s.call else s.call + 1)
      && |s.attitude.received| + |s.attitude.queue| + s.attitude.dropped == (if s.sender == AtOnboard then s.call + 1 else s.call)
      && |s.onboard.received| + |s.onboard.queue| + s.onboard.dropped == s.call
      && Increasing(s.debug.accepted) && Increasing(s.attitude.accepted) && Increasing(s.onboard.accepted)
      && |s.debug.received| <= |s.debug.accepted| && |s.attitude.received| <= |s.attitude.accepted|
      && |s.onboard.received| <= |s.onboard.accepted|
      && (forall j :: 0 <= j < |s.debug.received| ==> s.debug.received[j] == reports(s.debug.accepted[j]).debug)
      && (forall j :: 0 <= j < |s.attitude.received| ==> s.attitude.received[j] == reports(s.attitude.accepted[j]).attitude)
      && (forall j :: 0 <= j < |s.onboard.received| ==> s.onboard.received[j] == reports(s.onboard.accepted[j]).onboard)
  {
    InvariantHolds(capacity, reports, schedule);
  }

  /** Two debug messages received in this order are those of two calls made in this order. */
  lemma {:induction false} DebugReceivedInOrder(capacity: nat, reports: nat -> Report, schedule: seq<Step>,
                                                i: nat, j: nat)
    requires i < j < |After(capacity, reports, schedule).debug.received|
    ensures var s := After(capacity, reports, schedule);
      && j < |s.debug.accepted| && s.debug.accepted[i] < s.debug.accepted[j]
      && s.debug.accepted[j] < (if s.sender == AtDebug then s.call else s.call + 1)
      && s.debug.received[i] == reports(s.debug.accepted[i]).debug
      && s.debug.received[j] == reports(s.debug.accepted[j]).debug
  {
    InvariantHolds(capacity, reports, schedule);
  }

  /** With nothing dropped a queue accepted the calls 0, 1, 2, ... */
  lemma {:induction false} IncreasingIsIdentity(indices: seq<nat>, j: nat)
    requires Increasing(indices) && j < |indices| && (forall i :: 0 <= i < |indices| ==> indices[i] < |indices|)
    ensures indices[j] == j
  {
    IncreasingFromBelow(indices, j);
    IncreasingFromAbove(indices, j);
  }

  lemma {:induction false} IncreasingFromBelow(indices: seq<nat>, j: nat)
    requires Increasing(indices) && j < |indices|
    ensures indices[j] >= j
  {
    if j == 0 {
    } else {
      IncreasingFromBelow(indices, j - 1);
    }
  }

  lemma {:induction false} IncreasingFromAbove(indices: seq<nat>, j: nat)
    requires Increasing(indices) && j < |indices| && (forall i :: 0 <= i < |indices| ==> indices[i] < |indices|)
    ensures indices[j] <= j
    decreases |indices| - j
  {
    if j + 1 < |indices| { IncreasingFromAbove(indices, j + 1); }
  }

  /** If no send was ever dropped, the j-th messages received from the three queues come from the j-th call. */
  lemma {:induction false} NoDropsAlign(capacity: nat, reports: nat -> Report, schedule: seq<Step>, j: nat)
    requires var s := After(capacity, reports, schedule);
      && s.debug.dropped == s.attitude.dropped == s.onboard.dropped == 0
      && j < |s.onboard.received| && j < |s.attitude.received| && j < |s.debug.received|
    ensures var s := After(capacity, reports, schedule);
      Report(s.debug.received[j], s.attitude.received[j], s.onboard.received[j]) == reports(j)
  {
    InvariantHolds(capacity, reports, schedule);
    var s := After(capacity, reports, schedule);
    IncreasingIsIdentity(s.debug.accepted, j);
    IncreasingIsIdentity(s.attitude.accepted, j);
    IncreasingIsIdentity(s.onboard.accepted, j);
  }

  /**
   * Drops can put messages of different calls side by side in a round, but never more than a round
   * apart: the i-th message of one queue never comes from a later call than the j-th of another, i < j.
   */
  lemma {:induction false} RoundsNeverCross(capacity: nat, reports: nat -> Report, schedule: seq<Step>)
    ensures var s := After(capacity, reports, schedule);
      && Skewed(s.debug.accepted, s.attitude.accepted)
      && Skewed(s.debug.accepted, s.onboard.accepted)
      && Skewed(s.attitude.accepted, s.onboard.accepted)
  {
    InvariantHolds(capacity, reports, schedule);
  }

  // ----- The queues, the transmitter and the receiver themselves -----

  class MessageQueue<T> {
    const capacity: nat
    var messages: seq<T>

    constructor (capacity: nat)
      ensures this.capacity == capacity && messages == []
    {
      this.capacity := capacity;
      messages := [];
    }

    method TrySendMessage(message: T) returns (ok: bool)
      modifies this
      ensures messages == TrySend(old(messages), capacity, message)
      ensures ok <==> old(|messages|) < capacity
    {
      ok := |messages| < capacity;
      if ok { messages := messages + [message]; }
    }

    /** None: the queue is empty and the receive is still blocked. */
    method ReceiveMessage() returns (message: Option<T>)
      modifies this
      ensures old(messages) == [] ==> message == None && messages == []
      ensures old(messages) != [] ==> message == Some(old(messages)[0]) && messages == old(messages)[1..]
    {
      if messages == [] { return None; }
      message := Some(messages[0]);
      messages := messages[1..];
    }
  }

  class Transmitter {
    const size: nat
    const debugQueue: MessageQueue<DebugMessage>
    const attitudeQueue: MessageQueue<AttitudeMessage>
    const onboardQueue: MessageQueue<OnboardStateMessage>

    ghost predicate Valid() {
      debugQueue.capacity == attitudeQueue.capacity == onboardQueue.capacity == size
    }

    function Contents(): Mailboxes
      reads debugQueue, attitudeQueue, onboardQueue
    {
      Mailboxes(debugQueue.messages, attitudeQueue.messages, onboardQueue.messages)
    }

    constructor (size: nat)
      ensures Valid() && this.size == size && Contents() == Mailboxes([], [], [])
      ensures fresh(debugQueue) && fresh(attitudeQueue) && fresh(onboardQueue)
    {
      this.size := size;
      debugQueue := new MessageQueue(size);
      attitudeQueue := new MessageQueue(size);
      onboardQueue := new MessageQueue(size);
    }

    method SendDebugMessage(message: DebugMessage) returns (ok: bool)
      modifies debugQueue
      ensures debugQueue.messages == TrySend(old(debugQueue.messages), debugQueue.capacity, message)
      ensures ok <==> old(|debugQueue.messages|) < debugQueue.capacity
    {
      ok := debugQueue.TrySendMessage(message);
    }

    method SendAttitudeMessage(message: AttitudeMessage) returns (ok: bool)
      modifies attitudeQueue
      ensures attitudeQueue.messages == TrySend(old(attitudeQueue.messages), attitudeQueue.capacity, message)
      ensures ok <==> old(|attitudeQueue.messages|) < attitudeQueue.capacity
    {
      ok := attitudeQueue.TrySendMessage(message);
    }

    method SendOnboardMessage(message: OnboardStateMessage) returns (ok: bool)
      modifies onboardQueue
      ensures onboardQueue.messages == TrySend(old(onboardQueue.messages), onboardQueue.capacity, message)
      ensures ok <==> old(|onboardQueue.messages|) < onboardQueue.capacity
    {
      ok := onboardQueue.TrySendMessage(message);
    }
  }

  /** The first n messages are gone. */
  ghost predicate Drained<T>(before: seq<T>, after: seq<T>, n: nat) {
    n <= |before| && after == before[n..]
  }

  /** The receiving process opens the same three queues. */
  class Receiver {
    const debugQueue: MessageQueue<DebugMessage>
    const attitudeQueue: MessageQueue<AttitudeMessage>
    const onboardQueue: MessageQueue<OnboardStateMessage>

    constructor (transmitter: Transmitter)
      ensures debugQueue == transmitter.debugQueue && attitudeQueue == transmitter.attitudeQueue
      ensures onboardQueue == transmitter.onboardQueue
    {
      debugQueue := transmitter.debugQueue;
      attitudeQueue := transmitter.attitudeQueue;
      onboardQueue := transmitter.onboardQueue;
    }

    /** How many whole rounds the queues hold. */
    function Rounds(): nat
      reads debugQueue, attitudeQueue, onboardQueue
    {
      Min(|debugQueue.messages|, Min(|attitudeQueue.messages|, |onboardQueue.messages|))
    }

    /**
     * The receiver's endless loop, until a receive blocks: round j joins the j-th messages of the
     * queues, and messages of the unfinished round are already gone from the queues before that one.
     */
    method ReceiveRounds() returns (rounds: seq<Report>, blocked: Stage)
      modifies debugQueue, attitudeQueue, onboardQueue
      ensures |rounds| == old(Rounds())
      ensures forall j :: 0 <= j < |rounds| ==>
        rounds[j] == Report(old(debugQueue.messages)[j], old(attitudeQueue.messages)[j], old(onboardQueue.messages)[j])
      ensures match blocked
        case AtDebug => debugQueue.messages == []
        case AtAttitude => attitudeQueue.messages == []
        case AtOnboard => onboardQueue.messages == []
      ensures Drained(old(debugQueue.messages), debugQueue.messages, if blocked == AtDebug then |rounds| else |rounds| + 1)
      ensures Drained(old(attitudeQueue.messages), attitudeQueue.messages, if blocked == AtOnboard then |rounds| + 1 else |rounds|)
      ensures Drained(old(onboardQueue.messages), onboardQueue.messages, |rounds|)
    {
      rounds := [];
      while true
        invariant |rounds| <= old(Rounds())
        invariant Drained(old(debugQueue.messages), debugQueue.messages, |rounds|)
        invariant Drained(old(attitudeQueue.messages), attitudeQueue.messages, |rounds|)
        invariant Drained(old(onboardQueue.messages), onboardQueue.messages, |rounds|)
        invariant forall j :: 0 <= j < |rounds| ==>
          rounds[j] == Report(old(debugQueue.messages)[j], old(attitudeQueue.messages)[j], old(onboardQueue.messages)[j])
        decreases |debugQueue.messages|
      {
        var debug := debugQueue.ReceiveMessage();
        if debug.None? { return rounds, AtDebug; }
        var attitude := attitudeQueue.ReceiveMessage();
        if attitude.None? { return rounds, AtAttitude; }
        var onboard := onboardQueue.ReceiveMessage();
        if onboard.None? { return rounds, AtOnboard; }
        rounds := rounds + [Report(debug.value, attitude.value, onboard.value)];
      }
    }
  }
}
