/**
 * Exactly when the receiver's rounds join messages of one sendTelemetry call, and runs that attain the
 * bounds on how far the three queues drift apart.
 */
module TelemetryLimits {
  import opened Common
  import opened Telemetry

  // ----- Exactly when rounds join messages of one call -----

  /** The j-th round of the receiver joined messages of one sendTelemetry call. */
  predicate OneCall(s: System, j: nat)
    requires j < |s.debug.accepted| && j < |s.attitude.accepted| && j < |s.onboard.accepted|
  {
    s.debug.accepted[j] == s.attitude.accepted[j] == s.onboard.accepted[j]
  }

  /** A call was taken by all three queues or by none. */
  predicate WholeOrNothing(s: System, call: nat) {
    && (call in s.debug.accepted <==> call in s.attitude.accepted)
    && (call in s.debug.accepted <==> call in s.onboard.accepted)
  }

  predicate SameEntriesTo(a: seq<nat>, b: seq<nat>, last: nat) {
    forall c: nat :: c <= last ==> (c in a <==> c in b)
  }

  lemma {:induction false} AgreeBelow(a: seq<nat>, b: seq<nat>, n: nat, j: nat)
    requires Increasing(a) && Increasing(b) && j <= n <= |a| && n <= |b| && n > 0
    requires SameEntriesTo(a, b, a[n - 1])
    ensures a[..j] == b[..j]
  {
    if j == 0 {
      assert a[..0] == b[..0];
    } else {
      AgreeBelow(a, b, n, j - 1);
      AgreeNext(a, b, n, j - 1);
      assert a[..j] == a[..j - 1] + [a[j - 1]] && b[..j] == b[..j - 1] + [b[j - 1]];
    }
  }

  lemma AgreeNext(a: seq<nat>, b: seq<nat>, n: nat, j: nat)
    requires Increasing(a) && Increasing(b) && j < n <= |a| && n <= |b| && a[..j] == b[..j]
    requires SameEntriesTo(a, b, a[n - 1])
    ensures a[j] == b[j]
  {
    assert a[j] <= a[n - 1];
    NotBefore(b, a, j, a[j]);
    if b[j] != a[j] {
      NotBefore(a, b, j, b[j]);
    }
  }

  /** An entry of b beyond the common first j entries of a and b is no smaller than b's entry j. */
  lemma NotBefore(b: seq<nat>, a: seq<nat>, j: nat, c: nat)
    requires Increasing(a) && Increasing(b) && j < |a| && j < |b| && a[..j] == b[..j] && c in b && c == a[j]
    ensures b[j] <= c
  {
    var k :| 0 <= k < |b| && b[k] == c;
    if k < j { SameEntry(a, b, j, k); }
  }

  lemma SameEntry(a: seq<nat>, b: seq<nat>, j: nat, k: nat)
    requires k < j <= |a| && j <= |b| && a[..j] == b[..j]
    ensures a[k] == b[k]
  {
    assert a[..j][k] == b[..j][k];
  }

  /** Two increasing sequences start with the same n entries if and only if they have the same entries up to the n-th. */
  lemma AgreeExactly(a: seq<nat>, b: seq<nat>, n: nat)
    requires Increasing(a) && Increasing(b) && 0 < n <= |a| && n <= |b|
    ensures a[..n] == b[..n] <==> SameEntriesTo(a, b, a[n - 1])
  {
    if a[..n] == b[..n] {
      forall c: nat | c <= a[n - 1]
        ensures c in a <==> c in b
      {
        InPrefix(a, n, c);
        assert a[..n][n - 1] == b[..n][n - 1];
        InPrefix(b, n, c);
      }
    } else if SameEntriesTo(a, b, a[n - 1]) {
      AgreeBelow(a, b, n, n);
    }
  }

  lemma InPrefix(a: seq<nat>, n: nat, c: nat)
    requires Increasing(a) && 0 < n <= |a| && c <= a[n - 1]
    ensures c in a <==> c in a[..n]
  {
    if c in a {
      var i :| 0 <= i < |a| && a[i] == c;
      assert i < n;
      assert a[..n][i] == c;
    }
  }

  predicate RoundsOfOneCall(s: System, n: nat)
    requires n <= |s.debug.accepted| && n <= |s.attitude.accepted| && n <= |s.onboard.accepted|
  {
    forall j :: 0 <= j < n ==> OneCall(s, j)
  }

  lemma RoundsAsPrefixes(s: System, n: nat)
    requires n <= |s.debug.accepted| && n <= |s.attitude.accepted| && n <= |s.onboard.accepted|
    ensures RoundsOfOneCall(s, n)
       <==> s.debug.accepted[..n] == s.attitude.accepted[..n] && s.debug.accepted[..n] == s.onboard.accepted[..n]
  {
    if RoundsOfOneCall(s, n) {
      forall j | 0 <= j < n
        ensures s.debug.accepted[j] == s.attitude.accepted[j] == s.onboard.accepted[j]
      {
        assert OneCall(s, j);
      }
    } else {
      var j :| 0 <= j < n && !OneCall(s, j);
      assert s.debug.accepted[j] == s.debug.accepted[..n][j];
      assert s.attitude.accepted[j] == s.attitude.accepted[..n][j] && s.onboard.accepted[j] == s.onboard.accepted[..n][j];
    }
  }

  /** Up to the n-th call that the debug queue took. */
  predicate WholeUpTo(s: System, n: nat)
    requires 0 < n <= |s.debug.accepted|
  {
    forall call: nat :: call <= s.debug.accepted[n - 1] ==> WholeOrNothing(s, call)
  }

  lemma WholeSplits(s: System, n: nat)
    requires 0 < n <= |s.debug.accepted|
    ensures WholeUpTo(s, n)
       <==> (SameEntriesTo(s.debug.accepted, s.attitude.accepted, s.debug.accepted[n - 1])
             && SameEntriesTo(s.debug.accepted, s.onboard.accepted, s.debug.accepted[n - 1]))
  {
    var d, a, o, last := s.debug.accepted, s.attitude.accepted, s.onboard.accepted, s.debug.accepted[n - 1];
    if WholeUpTo(s, n) {
      forall c: nat | c <= last
        ensures (c in d <==> c in a) && (c in d <==> c in o)
      {
        assert WholeOrNothing(s, c);
      }
    } else {
      var c: nat :| c <= last && !WholeOrNothing(s, c);
      assert !SameEntriesTo(d, a, last) || !SameEntriesTo(d, o, last);
    }
  }

  /**
   * After every schedule, the receiver's first n rounds each joined messages of one sendTelemetry call
   * if and only if every call up to the n-th one that the debug queue took was taken by all three queues
   * or dropped by all three. A round of one call is exactly that call's report.
   */
  lemma {:induction false} RoundsAlignExactly(capacity: nat, reports: nat -> Report, schedule: seq<Step>, n: nat)
    requires 0 < n <= After(capacity, reports, schedule).round
    ensures var s := After(capacity, reports, schedule);
      && n <= |s.debug.accepted| && n <= |s.attitude.accepted| && n <= |s.onboard.accepted|
      && n <= |s.debug.received| && n <= |s.attitude.received| && n <= |s.onboard.received|
      && (RoundsOfOneCall(s, n) <==> WholeUpTo(s, n))
      && (forall j :: 0 <= j < n && OneCall(s, j) ==>
            Report(s.debug.received[j], s.attitude.received[j], s.onboard.received[j]) == reports(s.debug.accepted[j]))
  {
    InvariantHolds(capacity, reports, schedule);
    var s := After(capacity, reports, schedule);
    RoundsAsPrefixes(s, n);
    WholeSplits(s, n);
    AgreeExactly(s.debug.accepted, s.attitude.accepted, n);
    AgreeExactly(s.debug.accepted, s.onboard.accepted, n);
    RoundIsReport(capacity, reports, s);
  }

  lemma RoundIsReport(capacity: nat, reports: nat -> Report, s: System)
    requires SystemInvariant(capacity, reports, s)
    ensures forall j :: 0 <= j < s.round && OneCall(s, j) ==>
      Report(s.debug.received[j], s.attitude.received[j], s.onboard.received[j]) == reports(s.debug.accepted[j])
  {
  }

  // ----- The bounds are attained, for every capacity -----

  /** A channel in terms of calls: which it accepted, and how many of their messages were received. */
  datatype View = View(accepted: seq<nat>, received: nat)

  ghost predicate ChannelIs<T>(ch: Channel<T>, v: View) {
    ch.accepted == v.accepted && |ch.received| == v.received && |ch.queue| + v.received == |v.accepted|
  }

  function Offered(v: View, capacity: nat, call: nat): View {
    if |v.accepted| < v.received + capacity then v.(accepted := v.accepted + [call]) else v
  }

  function Taken(v: View): View {
    v.(received := v.received + 1)
  }

  /** A system in terms of calls. */
  datatype Views = Views(debug: View, attitude: View, onboard: View, call: nat, sender: Stage, round: nat, receiver: Stage)

  ghost predicate SystemIs(s: System, x: Views) {
    && ChannelIs(s.debug, x.debug) && ChannelIs(s.attitude, x.attitude) && ChannelIs(s.onboard, x.onboard)
    && s.call == x.call && s.sender == x.sender && s.round == x.round && s.receiver == x.receiver
  }

  function Sent(capacity: nat, x: Views): Views {
    match x.sender
    case AtDebug => x.(debug := Offered(x.debug, capacity, x.call), sender := AtAttitude)
    case AtAttitude => x.(attitude := Offered(x.attitude, capacity, x.call), sender := AtOnboard)
    case AtOnboard => x.(onboard := Offered(x.onboard, capacity, x.call), sender := AtDebug, call := x.call + 1)
  }

  function Received(x: Views): Views {
    match x.receiver
    case AtDebug => x.(debug := Taken(x.debug), receiver := AtAttitude)
    case AtAttitude => x.(attitude := Taken(x.attitude), receiver := AtOnboard)
    case AtOnboard => x.(onboard := Taken(x.onboard), receiver := AtDebug, round := x.round + 1)
  }

  predicate CanReceive(x: Views) {
    match x.receiver
    case AtDebug => x.debug.received < |x.debug.accepted|
    case AtAttitude => x.attitude.received < |x.attitude.accepted|
    case AtOnboard => x.onboard.received < |x.onboard.accepted|
  }

  /** The schedule leads to a system with these views. */
  ghost predicate Leads(capacity: nat, reports: nat -> Report, schedule: seq<Step>, x: Views) {
    SystemIs(After(capacity, reports, schedule), x)
  }

  lemma SendLeads(capacity: nat, reports: nat -> Report, past: seq<Step>, x: Views)
    requires Leads(capacity, reports, past, x)
    ensures Leads(capacity, reports, past + [Send], Sent(capacity, x))
  {
    assert (past + [Send])[..|past|] == past;
  }

  lemma ReceiveLeads(capacity: nat, reports: nat -> Report, past: seq<Step>, x: Views)
    requires Leads(capacity, reports, past, x) && CanReceive(x)
    ensures Leads(capacity, reports, past + [Receive], Received(x))
  {
    assert (past + [Receive])[..|past|] == past;
  }

  /** What a whole sendTelemetry call without interference does. */
  function Called(capacity: nat, x: Views): Views {
    Sent(capacity, Sent(capacity, Sent(capacity, x)))
  }

  lemma CallLeads(capacity: nat, reports: nat -> Report, past: seq<Step>, x: Views)
    requires Leads(capacity, reports, past, x)
    ensures Leads(capacity, reports, past + [Send] + [Send] + [Send], Called(capacity, x))
  {
    SendLeads(capacity, reports, past, x);
    SendLeads(capacity, reports, past + [Send], Sent(capacity, x));
    SendLeads(capacity, reports, past + [Send] + [Send], Sent(capacity, Sent(capacity, x)));
  }

  /** The calls 0, 1, ..., n - 1. */
  function Calls(n: nat): (r: seq<nat>)
    ensures |r| == n
  {
    if n == 0 then [] else Calls(n - 1) + [n - 1]
  }

  /** n calls before the receiver starts. */
  function Fill(n: nat): seq<Step> {
    if n == 0 then [] else Fill(n - 1) + [Send] + [Send] + [Send]
  }

  function Filling(n: nat): Views {
    Views(View(Calls(n), 0), View(Calls(n), 0), View(Calls(n), 0), n, AtDebug, 0, AtDebug)
  }

  lemma {:induction false} Filled(capacity: nat, reports: nat -> Report, n: nat)
    requires n <= capacity
    ensures Leads(capacity, reports, Fill(n), Filling(n))
  {
    if n == 0 {
      assert SystemIs(EMPTY_SYSTEM, Filling(0));
    } else {
      Filled(capacity, reports, n - 1);
      CallLeads(capacity, reports, Fill(n - 1), Filling(n - 1));
      assert Called(capacity, Filling(n - 1)) == Filling(n);
    }
  }

  /** The queues are filled, one debug message is taken, and another call is made: only the debug queue has room. */
  function Overtaking(capacity: nat): seq<Step> {
    Fill(capacity) + [Receive] + [Send] + [Send] + [Send]
  }

  function Overtaken(capacity: nat): Views {
    var rest := View(Calls(capacity), 0);
    Views(View(Calls(capacity + 1), 1), rest, rest, capacity + 1, AtDebug, 0, AtAttitude)
  }

  lemma OvertakingLeads(capacity: nat, reports: nat -> Report)
    requires capacity > 0
    ensures Leads(capacity, reports, Overtaking(capacity), Overtaken(capacity))
  {
    Filled(capacity, reports, capacity);
    ReceiveLeads(capacity, reports, Fill(capacity), Filling(capacity));
    CallLeads(capacity, reports, Fill(capacity) + [Receive], Received(Filling(capacity)));
    assert Called(capacity, Received(Filling(capacity))) == Overtaken(capacity);
  }

  /** The queues are filled, and between two sends of another call a debug and an attitude message are taken. */
  function Undertaking(capacity: nat): seq<Step> {
    Fill(capacity) + [Send] + [Receive] + [Receive] + [Send] + [Send]
  }

  lemma UndertakingLeads(capacity: nat, reports: nat -> Report) returns (x: Views)
    requires capacity > 0
    ensures Leads(capacity, reports, Undertaking(capacity), x)
    ensures x.sender == AtDebug && |x.attitude.accepted| == capacity + 1 && |x.debug.accepted| == |x.onboard.accepted| == capacity
  {
    var past := Fill(capacity);
    Filled(capacity, reports, capacity);
    x := Filling(capacity);
    SendLeads(capacity, reports, past, x);
    x := Sent(capacity, x);
    ReceiveLeads(capacity, reports, past + [Send], x);
    x := Received(x);
    ReceiveLeads(capacity, reports, past + [Send] + [Receive], x);
    x := Received(x);
    SendLeads(capacity, reports, past + [Send] + [Receive] + [Receive], x);
    x := Sent(capacity, x);
    SendLeads(capacity, reports, past + [Send] + [Receive] + [Receive] + [Send], x);
    x := Sent(capacity, x);
  }

  /**
   * The balance bound is attained with queues of every capacity, in both directions: an earlier queue of
   * the call can be one message ahead of a later one, and one behind.
   */
  lemma {:induction false} BalanceIsTight(capacity: nat, reports: nat -> Report)
    requires capacity > 0
    ensures var s := After(capacity, reports, Overtaking(capacity));
      s.sender == AtDebug && |s.debug.accepted| == |s.attitude.accepted| + 1 == |s.onboard.accepted| + 1
    ensures var s := After(capacity, reports, Undertaking(capacity));
      s.sender == AtDebug && |s.attitude.accepted| == |s.debug.accepted| + 1 == |s.onboard.accepted| + 1
  {
    OvertakingLeads(capacity, reports);
    var x := UndertakingLeads(capacity, reports);
  }

  /** n whole rounds. */
  function Drain(past: seq<Step>, n: nat): seq<Step> {
    if n == 0 then past else Drain(past, n - 1) + [Receive] + [Receive] + [Receive]
  }

  /** The queues hold the messages of calls n to capacity - 1, and the debug queue one more. */
  function Draining(capacity: nat, n: nat): Views {
    var rest := View(Calls(capacity), n);
    Views(View(Calls(capacity + 1), n), rest, rest, capacity + 1, AtDebug, n, AtDebug)
  }

  lemma RoundLeads(capacity: nat, reports: nat -> Report, past: seq<Step>, n: nat)
    requires n < capacity && Leads(capacity, reports, past, Draining(capacity, n))
    ensures Leads(capacity, reports, past + [Receive] + [Receive] + [Receive], Draining(capacity, n + 1))
  {
    var x := Draining(capacity, n);
    ReceiveLeads(capacity, reports, past, x);
    ReceiveLeads(capacity, reports, past + [Receive], Received(x));
    ReceiveLeads(capacity, reports, past + [Receive] + [Receive], Received(Received(x)));
    assert Received(Received(Received(x))) == Draining(capacity, n + 1);
  }

  lemma {:induction false} RoundsDrained(capacity: nat, reports: nat -> Report, past: seq<Step>, n: nat)
    requires n < capacity && Leads(capacity, reports, past, Draining(capacity, 1))
    ensures Leads(capacity, reports, Drain(past, n), Draining(capacity, n + 1))
  {
    if n == 0 {
      assert Drain(past, 0) == past;
    } else {
      RoundsDrained(capacity, reports, past, n - 1);
      RoundLeads(capacity, reports, Drain(past, n - 1), n);
    }
  }

  lemma FirstRoundLeads(capacity: nat, reports: nat -> Report)
    requires capacity > 0
    ensures Leads(capacity, reports, Overtaking(capacity) + [Receive] + [Receive], Draining(capacity, 1))
  {
    OvertakingLeads(capacity, reports);
    var x := Overtaken(capacity);
    ReceiveLeads(capacity, reports, Overtaking(capacity), x);
    ReceiveLeads(capacity, reports, Overtaking(capacity) + [Receive], Received(x));
    assert Received(Received(x)) == Draining(capacity, 1);
  }

  /** The receiver takes the last debug message, another call is made, and the receiver takes its other messages. */
  function LastRound(past: seq<Step>): seq<Step> {
    past + [Receive] + [Send] + [Send] + [Send] + [Receive] + [Receive]
  }

  function MixedRound(capacity: nat): Views {
    var rest := View(Calls(capacity) + [capacity + 1], capacity + 1);
    Views(View(Calls(capacity + 1) + [capacity + 1], capacity + 1), rest, rest, capacity + 2, AtDebug, capacity + 1, AtDebug)
  }

  lemma LastRoundLeads(capacity: nat, reports: nat -> Report, past: seq<Step>)
    requires capacity > 0 && Leads(capacity, reports, past, Draining(capacity, capacity))
    ensures Leads(capacity, reports, LastRound(past), MixedRound(capacity))
  {
    var x := Draining(capacity, capacity);
    ReceiveLeads(capacity, reports, past, x);
    var y := Called(capacity, Received(x));
    CallLeads(capacity, reports, past + [Receive], Received(x));
    var called := past + [Receive] + [Send] + [Send] + [Send];
    ReceiveLeads(capacity, reports, called, y);
    ReceiveLeads(capacity, reports, called + [Receive], Received(y));
    assert Received(Received(y)) == MixedRound(capacity);
  }

  /** Everything of whole calls is received; then comes the last round. */
  function Mixing(capacity: nat): seq<Step>
    requires capacity > 0
  {
    LastRound(Drain(Overtaking(capacity) + [Receive] + [Receive], capacity - 1))
  }

  /** With queues of every capacity some run receives a round that joins a debug message with other messages of a later call. */
  lemma DropsMixRounds(capacity: nat, reports: nat -> Report)
    requires capacity > 0
    ensures var s := After(capacity, reports, Mixing(capacity));
      && s.round == capacity + 1
      && |s.debug.received| == |s.attitude.received| == |s.onboard.received| == capacity + 1
      && s.debug.received[capacity] == reports(capacity).debug
      && s.attitude.received[capacity] == reports(capacity + 1).attitude
      && s.onboard.received[capacity] == reports(capacity + 1).onboard
  {
    var past := Overtaking(capacity) + [Receive] + [Receive];
    FirstRoundLeads(capacity, reports);
    RoundsDrained(capacity, reports, past, capacity - 1);
    LastRoundLeads(capacity, reports, Drain(past, capacity - 1));
    DeliveryIsFaithful(capacity, reports, Mixing(capacity));
    assert Calls(capacity + 1)[capacity] == capacity;
    assert (Calls(capacity + 1) + [capacity + 1])[capacity] == capacity;
  }
}
