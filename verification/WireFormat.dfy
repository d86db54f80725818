/**
 * Sequences of packets as they cross the serial line: RC and IMU packets in turn toward the SoM,
 * surfaces toward the MCU, and what an exact read finds of them.
 */
module WireFormat {
  import opened Common
  import opened Packet
  import opened AutopilotManager
  import opened SerialController

  // ----- What crosses the line -----

  datatype Item = RcItem(rc: RcRxPacket) | ImuItem(imu: ImuPacket)

  function EncodeItem(item: Item): seq<byte> {
    match item
    case RcItem(rc) => EncodeRc(rc)
    case ImuItem(imu) => EncodeImu(imu)
  }

  function Chunks(items: seq<Item>): seq<seq<byte>> {
    seq(|items|, i requires 0 <= i < |items| => EncodeItem(items[i]))
  }

  function AnswerChunks(packets: seq<ControlSurfacePacket>): seq<seq<byte>> {
    seq(|packets|, i requires 0 <= i < |packets| => EncodeCs(packets[i]))
  }

  function Flat(chunks: seq<seq<byte>>): seq<byte> {
    if chunks == [] then [] else chunks[0] + Flat(chunks[1..])
  }

  /** The bytes of the packets from a position on. */
  function Wire(items: seq<Item>, from: nat): seq<byte> {
    Flat(Chunks(items)[Min(from, |items|)..])
  }

  function AnswerWire(packets: seq<ControlSurfacePacket>, from: nat): seq<byte> {
    Flat(AnswerChunks(packets)[Min(from, |packets|)..])
  }

  /** The n-th pair of a sequence that alternates RC and IMU packets. */
  function RcAt(items: seq<Item>, i: nat): RcRxPacket {
    if i < |items| && items[i].RcItem? then items[i].rc else DEFAULT_RC
  }

  function ImuAt(items: seq<Item>, i: nat): ImuPacket {
    if i < |items| && items[i].ImuItem? then items[i].imu else DEFAULT_IMU
  }

  function PairAt(items: seq<Item>, k: nat): Input {
    Input(RcAt(items, 2 * k), ImuAt(items, 2 * k + 1))
  }

  function Pairs(items: seq<Item>): seq<Input> {
    seq(|items| / 2, k requires 0 <= k < |items| / 2 => PairAt(items, k))
  }

  predicate Alternates(items: seq<Item>) {
    forall i :: 0 <= i < |items| ==> (items[i].RcItem? <==> i % 2 == 0)
  }

  // ----- Sequences on the wire -----

  lemma {:induction false} FlatAppend(chunks: seq<seq<byte>>, last: seq<byte>)
    ensures Flat(chunks + [last]) == Flat(chunks) + last
  {
    if chunks == [] {
      assert [last][1..] == [];
    } else {
      FlatAppend(chunks[1..], last);
      assert (chunks + [last])[1..] == chunks[1..] + [last];
    }
  }

  lemma WireAppend(items: seq<Item>, from: nat, item: Item)
    requires from <= |items|
    ensures Wire(items + [item], from) == Wire(items, from) + EncodeItem(item)
  {
    FlatAppend(Chunks(items)[from..], EncodeItem(item));
    assert Chunks(items + [item])[from..] == Chunks(items)[from..] + [EncodeItem(item)];
  }

  lemma WireNext(items: seq<Item>, from: nat)
    requires from < |items|
    ensures Wire(items, from) == EncodeItem(items[from]) + Wire(items, from + 1)
  {
    assert Chunks(items)[from..][1..] == Chunks(items)[from + 1..];
  }

  lemma WireEnd(items: seq<Item>, from: nat)
    requires from >= |items|
    ensures Wire(items, from) == []
  {
  }

  lemma AnswerWireAppend(packets: seq<ControlSurfacePacket>, from: nat, p: ControlSurfacePacket)
    requires from <= |packets|
    ensures AnswerWire(packets + [p], from) == AnswerWire(packets, from) + EncodeCs(p)
  {
    FlatAppend(AnswerChunks(packets)[from..], EncodeCs(p));
    assert AnswerChunks(packets + [p])[from..] == AnswerChunks(packets)[from..] + [EncodeCs(p)];
  }

  lemma AnswerWireNext(packets: seq<ControlSurfacePacket>, from: nat)
    requires from < |packets|
    ensures AnswerWire(packets, from) == EncodeCs(packets[from]) + AnswerWire(packets, from + 1)
  {
    assert AnswerChunks(packets)[from..][1..] == AnswerChunks(packets)[from + 1..];
  }

  lemma AnswerWireEnd(packets: seq<ControlSurfacePacket>, from: nat)
    requires from >= |packets|
    ensures AnswerWire(packets, from) == []
  {
  }

  /** Cutting the same bytes at the same place. */
  lemma SameCut(a: seq<byte>, b: seq<byte>, front: seq<byte>, rest: seq<byte>)
    requires a + b == front + rest && |a| >= |front|
    ensures a[..|front|] == front && a[|front|..] + b == rest
  {
    assert (a + b)[..|front|] == a[..|front|] && (front + rest)[..|front|] == front;
    assert (a + b)[|front|..] == a[|front|..] + b && (front + rest)[|front|..] == rest;
  }

  /**
   * An exact read that has enough new bytes takes the front of what is on its way, whatever the stream
   * buffer holds, and leaves as much in the buffer as there was.
   */
  lemma ReadFront(line: Line, inFlight: seq<byte>, front: seq<byte>, rest: seq<byte>)
    requires |line.arrived| >= |front| && Pending(line) + inFlight == front + rest
    ensures var r := ReadExactly(line, |front|, []);
      r.bytes == Some(front) && |r.line.buffer| == |line.buffer| && Pending(r.line) + inFlight == rest
  {
    var r := ReadExactly(line, |front|, []);
    ReadAccounting(line, |front|, []);
    var value, left := r.bytes.value, Pending(r.line);
    assert value + left == Pending(line) + [] == Pending(line);
    SameCut(value + left, inFlight, front, rest);
    assert (value + left)[..|front|] == value && (value + left)[|front|..] == left;
  }

  lemma ReadRcFront(line: Line, inFlight: seq<byte>, rc: RcRxPacket, rest: seq<byte>)
    requires |line.arrived| >= RC_SIZE && Pending(line) + inFlight == EncodeRc(rc) + rest
    ensures var r := ReadExactly(line, RC_SIZE, []);
      RcOf(r.bytes) == rc && |r.line.buffer| == |line.buffer| && Pending(r.line) + inFlight == rest
  {
    ReadFront(line, inFlight, EncodeRc(rc), rest);
    RcRoundTrip(rc, EncodeRc(rc));
  }

  lemma ReadImuFront(line: Line, inFlight: seq<byte>, imu: ImuPacket, rest: seq<byte>)
    requires |line.arrived| >= IMU_SIZE && Pending(line) + inFlight == EncodeImu(imu) + rest
    ensures var r := ReadExactly(line, IMU_SIZE, []);
      ImuOf(r.bytes) == imu && |r.line.buffer| == |line.buffer| && Pending(r.line) + inFlight == rest
  {
    ReadFront(line, inFlight, EncodeImu(imu), rest);
    ImuRoundTrip(imu, EncodeImu(imu));
  }

  lemma Associative(a: seq<byte>, b: seq<byte>, c: seq<byte>)
    ensures a + (b + c) == (a + b) + c
  {
  }

  lemma AlternatesAppend(items: seq<Item>, item: Item)
    requires Alternates(items) && (item.RcItem? <==> |items| % 2 == 0)
    ensures Alternates(items + [item])
  {
  }

  lemma PrefixGrows<A>(prefix: seq<A>, all: seq<A>)
    requires prefix <= all && |prefix| < |all|
    ensures prefix + [all[|prefix|]] <= all
  {
  }

  // ----- Sizes -----

  /** The size of the first n packets of a sequence that alternates. */
  function PrefixBytes(n: nat): nat {
    FRAME_SIZE * (n / 2) + if n % 2 == 1 then RC_SIZE else 0
  }

  lemma NextPrefix(n: nat)
    ensures PrefixBytes(n + 1) == PrefixBytes(n) + if n % 2 == 0 then RC_SIZE else IMU_SIZE
  {
  }

  lemma {:induction false} WireLength(items: seq<Item>, from: nat)
    requires Alternates(items) && from <= |items|
    ensures |Wire(items, from)| == PrefixBytes(|items|) - PrefixBytes(from)
    decreases |items| - from
  {
    if from == |items| {
    } else {
      WireNext(items, from);
      WireLength(items, from + 1);
      NextPrefix(from);
    }
  }

  lemma {:induction false} AnswerWireLength(packets: seq<ControlSurfacePacket>, from: nat)
    requires from <= |packets|
    ensures |AnswerWire(packets, from)| == CS_SIZE * (|packets| - from)
    decreases |packets| - from
  {
    if from == |packets| {
    } else {
      AnswerWireNext(packets, from);
      AnswerWireLength(packets, from + 1);
    }
  }

  /** Any window of 2 * k consecutive packets is k frames long. */
  lemma WindowBytes(from: nat, to: nat, k: nat)
    requires from <= to <= from + 2 * k
    ensures PrefixBytes(to) - PrefixBytes(from) <= FRAME_SIZE * k
  {
    var a: int, b: int := from / 2, to / 2;
    assert b - a < k || (b - a == k && to % 2 <= from % 2);
  }

  lemma PrefixMonotone(m: nat, n: nat)
    requires m <= n
    ensures PrefixBytes(m) <= PrefixBytes(n)
  {
    assert m / 2 < n / 2 || (m / 2 == n / 2 && m % 2 <= n % 2);
  }

  lemma DropTwice(s: seq<byte>, a: nat, b: nat)
    requires a + b <= |s|
    ensures s[a..][b..] == s[a + b..]
  {
  }

  lemma DropNext(s: seq<byte>, at: nat, front: seq<byte>, rest: seq<byte>)
    requires at <= |s| && s[at..] == front + rest
    ensures at + |front| <= |s| && s[at + |front|..] == rest
  {
    DropTwice(s, at, |front|);
    assert (front + rest)[|front|..] == rest;
  }

  lemma ItemSize(items: seq<Item>, m: nat)
    requires Alternates(items) && m < |items|
    ensures PrefixBytes(m) + |EncodeItem(items[m])| == PrefixBytes(m + 1)
  {
    NextPrefix(m);
  }

  lemma WireDropNext(items: seq<Item>, wire: seq<byte>, m: nat)
    requires Alternates(items) && m < |items| && PrefixBytes(m) <= |wire| && wire[PrefixBytes(m)..] == Wire(items, m)
    ensures PrefixBytes(m + 1) <= |wire| && wire[PrefixBytes(m + 1)..] == Wire(items, m + 1)
  {
    WireNext(items, m);
    ItemSize(items, m);
    DropNext(wire, PrefixBytes(m), EncodeItem(items[m]), Wire(items, m + 1));
  }

  lemma {:induction false} WireDropFrom(items: seq<Item>, wire: seq<byte>, m: nat)
    requires Alternates(items) && m <= |items| && wire == Wire(items, 0)
    ensures PrefixBytes(m) <= |wire| && wire[PrefixBytes(m)..] == Wire(items, m)
  {
    if m == 0 {
      assert wire[0..] == wire;
    } else {
      WireDropFrom(items, wire, m - 1);
      WireDropNext(items, wire, m - 1);
    }
  }

  /** Where each packet is on the wire: behind the sizes of those before it. */
  lemma WireDrop(items: seq<Item>, m: nat)
    requires Alternates(items) && m <= |items|
    ensures PrefixBytes(m) <= |Wire(items, 0)| && Wire(items, 0)[PrefixBytes(m)..] == Wire(items, m)
  {
    WireDropFrom(items, Wire(items, 0), m);
  }

  lemma {:induction false} AnswerWireDrop(packets: seq<ControlSurfacePacket>, k: nat)
    requires k <= |packets|
    ensures CS_SIZE * k <= |AnswerWire(packets, 0)| && AnswerWire(packets, 0)[CS_SIZE * k..] == AnswerWire(packets, k)
  {
    if k == 0 {
      assert AnswerWire(packets, 0)[0..] == AnswerWire(packets, 0);
    } else {
      AnswerWireDrop(packets, k - 1);
      AnswerWireNext(packets, k - 1);
      DropNext(AnswerWire(packets, 0), CS_SIZE * (k - 1), EncodeCs(packets[k - 1]), AnswerWire(packets, k));
    }
  }

  /** A cut out of a prefix is the same cut out of the whole. */
  lemma CutOfPrefix(prefix: seq<byte>, whole: seq<byte>, at: nat, size: nat)
    requires prefix <= whole && at + size <= |prefix|
    ensures prefix[at..at + size] == whole[at..][..size]
  {
  }

  /** As many bytes as a packet has, cut where it starts, are that packet. */
  lemma PacketAt(items: seq<Item>, stream: seq<byte>, m: nat, size: nat)
    requires Alternates(items) && stream <= Wire(items, 0)
    requires size == if m % 2 == 0 then RC_SIZE else IMU_SIZE
    requires PrefixBytes(m) + size <= |stream|
    ensures m < |items| && stream[PrefixBytes(m)..PrefixBytes(m) + size] == EncodeItem(items[m])
  {
    WireLength(items, 0);
    if m >= |items| { PrefixMonotone(|items|, m); }
    WireDrop(items, m);
    WireNext(items, m);
    CutOfPrefix(stream, Wire(items, 0), PrefixBytes(m), size);
    assert (EncodeItem(items[m]) + Wire(items, m + 1))[..size] == EncodeItem(items[m]);
  }

  lemma AnswerAt(packets: seq<ControlSurfacePacket>, stream: seq<byte>, k: nat)
    requires stream <= AnswerWire(packets, 0) && CS_SIZE * k + CS_SIZE <= |stream|
    ensures k < |packets| && stream[CS_SIZE * k..CS_SIZE * k + CS_SIZE] == EncodeCs(packets[k])
  {
    AnswerWireLength(packets, 0);
    AnswerWireDrop(packets, k);
    AnswerWireNext(packets, k);
    CutOfPrefix(stream, AnswerWire(packets, 0), CS_SIZE * k, CS_SIZE);
    assert (EncodeCs(packets[k]) + AnswerWire(packets, k + 1))[..CS_SIZE] == EncodeCs(packets[k]);
  }
}
