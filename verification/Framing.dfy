/**
 * When each side's reads are still cut at packet boundaries although some of them timed out: the SoM's
 * alternating exact reads, which leave a partial packet in the stream buffer, and the MCU's reads, which
 * consume one.
 */
module Framing {
  import opened Common
  import opened Packet
  import opened SerialController
  import opened WireFormat
  import opened Mcu

  // ----- The SoM's reads -----

  /** Which packet a cut at this position starts with. */
  function PacketIndex(at: nat): nat {
    2 * (at / FRAME_SIZE) + if at % FRAME_SIZE == 0 then 0 else 1
  }

  lemma CutPosition(at: nat)
    requires at % FRAME_SIZE == 0 || at % FRAME_SIZE == RC_SIZE
    ensures PrefixBytes(PacketIndex(at)) == at
    ensures PacketIndex(at) % 2 == 0 <==> at % FRAME_SIZE == 0
  {
    var q := at / FRAME_SIZE;
    assert at == FRAME_SIZE * q + at % FRAME_SIZE;
    assert (2 * q) / 2 == q && (2 * q + 1) / 2 == q && (2 * q) % 2 == 0 && (2 * q + 1) % 2 == 1;
  }

  /** The read at position i is to be aligned: an RC read at a frame's start, an IMU read at its tenth byte. */
  predicate AlignedRead(line: Line, calls: seq<Read>, i: nat)
    requires i < |calls|
  {
    |Delivered(line, calls[..i])| % FRAME_SIZE == if i % 2 == 0 then 0 else RC_SIZE
  }

  /** The i-th read returns, decoded as its kind, the packet that was written where it was cut. */
  predicate ReturnsPacket(line: Line, calls: seq<Read>, items: seq<Item>, i: nat)
    requires Alternating(calls) && i < |calls|
  {
    var m, bytes := PacketIndex(|Delivered(line, calls[..i])|), ReadResult(line, calls, i);
    m < |items| && items[m] == if i % 2 == 0 then RcItem(RcOf(bytes)) else ImuItem(ImuOf(bytes))
  }

  lemma AlternatingPrefix(calls: seq<Read>, i: nat)
    requires Alternating(calls) && i <= |calls|
    ensures Alternating(calls[..i])
  {
  }

  /**
   * Exactly when framing survives timeouts. What arrives are the bytes of packets written RC and IMU in
   * turn. A read is cut at a packet of its own kind if and only if the numbers of RC and IMU packets
   * delivered before it agree modulo 37 (for an IMU read, one more RC packet); and then, if it succeeds,
   * it returns the packet that was written there.
   */
  lemma {:induction false} FramingSurvivesExactly(line: Line, calls: seq<Read>, items: seq<Item>, i: nat)
    requires Alternating(calls) && Alternates(items) && Pending(line) + Arrivals(calls) <= Wire(items, 0)
    requires i < |calls|
    ensures AlignedRead(line, calls, i) <==> (Lead(line, calls[..i]) - i % 2) % FRAME_SIZE == 0
    ensures AlignedRead(line, calls, i) && ReadResult(line, calls, i).Some? ==> ReturnsPacket(line, calls, items, i)
  {
    AlignedByLead(line, calls, i);
    if AlignedRead(line, calls, i) && ReadResult(line, calls, i).Some? {
      AlignedReadReturnsPacket(line, calls, items, i);
    }
  }

  lemma {:induction false} AlignedByLead(line: Line, calls: seq<Read>, i: nat)
    requires Alternating(calls) && i < |calls|
    ensures AlignedRead(line, calls, i) <==> (Lead(line, calls[..i]) - i % 2) % FRAME_SIZE == 0
  {
    AlternatingPrefix(calls, i);
    LeadDecidesOffset(line, calls[..i], i % 2);
  }

  lemma {:induction false} AlignedReadReturnsPacket(line: Line, calls: seq<Read>, items: seq<Item>, i: nat)
    requires Alternating(calls) && Alternates(items) && Pending(line) + Arrivals(calls) <= Wire(items, 0)
    requires i < |calls| && AlignedRead(line, calls, i) && ReadResult(line, calls, i).Some?
    ensures ReturnsPacket(line, calls, items, i)
  {
    var at := |Delivered(line, calls[..i])|;
    CutPosition(at);
    DeliveredIsSliceOfStream(line, calls, i);
    PacketAt(items, Pending(line) + Arrivals(calls), PacketIndex(at), calls[i].size);
    DecodesTo(items[PacketIndex(at)], ReadResult(line, calls, i).value, i % 2 == 0);
  }

  lemma DecodesTo(item: Item, bytes: seq<byte>, isRc: bool)
    requires bytes == EncodeItem(item) && |bytes| == if isRc then RC_SIZE else IMU_SIZE
    ensures item == if isRc then RcItem(DecodeRc(bytes)) else ImuItem(DecodeImu(bytes))
  {
    match item
    case RcItem(rc) => RcRoundTrip(rc, EncodeRc(rc));
    case ImuItem(imu) => ImuRoundTrip(imu, EncodeImu(imu));
  }

  /** Two timeouts in a row, with or without partial bytes, leave the next read aligned. */
  lemma PairedTimeoutsRealign(line: Line, calls: seq<Read>, i: nat)
    requires Alternating(calls) && i + 2 < |calls| && AlignedRead(line, calls, i)
    requires ReadResult(line, calls, i).None? && ReadResult(line, calls, i + 1).None?
    ensures AlignedRead(line, calls, i + 2)
  {
    NextDelivered(line, calls, i);
    NextDelivered(line, calls, i + 1);
    assert Delivered(line, calls[..i + 2]) == Delivered(line, calls[..i]);
  }

  /** One timeout alone does not: the next read of that kind is off by a packet. */
  lemma LoneTimeoutMisaligns(line: Line, calls: seq<Read>, i: nat)
    requires Alternating(calls) && i + 2 < |calls| && AlignedRead(line, calls, i)
    requires ReadResult(line, calls, i).None? <==> ReadResult(line, calls, i + 1).Some?
    ensures !AlignedRead(line, calls, i + 2)
  {
    var at, first, second := Delivered(line, calls[..i]), ReadResult(line, calls, i), ReadResult(line, calls, i + 1);
    NextDelivered(line, calls, i);
    NextDelivered(line, calls, i + 1);
    assert Delivered(line, calls[..i + 2]) == at + BytesOf(first) + BytesOf(second);
    OffByOne(|at|, if first.Some? then calls[i].size else calls[i + 1].size);
  }

  lemma OffByOne(at: nat, size: nat)
    requires size == RC_SIZE || size == IMU_SIZE
    ensures (at + size) % FRAME_SIZE != at % FRAME_SIZE
  {
  }

  // ----- The MCU's reads -----

  /** The bytes not yet read after reads of surfaces during which these bytes arrived. */
  function Unread(arrived: seq<byte>, calls: seq<seq<byte>>): seq<byte> {
    if calls == [] then arrived
    else LeftAfter(Unread(arrived, calls[..|calls| - 1]) + calls[|calls| - 1], CS_SIZE)
  }

  /** What the i-th read gets. */
  function Received(arrived: seq<byte>, calls: seq<seq<byte>>, i: nat): (r: seq<byte>)
    requires i < |calls|
    ensures |r| <= CS_SIZE
  {
    ReadUpTo(Unread(arrived, calls[..i]) + calls[i], CS_SIZE)
  }

  /** How many bytes all reads got, and how many of them the reads that timed out. */
  function Consumed(arrived: seq<byte>, calls: seq<seq<byte>>): nat {
    if calls == [] then 0
    else Consumed(arrived, calls[..|calls| - 1]) + |Received(arrived, calls, |calls| - 1)|
  }

  function PartialBytes(arrived: seq<byte>, calls: seq<seq<byte>>): nat {
    if calls == [] then 0
    else
      var size := |Received(arrived, calls, |calls| - 1)|;
      PartialBytes(arrived, calls[..|calls| - 1]) + if size < CS_SIZE then size else 0
  }

  function Stream(arrived: seq<byte>, calls: seq<seq<byte>>): seq<byte> {
    if calls == [] then arrived else Stream(arrived, calls[..|calls| - 1]) + calls[|calls| - 1]
  }

  lemma {:induction false} UnreadIsRest(arrived: seq<byte>, calls: seq<seq<byte>>)
    ensures Consumed(arrived, calls) <= |Stream(arrived, calls)|
    ensures Unread(arrived, calls) == Stream(arrived, calls)[Consumed(arrived, calls)..]
  {
    if calls == [] {
      assert arrived[0..] == arrived;
    } else {
      var n := |calls| - 1;
      UnreadIsRest(arrived, calls[..n]);
      var at, s := Consumed(arrived, calls[..n]), Stream(arrived, calls[..n]);
      assert (s + calls[n])[at..] == s[at..] + calls[n];
      DropTwice(s + calls[n], at, |Received(arrived, calls, n)|);
    }
  }

  lemma {:induction false} StreamGrows(arrived: seq<byte>, calls: seq<seq<byte>>, i: nat)
    requires i <= |calls|
    ensures Stream(arrived, calls[..i]) <= Stream(arrived, calls)
  {
    if i == |calls| {
      assert calls[..i] == calls;
    } else {
      var n := |calls| - 1;
      StreamGrows(arrived, calls[..n], i);
      assert calls[..n][..i] == calls[..i];
    }
  }

  /** A read gets what has arrived by its end behind the bytes of the reads before it, up to four bytes. */
  lemma {:induction false} ReceivedIsSlice(arrived: seq<byte>, calls: seq<seq<byte>>, i: nat)
    requires i < |calls|
    ensures var at, r := Consumed(arrived, calls[..i]), Received(arrived, calls, i);
      && at + |r| <= |Stream(arrived, calls)| && r == Stream(arrived, calls)[at..at + |r|]
      && var available: int := |Stream(arrived, calls[..i + 1])| - at;
      |r| == if available < 4 then available else 4
  {
    var at, s := Consumed(arrived, calls[..i]), Stream(arrived, calls[..i]);
    UnreadIsRest(arrived, calls[..i]);
    StreamGrows(arrived, calls, i + 1);
    assert calls[..i + 1][..i] == calls[..i];
    assert (s + calls[i])[at..] == s[at..] + calls[i];
    CutOfPrefix(s + calls[i], Stream(arrived, calls), at, |Received(arrived, calls, i)|);
  }

  lemma {:induction false} ConsumedModulo(arrived: seq<byte>, calls: seq<seq<byte>>)
    ensures (Consumed(arrived, calls) - PartialBytes(arrived, calls)) % CS_SIZE == 0
  {
    if calls == [] {
      assert Consumed(arrived, []) == 0;
    } else {
      ConsumedModulo(arrived, calls[..|calls| - 1]);
    }
  }

  /**
   * The MCU's counterpart, where a timed-out read consumes what it got: the next read is cut at an answer's
   * first byte if and only if the bytes of all timed-out reads so far add up to 0 modulo 4; and then a
   * complete read returns the answer that was written there.
   */
  lemma {:induction false} AnswerFramingSurvivesExactly(arrived: seq<byte>, calls: seq<seq<byte>>,
                                                        packets: seq<ControlSurfacePacket>, i: nat)
    requires i < |calls| && Stream(arrived, calls) <= AnswerWire(packets, 0)
    ensures var at := Consumed(arrived, calls[..i]);
      && (at % CS_SIZE == 0 <==> PartialBytes(arrived, calls[..i]) % CS_SIZE == 0)
      && (at % CS_SIZE == 0 && |Received(arrived, calls, i)| == CS_SIZE ==>
            at / CS_SIZE < |packets| && DecodeCs(Received(arrived, calls, i)) == packets[at / CS_SIZE])
  {
    var at := Consumed(arrived, calls[..i]);
    ConsumedModulo(arrived, calls[..i]);
    if at % CS_SIZE == 0 && |Received(arrived, calls, i)| == CS_SIZE {
      var k := at / CS_SIZE;
      assert at == CS_SIZE * k;
      ReceivedIsSlice(arrived, calls, i);
      AnswerAt(packets, Stream(arrived, calls), k);
      CsRoundTrip(packets[k], EncodeCs(packets[k]));
    }
  }
}
