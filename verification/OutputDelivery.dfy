/** Delivery of encoded packets in poll mode: routes number their packets and push them on
    one shared queue; callers poll with buffers that may be too small. */
module OutputDelivery {
  import opened Basics
  import opened RouteModel

  datatype Packet = Packet(stream: nat, data: seq<Byte>, pts: int, dts: nat, user: int)

  /** What a poll answers; `TooSmall` reports the size that is needed. */
  datatype PollResult = NoOutput | TooSmall(size: nat) | Polled(packet: Packet)

  class OutputQueue {
    var packets: seq<Packet>

    constructor ()
      ensures packets == []
    {
      packets := [];
    }

    method Push(p: Packet)
      modifies this
      ensures packets == old(packets) + [p]
    {
      packets := packets + [p];
    }

    /** A packet leaves the queue only when it fits the caller's buffer. */
    method Poll(hasBuffer: bool, capacity: nat) returns (r: PollResult)
      modifies this
      ensures old(packets) == [] ==> r == NoOutput && packets == []
      ensures old(packets) != [] && (!hasBuffer || capacity < |old(packets)[0].data|) ==>
                r == TooSmall(|old(packets)[0].data|) && packets == old(packets)
      ensures old(packets) != [] && hasBuffer && capacity >= |old(packets)[0].data| ==>
                r == Polled(old(packets)[0]) && packets == old(packets)[1..]
    {
      if packets == [] { return NoOutput; }
      var p := packets[0];
      if !hasBuffer || capacity < |p.data| { return TooSmall(|p.data|); }
      packets := packets[1..];
      return Polled(p);
    }

    method DrainAll() returns (all: seq<Packet>)
      modifies this
      ensures all == old(packets) && packets == []
    {
      all, packets := packets, [];
    }
  }

  /** The routes' packet counters, the shared queue, and what callers have received. */
  class Delivery {
    const queue: OutputQueue
    var counters: seq<nat>
    ghost var received: seq<Packet>

    /** For every stream the packets received and then queued are numbered 0, 1, 2, ... */
    ghost predicate Valid()
      reads this, queue
    {
      forall s :: 0 <= s < |counters| ==> Numbered(OfStream(received + queue.packets, s), counters[s])
    }

    constructor (streams: nat)
      ensures Valid() && |counters| == streams && received == [] && fresh(queue)
    {
      queue := new OutputQueue();
      counters := seq(streams, _ => 0);
      received := [];
    }

    /** Pushes the bytes an encode produced; an empty bitstream produces no packet.  Draining
        the encoder uses the same call. */
    method PushEncoded(stream: nat, bits: Bits, pts: int, user: int)
      requires Valid() && stream < |counters|
      modifies this, queue
      ensures Valid() && received == old(received) && |counters| == |old(counters)|
      ensures bits.data == [] ==> queue.packets == old(queue.packets) && counters == old(counters)
      ensures bits.data != [] ==>
                && |queue.packets| == |old(queue.packets)| + 1 && old(queue.packets) <= queue.packets
                && IsPacketOf(queue.packets[|old(queue.packets)|], stream, bits, pts, user, old(counters[stream]))
                && counters == old(counters)[stream := old(counters[stream]) + 1]
    {
      if bits.data == [] { return; }
      var outPts := pts;
      if bits.stamp.Some? { outPts := bits.stamp.value; }
      var p := Packet(stream, bits.data, outPts, counters[stream], user);
      assert received + (queue.packets + [p]) == (received + queue.packets) + [p];
      NumberedPush(received + queue.packets, counters, p);
      counters := counters[stream := counters[stream] + 1];
      queue.Push(p);
    }

    /** A caller gets the front packet exactly when it fits the buffer. */
    method PollPacket(hasBuffer: bool, capacity: nat) returns (r: PollResult)
      requires Valid()
      modifies this`received, queue
      ensures Valid()
      ensures r.NoOutput? <==> old(queue.packets) == []
      ensures r.Polled? <==> old(queue.packets) != [] && hasBuffer && |old(queue.packets)[0].data| <= capacity
      ensures r.TooSmall? ==> r.size == |old(queue.packets)[0].data|
      ensures r.Polled? ==>
                && r.packet == old(queue.packets)[0] && queue.packets == old(queue.packets)[1..]
                && received == old(received) + [r.packet]
      ensures !r.Polled? ==> queue.packets == old(queue.packets) && received == old(received)
    {
      ghost var before := queue.packets;
      r := queue.Poll(hasBuffer, capacity);
      if r.Polled? {
        assert before == [r.packet] + queue.packets;
        assert received + before == (received + [r.packet]) + queue.packets;
        received := received + [r.packet];
      }
    }

    /** Whatever mixture of pushes, polls and too-small polls happened: the packets a caller
        received for a stream carry the numbers 0, 1, 2, ... without gap, loss or duplicate,
        and together with the queued ones they are all packets the stream produced. */
    lemma ReceivedInOrder(stream: nat)
      requires Valid() && stream < |counters|
      ensures Numbered(OfStream(received, stream), |OfStream(received, stream)|)
      ensures |OfStream(received, stream)| + |OfStream(queue.packets, stream)| == counters[stream]
    {
      OfStreamConcat(received, queue.packets, stream);
      var mine, all := OfStream(received, stream), OfStream(received + queue.packets, stream);
      forall i | 0 <= i < |mine| ensures mine[i].dts == i {
        assert all[i] == mine[i];
      }
    }
  }

  /** The packet holds the bitstream's data and time stamp, or the time stamp given when the
      bitstream has none, with the user pointer and number given. */
  predicate IsPacketOf(p: Packet, stream: nat, bits: Bits, pts: int, user: int, dts: nat) {
    && p.stream == stream && p.data == bits.data && p.user == user && p.dts == dts
    && (bits.stamp == None ==> p.pts == pts) && (bits.stamp != None ==> bits.stamp == Some(p.pts))
  }

  /** The packets of one stream, in order. */
  function OfStream(ps: seq<Packet>, stream: nat): seq<Packet> {
    if ps == [] then []
    else
      var n := |ps| - 1;
      OfStream(ps[..n], stream) + (if ps[n].stream == stream then [ps[n]] else [])
  }

  ghost predicate Numbered(ps: seq<Packet>, count: nat) {
    |ps| == count && forall i :: 0 <= i < |ps| ==> ps[i].dts == i
  }

  lemma OfStreamAppend(ps: seq<Packet>, p: Packet, stream: nat)
    ensures OfStream(ps + [p], stream) == OfStream(ps, stream) + (if p.stream == stream then [p] else [])
  {
    assert (ps + [p])[..|ps|] == ps;
  }

  lemma {:induction false} OfStreamConcat(ps: seq<Packet>, qs: seq<Packet>, stream: nat)
    ensures OfStream(ps + qs, stream) == OfStream(ps, stream) + OfStream(qs, stream)
    decreases |qs|
  {
    if qs == [] {
      assert ps + qs == ps;
    } else {
      var n := |qs| - 1;
      OfStreamConcat(ps, qs[..n], stream);
      assert (ps + qs)[..|ps + qs| - 1] == ps + qs[..n];
    }
  }

  /** A packet with its stream's next number keeps every stream numbered. */
  lemma NumberedPush(ps: seq<Packet>, counters: seq<nat>, p: Packet)
    requires forall s :: 0 <= s < |counters| ==> Numbered(OfStream(ps, s), counters[s])
    requires p.stream < |counters| && p.dts == counters[p.stream]
    ensures var after := counters[p.stream := p.dts + 1];
            forall s :: 0 <= s < |counters| ==> Numbered(OfStream(ps + [p], s), after[s])
  {
    var after := counters[p.stream := p.dts + 1];
    forall s | 0 <= s < |counters| ensures Numbered(OfStream(ps + [p], s), after[s]) {
      assert Numbered(OfStream(ps, s), counters[s]);
      OfStreamAppend(ps, p, s);
    }
  }
}
