/** The two MIDI output queues: a packet is admitted to every connected port or to
    none, and each port delivers its bytes in order, whatever the board takes.
    Source: firmware/src/application.c, lines 44 to 98. */
module MidiOutput {
  import opened Rings

  const MIDI_BYTES: nat := 2048
  const IO_BYTES: nat := 256

  type Byte = b: int | 0 <= b < 256

  function Flatten(packets: seq<seq<Byte>>): seq<Byte> {
    if packets == [] then [] else Flatten(packets[..|packets| - 1]) + packets[|packets| - 1]
  }

  function Min(a: nat, b: nat): nat { if a < b then a else b }

  class Port {
    const bytes: array<Byte>
    var head: nat
    var count: nat
    var connected: bool
    // since the last observed change of the connection
    ghost var packets: seq<seq<Byte>>
    ghost var delivered: seq<Byte>

    predicate Shape()
      reads this`head, this`count
    {
      bytes.Length == MIDI_BYTES && head < MIDI_BYTES && count <= MIDI_BYTES
    }

    function Queue(): (q: seq<Byte>)
      requires Shape()
      reads this`head, this`count, bytes
      ensures |q| == count
    {
      Ring(bytes[..], head, count)
    }

    /** Nothing is torn, lost, doubled or out of order: what was delivered and what
        is queued are the accepted packets, one after the other. */
    ghost predicate Valid()
      reads this, bytes
    {
      Shape() && delivered + Queue() == Flatten(packets)
    }

    constructor ()
      ensures Valid() && !connected && packets == [] && delivered == [] && fresh(bytes)
    {
      bytes := new Byte[MIDI_BYTES];
      head, count, connected, packets, delivered := 0, 0, false, [], [];
    }

    /** midi_connections for this port: a change starts a new stream. */
    method Observe(now: bool) returns (abandoned: nat)
      requires Valid()
      modifies this
      ensures Valid() && connected == now
      ensures if now == old(connected) then packets == old(packets) && delivered == old(delivered) && Queue() == old(Queue())
                                            && abandoned == 0 && count == old(count)
              else packets == [] && delivered == [] && count == 0 && abandoned == old(count)
    {
      abandoned := 0;
      if now != connected {
        abandoned := count;
        head, count, connected := 0, 0, now;
        packets, delivered := [], [];
      }
    }

    /** The two copies of bosun_application_send_midi, around the end of the buffer. */
    method Copy(tail: nat, data: seq<Byte>)
      requires Shape() && tail < MIDI_BYTES && |data| <= MIDI_BYTES
      modifies bytes
      ensures bytes[..] == Written(old(bytes[..]), tail, data)
    {
      hide Written, Ring;
      ghost var was := bytes[..];
      var first := Min(|data|, MIDI_BYTES - tail);
      forall i | 0 <= i < first {
        bytes[tail + i] := data[i];
      }
      forall i | 0 <= i < |data| - first {
        bytes[i] := data[first + i];
      }
      TwoCopies(was, bytes[..], tail, data, first);
    }

    method Append(data: seq<Byte>)
      requires Valid() && |data| <= MIDI_BYTES - count
      modifies this`count, this`packets, bytes
      ensures Valid() && packets == old(packets) + [data] && count == old(count) + |data|
      ensures Queue() == old(Queue()) + data
    {
      hide Written, Ring, Flatten;
      ghost var was := bytes[..];
      ghost var q := Queue();
      Copy(At(MIDI_BYTES, head, count), data);
      Appended(was, head, count, data);
      count := count + |data|;
      FlattenLast(packets, data);
      assert delivered + (q + data) == (delivered + q) + data;
      packets := packets + [data];
    }

    lemma FlattenLast(before: seq<seq<Byte>>, data: seq<Byte>)
      ensures Flatten(before + [data]) == Flatten(before) + data
    {
      assert (before + [data])[..|before|] == before;
    }

    /** The two copies are one write around the end. */
    lemma TwoCopies(was: seq<Byte>, now: seq<Byte>, tail: nat, data: seq<Byte>, first: nat)
      requires |was| == |now| == MIDI_BYTES && tail < MIDI_BYTES && |data| <= MIDI_BYTES
      requires first == Min(|data|, MIDI_BYTES - tail)
      requires forall i | 0 <= i < MIDI_BYTES ::
                 now[i] == if i < |data| - first then data[first + i]
                           else if tail <= i < tail + first then data[i - tail] else was[i]
      ensures now == Written(was, tail, data)
    {
      hide Written;
      forall i | 0 <= i < MIDI_BYTES ensures now[i] == Written(was, tail, data)[i] {
        var k := if i >= tail then i - tail else MIDI_BYTES - tail + i;
        Wrap(tail + k, MIDI_BYTES);
        WrittenAt(was, tail, data, k);
      }
    }

    /** flush_midi for this port: the board takes a part of what is offered. */
    method Flush(taken: nat) returns (written: nat)
      requires Valid()
      modifies this`head, this`count, this`delivered
      ensures Valid() && packets == old(packets) && old(delivered) <= delivered
      ensures !connected || old(count) == 0 ==> delivered == old(delivered) && count == old(count)
      ensures count + written == old(count) && delivered == old(delivered) + old(Queue())[..written]
    {
      written := 0;
      if !connected || count == 0 {
        Nothing();
        return;
      }
      var length := Min(count, MIDI_BYTES - head);
      length := Min(length, IO_BYTES);
      var offered := bytes[head..head + length];
      Offered(length);
      written := Min(taken, length);
      Dropped(bytes[..], head, count, written);
      Moved(written, offered, delivered);
      delivered := delivered + offered[..written];
      head := At(MIDI_BYTES, head, written);
      count := count - written;
    }

    lemma Nothing()
      requires Shape()
      ensures delivered + Queue()[..0] == delivered
    {
    }

    /** What is offered to the board is the front of the queue. */
    lemma Offered(length: nat)
      requires Shape() && length <= count && head + length <= MIDI_BYTES
      ensures bytes[head..head + length] == Queue()[..length]
    {
      hide Ring;
      forall i | 0 <= i < length ensures bytes[head..head + length][i] == Queue()[..length][i] {
        RingAt(bytes[..], head, count, i);
        Wrap(head + i, MIDI_BYTES);
      }
    }

    lemma Moved(written: nat, offered: seq<Byte>, before: seq<Byte>)
      requires Shape() && written <= |offered| <= count && offered == Queue()[..|offered|]
      ensures offered[..written] == Queue()[..written]
      ensures (before + offered[..written]) + Queue()[written..] == before + Queue()
    {
      hide Ring;
      var q := Queue();
      assert q[..|offered|][..written] == q[..written];
      assert q == q[..written] + q[written..];
      assert (before + q[..written]) + q[written..] == before + (q[..written] + q[written..]);
    }
  }

  /** The application's two outputs, and its counters. */
  class Outputs {
    const usb: Port
    const din: Port
    var rejected: nat
    var abandoned: nat

    ghost predicate Valid()
      reads this, usb, din, usb.bytes, din.bytes
    {
      usb != din && usb.bytes != din.bytes && usb.Valid() && din.Valid()
    }

    constructor ()
      ensures Valid() && fresh(usb) && fresh(din) && fresh(usb.bytes) && fresh(din.bytes)
      ensures !usb.connected && !din.connected
    {
      usb := new Port();
      din := new Port();
      rejected, abandoned := 0, 0;
    }

    /** midi_connections: what the board says of both ports. */
    method Connections(usbNow: bool, dinNow: bool)
      requires Valid()
      modifies this`abandoned, usb, din
      ensures Valid() && usb.connected == usbNow && din.connected == dinNow
      ensures old(usb.connected) == usbNow ==> usb.packets == old(usb.packets) && usb.delivered == old(usb.delivered)
                                               && usb.count == old(usb.count)
      ensures old(usb.connected) != usbNow ==> usb.packets == [] && usb.delivered == [] && usb.count == 0
      ensures old(din.connected) == dinNow ==> din.packets == old(din.packets) && din.delivered == old(din.delivered)
                                               && din.count == old(din.count)
      ensures old(din.connected) != dinNow ==> din.packets == [] && din.delivered == [] && din.count == 0
      ensures abandoned == old(abandoned) + (if old(usb.connected) == usbNow then 0 else old(usb.count))
                           + (if old(din.connected) == dinNow then 0 else old(din.count))
    {
      hide Ring;
      var lost := usb.Observe(usbNow);
      abandoned := abandoned + lost;
      lost := din.Observe(dinNow);
      abandoned := abandoned + lost;
    }

    /** A port that is not connected takes nothing and keeps nobody waiting. */
    predicate Room(p: Port, length: nat)
      reads p`connected, p`count
    {
      p.connected ==> p.count + length <= MIDI_BYTES
    }

    /** bosun_application_send_midi: accepted by every connected port, and by at least
        one; or by none. */
    method Send(data: seq<Byte>, usbNow: bool, dinNow: bool) returns (ok: bool)
      requires Valid()
      modifies this, usb, din, usb.bytes, din.bytes
      ensures Valid()
      ensures ok ==> (usbNow || dinNow) && data != []
      ensures data != [] ==>
                (usb.packets == (if old(usb.connected) == usbNow then old(usb.packets) else [])
                                + (if ok && usbNow then [data] else []))
                && (din.packets == (if old(din.connected) == dinNow then old(din.packets) else [])
                                   + (if ok && dinNow then [data] else []))
      ensures data == [] ==> !ok && usb.packets == old(usb.packets) && din.packets == old(din.packets)
      ensures data != [] ==> usb.connected == usbNow && din.connected == dinNow
      ensures data != [] && !ok && (usbNow || dinNow) ==> !Room(usb, |data|) || !Room(din, |data|)
    {
      hide Ring, Flatten;
      if data == [] { return false; }
      Connections(usbNow, dinNow);
      if !Room(usb, |data|) || !Room(din, |data|) || (!usb.connected && !din.connected) {
        rejected := rejected + 1;
        NoMore(usb.packets);
        NoMore(din.packets);
        return false;
      }
      NoMore(usb.packets);
      NoMore(din.packets);
      if usb.connected { usb.Append(data); }
      if din.connected { din.Append(data); }
      return true;
    }

    lemma NoMore(packets: seq<seq<Byte>>)
      ensures packets + [] == packets
    {
    }

    /** flush_midi */
    method Flush(usbTaken: nat, dinTaken: nat)
      requires Valid()
      modifies usb, din
      ensures Valid() && usb.packets == old(usb.packets) && din.packets == old(din.packets)
      ensures old(usb.delivered) <= usb.delivered && old(din.delivered) <= din.delivered
      ensures usb.connected == old(usb.connected) && din.connected == old(din.connected)
    {
      hide Ring, Flatten;
      var written := usb.Flush(usbTaken);
      written := din.Flush(dinTaken);
    }
  }

  datatype Event = Sending(data: seq<Byte>, usb: bool, din: bool) | Observing(usb: bool, din: bool) | Flushing(usbTaken: nat, dinTaken: nat)

  /** Any run of sends, partial board writes, rejections and reconnects: for each
      port, the bytes delivered since the last observed change of its connection,
      followed by the queued ones, are the accepted packets in order. */
  method Run(o: Outputs, events: seq<Event>)
    requires o.Valid()
    modifies o, o.usb, o.din, o.usb.bytes, o.din.bytes
    ensures o.Valid()
    ensures o.usb.Shape() && o.usb.delivered + o.usb.Queue() == Flatten(o.usb.packets)
    ensures o.din.Shape() && o.din.delivered + o.din.Queue() == Flatten(o.din.packets)
  {
    hide Ring, Flatten;
    for k := 0 to |events|
      invariant o.Valid()
    {
      match events[k]
      case Sending(data, usb, din) => var ok := o.Send(data, usb, din);
      case Observing(usb, din) => o.Connections(usb, din);
      case Flushing(usb, din) => o.Flush(usb, din);
    }
  }
}
