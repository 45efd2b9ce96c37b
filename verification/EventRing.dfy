/** The protocol's ring of MIDI events: whole records of six header bytes and their
    data, first in first out, around the end of the buffer.
    Source: firmware/src/protocol.c, lines 81 to 131. */
module EventRing {
  import opened Rings

  const EVENT_BYTES: nat := 2048
  const MAX_DATA: nat := 1026
  const HEADER: nat := 6

  type Byte = b: int | 0 <= b < 256

  /** One monitored MIDI message. */
  datatype Record = Record(outbound: bool, port: Byte, channel: Byte, status: Byte, data: seq<Byte>)

  datatype Option<+T> = None | Some(value: T)

  function Encoded(r: Record): (bytes: seq<Byte>)
    requires |r.data| <= MAX_DATA
    ensures |bytes| == HEADER + |r.data|
  {
    [|r.data| % 256, |r.data| / 256, if r.outbound then 1 else 0, r.port, r.channel, r.status] + r.data
  }

  predicate Fit(records: seq<Record>) {
    forall i | 0 <= i < |records| :: |records[i].data| <= MAX_DATA
  }

  function EncodedAll(records: seq<Record>): seq<Byte>
    requires Fit(records)
  {
    if records == [] then [] else Encoded(records[0]) + EncodedAll(records[1..])
  }

  lemma {:induction false} EncodedLast(records: seq<Record>, r: Record)
    requires Fit(records) && |r.data| <= MAX_DATA
    ensures Fit(records + [r]) && EncodedAll(records + [r]) == EncodedAll(records) + Encoded(r)
  {
    hide Encoded;
    if records == [] {
      assert [r][1..] == [] && EncodedAll([]) == [];
      assert Encoded(r) + [] == Encoded(r) && [] + Encoded(r) == Encoded(r);
    } else {
      assert (records + [r])[1..] == records[1..] + [r];
      EncodedLast(records[1..], r);
      assert Encoded(records[0]) + (EncodedAll(records[1..]) + Encoded(r))
          == (Encoded(records[0]) + EncodedAll(records[1..])) + Encoded(r);
    }
  }

  /** The first record can be read off the front of the bytes. */
  lemma FirstRecord(records: seq<Record>, bytes: seq<Byte>)
    requires Fit(records) && bytes == EncodedAll(records) && bytes != []
    ensures records != [] && |bytes| >= HEADER
    ensures |records[0].data| == bytes[0] as int + 256 * bytes[1] as int && HEADER + |records[0].data| <= |bytes|
    ensures records[0] == Record(bytes[2] != 0, bytes[3], bytes[4], bytes[5], bytes[HEADER..HEADER + |records[0].data|])
    ensures bytes[HEADER + |records[0].data|..] == EncodedAll(records[1..])
  {
    assert EncodedAll([]) == [];
    var r, rest := records[0], EncodedAll(records[1..]);
    var e := Encoded(r);
    assert bytes == e + rest;
    assert bytes[..|e|] == e && bytes[|e|..] == rest;
    assert bytes[HEADER..HEADER + |r.data|] == e[HEADER..] == r.data;
    assert bytes[0] == e[0] && bytes[1] == e[1] && bytes[2] == e[2] && bytes[3] == e[3] && bytes[4] == e[4] && bytes[5] == e[5];
  }

  class Events {
    const bytes: array<Byte>
    var head: nat
    var length: nat
    var dropped: nat
    ghost var records: seq<Record>

    predicate Shape()
      reads this`head, this`length
    {
      bytes.Length == EVENT_BYTES && head < EVENT_BYTES && length <= EVENT_BYTES
    }

    function Queue(): (q: seq<Byte>)
      requires Shape()
      reads this`head, this`length, bytes
      ensures |q| == length
    {
      Ring(bytes[..], head, length)
    }

    /** The bytes are whole records. */
    ghost predicate Valid()
      reads this, bytes
    {
      Shape() && Fit(records) && Queue() == EncodedAll(records)
    }

    constructor ()
      ensures Valid() && records == [] && fresh(bytes)
    {
      bytes := new Byte[EVENT_BYTES];
      head, length, dropped, records := 0, 0, 0, [];
    }

    /** A session change: bosun_protocol_session. */
    method Clear()
      requires Valid()
      modifies this
      ensures Valid() && records == []
    {
      head, length, records := 0, 0, [];
    }

    /** event_byte */
    method Peek(offset: nat) returns (b: Byte)
      requires Shape() && offset < length
      ensures b == Queue()[offset]
    {
      RingAt(bytes[..], head, length, offset);
      b := bytes[At(EVENT_BYTES, head, offset)];
    }

    /** event_append of one byte. */
    method Push(b: Byte)
      requires Shape() && length < EVENT_BYTES
      modifies this`length, bytes
      ensures Shape() && Queue() == old(Queue()) + [b] && length == old(length) + 1
    {
      hide Ring;
      ghost var was := bytes[..];
      var at := At(EVENT_BYTES, head, length);
      bytes[at] := b;
      Appended(was, head, length, [b]);
      OneWritten(was, at, b);
      length := length + 1;
    }

    lemma OneWritten(was: seq<Byte>, at: nat, b: Byte)
      requires at < |was|
      ensures Written(was, at, [b]) == was[at := b]
    {
      assert [b][..0] == [];
      assert Written(was, at, []) == was;
      Wrap(at, |was|);
    }

    /** monitor(): a record that does not fit as a whole is dropped as a whole. */
    method Monitor(r: Record) returns (kept: bool)
      requires Valid()
      modifies this`length, this`records, this`dropped, bytes
      ensures Valid() && (kept <==> |r.data| <= MAX_DATA && |r.data| + HEADER <= EVENT_BYTES - old(length))
      ensures records == if kept then old(records) + [r] else old(records)
      ensures dropped == old(dropped) + (if kept then 0 else 1)
    {
      hide Ring, EncodedAll;
      if |r.data| > MAX_DATA || |r.data| + HEADER > EVENT_BYTES - length {
        dropped := dropped + 1;
        return false;
      }
      ghost var was := Queue();
      PushHeader(r);
      for i := 0 to |r.data|
        invariant Shape() && length == |was| + HEADER + i && Queue() == was + Encoded(r)[..HEADER + i]
        invariant head == old(head) && records == old(records) && dropped == old(dropped)
      {
        Push(r.data[i]);
        assert Encoded(r)[..HEADER + i + 1] == Encoded(r)[..HEADER + i] + [r.data[i]];
      }
      EncodedLast(records, r);
      assert Encoded(r)[..HEADER + |r.data|] == Encoded(r);
      records := records + [r];
      return true;
    }

    method PushHeader(r: Record)
      requires Shape() && |r.data| <= MAX_DATA && length + HEADER <= EVENT_BYTES
      modifies this`length, bytes
      ensures Shape() && Queue() == old(Queue()) + Encoded(r)[..HEADER] && length == old(length) + HEADER
    {
      hide Ring;
      var header: seq<Byte> := [|r.data| % 256, |r.data| / 256, if r.outbound then 1 else 0, r.port, r.channel, r.status];
      ghost var was := Queue();
      assert header[..0] == [];
      for i := 0 to HEADER
        invariant Shape() && length == |was| + i && Queue() == was + header[..i]
      {
        assert header[..i + 1] == header[..i] + [header[i]];
        Push(header[i]);
      }
      assert Encoded(r)[..HEADER] == header;
    }

    /** One turn of emit_midi_event: the first record is read and taken off. */
    method Take() returns (r: Record)
      requires Valid() && length > 0
      modifies this`head, this`length, this`records
      ensures Valid() && old(records) == [r] + records && length < old(length)
    {
      hide Ring, EncodedAll;
      FirstRecord(records, Queue());
      var low := Peek(0);
      var high := Peek(1);
      var size := low as int + 256 * high as int;
      var outbound := Peek(2);
      var port := Peek(3);
      var channel := Peek(4);
      var status := Peek(5);
      var data: seq<Byte> := [];
      for i := 0 to size
        invariant head == old(head) && length == old(length) && records == old(records)
        invariant data == Queue()[HEADER..HEADER + i]
      {
        var b := Peek(HEADER + i);
        data := data + [b];
      }
      r := Record(outbound != 0, port, channel, status, data);
      Dropped(bytes[..], head, length, HEADER + size);
      head := At(EVENT_BYTES, head, HEADER + size);
      length := length - (HEADER + size);
      records := records[1..];
    }

    /** emit_midi_event: while the monitor runs, the next record; else all go. */
    method Emit(monitoring: bool) returns (r: Option<Record>)
      requires Valid()
      modifies this`head, this`length, this`records
      ensures Valid()
      ensures monitoring ==> old(records) == (if r.Some? then [r.value] else []) + records
      ensures monitoring && r.None? ==> old(records) == []
      ensures !monitoring ==> r.None? && records == []
    {
      hide Ring, Fit;
      while length > 0
        invariant Valid() && (monitoring ==> records == old(records))
        decreases length
      {
        var record := Take();
        if monitoring { return Some(record); }
      }
      Emptied();
      r := None;
    }

    lemma Emptied()
      requires Valid() && length == 0
      ensures records == []
    {
    }
  }
}
