/** The MIDI input parser and the voice encoder: firmware/src/midi.c. Running
    status and System Real Time bytes follow the MIDI 1.0 Detailed Specification. */
module MidiParser {
  const MAX_SYSEX: nat := 1024

  type Byte = b: int | 0 <= b < 256

  /** What the callback gets: a voice message of channel 1 to 16, or the payload of
      a System Exclusive message without F0 and F7. */
  datatype Message = Voice(channel: nat, status: int, data: seq<Byte>) | SysEx(payload: seq<Byte>)

  datatype Option<+T> = None | Some(value: T)

  // ----- the parser as a function of its state

  datatype State = State(inSysex: bool, overflow: bool, sysex: seq<Byte>, status: int, data: seq<Byte>, expected: nat)

  predicate Realtime(b: Byte) { b >= 0xF8 }

  predicate DataByte(b: Byte) { b < 0x80 }

  /** Data bytes of a voice message. */
  function Expected(status: int): nat {
    if status / 16 == 0xC || status / 16 == 0xD then 1 else 2
  }

  predicate Good(p: State) {
    && |p.sysex| <= MAX_SYSEX && (!p.inSysex ==> !p.overflow)
    && (p.status == 0 || (0x80 <= p.status < 0xF0 && p.expected == Expected(p.status) && |p.data| < p.expected))
  }

  /** A data or end byte inside a System Exclusive message. */
  function InSysex(p: State, b: Byte): (State, Option<Message>) {
    if b == 0xF7 then
      (p.(inSysex := false, overflow := false, sysex := []), if p.overflow then None else Some(SysEx(p.sysex)))
    else if p.overflow then (p, None)
    else if |p.sysex| < MAX_SYSEX then (p.(sysex := p.sysex + [b]), None)
    else (p.(overflow := true, sysex := []), None)
  }

  /** A byte outside of any System Exclusive message. */
  function Plain(p: State, b: Byte): (State, Option<Message>) {
    if b >= 0xF0 then
      (State(b == 0xF0, p.overflow, if b == 0xF0 then [] else p.sysex, 0, [], 0), None)
    else if b >= 0x80 then (p.(status := b, data := [], expected := Expected(b)), None)
    else if p.status == 0 then (p, None)
    else if |p.data| + 1 == p.expected then
      (p.(data := []), Some(Voice(p.status % 16 + 1, p.status / 16 * 16, p.data + [b])))
    else (p.(data := p.data + [b]), None)
  }

  /** bosun_midi_feed_byte */
  function Step(p: State, b: Byte): (State, Option<Message>) {
    if Realtime(b) then (p, None)
    else if p.inSysex && (b == 0xF7 || DataByte(b)) then InSysex(p, b)
    else Plain(p.(inSysex := false, overflow := p.overflow && !p.inSysex, sysex := if p.inSysex then [] else p.sysex), b)
  }

  function Listed(m: Option<Message>): seq<Message> {
    match m
    case None => []
    case Some(x) => [x]
  }

  /** bosun_midi_feed */
  function Feed(p: State, bytes: seq<Byte>): (State, seq<Message>)
    decreases |bytes|
  {
    if bytes == [] then (p, [])
    else
      var (q, m) := Step(p, bytes[0]);
      var (r, rest) := Feed(q, bytes[1..]);
      (r, Listed(m) + rest)
  }

  // ----- the wire

  predicate GoodMessage(m: Message) {
    match m
    case Voice(channel, status, data) =>
      && 1 <= channel <= 16 && 0x80 <= status < 0xF0 && status % 16 == 0
      && |data| == Expected(status) && forall i | 0 <= i < |data| :: DataByte(data[i])
    case SysEx(payload) => forall i | 0 <= i < |payload| :: DataByte(payload[i])
  }

  function StatusByte(m: Message): int
    requires m.Voice?
  {
    m.status + m.channel - 1
  }

  /** A message as it is sent: running leaves the status byte out. */
  datatype Sent = Sent(message: Message, running: bool)

  function Bytes(s: Sent): seq<Byte>
    requires GoodMessage(s.message)
  {
    match s.message
    case Voice(_, _, data) => if s.running then data else [StatusByte(s.message)] + data
    case SysEx(payload) => [0xF0] + payload + [0xF7]
  }

  /** b may follow a without its status byte. */
  predicate RunsAfter(a: Message, b: Message) {
    a.Voice? && b.Voice? && StatusByte(a) == StatusByte(b)
  }

  /** Running status needs the status byte of the message before; none is in force
      at the start, where the parser's state is not known, and after a SysEx. */
  predicate Sendable(list: seq<Sent>) {
    list == [] ||
    (var n := |list| - 1;
     && Sendable(list[..n]) && GoodMessage(list[n].message)
     && (list[n].running ==> n > 0 && RunsAfter(list[n - 1].message, list[n].message)))
  }

  function Wire(list: seq<Sent>): seq<Byte>
    requires Sendable(list)
  {
    if list == [] then [] else Wire(list[..|list| - 1]) + Bytes(list[|list| - 1])
  }

  /** A stream without its System Real Time bytes. */
  function Strip(stream: seq<Byte>): seq<Byte> {
    if stream == [] then []
    else if Realtime(stream[0]) then Strip(stream[1..])
    else [stream[0]] + Strip(stream[1..])
  }

  /** What arrives: all but the System Exclusive messages that are too long. */
  function Delivered(list: seq<Sent>): seq<Message> {
    if list == [] then []
    else
      var m := list[|list| - 1].message;
      Delivered(list[..|list| - 1]) + if m.SysEx? && |m.payload| > MAX_SYSEX then [] else [m]
  }

  // ----- feeding

  lemma {:induction false} FeedConcat(p: State, a: seq<Byte>, b: seq<Byte>)
    ensures Feed(p, a + b) ==
            (Feed(Feed(p, a).0, b).0, Feed(p, a).1 + Feed(Feed(p, a).0, b).1)
    decreases |a|
  {
    hide Step;
    if a == [] {
      assert a + b == b;
      assert Feed(p, []) == (p, []);
      assert [] + Feed(p, b).1 == Feed(p, b).1;
    } else {
      var (q, m) := Step(p, a[0]);
      FeedConcat(q, a[1..], b);
      assert (a + b)[1..] == a[1..] + b;
      var (r, first) := Feed(q, a[1..]);
      var second := Feed(r, b).1;
      assert Listed(m) + (first + second) == (Listed(m) + first) + second;
    }
  }

  lemma FeedOne(p: State, b: Byte)
    ensures Feed(p, [b]) == (Step(p, b).0, Listed(Step(p, b).1))
  {
    hide Step;
    assert Feed(Step(p, b).0, []) == (Step(p, b).0, []);
    assert [b][1..] == [];
    assert Listed(Step(p, b).1) + [] == Listed(Step(p, b).1);
  }

  /** Real-time bytes change nothing, wherever they stand. */
  lemma {:induction false} StripKeeps(p: State, stream: seq<Byte>)
    ensures Feed(p, stream) == Feed(p, Strip(stream))
    decreases |stream|
  {
    hide Step;
    if stream != [] {
      var (q, m) := Step(p, stream[0]);
      StripKeeps(q, stream[1..]);
      if Realtime(stream[0]) {
        RealtimeStep(p, stream[0]);
        assert [] + Feed(q, stream[1..]).1 == Feed(q, stream[1..]).1;
      } else {
        assert ([stream[0]] + Strip(stream[1..]))[1..] == Strip(stream[1..]);
      }
    }
  }

  lemma RealtimeStep(p: State, b: Byte)
    requires Realtime(b)
    ensures Step(p, b) == (p, None)
  {
  }

  /** Waiting for the first data byte of a message with this status. */
  predicate Ready(p: State, status: int) {
    !p.inSysex && p.status == status && p.data == [] && 0x80 <= status < 0xF0 && p.expected == Expected(status)
  }

  lemma OneDataByte(p: State, m: Message)
    requires m.Voice? && GoodMessage(m) && Ready(p, StatusByte(m)) && |m.data| == 1
    ensures Step(p, m.data[0]) == (p, Some(m))
  {
    StatusParts(m);
    assert m.data == [m.data[0]] == [] + [m.data[0]];
    assert p.(data := []) == p;
  }

  lemma FirstDataByte(p: State, m: Message)
    requires m.Voice? && GoodMessage(m) && Ready(p, StatusByte(m)) && |m.data| == 2
    ensures Step(p, m.data[0]) == (p.(data := [m.data[0]]), None)
  {
    StatusParts(m);
    assert [] + [m.data[0]] == [m.data[0]];
  }

  lemma LastDataByte(p: State, m: Message)
    requires m.Voice? && GoodMessage(m) && Ready(p, StatusByte(m)) && |m.data| == 2
    ensures Step(p.(data := [m.data[0]]), m.data[1]) == (p, Some(m))
  {
    StatusParts(m);
    assert m.data == [m.data[0]] + [m.data[1]];
    assert p.(data := [m.data[0]]).(data := []) == p;
  }

  lemma DataFeeds(p: State, m: Message)
    requires m.Voice? && GoodMessage(m) && Ready(p, StatusByte(m))
    ensures Feed(p, m.data).1 == [m] && Ready(Feed(p, m.data).0, StatusByte(m))
  {
    hide Step, Feed;
    if |m.data| == 1 {
      OneDataByte(p, m);
      FeedOne(p, m.data[0]);
      assert m.data == [m.data[0]];
    } else {
      FirstDataByte(p, m);
      LastDataByte(p, m);
      assert m.data == [m.data[0]] + [m.data[1]];
      FeedConcat(p, [m.data[0]], [m.data[1]]);
      FeedOne(p, m.data[0]);
      FeedOne(p.(data := [m.data[0]]), m.data[1]);
    }
  }

  lemma StatusParts(m: Message)
    requires m.Voice? && GoodMessage(m)
    ensures 0x80 <= StatusByte(m) < 0xF0 && StatusByte(m) % 16 + 1 == m.channel
    ensures StatusByte(m) / 16 * 16 == m.status && Expected(StatusByte(m)) == Expected(m.status)
  {
  }

  lemma StatusFeeds(p: State, m: Message)
    requires m.Voice? && GoodMessage(m)
    ensures Feed(p, [StatusByte(m)]).1 == [] && Ready(Feed(p, [StatusByte(m)]).0, StatusByte(m))
  {
    StatusParts(m);
    FeedOne(p, StatusByte(m));
  }

  lemma {:induction false} PayloadFeeds(p: State, payload: seq<Byte>)
    requires p.inSysex && !p.overflow && p.sysex == [] && p.status == 0
    requires forall i | 0 <= i < |payload| :: DataByte(payload[i])
    ensures var (q, messages) := Feed(p, payload);
      && messages == [] && q.inSysex && q.status == 0
      && q.overflow == (|payload| > MAX_SYSEX) && (!q.overflow ==> q.sysex == payload)
  {
    if payload != [] {
      var n := |payload| - 1;
      PayloadFeeds(p, payload[..n]);
      FeedConcat(p, payload[..n], [payload[n]]);
      assert payload == payload[..n] + [payload[n]];
      FeedOne(Feed(p, payload[..n]).0, payload[n]);
    }
  }

  lemma SysExFeeds(p: State, payload: seq<Byte>)
    requires Good(p)
    requires forall i | 0 <= i < |payload| :: DataByte(payload[i])
    ensures var (q, messages) := Feed(p, [0xF0] + payload + [0xF7]);
      messages == (if |payload| > MAX_SYSEX then [] else [SysEx(payload)]) && !q.inSysex && q.status == 0
  {
    var start := Step(p, 0xF0).0;
    FeedOne(p, 0xF0);
    hide Step;
    FeedConcat(p, [0xF0] + payload, [0xF7]);
    FeedConcat(p, [0xF0], payload);
    Opening(p);
    PayloadFeeds(start, payload);
    var middle := Feed(start, payload).0;
    FeedOne(middle, 0xF7);
    Closing(middle);
  }

  /** F0 starts afresh from any state the parser can be in. */
  lemma Opening(p: State)
    requires Good(p)
    ensures var q := Step(p, 0xF0); q.0.inSysex && q.0.sysex == [] && q.0.status == 0 && q.1.None?
    ensures !Step(p, 0xF0).0.overflow
  {
  }

  lemma Closing(p: State)
    requires p.inSysex
    ensures Step(p, 0xF7) == (p.(inSysex := false, overflow := false, sysex := []), if p.overflow then None else Some(SysEx(p.sysex)))
  {
  }

  /** Every state a byte leads to is good. */
  lemma StepGood(p: State, b: Byte)
    requires Good(p)
    ensures Good(Step(p, b).0)
  {
  }

  lemma {:induction false} FeedGood(p: State, bytes: seq<Byte>)
    requires Good(p)
    ensures Good(Feed(p, bytes).0)
    decreases |bytes|
  {
    hide Step, Good;
    if bytes != [] {
      StepGood(p, bytes[0]);
      FeedGood(Step(p, bytes[0]).0, bytes[1..]);
    }
  }

  /** The state after a message lets the same status run on. */
  predicate After(p: State, m: Message) {
    m.Voice? ==> Ready(p, StatusByte(m))
  }

  lemma MessageFeeds(p: State, s: Sent)
    requires Good(p) && GoodMessage(s.message)
    requires s.running ==> s.message.Voice? && Ready(p, StatusByte(s.message))
    ensures var (q, messages) := Feed(p, Bytes(s));
      && messages == (if s.message.SysEx? && |s.message.payload| > MAX_SYSEX then [] else [s.message])
      && After(q, s.message)
  {
    hide Step, Feed, Ready, Good;
    match s.message
    case SysEx(payload) => SysExFeeds(p, payload);
    case Voice(_, _, data) =>
      if s.running {
        DataFeeds(p, s.message);
      } else {
        StatusFeeds(p, s.message);
        FeedConcat(p, [StatusByte(s.message)], data);
        DataFeeds(Feed(p, [StatusByte(s.message)]).0, s.message);
      }
  }

  lemma SendableBefore(list: seq<Sent>)
    requires Sendable(list) && list != []
    ensures Sendable(list[..|list| - 1]) && GoodMessage(list[|list| - 1].message)
  {
  }

  lemma {:induction false} WireFeeds(p: State, list: seq<Sent>)
    requires Good(p) && Sendable(list)
    ensures Feed(p, Wire(list)).1 == Delivered(list)
    ensures list != [] ==> After(Feed(p, Wire(list)).0, list[|list| - 1].message)
  {
    hide Step, Good, Feed, Bytes, Ready;
    if list == [] {
      FeedNothing(p);
    } else {
      var n := |list| - 1;
      var before := list[..n];
      SendableBefore(list);
      WireFeeds(p, before);
      FeedGood(p, Wire(before));
      FeedConcat(p, Wire(before), Bytes(list[n]));
      RunsOn(list, Feed(p, Wire(before)).0);
      MessageFeeds(Feed(p, Wire(before)).0, list[n]);
    }
  }

  /** Running status is used only where it is in force. */
  lemma RunsOn(list: seq<Sent>, p: State)
    requires Sendable(list) && list != []
    requires |list| > 1 ==> After(p, list[..|list| - 1][|list| - 2].message)
    ensures list[|list| - 1].running ==> list[|list| - 1].message.Voice? && Ready(p, StatusByte(list[|list| - 1].message))
  {
  }

  lemma FeedNothing(p: State)
    ensures Feed(p, []) == (p, [])
  {
  }

  /** The parser undoes the encoding and finds its way back: from every state it can
      be in, a stream that carries these messages, with status bytes left out where
      they may be and real-time bytes anywhere, delivers these messages. */
  lemma ParserInvertsWire(p: State, list: seq<Sent>, stream: seq<Byte>)
    requires Good(p) && Sendable(list) && Strip(stream) == Wire(list)
    ensures Feed(p, stream).1 == Delivered(list)
  {
    hide Good, Sendable, Feed, Strip, Wire, Delivered;
    StripKeeps(p, stream);
    WireFeeds(p, list);
  }

  lemma {:induction false} DeliversAll(list: seq<Sent>)
    requires forall i | 0 <= i < |list| :: list[i].message.SysEx? ==> |list[i].message.payload| <= MAX_SYSEX
    ensures |Delivered(list)| == |list| && forall i | 0 <= i < |list| :: Delivered(list)[i] == list[i].message
  {
    if list != [] { DeliversAll(list[..|list| - 1]); }
  }

  // ----- the code

  class Parser {
    const sysex: array<Byte>
    var sysexLength: nat
    const data: array<Byte>
    var dataLength: nat
    var status: int
    var expected: nat
    var inSysex: bool
    var overflow: bool
    var received: seq<Message>

    predicate Shape()
      reads this
    {
      sysex.Length == MAX_SYSEX && data.Length == 2 && sysex != data && sysexLength <= MAX_SYSEX && dataLength <= 2
    }

    function Value(): State
      requires Shape()
      reads this, sysex, data
    {
      State(inSysex, overflow, sysex[..sysexLength], status, data[..dataLength], expected)
    }

    predicate Valid()
      reads this, sysex, data
    {
      Shape() && Good(Value())
    }

    /** bosun_midi_init */
    constructor ()
      ensures Valid() && received == [] && Value() == State(false, false, [], 0, [], 0)
      ensures fresh(sysex) && fresh(data)
    {
      sysex := new Byte[MAX_SYSEX];
      data := new Byte[2];
      sysexLength, dataLength, status, expected, inSysex, overflow, received := 0, 0, 0, 0, false, false, [];
    }

    /** The branch for bytes of a System Exclusive message. */
    method FeedSysex(b: Byte)
      requires Valid() && inSysex && (b == 0xF7 || DataByte(b))
      modifies this, sysex
      ensures Shape() && Value() == InSysex(old(Value()), b).0
      ensures received == old(received) + Listed(InSysex(old(Value()), b).1)
    {
      ghost var was := sysex[..sysexLength];
      if b == 0xF7 {
        if !overflow { received := received + [SysEx(sysex[..sysexLength])]; }
        inSysex, overflow := false, false;
        sysexLength := 0;
        return;
      }
      if !overflow {
        if sysexLength < sysex.Length {
          sysex[sysexLength] := b;
          sysexLength := sysexLength + 1;
          assert sysex[..sysexLength] == was + [b];
        } else {
          overflow := true;
          sysexLength := 0;
        }
      }
    }

    /** The branch for everything else. */
    method FeedPlain(b: Byte)
      requires Valid() && !inSysex && !Realtime(b)
      modifies this, data
      ensures Shape() && Value() == Plain(old(Value()), b).0
      ensures received == old(received) + Listed(Plain(old(Value()), b).1)
    {
      ghost var was := data[..dataLength];
      if b >= 0xF0 {
        status, dataLength, expected := 0, 0, 0;
        if b == 0xF0 {
          inSysex := true;
          sysexLength := 0;
        }
        return;
      }
      if b >= 0x80 {
        status := b;
        dataLength := 0;
        expected := if b / 16 == 0xC || b / 16 == 0xD then 1 else 2;
        return;
      }
      if status == 0 { return; }
      data[dataLength] := b;
      dataLength := dataLength + 1;
      assert data[..dataLength] == was + [b];
      if dataLength == expected {
        received := received + [Voice(status % 16 + 1, status / 16 * 16, data[..dataLength])];
        dataLength := 0;
      }
    }

    /** bosun_midi_feed_byte */
    method FeedByte(b: Byte)
      requires Valid()
      modifies this, sysex, data
      ensures Valid() && Value() == Step(old(Value()), b).0 && received == old(received) + Listed(Step(old(Value()), b).1)
    {
      hide InSysex, Plain, Good;
      StepGood(Value(), b);
      if Realtime(b) { return; }
      if inSysex {
        if b == 0xF7 || DataByte(b) {
          FeedSysex(b);
          return;
        }
        Aborted(Value());
        inSysex, overflow := false, false;
        sysexLength := 0;
      }
      FeedPlain(b);
    }

    lemma Aborted(p: State)
      requires Good(p) && p.inSysex
      ensures Good(p.(inSysex := false, overflow := false, sysex := []))
    {
    }

    /** bosun_midi_feed */
    method FeedAll(bytes: seq<Byte>)
      requires Valid()
      modifies this, sysex, data
      ensures Valid() && Value() == Feed(old(Value()), bytes).0 && received == old(received) + Feed(old(Value()), bytes).1
    {
      hide Step, Good;
      assert bytes[..0] == [];
      for i := 0 to |bytes|
        invariant Valid()
        invariant Value() == Feed(old(Value()), bytes[..i]).0
        invariant received == old(received) + Feed(old(Value()), bytes[..i]).1
      {
        FeedConcat(old(Value()), bytes[..i], [bytes[i]]);
        FeedOne(Value(), bytes[i]);
        assert bytes[..i + 1] == bytes[..i] + [bytes[i]];
        FeedByte(bytes[i]);
      }
      assert bytes[..|bytes|] == bytes;
    }
  }

  // ----- the encoder

  /** x & 0x7f */
  function Seven(x: Byte): Byte { x % 128 }

  /** bosun_midi_encode: nothing for what is no voice message, or no room for it;
      else the wire form of a voice message with its data cut to seven bits. */
  method Encode(output: array<Byte>, channel: nat, status: int, first: Byte, second: Byte) returns (length: nat)
    requires 0 <= status < 256
    modifies output
    ensures length <= output.Length
    ensures length == 0 <==> !(1 <= channel <= 16 && 0x80 <= status <= 0xE0 && status % 16 == 0
                               && Expected(status) + 1 <= output.Length)
    ensures length > 0 ==>
              var m := Voice(channel, status, [Seven(first), Seven(second)][..Expected(status)]);
              GoodMessage(m) && output[..length] == Bytes(Sent(m, false))
  {
    if channel < 1 || channel > 16 || status < 0x80 || status > 0xE0 || status % 16 != 0 { return 0; }
    length := if status == 0xC0 || status == 0xD0 then 2 else 3;
    StatusKind(status);
    if output.Length < length { return 0; }
    output[0] := status + (channel - 1);
    output[1] := Seven(first);
    if length == 3 { output[2] := Seven(second); }
    var data: seq<Byte> := [Seven(first), Seven(second)][..Expected(status)];
    assert output[..length] == [StatusByte(Voice(channel, status, data))] + data;
  }

  lemma StatusKind(status: int)
    requires 0x80 <= status <= 0xE0 && status % 16 == 0
    ensures Expected(status) == if status == 0xC0 || status == 0xD0 then 1 else 2
  {
  }
}
