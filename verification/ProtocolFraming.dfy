/** The serial protocol's framing: one bounded line at a time, one reply at a time,
    and events only between replies. What a request does is not modelled here; its
    outcome is handed to Feed. Source: firmware/src/protocol.c, lines 26 to 38, 87 to
    131 and 624 to 684. */
module ProtocolFraming {
  import opened EventRing
  import Rings

  const RX_BYTES: nat := 26624
  const TX_BYTES: nat := 30720
  const TIMEOUT_MS: nat := 5000
  const CLOCK: nat := 0x1_0000_0000

  type Text = s: string | 2 <= |s| < TX_BYTES witness "}\n"

  /** error() before any request is read: no id and no type. */
  function ErrorText(reason: string): Text
    requires |reason| <= 256
  {
    "{\"type\":\"ERROR\"," + "\"id\":null," + "\"error\":\"" + reason + "\",\"of\":\"\"}\n"
  }

  const TOO_LARGE: Text := ErrorText("request_too_large")
  const STALLED: Text := ErrorText("receive_timeout")

  // ----- what a stream of input asks for

  /** What the receiver sees: bytes, and lines that stall. */
  datatype Symbol = Got(c: char) | TimedOut

  datatype Item = Request(line: string) | TooLarge | Stalled

  /** The line under way, and whether it has stalled. */
  datatype Open = Open(line: string, stalled: bool)

  function Pending(input: seq<Symbol>): Open {
    if input == [] then Open("", false)
    else
      var before := Pending(input[..|input| - 1]);
      match input[|input| - 1]
      case TimedOut => before.(stalled := true)
      case Got(c) => if c == '\n' then Open("", false) else before.(line := before.line + [c])
  }

  /** A line that ends is answered once, unless it is empty. */
  function Ending(o: Open): seq<Item> {
    if o.stalled || |o.line| > RX_BYTES then [TooLarge] else if o.line == "" then [] else [Request(o.line)]
  }

  /** What the next symbol asks for. */
  function Asked(before: Open, s: Symbol): seq<Item> {
    match s
    case TimedOut => [Stalled]
    case Got(c) => if c == '\n' then Ending(before) else []
  }

  function Items(input: seq<Symbol>): seq<Item> {
    if input == [] then []
    else Items(input[..|input| - 1]) + Asked(Pending(input[..|input| - 1]), input[|input| - 1])
  }

  lemma Last(input: seq<Symbol>, s: Symbol)
    ensures Items(input + [s]) == Items(input) + Asked(Pending(input), s)
    ensures Pending(input + [s]) ==
            match s {
              case TimedOut => Pending(input).(stalled := true)
              case Got(c) => if c == '\n' then Open("", false) else Pending(input).(line := Pending(input).line + [c])
            }
  {
    assert (input + [s])[..|input|] == input;
  }

  function Bytes(text: string): (s: seq<Symbol>)
    ensures |s| == |text|
  {
    seq(|text|, i requires 0 <= i < |text| => Got(text[i]))
  }

  lemma BytesMore(text: string, more: string)
    ensures Bytes(text + more) == Bytes(text) + Bytes(more)
  {
  }

  // ----- the same, line by line

  function Joined(lines: seq<string>): string {
    if lines == [] then "" else Joined(lines[..|lines| - 1]) + lines[|lines| - 1] + ['\n']
  }

  /** One item for each line that is not empty. */
  function PerLine(lines: seq<string>): seq<Item> {
    if lines == [] then [] else PerLine(lines[..|lines| - 1]) + Ending(Open(lines[|lines| - 1], false))
  }

  lemma {:induction false} OpenLine(input: seq<Symbol>, line: string)
    requires '\n' !in line
    ensures Items(input + Bytes(line)) == Items(input)
    ensures Pending(input + Bytes(line)) == Pending(input).(line := Pending(input).line + line)
  {
    hide Bytes, Items, Pending;
    if line == "" {
      assert input + Bytes(line) == input && Pending(input).line + line == Pending(input).line;
    } else {
      var front, c := line[..|line| - 1], line[|line| - 1];
      OpenLine(input, front);
      BytesMore(front, [c]);
      One(c);
      assert front + [c] == line;
      assert input + Bytes(line) == (input + Bytes(front)) + [Got(c)];
      Last(input + Bytes(front), Got(c));
      assert Pending(input).line + front + [c] == Pending(input).line + line;
    }
  }

  lemma One(c: char)
    ensures Bytes([c]) == [Got(c)]
  {
  }

  /** Without a stall, the input is answered line by line. */
  lemma {:induction false} LineByLine(lines: seq<string>, rest: string)
    requires '\n' !in rest && forall i | 0 <= i < |lines| :: '\n' !in lines[i]
    ensures Items(Bytes(Joined(lines) + rest)) == PerLine(lines)
    ensures Pending(Bytes(Joined(lines) + rest)) == Open(rest, false)
  {
    hide Bytes, Items, Pending, Ending;
    if lines == [] {
      Nothing();
      OpenLine([], rest);
      assert [] + Bytes(rest) == Bytes(rest) && Joined(lines) + rest == rest && "" + rest == rest;
    } else {
      var front, last := lines[..|lines| - 1], lines[|lines| - 1];
      LineByLine(front, last);
      var before := Bytes(Joined(front) + last);
      Last(before, Got('\n'));
      One('\n');
      BytesMore(Joined(front) + last, ['\n']);
      BytesMore(Joined(lines), rest);
      OpenLine(Bytes(Joined(lines)), rest);
      assert "" + rest == rest;
    }
  }

  lemma Nothing()
    ensures Items([]) == [] && Pending([]) == Open("", false) && Bytes("") == []
  {
  }

  // ----- what is sent

  /** One reply or event, sent whole. */
  datatype Unit = Answer(item: Item, text: Text) | Midi(record: Record, text: Text) | Note(text: Text)

  function Texts(units: seq<Unit>): string {
    if units == [] then "" else Texts(units[..|units| - 1]) + units[|units| - 1].text
  }

  /** The items answered, in order. */
  function Answered(units: seq<Unit>): seq<Item> {
    if units == [] then []
    else Answered(units[..|units| - 1]) + (if units[|units| - 1].Answer? then [units[|units| - 1].item] else [])
  }

  function Monitored(units: seq<Unit>): seq<Record> {
    if units == [] then []
    else Monitored(units[..|units| - 1]) + (if units[|units| - 1].Midi? then [units[|units| - 1].record] else [])
  }

  lemma LastUnit(units: seq<Unit>, u: Unit)
    ensures Texts(units + [u]) == Texts(units) + u.text
    ensures Answered(units + [u]) == Answered(units) + (if u.Answer? then [u.item] else [])
    ensures Monitored(units + [u]) == Monitored(units) + (if u.Midi? then [u.record] else [])
  {
    assert (units + [u])[..|units|] == units;
  }

  /** The errors of the framing itself have fixed texts. */
  predicate Proper(u: Unit) {
    u.Answer? ==> (u.item == TooLarge ==> u.text == TOO_LARGE) && (u.item == Stalled ==> u.text == STALLED)
  }

  predicate Fixed(units: seq<Unit>) {
    forall i | 0 <= i < |units| :: Proper(units[i])
  }

  /** What handle does with a request: its reply, and two of its effects. */
  datatype Outcome = Outcome(reply: Text, reboot: bool, monitoring: bool)

  /** The last reply is the one handle gave. */
  predicate Replied(units: seq<Unit>, o: Outcome) {
    units != [] && units[|units| - 1].Answer? && units[|units| - 1].item.Request? ==> units[|units| - 1].text == o.reply
  }

  /** The receive buffer's use, and the transmit buffer's. */
  datatype Receive = Receive(length: nat, discarding: bool)

  datatype Send = Send(length: nat, offset: nat)

  /** The session so far: what came in, what was put out, what the transport took of
      it, and the monitored messages that were not thrown away. */
  datatype Log = Log(input: seq<Symbol>, units: seq<Unit>, sent: string, admitted: seq<Record>)

  /** The receive buffer holds the line under way, or the line is being skipped. */
  predicate Receiving(rx: seq<char>, line: Receive, open: Open) {
    && |rx| == RX_BYTES + 1 && line.length <= RX_BYTES
    && (line.discarding <==> open.stalled || |open.line| > RX_BYTES)
    && rx[..line.length] == if line.discarding then "" else open.line
  }

  /** At most one unit is under way; all those before it were sent whole. */
  predicate Sending(tx: seq<char>, out: Send, units: seq<Unit>, sent: string) {
    && |tx| == TX_BYTES && out.offset <= out.length <= TX_BYTES
    && (if out.length == 0 then sent == Texts(units)
        else && units != [] && out.offset < out.length == |units[|units| - 1].text|
             && tx[..out.length] == units[|units| - 1].text
             && sent == Texts(units[..|units| - 1]) + units[|units| - 1].text[..out.offset])
  }

  /** Every item was answered once, in order. */
  ghost predicate AllAnswered(log: Log) {
    Answered(log.units) == Items(log.input) && Fixed(log.units)
  }

  lemma StillFixed(units: seq<Unit>, u: Unit)
    requires Fixed(units) && Proper(u)
    ensures Fixed(units + [u])
  {
    hide Proper;
    forall i | 0 <= i < |units + [u]| ensures Proper((units + [u])[i]) {
      if i < |units| { assert Proper(units[i]); }
    }
  }

  /** A symbol that asks for nothing. */
  lemma Silent(log: Log, s: Symbol)
    requires AllAnswered(log) && Asked(Pending(log.input), s) == []
    ensures AllAnswered(log.(input := log.input + [s]))
  {
    hide Pending, Items, Asked, Fixed, Answered;
    Last(log.input, s);
    assert Items(log.input) + [] == Items(log.input);
  }

  /** A symbol and its answer are one step. */
  lemma Step(log: Log, s: Symbol, u: Unit)
    requires AllAnswered(log) && u.Answer? && Proper(u) && Asked(Pending(log.input), s) == [u.item]
    ensures AllAnswered(log.(input := log.input + [s], units := log.units + [u]))
    ensures Monitored(log.units + [u]) == Monitored(log.units)
  {
    hide Pending, Items, Asked, Fixed, Answered, Monitored, Texts, Proper;
    Last(log.input, s);
    LastUnit(log.units, u);
    StillFixed(log.units, u);
    assert Monitored(log.units) + [] == Monitored(log.units);
  }

  /** A note or a monitored message answers nothing. */
  lemma Aside(log: Log, u: Unit)
    requires AllAnswered(log) && !u.Answer?
    ensures AllAnswered(log.(units := log.units + [u]))
  {
    hide Fixed, Items;
    LastUnit(log.units, u);
    StillFixed(log.units, u);
    assert Answered(log.units) + [] == Answered(log.units);
  }

  lemma Stored(rx: seq<char>, line: Receive, open: Open, c: char)
    requires Receiving(rx, line, open)
    ensures line.discarding ==> Receiving(rx, line, open.(line := open.line + [c]))
    ensures !line.discarding && line.length == RX_BYTES ==> Receiving(rx, Receive(0, true), open.(line := open.line + [c]))
    ensures !line.discarding && line.length < RX_BYTES ==>
              Receiving(rx[line.length := c], Receive(line.length + 1, false), open.(line := open.line + [c]))
  {
    if !line.discarding && line.length < RX_BYTES {
      assert rx[line.length := c][..line.length + 1] == rx[..line.length] + [c];
    }
  }

  /** The transport took the next n bytes. */
  lemma Moved(tx: seq<char>, out: Send, units: seq<Unit>, sent: string, n: nat)
    requires Sending(tx, out, units, sent) && out.offset + n <= out.length
    ensures Sending(tx, if out.offset + n == out.length then Send(0, 0) else Send(out.length, out.offset + n), units,
                    sent + tx[out.offset..out.offset + n])
  {
    if out.length == 0 {
      assert sent + tx[out.offset..out.offset + n] == sent;
    } else {
      var text := units[|units| - 1].text;
      assert tx[out.offset..out.offset + n] == text[out.offset..out.offset + n];
      assert text[..out.offset] + text[out.offset..out.offset + n] == text[..out.offset + n];
      assert sent + text[out.offset..out.offset + n] == Texts(units[..|units| - 1]) + text[..out.offset + n];
      assert text[..|text|] == text;
    }
  }

  lemma Put(tx: seq<char>, out: Send, units: seq<Unit>, sent: string, u: Unit)
    requires sent == Texts(units) && |tx| == TX_BYTES && tx[..|u.text|] == u.text && out == Send(|u.text|, 0)
    ensures Sending(tx, out, units + [u], sent)
  {
    assert (units + [u])[..|units|] == units;
    assert u.text[..0] == "" && sent + "" == sent;
  }

  class Protocol {
    const render: Record -> Text
    const rx: array<char>
    const tx: array<char>
    const events: Events
    var line: Receive
    var lastRx: nat
    var out: Send
    var connected: bool
    var rebooting: bool
    var monitoring: bool
    ghost var log: Log

    ghost predicate Valid()
      reads this`line, this`out, this`log, rx, tx, events, events.bytes
    {
      && rx != tx && Receiving(rx[..], line, Pending(log.input)) && Sending(tx[..], out, log.units, log.sent)
      && AllAnswered(log) && events.Valid() && Monitored(log.units) + events.records == log.admitted
    }

    constructor (render: Record -> Text)
      ensures Valid() && !connected && !rebooting && log == Log([], [], "", [])
      ensures fresh(rx) && fresh(tx) && fresh(events) && fresh(events.bytes)
    {
      this.render := render;
      rx, tx := new char[RX_BYTES + 1], new char[TX_BYTES];
      events := new Events();
      line, lastRx, out := Receive(0, false), 0, Send(0, 0);
      connected, rebooting, monitoring := false, false, false;
      log := Log([], [], "", []);
    }

    /** bosun_protocol_session: a change of the connection starts over. */
    method Session(now: bool)
      requires Valid()
      modifies this`line, this`out, this`connected, this`rebooting, this`monitoring, this`log, events
      ensures Valid() && connected == now
      ensures now != old(connected) ==> log == Log([], [], "", []) && !rebooting && out.length == 0
      ensures now == old(connected) ==> log == old(log) && rebooting == old(rebooting) && out == old(out)
    {
      hide Pending, Texts, Answered, Items, Monitored, Fixed, Events.Valid;
      if connected == now { return; }
      Fresh();
      events.Clear();
      connected, line, out := now, Receive(0, false), Send(0, 0);
      rebooting, monitoring := false, false;
      log := Log([], [], "", []);
    }

    static lemma Fresh()
      ensures Texts([]) == "" && Answered([]) == [] && Monitored([]) == [] && Items([]) == [] && Fixed([])
      ensures Pending([]) == Open("", false)
    {
    }

    /** finish(): a whole text is put out, behind nothing else. */
    method Finish(u: Unit)
      requires tx.Length == TX_BYTES && log.sent == Texts(log.units)
      modifies this`out, this`log, tx
      ensures Sending(tx[..], out, log.units, log.sent)
      ensures out == Send(|u.text|, 0) && log == old(log).(units := old(log).units + [u])
    {
      hide Texts, Sending;
      var text := u.text;
      forall i | 0 <= i < |text| {
        tx[i] := text[i];
      }
      out := Send(|text|, 0);
      Put(tx[..], out, log.units, log.sent, u);
      log := log.(units := log.units + [u]);
    }

    /** A byte that does not end the line is kept, unless the line is too long. */
    method Store(c: char)
      requires Receiving(rx[..], line, Pending(log.input)) && c != '\n'
      modifies this`line, this`log, rx
      ensures Receiving(rx[..], line, Pending(log.input)) && log == old(log).(input := old(log).input + [Got(c)])
    {
      hide Items, Pending;
      Last(log.input, Got(c));
      Stored(rx[..], line, Pending(log.input), c);
      log := log.(input := log.input + [Got(c)]);
      if !line.discarding {
        if line.length == RX_BYTES {
          line := Receive(0, true);
        } else {
          rx[line.length] := c;
          line := Receive(line.length + 1, false);
        }
      }
    }

    /** The end of a line. */
    method EndLine(o: Outcome)
      requires Valid() && out.length == 0
      modifies this`line, this`out, this`rebooting, this`monitoring, this`log, rx, tx
      ensures Valid() && log.input == old(log).input + [Got('\n')] && log.sent == old(log).sent
      ensures old(log).units <= log.units && |log.units| == |old(log).units| + |Ending(Pending(old(log).input))|
      ensures (out.length == 0 <==> log.units == old(log).units) && (out.length != 0 ==> Replied(log.units, o))
      ensures rebooting ==> old(rebooting) || o.reboot
    {
      hide Texts, Answered, Monitored, Items, Pending, Fixed, Events.Valid, AllAnswered;
      Last(log.input, Got('\n'));
      ghost var was := log;
      if line.discarding {
        Step(log, Got('\n'), Answer(TooLarge, TOO_LARGE));
        Finish(Answer(TooLarge, TOO_LARGE));
      } else if line.length > 0 {
        rx[line.length] := '\0';
        var request := rx[..line.length];
        Step(log, Got('\n'), Answer(Request(request), o.reply));
        Finish(Answer(Request(request), o.reply));
        rebooting, monitoring := o.reboot, o.monitoring;
      } else {
        Silent(log, Got('\n'));
      }
      line := Receive(0, false);
      log := log.(input := log.input + [Got('\n')]);
    }

    /** One turn of the loop in bosun_protocol_feed. */
    method Take(c: char, now: nat, o: Outcome)
      requires Valid() && out.length == 0
      modifies this`line, this`lastRx, this`out, this`rebooting, this`monitoring, this`log, rx, tx
      ensures Valid() && log.input == old(log).input + [Got(c)] && log.sent == old(log).sent && lastRx == now
      ensures old(log).units <= log.units && |log.units| == |old(log).units| + |Asked(Pending(old(log).input), Got(c))|
      ensures (out.length == 0 <==> log.units == old(log).units) && (out.length != 0 ==> Replied(log.units, o))
      ensures rebooting ==> old(rebooting) || o.reboot
    {
      hide Texts, Answered, Monitored, Items, Pending, Fixed, Events.Valid, AllAnswered, Receiving, Sending, Ending, Replied;
      lastRx := now;
      if c == '\n' {
        EndLine(o);
      } else {
        Silent(log, Got(c));
        Store(c);
      }
    }

    /** bosun_protocol_feed: nothing is taken while a reply is under way, and no more
        after a line that is answered. */
    method Feed(data: string, now: nat, o: Outcome) returns (consumed: nat)
      requires Valid()
      modifies this`line, this`lastRx, this`out, this`rebooting, this`monitoring, this`log, rx, tx
      ensures Valid() && consumed <= |data|
      ensures log.input == old(log).input + Bytes(data[..consumed]) && log.sent == old(log).sent
      ensures !connected || old(out).length > 0 || old(rebooting) ==> consumed == 0 && log == old(log) && out == old(out)
      ensures connected && old(out).length == 0 && !old(rebooting) ==>
                && (data != "" ==> consumed > 0) && (consumed < |data| ==> out.length > 0)
                && (out.length == 0 ==> log.units == old(log).units)
      ensures old(log).units <= log.units && (log.units != old(log).units ==> Replied(log.units, o))
      ensures rebooting ==> old(rebooting) || o.reboot
    {
      hide Pending, Bytes, Replied, Asked, Valid;
      consumed := 0;
      Nothing();
      assert log.input + [] == log.input;
      if !connected || out.length > 0 || rebooting { return; }
      while consumed < |data| && out.length == 0
        invariant consumed <= |data| && Valid() && log.input == old(log).input + Bytes(data[..consumed])
        invariant (out.length == 0 <==> log.units == old(log).units) && log.sent == old(log).sent
        invariant old(log).units <= log.units && (out.length != 0 ==> Replied(log.units, o))
        invariant (consumed == 0 ==> out.length == 0) && (rebooting ==> o.reboot)
      {
        MoreBytes(old(log).input, data, consumed);
        Take(data[consumed], now, o);
        consumed := consumed + 1;
      }
    }

    static lemma MoreBytes(input: seq<Symbol>, data: string, n: nat)
      requires n < |data|
      ensures (input + Bytes(data[..n])) + [Got(data[n])] == input + Bytes(data[..n + 1])
    {
      One(data[n]);
      BytesMore(data[..n], [data[n]]);
      assert data[..n + 1] == data[..n] + [data[n]];
    }

    /** bosun_protocol_consume_output: the transport took the next bytes. */
    method ConsumeOutput(length: nat) returns (taken: string)
      requires Valid()
      modifies this`out, this`log
      ensures Valid() && log == old(log).(sent := old(log).sent + taken)
      ensures |taken| == if length < old(out.length - out.offset) then length else old(out.length - out.offset)
      ensures out.length == 0 <==> length >= old(out.length - out.offset)
    {
      hide Texts, Answered, Monitored, Items, Pending, Fixed, Events.Valid, Receiving;
      var n := if length > out.length - out.offset then out.length - out.offset else length;
      taken := tx[out.offset..out.offset + n];
      Moved(tx[..], out, log.units, log.sent, n);
      log := log.(sent := log.sent + taken);
      out := if out.offset + n == out.length then Send(0, 0) else Send(out.length, out.offset + n);
    }

    /** monitor(): the runtime saw a MIDI message. */
    method Monitor(r: Record)
      requires Valid()
      modifies this`log, events, events.bytes
      ensures Valid() && log.admitted <= old(log).admitted + [r] && old(log).admitted <= log.admitted
      ensures log == old(log).(admitted := log.admitted)
    {
      hide Pending, Texts, Answered, Items, Monitored, Fixed, Events.Valid, Receiving, Sending;
      if !connected || !monitoring || rebooting { return; }
      ghost var was := events.records;
      var kept := events.Monitor(r);
      assert Monitored(log.units) + (was + [r]) == (Monitored(log.units) + was) + [r];
      if kept { log := log.(admitted := log.admitted + [r]); }
    }

    /** A line has been under way for too long. */
    predicate Stalls(now: nat)
      reads this`connected, this`rebooting, this`out, this`line, this`lastRx
    {
      connected && !rebooting && out.length == 0 && line.length > 0 && (now - lastRx) % CLOCK >= TIMEOUT_MS
    }

    method Stall()
      requires Valid() && out.length == 0 && line.length > 0
      modifies this`line, this`out, this`log, tx
      ensures Valid() && out.length > 0
      ensures log == old(log).(input := old(log).input + [TimedOut], units := old(log).units + [Answer(Stalled, STALLED)])
    {
      hide Texts, Answered, Monitored, Items, Pending, Fixed, Events.Valid, AllAnswered;
      Last(log.input, TimedOut);
      Step(log, TimedOut, Answer(Stalled, STALLED));
      line := Receive(0, true);
      Finish(Answer(Stalled, STALLED));
      log := log.(input := log.input + [TimedOut]);
    }

    method Tell(text: Text)
      requires Valid() && out.length == 0
      modifies this`out, this`log, tx
      ensures Valid() && out.length > 0 && log == old(log).(units := old(log).units + [Note(text)])
    {
      hide Texts, Answered, Monitored, Items, Pending, Fixed, Events.Valid, AllAnswered, Receiving;
      Aside(log, Note(text));
      LastUnit(log.units, Note(text));
      assert Monitored(log.units) + [] == Monitored(log.units);
      Finish(Note(text));
    }

    /** emit_midi_event: the oldest monitored message; all of them go when the monitor
        is off. */
    method EmitMidi()
      requires Valid() && out.length == 0
      modifies this`out, this`log, tx, events
      ensures Valid() && log.input == old(log).input && log.sent == old(log).sent
      ensures monitoring ==> log.admitted == old(log).admitted
      ensures log.units == old(log).units
              || exists r :: log.units == old(log).units + [Midi(r, render(r))]
      ensures monitoring && log.units == old(log).units ==> log.admitted == Monitored(log.units)
    {
      hide Texts, Answered, Monitored, Items, Pending, Fixed, Events.Valid, Receiving;
      var r := events.Emit(monitoring);
      if r.Some? {
        Aside(log, Midi(r.value, render(r.value)));
        LastUnit(log.units, Midi(r.value, render(r.value)));
        assert Monitored(log.units) + ([r.value] + events.records) == (Monitored(log.units) + [r.value]) + events.records;
        Finish(Midi(r.value, render(r.value)));
      } else {
        assert events.records == [];
        log := log.(admitted := Monitored(log.units));
        assert Monitored(log.units) + [] == Monitored(log.units);
      }
    }

    /** bosun_protocol_tick: ui is an event of the editor's state, context the periodic
        report, if they are due. Nothing is put inside a reply, and nothing but the
        timeout while a line is under way. */
    method Tick(now: nat, ui: Option<Text>, context: Option<Text>)
      requires Valid()
      modifies this`line, this`out, this`log, tx, events
      ensures Valid() && log.sent == old(log).sent
      ensures log.input == old(log).input + if old(Stalls(now)) then [TimedOut] else []
      ensures !connected || rebooting || old(out).length > 0 ==> log == old(log) && out == old(out)
      ensures log.units != old(log).units ==> old(log).units == log.units[..|log.units| - 1]
      ensures log.units != old(log).units && !old(Stalls(now)) ==> Pending(old(log).input) == Open("", false)
    {
      hide Texts, Answered, Monitored, Items, Pending, Fixed, Events.Valid, AllAnswered, Sending;
      if !connected || rebooting || out.length > 0 { return; }
      if line.length > 0 && (now - lastRx) % CLOCK >= TIMEOUT_MS {
        Stall();
        return;
      }
      if line.length > 0 || line.discarding { return; }
      if ui.Some? {
        Tell(ui.value);
      } else if context.None? {
        EmitMidi();
      } else {
        Tell(context.value);
      }
    }
  }

  // ----- runs

  datatype Event = Offering(size: nat, now: nat, o: Outcome) | Draining(size: nat) | Ticking(now: nat, ui: Option<Text>, context: Option<Text>)
                 | Monitoring(r: Record)

  /** Unless a line stalled, the protocol has read exactly the first bytes. */
  predicate Read(input: seq<Symbol>, data: string) {
    TimedOut !in input ==> input == Bytes(data)
  }

  lemma ReadOn(input: seq<Symbol>, data: string, used: nat, consumed: nat)
    requires used + consumed <= |data| && Read(input, data[..used])
    ensures Read(input + Bytes(data[used..used + consumed]), data[..used + consumed])
  {
    BytesMore(data[..used], data[used..used + consumed]);
    assert data[..used + consumed] == data[..used] + data[used..used + consumed];
  }

  /** Any run: the input in any pieces, partial writes, ticks and monitored messages in
      any order. Each item is answered once, in order, whole, and, unless a line
      stalled, the items are those of the bytes read. The caller keeps what was not
      taken. */
  method Run(p: Protocol, data: string, events: seq<Event>) returns (used: nat)
    requires p.Valid() && p.log == Log([], [], "", [])
    modifies p, p.rx, p.tx, p.events, p.events.bytes
    ensures p.Valid() && used <= |data| && Read(p.log.input, data[..used])
    ensures Answered(p.log.units) == Items(p.log.input) && p.log.sent <= Texts(p.log.units)
    ensures p.connected == old(p.connected)
  {
    hide Pending, Texts, Answered, Items, Monitored, Fixed, Events.Valid, Receiving, Sending, Read, Bytes, AllAnswered;
    used := 0;
    Start();
    for k := 0 to |events|
      invariant p.Valid() && used <= |data| && Read(p.log.input, data[..used]) && p.connected == old(p.connected)
    {
      ghost var input := p.log.input;
      Spoiled(input, data[..used]);
      match events[k]
      case Offering(size, now, o) =>
        var n := if size > |data| - used then |data| - used else size;
        var consumed := p.Feed(data[used..used + n], now, o);
        ReadOn(input, data, used, consumed);
        assert data[used..used + n][..consumed] == data[used..used + consumed];
        used := used + consumed;
      case Draining(size) => var taken := p.ConsumeOutput(size);
      case Ticking(now, ui, context) => p.Tick(now, ui, context);
      case Monitoring(r) => p.Monitor(r);
      assert p.log.input + [] == p.log.input;
    }
    Whole(p);
  }

  lemma Start()
    ensures Read([], "")
  {
  }

  lemma Spoiled(input: seq<Symbol>, data: string)
    ensures Read(input + [TimedOut], data) && input + [] == input
  {
    assert (input + [TimedOut])[|input|] == TimedOut;
  }

  lemma Whole(p: Protocol)
    requires p.Valid()
    ensures Answered(p.log.units) == Items(p.log.input) && p.log.sent <= Texts(p.log.units)
    ensures p.out.length == 0 ==> p.log.sent == Texts(p.log.units)
  {
    hide Items, Answered, Receiving, Fixed, Pending;
    if p.out.length > 0 {
      var text := p.log.units[|p.log.units| - 1].text;
      assert text[..p.out.offset] + text[p.out.offset..] == text;
      assert Texts(p.log.units[..|p.log.units| - 1]) + text == p.log.sent + text[p.out.offset..];
    }
  }

  /** Sending the rest: the output is drained and the input offered in turn. */
  method Complete(p: Protocol, data: string, from: nat, now: nat, o: Outcome)
    requires p.Valid() && p.connected && !p.rebooting && !o.reboot && from <= |data| && Read(p.log.input, data[..from])
    modifies p, p.rx, p.tx
    ensures p.Valid() && Read(p.log.input, data)
    ensures Answered(p.log.units) == Items(p.log.input) && p.log.sent == Texts(p.log.units)
  {
    hide Pending, Texts, Answered, Items, Monitored, Fixed, Events.Valid, Receiving, Sending, Read, Bytes, AllAnswered;
    var used := from;
    while used < |data| || p.out.length > 0
      invariant p.Valid() && p.connected && !p.rebooting && used <= |data| && Read(p.log.input, data[..used])
      decreases |data| - used, p.out.length
    {
      if p.out.length > 0 {
        var taken := p.ConsumeOutput(p.out.length);
      } else {
        ghost var input := p.log.input;
        var consumed := p.Feed(data[used..], now, o);
        ReadOn(input, data, used, consumed);
        assert data[used..][..consumed] == data[used..used + consumed];
        used := used + consumed;
      }
    }
    assert data[..|data|] == data;
    Whole(p);
  }

  /** However the input was cut, drained and interleaved with ticks: once all is
      exchanged, and no line stalled, every line that is not empty has had one answer,
      in order, and everything sent is whole answers and events. */
  method Serve(p: Protocol, lines: seq<string>, rest: string, events: seq<Event>, now: nat, o: Outcome)
    requires p.Valid() && p.log == Log([], [], "", []) && p.connected && !o.reboot
    requires '\n' !in rest && forall i | 0 <= i < |lines| :: '\n' !in lines[i]
    modifies p, p.rx, p.tx, p.events, p.events.bytes
    ensures !p.rebooting ==> p.Valid() && p.log.sent == Texts(p.log.units)
    ensures !p.rebooting && TimedOut !in p.log.input ==> Answered(p.log.units) == PerLine(lines)
  {
    hide Pending, Texts, Answered, Items, Monitored, Fixed, Events.Valid, Receiving, Sending, Bytes, AllAnswered, PerLine;
    var data := Joined(lines) + rest;
    var used := Run(p, data, events);
    if p.rebooting { return; }
    Complete(p, data, used, now, o);
    LineByLine(lines, rest);
  }
}
