/** The runtime's command queue: whole actions are admitted or refused, a patch
    switch puts its macros ahead of the rest, and a remote switch gesture is
    checked whole before anything moves. Source: firmware/src/runtime.c. */
module RuntimeQueue {
  import opened Rings
  import opened SwitchFsm

  const COMMANDS: nat := 128
  const PER_TICK: nat := 32

  datatype Option<+T> = None | Some(value: T)

  datatype Kind = Cc | Pc | NoteOn | NoteOff | Delay | Kemper | KemperRig | Patch | BankStep | PreviewStep
                | PreviewCommit | PreviewCancel | SetlistStep | BankPc

  datatype Command = Command(kind: Kind, channel: nat, index: nat, flags: nat, first: int, second: int, value: int)

  datatype Key = Key(bank: nat, slot: nat)

  /** One JSON message of a macro. */
  datatype Message = Message(json: string)

  /** The "messages" member of an action. */
  datatype Macro = Absent | NotArray | Messages(list: seq<Message>)

  datatype Action = NoAction | NotObject | Has(messages: Macro)

  /** What the patch binds a switch to. */
  datatype Binding = Binding(mode: Mode, timing: Timing, presetSlot: nat, actions: Trigger -> Action)

  datatype PatchDoc = PatchDoc(onEnter: Macro, onExit: Macro, bindings: seq<Binding>)

  // ----- decoding a macro, as a whole

  type Decoder = Message -> Option<Command>

  function DecodeList(decode: Decoder, list: seq<Message>): (r: Option<seq<Command>>)
    ensures r.Some? ==> |r.value| == |list|
  {
    if list == [] then Some([])
    else
      var before, last := DecodeList(decode, list[..|list| - 1]), decode(list[|list| - 1]);
      if before.Some? && last.Some? then Some(before.value + [last.value]) else None
  }

  function DecodeMacro(decode: Decoder, m: Macro): Option<seq<Command>> {
    match m
    case Absent => Some([])
    case NotArray => None
    case Messages(list) => DecodeList(decode, list)
  }

  lemma DecodePrefix(decode: Decoder, list: seq<Message>, i: nat)
    requires i < |list| && DecodeList(decode, list[..i]).Some?
    ensures DecodeList(decode, list[..i + 1]) ==
            if decode(list[i]).Some? then Some(DecodeList(decode, list[..i]).value + [decode(list[i]).value]) else None
  {
    assert list[..i + 1][..i] == list[..i];
  }

  /** One bad message spoils the list. */
  lemma {:induction false} DecodeFails(decode: Decoder, list: seq<Message>, i: nat)
    requires i < |list| && decode(list[i]).None?
    ensures DecodeList(decode, list).None?
  {
    if i < |list| - 1 { DecodeFails(decode, list[..|list| - 1], i); }
  }

  /** A configuration read anew: the patch in memory, and whether the profile or what
      the device can do has changed. */
  datatype Reload = Reload(doc: PatchDoc, cleared: bool)

  function AllReset(switches: seq<State>): (r: seq<State>)
    ensures |r| == |switches|
  {
    seq(|switches|, i requires 0 <= i < |switches| => Reset(switches[i]))
  }

  datatype Store = StoreOk | StoreNotFound | StoreInvalid | StoreLimit | StoreIo

  datatype Input = InputOk | InputInvalid | InputStale | InputBusy | InputUnbound

  /** The order in which a gesture's triggers fire. */
  const TRIGGERS: seq<Trigger> := [Press, Release, ToggleOn, ToggleOff, LongPress, DoubleTapped]

  /** Commands that neither wait nor change the patch. */
  predicate Immediate(c: Command) {
    c.kind == Cc || c.kind == Pc || c.kind == NoteOn || c.kind == NoteOff || c.kind == BankPc || c.kind == Kemper
  }

  function Tuner(channel: nat): Command { Command(Kemper, channel, 2, 0, 0, 0, 0) }

  /** What the binding fires on a trigger, decoded: nothing when it is not valid. */
  function InputCommands(decode: Decoder, b: Binding, bank: nat, t: Trigger): Option<seq<Command>> {
    if t == Press && b.presetSlot != 0 then Some([Command(Patch, 0, 0, 0, bank, b.presetSlot, 0)])
    else
      match b.actions(t)
      case NoAction => Some([])
      case NotObject => None
      case Has(m) => DecodeMacro(decode, m)
  }

  /** All of a gesture's commands, in trigger order. */
  function GestureCommands(decode: Decoder, b: Binding, bank: nat, order: seq<Trigger>, fired: set<Trigger>): Option<seq<Command>> {
    if order == [] then Some([])
    else
      var last := order[|order| - 1];
      var before := GestureCommands(decode, b, bank, order[..|order| - 1], fired);
      if last !in fired then before
      else
        var more := InputCommands(decode, b, bank, last);
        if before.Some? && more.Some? then Some(before.value + more.value) else None
  }

  /** A momentary gesture is its press followed by its release. */
  lemma MomentaryGesture(decode: Decoder, b: Binding, bank: nat)
    ensures GestureCommands(decode, b, bank, TRIGGERS, {Press, Release}) ==
            var p, r := InputCommands(decode, b, bank, Press), InputCommands(decode, b, bank, Release);
            if p.Some? && r.Some? then Some(p.value + r.value) else None
  {
    hide InputCommands;
    var two := {Press, Release};
    var g := (n: nat) requires n <= 6 => GestureCommands(decode, b, bank, TRIGGERS[..n], two);
    assert TRIGGERS[..6] == TRIGGERS && TRIGGERS[..6][..5] == TRIGGERS[..5] && TRIGGERS[..5][..4] == TRIGGERS[..4];
    assert TRIGGERS[..4][..3] == TRIGGERS[..3] && TRIGGERS[..3][..2] == TRIGGERS[..2];
    assert TRIGGERS[..2][..1] == TRIGGERS[..1] && TRIGGERS[..1][..0] == [];
    assert g(6) == g(5) == g(4);
    assert g(4) == g(3) == g(2);
    assert GestureCommands(decode, b, bank, [], two) == Some([]);
    var p := InputCommands(decode, b, bank, Press);
    assert TRIGGERS[..1][0] == Press;
    assert p.Some? ==> [] + p.value == p.value;
    assert g(1) == p;
  }

  class Runtime {
    const decode: Decoder
    var patch: PatchDoc
    var hasPatch: bool
    var at: Key
    var switches: seq<State>
    var previewActive: bool
    const commands: array<Command>
    var head: nat
    var count: nat
    var waiting: bool
    var waitUntil: nat
    var now: nat
    var overflows: nat
    var invalid: nat
    ghost var executed: seq<Command>

    predicate Valid()
      reads this`head, this`count
    {
      commands.Length == COMMANDS && head < COMMANDS && count <= COMMANDS
    }

    function Queue(): (q: seq<Command>)
      requires Valid()
      reads this`head, this`count, commands
      ensures |q| == count
    {
      Ring(commands[..], head, count)
    }

    /** collect(): decode a macro behind what is collected already. */
    method Collect(m: Macro, base: seq<Command>, capacity: nat) returns (ok: bool, all: seq<Command>)
      requires |base| <= capacity
      modifies this`overflows, this`invalid
      ensures ok <==> DecodeMacro(decode, m).Some? && |base| + |DecodeMacro(decode, m).value| <= capacity
      ensures ok ==> all == base + DecodeMacro(decode, m).value
      ensures base <= all && |all| <= capacity
      ensures overflows >= old(overflows)
    {
      hide DecodeList;
      all := base;
      EmptyList();
      if m.Absent? { return true, base; }
      if m.NotArray? {
        invalid := invalid + 1;
        return false, base;
      }
      assert m.list[..0] == [] && base[|base|..] == [];
      for i := 0 to |m.list|
        invariant base <= all && |all| == |base| + i <= capacity && overflows >= old(overflows)
        invariant DecodeList(decode, m.list[..i]) == Some(all[|base|..])
      {
        if |all| == capacity {
          overflows := overflows + 1;
          return false, all;
        }
        DecodePrefix(decode, m.list, i);
        var c := decode(m.list[i]);
        if c.None? {
          DecodeFails(decode, m.list, i);
          invalid := invalid + 1;
          return false, all;
        }
        all := all + [c.value];
        assert all[|base|..] == all[..|all| - 1][|base|..] + [c.value];
      }
      assert m.list[..|m.list|] == m.list;
      ok := true;
    }

    lemma EmptyList()
      ensures DecodeList(decode, []) == Some([])
    {
    }

    /** enqueue(): all of the commands, in order, in front or behind, or none. */
    method Enqueue(list: seq<Command>, prepend: bool) returns (ok: bool)
      requires Valid()
      modifies this`head, this`count, this`overflows, commands
      ensures Valid() && (ok <==> |list| <= COMMANDS - old(count))
      ensures Queue() == if !ok then old(Queue()) else if prepend then list + old(Queue()) else old(Queue()) + list
    {
      if |list| > COMMANDS - count {
        overflows := overflows + 1;
        return false;
      }
      ghost var was, from, size := commands[..], head, count;
      if prepend { head := Before(COMMANDS, head, |list|); }
      var start := if prepend then head else At(COMMANDS, head, count);
      for i := 0 to |list|
        invariant Valid() && count == size && head == if prepend then Before(COMMANDS, from, |list|) else from
        invariant commands[..] == Written(was, start, list[..i])
      {
        assert list[..i + 1][..i] == list[..i];
        commands[At(COMMANDS, start, i)] := list[i];
      }
      assert list[..|list|] == list;
      count := count + |list|;
      if prepend {
        Prepended(was, from, size, list);
      } else {
        Appended(was, from, size, list);
      }
      return true;
    }

    /** bosun_runtime_action: the whole action is queued behind the rest, or nothing. */
    method Act(action: Action) returns (ok: bool)
      requires Valid()
      modifies this`head, this`count, this`overflows, this`invalid, commands
      ensures Valid()
      ensures ok <==> && action.Has? && DecodeMacro(decode, action.messages).Some?
                      && old(count) + |DecodeMacro(decode, action.messages).value| <= COMMANDS
      ensures Queue() == if ok then old(Queue()) + DecodeMacro(decode, action.messages).value else old(Queue())
    {
      hide DecodeMacro, Ring;
      if !action.Has? { return false; }
      var all;
      ok, all := Collect(action.messages, [], COMMANDS - count);
      if ok { ok := Enqueue(all, false); }
    }

    /** bosun_config_select_checked and bosun_runtime_config_changed: the target is
        published and every gesture starts over. cleared tells that the profile or
        the device changed meanwhile, which ends the queue. */
    method Publish(k: Key, target: PatchDoc, cleared: bool)
      requires Valid()
      modifies this`patch, this`hasPatch, this`at, this`switches, this`previewActive, this`head, this`count, this`waiting
      ensures Valid() && patch == target && at == k && hasPatch && !previewActive
      ensures !cleared ==> head == old(head) && count == old(count) && waiting == old(waiting)
      ensures count <= old(count)
      ensures cleared ==> count == 0 && !waiting
      ensures switches == AllReset(old(switches))
    {
      patch, hasPatch, at, previewActive := target, true, k, false;
      switches := AllReset(switches);
      if cleared { head, count, waiting := 0, 0, false; }
    }

    /** The macros of a patch switch, both checked against one capacity. */
    function SwitchMacros(k: Key, target: PatchDoc, fire: bool): Option<seq<Command>>
      reads this`patch, this`hasPatch, this`at
    {
      if !fire then Some([])
      else
        var leave := if hasPatch && k != at then DecodeMacro(decode, patch.onExit) else Some([]);
        var enter := DecodeMacro(decode, target.onEnter);
        if leave.Some? && enter.Some? then Some(leave.value + enter.value) else None
    }

    /** Both macros, checked before the target patch is published. */
    method SwitchActions(k: Key, target: Option<PatchDoc>, fire: bool) returns (r: Store, macros: seq<Command>)
      requires Valid()
      modifies this`overflows, this`invalid
      ensures r == StoreOk <==>
                target.Some? && SwitchMacros(k, target.value, fire).Some?
                && count + |SwitchMacros(k, target.value, fire).value| <= COMMANDS
      ensures r == StoreOk ==> macros == SwitchMacros(k, target.value, fire).value
      ensures r != StoreLimit
    {
      hide DecodeMacro;
      var room := COMMANDS - count;
      var ok := true;
      macros := [];
      if fire && hasPatch && k != at {
        ok, macros := Collect(patch.onExit, [], room);
        if !ok { return StoreInvalid, []; }
      }
      if target.None? { return StoreNotFound, []; }
      if fire {
        ok, macros := Collect(target.value.onEnter, macros, room);
        if !ok { return StoreInvalid, []; }
      }
      r := StoreOk;
    }

    /** bosun_runtime_switch_patch: target is what the store holds at k, if it can be
        read. Either the patch is published and its macros, on_exit then on_enter,
        stand before the remaining queue; or nothing moves. The queue never refuses
        them after the patch is published. */
    method SwitchPatch(k: Key, target: Option<PatchDoc>, fire: bool, cleared: bool) returns (r: Store)
      requires Valid()
      modifies this`patch, this`hasPatch, this`at, this`switches, this`previewActive, this`head, this`count, this`waiting,
               this`overflows, this`invalid, commands
      ensures Valid() && r != StoreLimit
      ensures r != StoreOk ==> && Queue() == old(Queue()) && patch == old(patch) && at == old(at)
                               && hasPatch == old(hasPatch) && switches == old(switches) && waiting == old(waiting)
      ensures r == StoreOk ==> && target == Some(patch) && at == k && hasPatch && !previewActive
                               && old(SwitchMacros(k, target.value, fire)).Some?
      ensures r == StoreOk ==> switches == AllReset(old(switches))
      ensures r == StoreOk && cleared ==> !waiting && Queue() == old(SwitchMacros(k, target.value, fire)).value
      ensures r == StoreOk && !cleared ==>
                waiting == old(waiting) && Queue() == old(SwitchMacros(k, target.value, fire)).value + old(Queue())
      ensures r == StoreOk <==>
                target.Some? && old(SwitchMacros(k, target.value, fire)).Some?
                && old(count) + |old(SwitchMacros(k, target.value, fire)).value| <= COMMANDS
    {
      hide SwitchMacros, Ring;
      var macros;
      r, macros := SwitchActions(k, target, fire);
      if r != StoreOk { return; }
      Publish(k, target.value, cleared);
      if cleared { EmptyQueue(); }
      var ok := Enqueue(macros, true);
      r := if ok then StoreOk else StoreLimit;
    }

    lemma EmptyQueue()
      requires Valid() && count == 0
      ensures Queue() == [] && forall list: seq<Command> :: list + Queue() == list
    {
    }

    // ----- drain

    /** execute() of a command that is not immediate: it may wait, or switch the
        patch, which puts macros ahead of the queue. */
    method ExecuteOther(c: Command, target: Option<PatchDoc>, cleared: bool)
      requires Valid()
      modifies this`patch, this`hasPatch, this`at, this`switches, this`previewActive, this`head, this`count, this`waiting,
               this`waitUntil, this`overflows, this`invalid, commands
      ensures Valid()
    {
      if c.kind == Delay {
        if c.value > 0 { waiting, waitUntil := true, now + c.value; }
      } else if c.kind == KemperRig {
        waiting, waitUntil := true, now + 5;
      } else if c.kind == PreviewCancel {
        previewActive := false;
      } else {
        var k: Key := *;
        if c.kind == Patch && c.first >= 0 && c.second >= 0 { k := Key(c.first, c.second); }
        var r := SwitchPatch(k, target, true, cleared);
      }
    }

    /** Take the first command off. */
    method Pop() returns (c: Command)
      requires Valid() && count > 0
      modifies this`head, this`count
      ensures Valid() && c == old(Queue())[0] && Queue() == old(Queue())[1..]
    {
      RingAt(commands[..], head, count, 0);
      Dropped(commands[..], head, count, 1);
      Here(head);
      c := commands[head];
      head := At(COMMANDS, head, 1);
      count := count - 1;
    }

    lemma Here(i: nat)
      requires i < COMMANDS
      ensures At(COMMANDS, i, 0) == i
    {
    }

    /** drain(): at most PER_TICK commands, first in first out; a queue of as many
        immediate commands is executed whole. */
    method Drain(targets: seq<Option<PatchDoc>>, cleared: bool)
      requires Valid() && |targets| == PER_TICK
      modifies this, commands
      ensures Valid() && old(executed) <= executed && |executed| <= |old(executed)| + PER_TICK
      ensures !old(waiting) && old(count) <= PER_TICK && (forall i | 0 <= i < old(count) :: Immediate(old(Queue())[i])) ==>
                && executed == old(executed) + old(Queue()) && count == 0 && !waiting
                && patch == old(patch) && at == old(at) && switches == old(switches)
    {
      ghost var queue, done := Queue(), executed;
      ghost var plain := !waiting && |queue| <= PER_TICK && forall i | 0 <= i < |queue| :: Immediate(queue[i]);
      if waiting {
        if now < waitUntil { return; }
        waiting := false;
      }
      var work := 0;
      hide Immediate;
      while work < PER_TICK && count > 0 && !waiting
        invariant 0 <= work <= PER_TICK && Valid() && done <= executed && |executed| <= |done| + work
        invariant plain ==> && work + count == |queue| && Queue() == queue[work..] && executed == done + queue[..work]
                            && !waiting && patch == old(patch) && at == old(at) && switches == old(switches)
      {
        var c := Pop();
        executed := executed + [c];
        assert plain ==> c == queue[work] && executed == done + queue[..work + 1];
        if !Immediate(c) { ExecuteOther(c, targets[work], cleared); }
        work := work + 1;
      }
      assert plain ==> queue[..|queue|] == queue;
    }

    // ----- remote gestures

    /** collect_input() */
    method CollectInput(b: Binding, t: Trigger, base: seq<Command>) returns (ok: bool, all: seq<Command>)
      requires |base| <= COMMANDS
      modifies this`overflows, this`invalid
      ensures ok <==> InputCommands(decode, b, at.bank, t).Some?
                      && |base| + |InputCommands(decode, b, at.bank, t).value| <= COMMANDS
      ensures ok ==> all == base + InputCommands(decode, b, at.bank, t).value
      ensures |all| <= COMMANDS
    {
      hide DecodeMacro;
      all := base;
      if t == Press && b.presetSlot != 0 {
        if |base| == COMMANDS {
          overflows := overflows + 1;
          return false, base;
        }
        return true, base + [Command(Patch, 0, 0, 0, at.bank, b.presetSlot, 0)];
      }
      match b.actions(t)
      case NoAction => ok := true;
      case NotObject =>
        invalid := invalid + 1;
        ok := false;
      case Has(m) => ok, all := Collect(m, base, COMMANDS);
    }

    /** The commands of all triggers of the gesture, in their order. */
    method CollectGesture(b: Binding, fired: set<Trigger>, base: seq<Command>) returns (ok: bool, all: seq<Command>)
      requires |base| <= COMMANDS
      modifies this`overflows, this`invalid
      ensures ok ==> && GestureCommands(decode, b, at.bank, TRIGGERS, fired).Some? && |all| <= COMMANDS
                     && all == base + GestureCommands(decode, b, at.bank, TRIGGERS, fired).value
    {
      hide InputCommands;
      all := base;
      for i := 0 to |TRIGGERS|
        invariant |all| <= COMMANDS && GestureCommands(decode, b, at.bank, TRIGGERS[..i], fired).Some?
        invariant all == base + GestureCommands(decode, b, at.bank, TRIGGERS[..i], fired).value
      {
        var t := TRIGGERS[i];
        NextTrigger(b, TRIGGERS, i, fired);
        if t in fired {
          ok, all := CollectInput(b, t, all);
          if !ok { return; }
        }
      }
      assert TRIGGERS[..|TRIGGERS|] == TRIGGERS;
      ok := true;
    }

    lemma NextTrigger(b: Binding, order: seq<Trigger>, i: nat, fired: set<Trigger>)
      requires i < |order| && GestureCommands(decode, b, at.bank, order[..i], fired).Some?
      ensures GestureCommands(decode, b, at.bank, order[..i + 1], fired)
           == if order[i] !in fired then GestureCommands(decode, b, at.bank, order[..i], fired)
              else if InputCommands(decode, b, at.bank, order[i]).None? then None
              else Some(GestureCommands(decode, b, at.bank, order[..i], fired).value
                        + InputCommands(decode, b, at.bank, order[i]).value)
    {
      assert order[..i + 1][..i] == order[..i];
    }

    /** Nobody else is in the middle of a gesture. */
    predicate OthersIdle(index: nat)
      reads this`switches
    {
      forall i | 0 <= i < |switches| ::
        switches[i].stable && switches[i].lastRaw && (i == index || !switches[i].tapPending)
    }

    method FindIdle(index: nat) returns (idle: bool)
      ensures idle <==> OthersIdle(index)
    {
      for i := 0 to |switches|
        invariant forall j | 0 <= j < i ::
                    switches[j].stable && switches[j].lastRaw && (j == index || !switches[j].tapPending)
      {
        if !switches[i].stable || !switches[i].lastRaw || (i != index && switches[i].tapPending) { return false; }
      }
      return true;
    }

    method AllImmediate(list: seq<Command>) returns (all: bool)
      ensures all <==> forall i | 0 <= i < |list| :: Immediate(list[i])
    {
      for i := 0 to |list|
        invariant forall j | 0 <= j < i :: Immediate(list[j])
      {
        if !Immediate(list[i]) { return false; }
      }
      return true;
    }

    /** A first double tap may end in a single or a double tap: both must be valid,
        and one must do something. */
    predicate BothOutcomes(b: Binding, bank: nat) {
      var single, double := InputCommands(decode, b, bank, Press), InputCommands(decode, b, bank, DoubleTapped);
      && single.Some? && double.Some? && |single.value| <= COMMANDS && |double.value| <= COMMANDS
      && (single.value != [] || double.value != [])
    }

    method CheckDoubleTap(b: Binding) returns (r: Input)
      modifies this`overflows, this`invalid
      ensures r == InputOk <==> BothOutcomes(b, at.bank)
    {
      hide InputCommands;
      var before := overflows;
      var ok, first := CollectInput(b, Press, []);
      if !ok { return if overflows != before then InputBusy else InputInvalid; }
      var second;
      ok, second := CollectInput(b, DoubleTapped, []);
      if !ok { return if overflows != before then InputBusy else InputInvalid; }
      r := if first == [] && second == [] then InputUnbound else InputOk;
    }

    /** The checks before any gesture. */
    method MayActivate(index: nat, raw: bool) returns (ok: bool)
      ensures ok <==> !raw && count == 0 && !waiting && !previewActive && OthersIdle(index)
    {
      if raw || count != 0 || waiting || previewActive { return false; }
      ok := FindIdle(index);
    }

    /** What an accepted gesture runs: the tuner's exit, then its triggers' actions. */
    function Gesture(index: nat, fired: set<Trigger>, tuner: Option<nat>): Option<seq<Command>>
      requires index < |patch.bindings|
      reads this`patch, this`at
    {
      var all := GestureCommands(decode, patch.bindings[index], at.bank, TRIGGERS, fired);
      if all.None? then None else Some((if tuner.Some? then [Tuner(tuner.value)] else []) + all.value)
    }

    /** Decode and check the whole gesture; nothing is queued yet. */
    method Prepare(index: nat, next: State, fired: set<Trigger>, tuner: Option<nat>) returns (r: Input, all: seq<Command>)
      requires index < |patch.bindings|
      modifies this`overflows, this`invalid
      ensures r == InputOk ==> && |all| <= COMMANDS && Gesture(index, fired, tuner) == Some(all)
                               && (patch.bindings[index].mode == Momentary ==>
                                     |all| <= PER_TICK && forall i | 0 <= i < |all| :: Immediate(all[i]))
                               && (patch.bindings[index].mode == SwitchFsm.DoubleTap && next.tapPending ==>
                                     BothOutcomes(patch.bindings[index], at.bank))
                               && (Gesture(index, fired, None) != Some([])
                                   || (patch.bindings[index].mode == SwitchFsm.DoubleTap && next.tapPending))
    {
      hide GestureCommands, Immediate, BothOutcomes;
      var b := patch.bindings[index];
      all := [];
      if b.mode == SwitchFsm.DoubleTap && next.tapPending {
        r := CheckDoubleTap(b);
        if r != InputOk { return; }
      }
      var base := if tuner.Some? then [Tuner(tuner.value)] else [];
      var before, ok := overflows, false;
      ok, all := CollectGesture(b, fired, base);
      if !ok { return (if overflows != before then InputBusy else InputInvalid), all; }
      if |all| == |base| && !(b.mode == SwitchFsm.DoubleTap && next.tapPending) { return InputUnbound, all; }
      if b.mode == Momentary {
        if |all| > PER_TICK { return InputInvalid, all; }
        var immediate := AllImmediate(all);
        if !immediate { return InputInvalid, all; }
      }
      r := InputOk;
    }

    /** The gesture of a remote tap, when nothing else is going on. */
    method Gesturing(index: nat, time: nat, raw: bool, tuner: Option<nat>, targets: seq<Option<PatchDoc>>) returns (r: Input)
      requires Valid() && |patch.bindings| == |switches| && |targets| == PER_TICK && index < |switches|
      modifies this, commands
      ensures Valid()
      ensures r != InputOk ==> && Queue() == old(Queue()) && switches == old(switches) && executed == old(executed)
                               && patch == old(patch) && at == old(at) && waiting == old(waiting) && now == old(now)
      ensures r == InputOk ==> Accepted(index, time, tuner, old(switches), old(patch), old(executed), old(at).bank)
      ensures old(raw || count != 0 || waiting || previewActive || !OthersIdle(index)) ==> r == InputBusy
    {
      hide GestureCommands, Immediate, Ring, BothOutcomes, AfterTap;
      var free := MayActivate(index, raw);
      if !free { return InputBusy; }
      var b := patch.bindings[index];
      var (next, fired) := AfterTap(switches[index], b.mode, b.timing, time);
      var all;
      r, all := Prepare(index, next, fired, tuner);
      if r != InputOk { return; }
      var ok := Enqueue(all, false);
      assert ok && Queue() == all;
      now := time;
      switches := switches[index := next];
      Short(index, b, old(switches)[index], time);
      if b.mode == Momentary { Drain(targets, false); }
    }

    lemma Short(index: nat, b: Binding, s: State, time: nat)
      ensures b.mode == Momentary ==> AfterTap(s, b.mode, b.timing, time) == (s, {Press, Release})
    {
    }

    /** What an accepted gesture has done: the switch is tapped, and the commands are
        queued whole, or for a momentary switch executed whole. */
    ghost predicate Accepted(index: nat, time: nat, tuner: Option<nat>, was: seq<State>, doc: PatchDoc, before: seq<Command>,
                             bank: nat)
      requires Valid() && index < |was| == |doc.bindings|
      reads this, commands
    {
      var b := doc.bindings[index];
      var (next, fired) := AfterTap(was[index], b.mode, b.timing, time);
      var g := GestureCommands(decode, b, bank, TRIGGERS, fired);
      && switches == was[index := next] && g.Some?
      && (b.mode == SwitchFsm.DoubleTap && next.tapPending ==> BothOutcomes(b, bank))
      && var all := (if tuner.Some? then [Tuner(tuner.value)] else []) + g.value;
         if b.mode == Momentary then && count == 0 && executed == before + all && fired == {Press, Release}
         else Queue() == all && executed == before
    }

    /** The configuration was changed behind the runtime's back: bindings are read anew,
        and a change of the profile ends the queue and every gesture. */
    method ConfigChanged(reload: Reload)
      requires Valid()
      modifies this`patch, this`switches, this`previewActive, this`head, this`count, this`waiting
      ensures Valid() && patch == reload.doc
      ensures if reload.cleared then count == 0 && !waiting && switches == AllReset(old(switches))
              else count == old(count) && head == old(head) && waiting == old(waiting) && switches == old(switches)
    {
      patch := reload.doc;
      if reload.cleared {
        head, count, waiting, previewActive := 0, 0, false, false;
        switches := AllReset(switches);
      } else {
        var leaves: bool := *;                // the preview's bank is gone
        if leaves { previewActive := false; }
      }
    }

    /** bosun_runtime_activate_switch. A switch that is not there or another patch than
        the caller's changes nothing. A pending reload of the configuration comes next.
        Then an accepted gesture has all its commands queued in order, behind nothing
        else; a momentary one has executed them all, press and release, when the call
        returns; and a refused one changes nothing more. */
    method ActivateSwitch(found: Option<nat>, k: Key, named: bool, reload: Option<Reload>, time: nat, raw: bool,
                          tuner: Option<nat>, targets: seq<Option<PatchDoc>>)
      returns (r: Input)
      requires Valid() && |patch.bindings| == |switches| && |targets| == PER_TICK
      requires found.Some? ==> found.value < |switches|
      requires reload.Some? ==> |reload.value.doc.bindings| == |switches|
      modifies this, commands
      ensures Valid()
      ensures found.None? ==> r == InputInvalid
      ensures found.Some? && (k != old(at) || !named) ==> r == InputStale
      ensures found.None? || k != old(at) || !named ==>
                && Queue() == old(Queue()) && switches == old(switches) && executed == old(executed) && patch == old(patch)
                && waiting == old(waiting) && now == old(now)
      ensures found.Some? && k == old(at) && named ==>
                var doc := if reload.Some? then reload.value.doc else old(patch);
                var cleared := reload.Some? && reload.value.cleared;
                var was := if cleared then AllReset(old(switches)) else old(switches);
                if r == InputOk then (cleared || old(count) == 0)
                                     && Accepted(found.value, time, tuner, was, doc, old(executed), old(at).bank)
                else && Queue() == (if cleared then [] else old(Queue())) && switches == was && executed == old(executed)
                     && patch == doc && at == old(at) && now == old(now)
    {
      hide GestureCommands, Immediate, Ring, AfterTap, Reset, Accepted;
      if found.None? { return InputInvalid; }
      if k != at || !named { return InputStale; }
      if reload.Some? {
        ConfigChanged(reload.value);
        SameRing(old(commands[..]), old(head), old(count));
      }
      r := Gesturing(found.value, time, raw, tuner, targets);
    }

    lemma SameRing(was: seq<Command>, from: nat, size: nat)
      requires InRing(was, from, size)
      ensures size == 0 ==> Ring(was, from, size) == []
    {
    }
  }
}
