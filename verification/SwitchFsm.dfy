/** One footswitch: debouncing, and the gesture of its mode. The mode is fixed for
    the life of the object, as it is between two reloads of the configuration.
    Source: firmware/src/switch_fsm.c. */
module SwitchFsm {
  const DEBOUNCE_MS: nat := 5

  datatype Mode = Tap | Latched | Momentary | LongPressAlt | DoubleTap

  datatype Edge = NoEdge | PressEdge | ReleaseEdge

  datatype Trigger = Press | Release | ToggleOn | ToggleOff | LongPress | DoubleTapped

  datatype Timing = Timing(longPress: nat, doubleTap: nat, autoMomentary: nat, autoOnHold: bool)

  /** bosun_switch_fsm. */
  datatype State = State(lastRaw: bool, stable: bool, lastRawChange: nat, pressStart: nat, firedLongPress: bool,
                         latchedOn: bool, latchedPrePress: bool, tapPending: bool, tapPendingUntil: nat)

  // ----- the gestures

  function ToggleOf(on: bool): Trigger { if on then ToggleOn else ToggleOff }

  /** press() */
  function AfterPress(s: State, mode: Mode, timing: Timing, now: nat): (State, set<Trigger>) {
    match mode
    case Tap => (s, {Press})
    case Momentary => (s, {Press})
    case Latched =>
      (s.(latchedPrePress := s.latchedOn, pressStart := now, latchedOn := !s.latchedOn), {ToggleOf(!s.latchedOn)})
    case LongPressAlt => (s.(pressStart := now, firedLongPress := false), {})
    case DoubleTap =>
      if s.tapPending && now <= s.tapPendingUntil then (s.(tapPending := false), {DoubleTapped})
      else (s.(tapPending := true, tapPendingUntil := now + timing.doubleTap), {})
  }

  /** release() */
  function AfterRelease(s: State, mode: Mode, timing: Timing, now: nat): (State, set<Trigger>) {
    if mode == Momentary then (s, {Release})
    else if mode == LongPressAlt && !s.firedLongPress && now < s.pressStart + timing.longPress then (s, {Press})
    else if mode == Latched && timing.autoOnHold && now >= s.pressStart + timing.autoMomentary
            && s.latchedOn != s.latchedPrePress
         then (s.(latchedOn := s.latchedPrePress), {ToggleOf(s.latchedPrePress)})
    else (s, {})
  }

  /** The debounced contact: a change that has lasted 5 ms. */
  function AfterContact(s: State, now: nat, raw: bool): (State, Edge) {
    var t := if raw != s.lastRaw then s.(lastRaw := raw, lastRawChange := now) else s;
    if raw != t.stable && now >= t.lastRawChange + DEBOUNCE_MS
    then (t.(stable := raw), if raw then ReleaseEdge else PressEdge)
    else (t, NoEdge)
  }

  function AfterEdge(s: State, mode: Mode, timing: Timing, now: nat, edge: Edge): (State, set<Trigger>) {
    match edge
    case NoEdge => (s, {})
    case PressEdge => AfterPress(s, mode, timing, now)
    case ReleaseEdge => AfterRelease(s, mode, timing, now)
  }

  /** The two timeouts at the end of a poll: a press held long enough, and a first
      tap that stayed alone. */
  function AfterTimeouts(s: State, mode: Mode, timing: Timing, now: nat): (State, set<Trigger>) {
    if mode == LongPressAlt && !s.stable && !s.firedLongPress && now >= s.pressStart + timing.longPress
    then (s.(firedLongPress := true), {LongPress})
    else if Expired(s, mode, now) then (s.(tapPending := false), {Press})
    else (s, {})
  }

  /** A first tap whose window is over. */
  predicate Expired(s: State, mode: Mode, now: nat) {
    mode == DoubleTap && s.tapPending && now > s.tapPendingUntil
  }

  /** bosun_switch_poll */
  function AfterPoll(s: State, mode: Mode, timing: Timing, now: nat, raw: bool): (State, Edge, set<Trigger>) {
    var (t, edge) := AfterContact(s, now, raw);
    var (u, fired) := AfterEdge(t, mode, timing, now, edge);
    var (v, more) := AfterTimeouts(u, mode, timing, now);
    (v, edge, fired + more)
  }

  /** bosun_switch_tap on an idle switch, gesture by gesture: an expired first tap
      fires, then the switch is pressed and released in no time. */
  function AfterTap(s: State, mode: Mode, timing: Timing, now: nat): (State, set<Trigger>) {
    match mode
    case Tap => (s, {Press})
    case Momentary => (s, {Press, Release})
    case Latched =>
      // a hold of no length flips the latch back at once
      if timing.autoOnHold && timing.autoMomentary == 0
      then (s.(latchedPrePress := s.latchedOn, pressStart := now), {ToggleOn, ToggleOff})
      else (s.(latchedPrePress := s.latchedOn, pressStart := now, latchedOn := !s.latchedOn), {ToggleOf(!s.latchedOn)})
    case LongPressAlt =>
      (s.(pressStart := now, firedLongPress := false), if timing.longPress > 0 then {Press} else {})
    case DoubleTap =>
      if s.tapPending && now <= s.tapPendingUntil then (s.(tapPending := false), {DoubleTapped})
      else (s.(tapPending := true, tapPendingUntil := now + timing.doubleTap), if s.tapPending then {Press} else {})
  }

  /** bosun_switch_reset: a held switch has used its long press up. */
  function Reset(s: State): State {
    s.(pressStart := 0, firedLongPress := !s.stable, latchedOn := false, latchedPrePress := false,
       tapPending := false, tapPendingUntil := 0)
  }

  // ----- what a poll and a tap mean

  /** An edge is found exactly when the contact has differed for 5 ms. */
  lemma PollEdges(s: State, mode: Mode, timing: Timing, now: nat, raw: bool)
    ensures var (t, edge, fired) := AfterPoll(s, mode, timing, now, raw);
      && (edge != NoEdge <==> raw != s.stable && now >= t.lastRawChange + DEBOUNCE_MS)
      && (edge != NoEdge ==> edge == if raw then ReleaseEdge else PressEdge)
      && t.lastRaw == raw && t.lastRawChange == (if raw != s.lastRaw then now else s.lastRawChange)
      && t.stable == (if edge == NoEdge then s.stable else raw)
  {
  }

  lemma PollPlain(s: State, mode: Mode, timing: Timing, now: nat, raw: bool)
    requires mode == Tap || mode == Momentary
    ensures var (t, edge, fired) := AfterPoll(s, mode, timing, now, raw);
            fired == if edge == PressEdge then {Press} else if edge == ReleaseEdge && mode == Momentary then {Release} else {}
  {
    hide AfterContact;
  }

  /** A latch flips on each press; on a release it flips back after a long hold. */
  lemma PollLatched(s: State, timing: Timing, now: nat, raw: bool)
    ensures var (t, edge, fired) := AfterPoll(s, Latched, timing, now, raw);
      && fired == (if t.latchedOn == s.latchedOn then {} else {ToggleOf(t.latchedOn)})
      && (t.latchedOn != s.latchedOn <==>
            edge == PressEdge || (edge == ReleaseEdge && timing.autoOnHold && s.latchedOn != s.latchedPrePress
                                  && now >= s.pressStart + timing.autoMomentary))
      && (edge == ReleaseEdge && t.latchedOn != s.latchedOn ==> t.latchedOn == s.latchedPrePress)
      && (edge == PressEdge ==> t.latchedPrePress == s.latchedOn && t.pressStart == now)
  {
  }

  /** A short press fires on its release, a long one while it is held. */
  lemma PollLongPress(s: State, timing: Timing, now: nat, raw: bool)
    ensures var (t, edge, fired) := AfterPoll(s, LongPressAlt, timing, now, raw);
      && (Press in fired <==> edge == ReleaseEdge && !s.firedLongPress && now < s.pressStart + timing.longPress)
      && (LongPress in fired <==>
            !t.stable && (edge == PressEdge || !s.firedLongPress) && now >= t.pressStart + timing.longPress)
      && t.pressStart == (if edge == PressEdge then now else s.pressStart)
      && fired <= {Press, LongPress} && !(Press in fired && LongPress in fired)
  {
  }

  /** A press within the window of the tap before is a double tap; a tap that stays
      alone fires when its window is over. */
  lemma PollDoubleTap(s: State, timing: Timing, now: nat, raw: bool)
    ensures var (t, edge, fired) := AfterPoll(s, DoubleTap, timing, now, raw);
      if edge == PressEdge then
        && (t.tapPending <==> !(s.tapPending && now <= s.tapPendingUntil))
        && (t.tapPending ==> t.tapPendingUntil == now + timing.doubleTap)
        && fired == (if t.tapPending then {} else {DoubleTapped})
      else
        && (t.tapPending <==> s.tapPending && now <= s.tapPendingUntil)
        && fired == (if s.tapPending && !t.tapPending then {Press} else {})
  {
  }

  /** A tap is a poll of the idle switch, a press and a release. */
  lemma TapMeans(s: State, mode: Mode, timing: Timing, now: nat)
    requires s.stable && s.lastRaw
    ensures var (t, edge, flushed) := AfterPoll(s, mode, timing, now, true);
            var (u, pressed) := AfterPress(t, mode, timing, now);
            var (v, released) := AfterRelease(u, mode, timing, now);
            AfterTap(s, mode, timing, now) == (v, flushed + pressed + released)
  {
    var (t, edge, flushed) := AfterPoll(s, mode, timing, now, true);
    var (u, pressed) := AfterPress(t, mode, timing, now);
    var (v, released) := AfterRelease(u, mode, timing, now);
    assert flushed + pressed + released == AfterTap(s, mode, timing, now).1;
  }

  // ----- the record of a run

  /** The gestures so far: edges and toggles in order; presses; PRESS, DOUBLE_TAP
      triggers; first taps whose PRESS was never given; and the PRESS and LONG_PRESS
      triggers since the last press. */
  datatype Gestures = Gestures(edges: seq<Edge>, toggles: seq<bool>, presses: nat, singles: nat, doubles: nat,
                               lost: nat, sincePress: nat)

  predicate Alternate(edges: seq<Edge>) {
    forall i | 0 <= i < |edges| :: edges[i] == if i % 2 == 0 then PressEdge else ReleaseEdge
  }

  predicate Toggling(toggles: seq<bool>) {
    forall i | 0 <= i < |toggles| :: toggles[i] == (i % 2 == 0)
  }

  function Count(b: bool): nat { if b then 1 else 0 }

  /** The toggles among the triggers; both come from a latch flipped and flipped back. */
  function Toggled(triggers: set<Trigger>, latched: bool): seq<bool> {
    if {ToggleOn, ToggleOff} <= triggers then [!latched, latched]
    else if ToggleOn in triggers then [true]
    else if ToggleOff in triggers then [false]
    else []
  }

  /** The record after exactly these triggers: each counts once, a press starts a new
      count, and a lost first tap is one that gave no trigger. */
  function Fired(g: Gestures, s: State, mode: Mode, edge: Edge, pressed: bool, triggers: set<Trigger>, lost: bool): Gestures {
    Gestures(if edge == NoEdge then g.edges else g.edges + [edge],
             g.toggles + Toggled(triggers, s.latchedOn),
             g.presses + Count(pressed),
             g.singles + Count(mode == DoubleTap && Press in triggers),
             g.doubles + Count(DoubleTapped in triggers),
             g.lost + Count(lost),
             (if pressed then 0 else g.sincePress) + Count(mode == LongPressAlt && Press in triggers)
             + Count(mode == LongPressAlt && LongPress in triggers))
  }

  /** The record fits the state between two polls or taps: edges alternate, toggles
      alternate and match the latch, a press gives at most one of PRESS and LONG_PRESS,
      and every press of the double-tap mode is a PRESS, half a DOUBLE_TAP, still
      pending, or lost. */
  ghost predicate Records(g: Gestures, mode: Mode, s: State) {
    && Alternate(g.edges) && (s.stable <==> |g.edges| % 2 == 0)
    && Toggling(g.toggles) && (s.latchedOn <==> |g.toggles| % 2 == 1)
    && (mode == LongPressAlt ==> && g.sincePress <= 1 && (s.firedLongPress ==> g.sincePress == 1)
                                 && (!s.stable && !s.firedLongPress ==> g.sincePress == 0))
    && (mode == DoubleTap ==> g.singles + 2 * g.doubles + Count(s.tapPending) + g.lost == g.presses)
  }

  /** A press found by the very poll that first sees the window of the tap before it
      over gives that tap up. */
  predicate GivesUp(s: State, mode: Mode, edge: Edge, now: nat) {
    edge == PressEdge && Expired(s, mode, now)
  }

  lemma OneMore(g: Gestures, latched: bool, triggers: set<Trigger>)
    requires Toggling(g.toggles) && (latched <==> |g.toggles| % 2 == 1)
    requires ToggleOn in triggers && ToggleOff !in triggers ==> !latched
    requires ToggleOff in triggers && ToggleOn !in triggers ==> latched
    ensures Toggling(g.toggles + Toggled(triggers, latched))
  {
  }

  /** The record of a poll's edge and triggers. */
  function Polls(g: Gestures, s: State, mode: Mode, now: nat, edge: Edge, fired: set<Trigger>): Gestures {
    Fired(g, s, mode, edge, edge == PressEdge, fired, GivesUp(s, mode, edge, now))
  }

  lemma MoreEdges(g: Gestures, s: State, mode: Mode, timing: Timing, now: nat, raw: bool)
    requires Alternate(g.edges) && (s.stable <==> |g.edges| % 2 == 0)
    ensures var (t, edge, fired) := AfterPoll(s, mode, timing, now, raw);
      && Alternate(Polls(g, s, mode, now, edge, fired).edges)
      && (t.stable <==> |Polls(g, s, mode, now, edge, fired).edges| % 2 == 0)
  {
    PollEdges(s, mode, timing, now, raw);
    hide AfterPoll;
  }

  lemma MoreToggles(g: Gestures, s: State, mode: Mode, timing: Timing, now: nat, raw: bool)
    requires Toggling(g.toggles) && (s.latchedOn <==> |g.toggles| % 2 == 1)
    ensures var (t, edge, fired) := AfterPoll(s, mode, timing, now, raw);
      && Toggling(Polls(g, s, mode, now, edge, fired).toggles)
      && (t.latchedOn <==> |Polls(g, s, mode, now, edge, fired).toggles| % 2 == 1)
  {
    var fired := AfterPoll(s, mode, timing, now, raw).2;
    if mode == Latched {
      PollLatched(s, timing, now, raw);
      hide AfterPoll;
      OneMore(g, s.latchedOn, fired);
    } else {
      assert ToggleOn !in fired && ToggleOff !in fired;
      assert g.toggles + [] == g.toggles;
    }
  }

  lemma LongPressRecords(g: Gestures, s: State, timing: Timing, now: nat, raw: bool)
    requires Records(g, LongPressAlt, s)
    ensures var (t, edge, fired) := AfterPoll(s, LongPressAlt, timing, now, raw);
            var h := Polls(g, s, LongPressAlt, now, edge, fired);
      h.sincePress <= 1 && (t.firedLongPress ==> h.sincePress == 1) && (!t.stable && !t.firedLongPress ==> h.sincePress == 0)
  {
    hide Alternate, Toggling;
  }

  lemma DoubleTapRecords(g: Gestures, s: State, timing: Timing, now: nat, raw: bool)
    requires Records(g, DoubleTap, s)
    ensures var (t, edge, fired) := AfterPoll(s, DoubleTap, timing, now, raw);
            var h := Polls(g, s, DoubleTap, now, edge, fired);
            h.singles + 2 * h.doubles + Count(t.tapPending) + h.lost == h.presses
  {
    PollDoubleTap(s, timing, now, raw);
    hide Alternate, Toggling, AfterPoll;
  }

  lemma PollRecords(g: Gestures, s: State, mode: Mode, timing: Timing, now: nat, raw: bool)
    requires Records(g, mode, s)
    ensures var (t, edge, fired) := AfterPoll(s, mode, timing, now, raw); Records(Polls(g, s, mode, now, edge, fired), mode, t)
  {
    MoreEdges(g, s, mode, timing, now, raw);
    MoreToggles(g, s, mode, timing, now, raw);
    if mode == LongPressAlt { LongPressRecords(g, s, timing, now, raw); }
    if mode == DoubleTap { DoubleTapRecords(g, s, timing, now, raw); }
    hide Alternate, Toggling, AfterPoll, Polls;
  }

  /** A tap never gives a first tap up. */
  lemma TapRecords(g: Gestures, s: State, mode: Mode, timing: Timing, now: nat)
    requires Records(g, mode, s) && s.stable && s.lastRaw
    ensures var (t, fired) := AfterTap(s, mode, timing, now);
            Records(Fired(g, s, mode, NoEdge, true, fired, false), mode, t)
  {
    OneMore(g, s.latchedOn, AfterTap(s, mode, timing, now).1);
    hide Toggling;
  }

  // ----- the switch

  class Switch {
    const mode: Mode
    const timing: Timing
    var state: State
    ghost var done: Gestures

    ghost predicate Valid()
      reads this
    {
      Records(done, mode, state)
    }

    /** bosun_switch_init */
    constructor (mode: Mode, timing: Timing)
      ensures Valid() && this.mode == mode && this.timing == timing
      ensures done == Gestures([], [], 0, 0, 0, 0, 0) && state == State(true, true, 0, 0, false, false, false, false, 0)
    {
      this.mode, this.timing := mode, timing;
      state := State(true, true, 0, 0, false, false, false, false, 0);
      done := Gestures([], [], 0, 0, 0, 0, 0);
    }

    method DoPress(now: nat) returns (triggers: set<Trigger>)
      modifies this`state
      ensures (state, triggers) == AfterPress(old(state), mode, timing, now)
    {
      match mode
      case Tap => triggers := {Press};
      case Momentary => triggers := {Press};
      case Latched =>
        state := state.(latchedPrePress := state.latchedOn);
        state := state.(pressStart := now);
        state := state.(latchedOn := !state.latchedOn);
        triggers := {ToggleOf(state.latchedOn)};
      case LongPressAlt =>
        state := state.(pressStart := now);
        state := state.(firedLongPress := false);
        triggers := {};
      case DoubleTap =>
        if state.tapPending && now <= state.tapPendingUntil {
          state := state.(tapPending := false);
          return {DoubleTapped};
        }
        state := state.(tapPending := true);
        state := state.(tapPendingUntil := now + timing.doubleTap);
        triggers := {};
    }

    method DoRelease(now: nat) returns (triggers: set<Trigger>)
      modifies this`state
      ensures (state, triggers) == AfterRelease(old(state), mode, timing, now)
    {
      if mode == Momentary { return {Release}; }
      if mode == LongPressAlt && !state.firedLongPress && now < state.pressStart + timing.longPress { return {Press}; }
      if mode == Latched && timing.autoOnHold && now >= state.pressStart + timing.autoMomentary
         && state.latchedOn != state.latchedPrePress {
        state := state.(latchedOn := state.latchedPrePress);
        return {ToggleOf(state.latchedOn)};
      }
      return {};
    }

    method Contact(now: nat, raw: bool) returns (edge: Edge)
      modifies this`state
      ensures (state, edge) == AfterContact(old(state), now, raw)
    {
      edge := NoEdge;
      if raw != state.lastRaw {
        state := state.(lastRaw := raw);
        state := state.(lastRawChange := now);
      }
      if raw != state.stable && now >= state.lastRawChange + DEBOUNCE_MS {
        state := state.(stable := raw);
        edge := if raw then ReleaseEdge else PressEdge;
      }
    }

    method Timeouts(now: nat) returns (triggers: set<Trigger>)
      modifies this`state
      ensures (state, triggers) == AfterTimeouts(old(state), mode, timing, now)
    {
      triggers := {};
      if mode == LongPressAlt && !state.stable && !state.firedLongPress && now >= state.pressStart + timing.longPress {
        state := state.(firedLongPress := true);
        triggers := {LongPress};
      }
      if mode == DoubleTap && state.tapPending && now > state.tapPendingUntil {
        state := state.(tapPending := false);
        triggers := triggers + {Press};
        assert triggers == {Press};
      }
    }

    /** bosun_switch_poll. The record grows by exactly what is returned. */
    method Poll(now: nat, raw: bool) returns (edge: Edge, triggers: set<Trigger>)
      requires Valid()
      modifies this
      ensures Valid() && (state, edge, triggers) == AfterPoll(old(state), mode, timing, now, raw)
      ensures done == Polls(old(done), old(state), mode, now, edge, triggers)
    {
      PollRecords(done, state, mode, timing, now, raw);
      hide Records, AfterPress, AfterRelease, AfterTimeouts, AfterContact, Polls;
      ghost var was := state;
      edge := Contact(now, raw);
      triggers := {};
      if edge == ReleaseEdge {
        triggers := DoRelease(now);
      } else if edge == PressEdge {
        triggers := DoPress(now);
      }
      var more := Timeouts(now);
      triggers := triggers + more;
      done := Polls(done, was, mode, now, edge, triggers);
    }

    /** bosun_switch_tap: a whole short gesture, on an idle switch only. The record
        grows by exactly what is returned, and no first tap is given up. */
    method DoTap(now: nat) returns (ok: bool, triggers: set<Trigger>)
      requires Valid()
      modifies this
      ensures Valid() && (ok <==> old(state).stable && old(state).lastRaw)
      ensures !ok ==> state == old(state) && done == old(done) && triggers == {}
      ensures ok ==> (state, triggers) == AfterTap(old(state), mode, timing, now)
      ensures ok ==> done == Fired(old(done), old(state), mode, NoEdge, true, triggers, false)
    {
      if !state.stable || !state.lastRaw { return false, {}; }
      ghost var was, g := state, done;
      TapMeans(state, mode, timing, now);
      TapRecords(done, state, mode, timing, now);
      hide Records, AfterPress, AfterRelease, AfterPoll, AfterTap, Fired, Polls;
      var edge, flushed := Poll(now, true);
      var pressed := DoPress(now);
      var released := DoRelease(now);
      triggers := flushed + pressed + released;
      done := Fired(g, was, mode, NoEdge, true, triggers, false);
      ok := true;
    }
  }

  datatype Event = Polled(raw: bool) | Tapped

  /** What a poll or a tap returned; pressed tells that it found or made a press. */
  datatype Outcome = Outcome(edge: Edge, pressed: bool, triggers: set<Trigger>)

  function Edges(log: seq<Outcome>): seq<Edge> {
    if log == [] then []
    else Edges(log[..|log| - 1]) + if log[|log| - 1].edge == NoEdge then [] else [log[|log| - 1].edge]
  }

  function Presses(log: seq<Outcome>): nat {
    if log == [] then 0 else Presses(log[..|log| - 1]) + Count(log[|log| - 1].pressed)
  }

  /** How often the trigger was returned. */
  function Times(log: seq<Outcome>, t: Trigger): nat {
    if log == [] then 0 else Times(log[..|log| - 1], t) + Count(t in log[|log| - 1].triggers)
  }

  lemma Logged(log: seq<Outcome>, o: Outcome, t: Trigger)
    ensures Edges(log + [o]) == Edges(log) + if o.edge == NoEdge then [] else [o.edge]
    ensures Presses(log + [o]) == Presses(log) + Count(o.pressed)
    ensures Times(log + [o], t) == Times(log, t) + Count(t in o.triggers)
  {
    assert (log + [o])[..|log|] == log;
  }

  /** Any run of polls and taps of a new switch, told by what they return: edges and
      toggles alternate and match the latch, a press gives at most one of PRESS and
      LONG_PRESS, and in the double-tap mode PRESS plus twice DOUBLE_TAP plus the
      pending tap is the number of presses, but for the first taps given up, of which
      a run of taps has none. */
  method Run(mode: Mode, timing: Timing, events: seq<(nat, Event)>) returns (s: Switch, log: seq<Outcome>, ghost lost: nat)
    ensures s.Valid() && s.mode == mode
    ensures Alternate(Edges(log)) && Toggling(s.done.toggles) && (s.state.latchedOn <==> |s.done.toggles| % 2 == 1)
    ensures mode == LongPressAlt ==> s.done.sincePress <= 1
    ensures mode == DoubleTap ==>
              Times(log, Press) + 2 * Times(log, DoubleTapped) + Count(s.state.tapPending) + lost == Presses(log)
    ensures (forall k | 0 <= k < |events| :: events[k].1.Tapped?) ==> lost == 0
  {
    hide Alternate, Toggling, AfterPoll, AfterTap, Records;
    s := new Switch(mode, timing);
    log, lost := [], 0;
    for k := 0 to |events|
      invariant s.Valid() && s.mode == mode && s.timing == timing
      invariant s.done.edges == Edges(log) && s.done.presses == Presses(log) && s.done.lost == lost
      invariant s.done.doubles == Times(log, DoubleTapped) && (mode == DoubleTap ==> s.done.singles == Times(log, Press))
      invariant (forall j | 0 <= j < k :: events[j].1.Tapped?) ==> lost == 0
    {
      var (now, e) := events[k];
      var o;
      if e.Tapped? {
        var ok, triggers := s.DoTap(now);
        o := Outcome(NoEdge, ok, triggers);
      } else {
        var edge, triggers := s.Poll(now, e.raw);
        o := Outcome(edge, edge == PressEdge, triggers);
      }
      Logged(log, o, Press);
      Logged(log, o, DoubleTapped);
      log, lost := log + [o], s.done.lost;
    }
    Recorded(s);
  }

  lemma Recorded(s: Switch)
    requires s.Valid()
    ensures Records(s.done, s.mode, s.state)
    ensures Alternate(s.done.edges) && Toggling(s.done.toggles) && (s.state.latchedOn <==> |s.done.toggles| % 2 == 1)
    ensures s.mode == LongPressAlt ==> s.done.sincePress <= 1
    ensures s.mode == DoubleTap ==>
              s.done.singles + 2 * s.done.doubles + Count(s.state.tapPending) + s.done.lost == s.done.presses
  {
  }

  /** Equality does not hold for polled presses: the second of these two presses is
      found on the poll that first sees the window of the first one over. */
  method LostTap() returns (log: seq<Outcome>, pending: bool)
    ensures |log| == 6 && Presses(log) == 2 && Times(log, Press) == 0 && Times(log, DoubleTapped) == 0 && pending
  {
    hide Records, Polls, Presses, Times;
    var s := new Switch(DoubleTap, Timing(600, 250, 500, true));
    log := [];
    NothingLogged();
    log := Note(s, 0, false, log);
    log := Note(s, 5, false, log);
    assert s.state == State(false, false, 0, 0, false, false, false, true, 255);
    log := Note(s, 100, true, log);
    log := Note(s, 105, true, log);
    assert s.state == State(true, true, 100, 0, false, false, false, true, 255);
    log := Note(s, 250, false, log);
    log := Note(s, 256, false, log);
    pending := s.state.tapPending;
  }

  /** A poll, and what it returned. */
  method Note(s: Switch, now: nat, raw: bool, log: seq<Outcome>) returns (more: seq<Outcome>)
    requires s.Valid()
    modifies s
    ensures s.Valid() && s.state == AfterPoll(old(s.state), s.mode, s.timing, now, raw).0 && |more| == |log| + 1
    ensures var (t, edge, triggers) := AfterPoll(old(s.state), s.mode, s.timing, now, raw);
      && Presses(more) == Presses(log) + Count(edge == PressEdge)
      && Times(more, Press) == Times(log, Press) + Count(Press in triggers)
      && Times(more, DoubleTapped) == Times(log, DoubleTapped) + Count(DoubleTapped in triggers)
  {
    hide Records, Polls, AfterPoll;
    var edge, triggers := s.Poll(now, raw);
    Logged(log, Outcome(edge, edge == PressEdge, triggers), Press);
    Logged(log, Outcome(edge, edge == PressEdge, triggers), DoubleTapped);
    more := log + [Outcome(edge, edge == PressEdge, triggers)];
  }

  lemma NothingLogged()
    ensures Presses([]) == 0 && forall t :: Times([], t) == 0
  {
  }
}
