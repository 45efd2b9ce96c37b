/** The detection of expression pedals by charging a jack and watching it settle.
    Every call of the board's backend may fail. Source:
    firmware/src/expression_presence.c. */
module ExpressionPresence {
  const INTERVAL_MS: nat := 1500
  const CHARGE_MS: nat := 2
  const SETTLE_MS: nat := 10
  const ABSENT_GAP: int := 30000
  const ABSENT_STREAK: nat := 3

  type Jack = j: nat | 1 <= j <= 2 witness 1

  datatype Phase = Idle | ChargeHigh | SettleHigh | ChargeLow | SettleLow | RecoverRelease | RecoverSettle

  // ----- what the completed probes of a jack say

  predicate Bad(gap: int) { gap > ABSENT_GAP }

  /** The bad probes at the end of the list, up to the full streak. */
  function Streak(gaps: seq<int>): (n: nat)
    ensures n <= ABSENT_STREAK
  {
    if gaps == [] || !Bad(gaps[|gaps| - 1]) then 0
    else
      var before := Streak(gaps[..|gaps| - 1]);
      if before < ABSENT_STREAK then before + 1 else before
  }

  /** A pedal is present from a good probe until a full streak of bad ones. */
  function Presence(gaps: seq<int>): bool {
    if gaps == [] then false
    else if !Bad(gaps[|gaps| - 1]) then true
    else if Streak(gaps) == ABSENT_STREAK then false
    else Presence(gaps[..|gaps| - 1])
  }

  /** The streak is the number of bad probes after the last good one, while that is
      less than the full streak. */
  lemma {:induction false} StreakMeans(gaps: seq<int>)
    ensures Streak(gaps) <= |gaps| && forall j | |gaps| - Streak(gaps) <= j < |gaps| :: Bad(gaps[j])
    ensures Streak(gaps) < ABSENT_STREAK && Streak(gaps) < |gaps| ==> !Bad(gaps[|gaps| - 1 - Streak(gaps)])
  {
    if gaps != [] { StreakMeans(gaps[..|gaps| - 1]); }
  }

  /** Present means: there was a good probe, and fewer than three bad ones since. */
  lemma {:induction false} PresenceMeans(gaps: seq<int>)
    ensures Presence(gaps) <==> Streak(gaps) < ABSENT_STREAK && Streak(gaps) < |gaps|
  {
    if gaps != [] {
      PresenceMeans(gaps[..|gaps| - 1]);
      StreakMeans(gaps[..|gaps| - 1]);
    }
  }

  lemma NextProbe(gaps: seq<int>, gap: int)
    ensures var s := Streak(gaps);
      && Streak(gaps + [gap]) == (if !Bad(gap) then 0 else if s < ABSENT_STREAK then s + 1 else s)
      && Presence(gaps + [gap]) == (if !Bad(gap) then true else if Streak(gaps + [gap]) == ABSENT_STREAK then false
                                    else Presence(gaps))
  {
    assert (gaps + [gap])[..|gaps|] == gaps;
  }

  /** One jack's state, and the gaps of the probes completed since it was enabled. */
  datatype JackState = JackState(present: bool, known: bool, streak: nat, gap: int)

  predicate Tracks(s: JackState, gaps: seq<int>) {
    s.present == Presence(gaps) && s.streak == Streak(gaps)
  }

  /** How one tick may move a jack: it turns absent only when it is not enabled, or
      on the last of a full streak of bad probes, and present only on a good one. */
  predicate Moves(on: bool, a: JackState, g: seq<int>, b: JackState, h: seq<int>) {
    && (!on ==> !b.present && h == [])
    && (on ==> h == g || (|h| == |g| + 1 && h[..|g|] == g))
    && (on && a.present && !b.present ==> Streak(h) == ABSENT_STREAK && |h| == |g| + 1)
    && (!a.present && b.present ==> on && |h| == |g| + 1 && !Bad(h[|h| - 1]))
  }

  /** How a jack changes while it stays enabled: not at all, or by one probe. */
  predicate Probed(a: JackState, g: seq<int>, b: JackState, h: seq<int>) {
    (b == a && h == g) || (|h| == |g| + 1 && h[..|g|] == g)
  }

  lemma ProbedMoves(on: bool, a: JackState, g: seq<int>, b: JackState, h: seq<int>)
    requires Tracks(a, g) && Tracks(b, h) && Probed(a, g, b, h) && (!on ==> b == a && h == g && !a.present && g == [])
    ensures Moves(on, a, g, b, h)
  {
    if |h| == |g| + 1 {
      assert h == g + [h[|g|]];
      NextProbe(g, h[|g|]);
    }
  }

  /** Clearing first, probing after. */
  lemma MovesAfter(on: bool, a: JackState, g: seq<int>, m: JackState, k: seq<int>, b: JackState, h: seq<int>)
    requires if on then m == a && k == g else !m.present && k == []
    requires Moves(on, m, k, b, h)
    ensures Moves(on, a, g, b, h)
  {
  }

  class Detector {
    /** The board has all three backend calls. */
    const backend: bool
    var phase: Phase
    var jack: Jack
    var lastJack: Jack
    var deadline: nat
    var nextProbe: nat
    var scheduled: bool
    var high: nat
    var first: JackState
    var second: JackState

    // what really happened: the jacks that may be driven, the completed probes, and
    // the start of the last probe
    ghost var driven: set<Jack>
    ghost var firstGaps: seq<int>
    ghost var secondGaps: seq<int>
    ghost var lastStart: nat
    ghost var started: bool

    /** Nothing is driven outside the phases that may. */
    predicate Quiet()
      reads this`phase
    {
      phase != ChargeHigh && phase != ChargeLow && phase != RecoverRelease
    }

    ghost predicate Valid()
      reads this
    {
      && driven <= {jack} && (Quiet() ==> driven == {})
      && (phase != Idle ==> backend)
      && Tracks(first, firstGaps) && Tracks(second, secondGaps)
      && (started ==> scheduled && nextProbe == lastStart + INTERVAL_MS)
    }

    /** bosun_expression_presence_init */
    constructor (backend: bool)
      ensures Valid() && phase == Idle && driven == {} && firstGaps == [] && secondGaps == []
    {
      this.backend := backend;
      phase, jack, lastJack, deadline, nextProbe, scheduled, high := Idle, 1, 2, 0, 0, false, 0;
      first, second := JackState(false, false, 0, 0), JackState(false, false, 0, 0);
      driven, firstGaps, secondGaps, lastStart, started := {}, [], [], 0, false;
    }

    // ----- the backend

    /** Drive a jack; when it fails, the jack may be driven all the same. */
    method Charge(j: Jack) returns (ok: bool)
      modifies this`driven
      ensures driven == old(driven) + {j}
    {
      driven := driven + {j};
      ok := *;
    }

    /** Give the pin back; when it fails, the jack may still be driven. */
    method ReleasePin(j: Jack) returns (ok: bool)
      modifies this`driven
      ensures driven == if ok then old(driven) - {j} else old(driven)
    {
      ok := *;
      if ok { driven := driven - {j}; }
    }

    method ReadPin() returns (ok: bool, raw: nat)
      ensures raw < 65536
    {
      ok, raw := *, *;
      if raw >= 65536 { raw := 65535; }
    }

    // ----- tick

    /** recover() */
    method Recover(now: nat)
      requires driven <= {jack} && backend
      modifies this`driven, this`phase, this`deadline
      ensures driven <= {jack} && (Quiet() ==> driven == {})
      ensures phase == RecoverSettle || phase == RecoverRelease
    {
      var ok := ReleasePin(jack);
      if ok {
        phase := RecoverSettle;
        deadline := now + SETTLE_MS;
      } else {
        phase := RecoverRelease;
      }
    }

    /** A jack that is not enabled is unknown, and its past does not count. */
    method Forget(enabled: set<Jack>)
      requires Valid()
      modifies this`first, this`second, this`firstGaps, this`secondGaps
      ensures Valid()
      ensures if 1 in enabled then first == old(first) && firstGaps == old(firstGaps)
              else !first.present && !first.known && firstGaps == []
      ensures if 2 in enabled then second == old(second) && secondGaps == old(secondGaps)
              else !second.present && !second.known && secondGaps == []
    {
      if 1 !in enabled {
        first := first.(present := false, known := false, streak := 0);
        firstGaps := [];
      }
      if 2 !in enabled {
        second := second.(present := false, known := false, streak := 0);
        secondGaps := [];
      }
    }

    /** The next jack, round robin over the enabled ones. */
    method Start(now: nat, enabled: set<Jack>)
      requires Valid() && phase == Idle && enabled != {} && backend
      modifies this`jack, this`lastJack, this`scheduled, this`nextProbe, this`lastStart, this`started,
               this`driven, this`phase, this`deadline
      ensures Valid() && jack in enabled && started && lastStart == now
      ensures enabled == {1, 2} ==> jack != old(lastJack)
    {
      hide Tracks;
      SomeJack(enabled);
      jack := if lastJack == 1 then 2 else 1;
      if jack !in enabled { jack := if jack == 1 then 2 else 1; }
      lastJack := jack;
      scheduled, nextProbe := true, now + INTERVAL_MS;
      started, lastStart := true, now;
      var ok := Charge(jack);
      if !ok {
        Recover(now);
        return;
      }
      phase := ChargeHigh;
      deadline := now + CHARGE_MS;
    }

    lemma SomeJack(enabled: set<Jack>)
      requires enabled != {}
      ensures 1 in enabled || 2 in enabled
    {
      var j :| j in enabled;
      assert j == 1 || j == 2;
    }

    /** A whole probe: two samples, one after each rail. */
    method Complete(low: nat)
      requires Valid() && phase == SettleLow
      modifies this`first, this`second, this`firstGaps, this`secondGaps, this`phase
      ensures Valid() && phase == Idle
      ensures jack == 1 ==> firstGaps == old(firstGaps) + [high - low] && second == old(second) && secondGaps == old(secondGaps)
      ensures jack == 2 ==> secondGaps == old(secondGaps) + [high - low] && first == old(first) && firstGaps == old(firstGaps)
    {
      hide Tracks;
      if jack == 1 {
        first := Assess(first, high - low, firstGaps);
        firstGaps := firstGaps + [high - low];
      } else {
        second := Assess(second, high - low, secondGaps);
        secondGaps := secondGaps + [high - low];
      }
      phase := Idle;
    }

    /** What a completed probe makes of its jack. */
    method Assess(was: JackState, gap: int, ghost gaps: seq<int>) returns (state: JackState)
      requires Tracks(was, gaps)
      ensures Tracks(state, gaps + [gap]) && state.known && state.gap == gap
    {
      NextProbe(gaps, gap);
      hide Presence, Streak;
      state := was.(gap := gap, known := true);
      if gap > ABSENT_GAP {
        if state.streak < ABSENT_STREAK { state := state.(streak := state.streak + 1); }
        if state.streak >= ABSENT_STREAK { state := state.(present := false); }
      } else {
        state := state.(streak := 0, present := true);
      }
    }

    /** The step a phase takes when its time has come. */
    method Advance(now: nat)
      requires Valid() && phase != Idle && phase != RecoverRelease
      modifies this`driven, this`phase, this`deadline, this`high, this`first, this`second, this`firstGaps, this`secondGaps
      ensures Valid()
      ensures Probed(old(first), old(firstGaps), first, firstGaps) && Probed(old(second), old(secondGaps), second, secondGaps)
      ensures old(phase) == RecoverSettle || jack != 1 ==> first == old(first) && firstGaps == old(firstGaps)
      ensures old(phase) == RecoverSettle || jack != 2 ==> second == old(second) && secondGaps == old(secondGaps)
    {
      hide Tracks;
      match phase
      case ChargeHigh =>
        var ok := ReleasePin(jack);
        if !ok { Recover(now); } else { phase, deadline := SettleHigh, now + SETTLE_MS; }
      case ChargeLow =>
        var ok := ReleasePin(jack);
        if !ok { Recover(now); } else { phase, deadline := SettleLow, now + SETTLE_MS; }
      case SettleHigh =>
        var ok, raw := ReadPin();
        if !ok {
          Recover(now);
          return;
        }
        high := raw;
        ok := Charge(jack);
        if !ok { Recover(now); } else { phase, deadline := ChargeLow, now + CHARGE_MS; }
      case SettleLow =>
        var ok, low := ReadPin();
        if !ok { Recover(now); } else { Complete(low); }
      case RecoverSettle =>
        phase := Idle;
    }

    /** The part of a tick that works on the probe. */
    method Work(now: nat, enabled: set<Jack>)
      requires Valid()
      modifies this
      ensures Valid()
      ensures Probed(old(first), old(firstGaps), first, firstGaps) && Probed(old(second), old(secondGaps), second, secondGaps)
      ensures 1 !in enabled ==> first == old(first) && firstGaps == old(firstGaps)
      ensures 2 !in enabled ==> second == old(second) && secondGaps == old(secondGaps)
      ensures old(phase) == Idle && phase != Idle && old(started) ==> now >= old(lastStart) + INTERVAL_MS
    {
      hide Tracks;
      if phase != Idle && phase != RecoverRelease && phase != RecoverSettle && jack !in enabled {
        Recover(now);
        return;
      }
      if phase == RecoverRelease {
        Recover(now);
        return;
      }
      if phase == Idle {
        if enabled == {} || (scheduled && now < nextProbe) { return; }
        if !backend { return; }
        Start(now, enabled);
        return;
      }
      if now < deadline { return; }
      Advance(now);
    }

    /** bosun_expression_presence_tick. At every exit at most one jack may be driven,
        the probed one, and none outside the driving phases. */
    method Tick(now: nat, enabled: set<Jack>)
      requires Valid()
      modifies this
      ensures Valid()
      ensures driven <= {jack} && (Quiet() ==> driven == {})
      ensures Moves(1 in enabled, old(first), old(firstGaps), first, firstGaps)
      ensures Moves(2 in enabled, old(second), old(secondGaps), second, secondGaps)
      ensures old(phase) == Idle && phase != Idle && old(started) ==> now >= old(lastStart) + INTERVAL_MS
    {
      hide Tracks, Moves, Probed;
      Forget(enabled);
      ghost var a, g, b, h := first, firstGaps, second, secondGaps;
      Work(now, enabled);
      ProbedMoves(1 in enabled, a, g, first, firstGaps);
      ProbedMoves(2 in enabled, b, h, second, secondGaps);
      MovesAfter(1 in enabled, old(first), old(firstGaps), a, g, first, firstGaps);
      MovesAfter(2 in enabled, old(second), old(secondGaps), b, h, second, secondGaps);
    }
  }

  /** Any run, with the backend failing at any call: never more than the probed jack
      is driven, and a pedal is present exactly if it was seen well and not missed
      three times in a row since. */
  method Run(d: Detector, ticks: seq<(nat, set<Jack>)>)
    requires d.Valid()
    modifies d
    ensures d.Valid() && d.driven <= {d.jack} && (d.Quiet() ==> d.driven == {})
    ensures d.first.present == Presence(d.firstGaps) && d.second.present == Presence(d.secondGaps)
  {
    hide Presence, Streak;
    for k := 0 to |ticks|
      invariant d.Valid()
    {
      d.Tick(ticks[k].0, ticks[k].1);
    }
  }
}
