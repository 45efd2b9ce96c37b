/** The Kemper engine's bookkeeping as values: which state queries are still out,
    what a late reply may touch, and how long a rig transition can last.
    Source: firmware/src/kemper.c. */
module KemperTiming {
  const BLOCKS: nat := 8
  type Block = b: nat | b < BLOCKS

  const PC_ORPHANS: nat := 8
  const LAST_GENERATION: nat := 0x3fff_ffff
  const SETTLE_MS: nat := 500
  const ECHO_SETTLE_MS: nat := 50
  const ROUND_MS: nat := 400
  const QUERY_MS: nat := 1200
  const ECHO_MS: nat := 10000
  const BANK_SNAPSHOT_MS: nat := 2500
  const HALF_CLOCK: nat := 0x8000_0000
  const CLOCK: nat := 0x1_0000_0000

  // ----- the clock

  predicate Due(now: nat, deadline: nat) { now >= deadline }

  function Later(a: nat, b: nat): nat { if a > b then a else b }

  /** (int32_t)x for a 32-bit x. */
  function Signed(x: int): int
  {
    var w := x % CLOCK;
    if w < HALF_CLOCK then w else w - CLOCK
  }

  /** The C comparisons of wrapped clocks read like comparisons of true times, as
      long as the times are less than half the clock's range apart. */
  lemma WrappedComparisons(now: nat, deadline: nat)
    requires -(HALF_CLOCK as int) < now - deadline < HALF_CLOCK
    ensures Signed(now % CLOCK - deadline % CLOCK) >= 0 <==> Due(now, deadline)
    ensures (if Signed(now % CLOCK - deadline % CLOCK) > 0 then now % CLOCK else deadline % CLOCK)
         == Later(now, deadline) % CLOCK
  {
    var difference := now - deadline;
    assert (now % CLOCK - deadline % CLOCK) % CLOCK == difference % CLOCK by {
      var a, b := now / CLOCK, deadline / CLOCK;
      assert now == a * CLOCK + now % CLOCK && deadline == b * CLOCK + deadline % CLOCK;
      assert difference == (a - b) * CLOCK + (now % CLOCK - deadline % CLOCK);
      ModuloShift(now % CLOCK - deadline % CLOCK, a - b);
    }
    if difference < 0 { ModuloShift(difference, 1); }
  }

  lemma ModuloShift(x: int, turns: int)
    ensures (turns * CLOCK + x) % CLOCK == x % CLOCK
  {
    var q := x / CLOCK;
    assert x == q * CLOCK + x % CLOCK;
    assert turns * CLOCK + x == (turns + q) * CLOCK + x % CLOCK;
    ModuloUnique(turns * CLOCK + x, turns + q, x % CLOCK);
  }

  lemma ModuloUnique(x: int, q: int, r: int)
    requires x == q * CLOCK + r && 0 <= r < CLOCK
    ensures x % CLOCK == r
  {
    var p := x / CLOCK;
    assert x == p * CLOCK + x % CLOCK;
    assert (p - q) * CLOCK == r - x % CLOCK;
    assert -(CLOCK as int) < (p - q) * CLOCK < CLOCK;
  }

  // ----- state queries

  /** An effect-state request on the wire, with the number of the rig change it
      was sent under. Real replies carry no such tag. */
  datatype Query = Query(block: Block, sent: nat, epoch: nat)

  /** The settle and reconcile timers. */
  datatype Sync = Sync(settling: bool, settleUntil: nat, pending: set<Block>, attempt: nat,
                       queried: set<Block>, deadline: nat, retire: nat)

  /** Blocks whose state replies are ignored, and until when. */
  datatype Orphans = Orphans(blocks: set<Block>, until: nat)

  function Expire(o: Orphans, now: nat): Orphans {
    if o.blocks != {} && Due(now, o.until) then o.(blocks := {}) else o
  }

  function Quarantined(s: Sync, o: Orphans, now: nat): Orphans {
    var e := Expire(o, now);
    if s.queried != {} && !Due(now, s.retire)
    then Orphans(e.blocks + s.queried, if e.blocks != {} then Later(e.until, s.retire) else s.retire)
    else e
  }

  function Reset(s: Sync, now: nat, delay: nat): Sync {
    s.(settling := true, settleUntil := now + delay, pending := {}, attempt := 0, queried := {})
  }

  predicate Quarantines(o: Orphans, q: Query) { q.block in o.blocks && q.sent + QUERY_MS <= o.until }

  predicate Remembers(s: Sync, q: Query) { q.block in s.queried && q.sent + QUERY_MS <= s.retire }

  /** No reply can take anyone by surprise: a query that may still be answered is
      quarantined, or it belongs to the current rig and is remembered as out. */
  ghost predicate Guarded(queries: set<Query>, s: Sync, o: Orphans, epoch: nat, now: nat) {
    && (s.settling ==> s.queried == {})
    && forall q | q in queries ::
         && q.sent <= now && q.epoch <= epoch
         && (now < q.sent + QUERY_MS ==> Quarantines(o, q) || (q.epoch == epoch && Remembers(s, q)))
  }

  lemma GuardedLater(queries: set<Query>, s: Sync, o: Orphans, epoch: nat, now: nat, later: nat)
    requires Guarded(queries, s, o, epoch, now) && now <= later
    ensures Guarded(queries, s, o, epoch, later)
    ensures Guarded(queries, s, Expire(o, later), epoch, later)
  {
  }

  /** Every query that may still be answered is quarantined. */
  ghost predicate AllQuarantined(queries: set<Query>, o: Orphans, now: nat) {
    forall q | q in queries && now < q.sent + QUERY_MS :: Quarantines(o, q)
  }

  lemma QuarantineGuards(queries: set<Query>, s: Sync, o: Orphans, epoch: nat, now: nat)
    requires Guarded(queries, s, o, epoch, now)
    ensures AllQuarantined(queries, Quarantined(s, o, now), now)
    ensures Guarded(queries, s, Quarantined(s, o, now), epoch, now)
  {
    var t := Quarantined(s, o, now);
    forall q | q in queries && now < q.sent + QUERY_MS ensures Quarantines(t, q) { }
  }

  /** Once all are quarantined, the engine may start over for a new rig. */
  lemma RestartGuards(queries: set<Query>, s: Sync, t: Sync, o: Orphans, epoch: nat, now: nat, next: nat)
    requires Guarded(queries, s, o, epoch, now) && AllQuarantined(queries, o, now) && epoch <= next
    requires t.queried == {} || t == s
    ensures Guarded(queries, t, o, next, now)
  {
  }

  /** The queries of one round. */
  function Asked(blocks: set<Block>, now: nat, epoch: nat): set<Query> {
    set b: Block | b in blocks :: Query(b, now, epoch)
  }

  /** Sending queries and remembering them as out. */
  lemma AskingGuards(queries: set<Query>, s: Sync, t: Sync, o: Orphans, epoch: nat, now: nat, blocks: set<Block>)
    requires Guarded(queries, s, o, epoch, now) && !t.settling
    requires t.queried == s.queried + blocks && now + QUERY_MS <= t.retire
    requires s.queried == {} || s.retire <= t.retire
    ensures Guarded(queries + Asked(blocks, now, epoch), t, o, epoch, now)
  {
    forall q | q in queries && now < q.sent + QUERY_MS
      ensures Quarantines(o, q) || (q.epoch == epoch && Remembers(t, q))
    {
    }
  }

  /** Forgetting the queries whose replies can no longer come. */
  lemma RetireGuards(queries: set<Query>, s: Sync, t: Sync, o: Orphans, epoch: nat, now: nat)
    requires Guarded(queries, s, o, epoch, now) && t.queried == {}
    requires s.queried == {} || Due(now, s.retire)
    ensures Guarded(queries, t, o, epoch, now)
  {
    forall q | q in queries && now < q.sent + QUERY_MS ensures Quarantines(o, q) {
      assert !Remembers(s, q);
    }
  }

  /** The first main result, as a value: a reply that comes within 1200 ms of a
      query of an earlier rig finds its block quarantined. */
  lemma StaleIsQuarantined(queries: set<Query>, s: Sync, o: Orphans, epoch: nat, earlier: nat, now: nat, q: Query)
    requires Guarded(queries, s, o, epoch, earlier) && earlier <= now
    requires q in queries && q.epoch < epoch && now < q.sent + QUERY_MS
    ensures q.block in Expire(o, now).blocks
  {
  }

  // ----- how long a transition lasts

  /** The window a bank header opens for the echo of our own selection. */
  datatype Window = Window(active: bool, deadline: nat, deferred: bool)

  /** bosun_kemper_transition_active. */
  predicate Active(s: Sync, w: Window) { s.settling || s.pending != {} || w.active }

  /** The limits every deadline keeps while time passes. */
  predicate Bounded(s: Sync, o: Orphans, w: Window, now: nat) {
    && s.attempt <= 2
    && (s.settling ==> s.attempt == 0 && s.pending == {} && s.settleUntil <= now + SETTLE_MS)
    && (s.attempt > 0 ==> s.deadline <= now + ROUND_MS)
    && (s.queried != {} ==> s.retire <= now + QUERY_MS)
    && (o.blocks != {} ==> o.until <= now + QUERY_MS)
    && (w.active ==> w.deadline <= now + BANK_SNAPSHOT_MS)
    && (w.deferred ==> w.active)
    // nothing asked before the window opened can still be answered when it closes
    && (w.active && s.queried != {} ==> s.retire <= w.deadline)
    && (w.active && o.blocks != {} ==> o.until <= w.deadline)
  }

  lemma BoundedLater(s: Sync, o: Orphans, w: Window, now: nat, later: nat)
    requires Bounded(s, o, w, now) && now <= later
    ensures Bounded(s, o, w, later) && Bounded(s, Expire(o, later), w, later)
  {
  }

  /** Until when the engine may still be waiting for a query window or echo. */
  function Blocked(o: Orphans, w: Window): nat {
    Later(if o.blocks != {} then o.until else 0, if w.active then w.deadline else 0)
  }

  /** The time the next thing is due, with ticks so far up to lastTick. */
  function NextDue(s: Sync, o: Orphans, w: Window, lastTick: nat): nat {
    Later(lastTick,
          if w.deferred then w.deadline
          else if s.settling then Later(s.settleUntil, Blocked(o, w))
          else if s.pending == {} || s.attempt == 0 then Blocked(o, w)
          else Later(s.deadline, Blocked(o, w)))
  }

  /** What may still follow it, with ticks at most d apart. */
  function Remaining(s: Sync, w: Window, d: nat): nat {
    if w.deferred then SETTLE_MS + 2 * ROUND_MS + 3 * d
    else if s.settling || (s.pending != {} && s.attempt == 0) then 2 * ROUND_MS + 2 * d
    else if s.pending != {} && s.attempt == 1 then ROUND_MS + d
    else 0
  }

  /** The transition is over by then. */
  function EndBy(s: Sync, o: Orphans, w: Window, lastTick: nat, d: nat): nat {
    NextDue(s, o, w, lastTick) + d + Remaining(s, w, d)
  }

  lemma EndByAtMost(s: Sync, o: Orphans, w: Window, lastTick: nat, now: nat, d: nat)
    requires Bounded(s, o, w, now) && lastTick <= now
    ensures EndBy(s, o, w, lastTick, d) <= now + BANK_SNAPSHOT_MS + SETTLE_MS + 2 * ROUND_MS + 4 * d
  {
  }

  /** The reconcile part of bosun_kemper_tick, when no deferred selection comes due. */
  function Round(s: Sync, o: Orphans, w: Window, now: nat): Sync {
    if s.pending == {} || o.blocks != {} || w.active then s
    else s.(attempt := s.attempt + 1, queried := s.queried + s.pending,
            retire := now + QUERY_MS, deadline := now + ROUND_MS)
  }

  function Retired(s: Sync, now: nat): Sync {
    if s.queried != {} && Due(now, s.retire)
    then s.(queried := {}, attempt := if s.pending == {} then 0 else s.attempt)
    else s
  }

  function Settled(s: Sync, o: Orphans, w: Window, bound: set<Block>, now: nat): Sync {
    if s.settling && Due(now, s.settleUntil)
    then Round(s.(settling := false, pending := bound, attempt := 0, queried := {}), o, w, now)
    else s
  }

  function Pursued(s: Sync, o: Orphans, w: Window, now: nat): Sync {
    if s.pending == {} || s.settling then s
    else if s.attempt == 0 then Round(s, o, w, now)
    else if !Due(now, s.deadline) then s
    else if s.attempt < 2 then Round(s, o, w, now)
    else s.(pending := {})
  }

  function Ticked(s: Sync, o: Orphans, w: Window, bound: set<Block>, now: nat): Sync {
    Pursued(Settled(Retired(s, now), o, w, bound, now), o, w, now)
  }

  /** The window after its deadline has passed without a deferred selection. */
  function Closed(w: Window, now: nat): Window {
    if w.active && Due(now, w.deadline) then Window(false, w.deadline, false) else w
  }

  /** No quarantine or window is overdue, as after the first steps of a tick. */
  predicate Cleared(o: Orphans, w: Window, now: nat) {
    (o.blocks != {} ==> now < o.until) && (w.active ==> now < w.deadline)
  }

  lemma ClearingShortens(s: Sync, o: Orphans, w: Window, lastTick: nat, now: nat, d: nat)
    requires Bounded(s, o, w, now) && lastTick <= now && !(w.deferred && Due(now, w.deadline))
    ensures Bounded(s, Expire(o, now), Closed(w, now), now) && Cleared(Expire(o, now), Closed(w, now), now)
    ensures EndBy(s, Expire(o, now), Closed(w, now), lastTick, d) <= EndBy(s, o, w, lastTick, d)
  {
  }

  lemma RetiringKeeps(s: Sync, o: Orphans, w: Window, lastTick: nat, now: nat, d: nat)
    requires Bounded(s, o, w, now)
    ensures Bounded(Retired(s, now), o, w, now)
    ensures EndBy(Retired(s, now), o, w, lastTick, d) == EndBy(s, o, w, lastTick, d)
  {
  }

  lemma SettlingShortens(s: Sync, o: Orphans, w: Window, bound: set<Block>, lastTick: nat, now: nat, d: nat)
    requires Bounded(s, o, w, now) && Cleared(o, w, now) && lastTick <= now <= lastTick + d
    requires s.settling && Due(now, s.settleUntil)
    ensures var t := Settled(s, o, w, bound, now);
            Bounded(t, o, w, now) && EndBy(t, o, w, now, d) <= EndBy(s, o, w, lastTick, d)
  {
  }

  lemma PursuingShortens(s: Sync, o: Orphans, w: Window, lastTick: nat, now: nat, d: nat)
    requires Bounded(s, o, w, now) && Cleared(o, w, now) && lastTick <= now <= lastTick + d
    requires s.pending != {} && !s.settling
    ensures var t := Pursued(s, o, w, now);
            && Bounded(t, o, w, now)
            && (Active(t, w) ==> EndBy(t, o, w, now, d) <= EndBy(s, o, w, lastTick, d))
  {
  }

  lemma WaitingShortens(s: Sync, o: Orphans, w: Window, lastTick: nat, now: nat, d: nat)
    requires Bounded(s, o, w, now) && Cleared(o, w, now) && lastTick <= now <= lastTick + d
    requires if s.settling then !Due(now, s.settleUntil) else s.pending == {} && w.active
    ensures EndBy(s, o, w, now, d) <= EndBy(s, o, w, lastTick, d)
  {
  }

  /** A tick in which no deferred selection comes due never postpones the end. */
  lemma TickShortens(s: Sync, o: Orphans, w: Window, bound: set<Block>, lastTick: nat, now: nat, d: nat)
    requires Bounded(s, o, w, now) && lastTick <= now <= lastTick + d
    requires !(w.deferred && Due(now, w.deadline))
    ensures var v, e := Closed(w, now), Expire(o, now);
            var t := Ticked(s, e, v, bound, now);
            && Bounded(t, e, v, now)
            && (Active(t, v) ==> Active(s, w) && EndBy(t, e, v, now, d) <= EndBy(s, o, w, lastTick, d))
  {
    var v, e := Closed(w, now), Expire(o, now);
    ClearingShortens(s, o, w, lastTick, now, d);
    RetiringKeeps(s, e, v, lastTick, now, d);
    var r := Retired(s, now);
    if r.settling && Due(now, r.settleUntil) {
      SettlingShortens(r, e, v, bound, lastTick, now, d);
      var t := Settled(r, e, v, bound, now);
      if t.pending != {} { PursuingShortens(t, e, v, now, now, d); }
      hide Bounded, EndBy, Round;
    } else if r.pending != {} && !r.settling {
      PursuingShortens(r, e, v, lastTick, now, d);
      hide Bounded, EndBy, Round;
    } else if r.settling || v.active {
      WaitingShortens(r, e, v, lastTick, now, d);
      hide Bounded, EndBy, Round;
    }
  }

  lemma DeferredShortens(s: Sync, o: Orphans, w: Window, lastTick: nat, now: nat, d: nat)
    requires Bounded(s, o, w, now) && lastTick <= now <= lastTick + d
    requires w.deferred && Due(now, w.deadline)
    ensures var v, e := Window(false, w.deadline, false), Quarantined(s, o, now);
            var t := Reset(s, now, SETTLE_MS);
            Bounded(t, e, v, now) && e.blocks == {} && EndBy(t, e, v, now, d) <= EndBy(s, o, w, lastTick, d)
  {
  }
}
