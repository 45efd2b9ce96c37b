/** The Kemper engine: rig selections, their echoes, and effect states over a
    link whose replies carry no tags. Times are true milliseconds; see
    KemperTiming.WrappedComparisons. Source: firmware/src/kemper.c. */
module KemperEngine {
  import opened KemperTiming

  // ----- the parts of the engine's state

  /** bosun_kemper_state: what the pedal shows. */
  datatype Shown = Shown(rig: nat, known: set<Block>, on: set<Block>, name: string, named: bool,
                         connected: bool, changes: nat)

  /** The last state heard of each block, and under which generation. */
  datatype Cache = Cache(known: set<Block>, on: set<Block>, generation: seq<nat>)

  /** Late replies to refuse after a broadcast. */
  datatype Guard = Guard(budget: seq<nat>, until: seq<nat>, on: set<Block>)

  /** bosun_kemper_pc_token. */
  datatype Token = Token(generation: nat, expires: nat, rig: nat, valid: bool)

  /** Echoes due for the Program Changes sent: the latest, and superseded ones. */
  datatype Echo = Echo(local: Token, orphans: seq<Token>)

  /** The bank snapshot window; deferred is the rig of an external selection put off, or 0. */
  datatype Bank = Bank(active: bool, seen: bool, fallback: bool, deadline: nat, deferred: nat)
  {
    function AsWindow(): Window { Window(active, deadline, deferred != 0) }
  }

  /** The Program Change to send. */
  datatype Slot = Slot(waiting: bool, rig: nat, channel: nat, at: nat)

  datatype Names = Names(last: string, lastRig: nat, pending: string, pendingAt: nat, pendingGeneration: nat,
                         pendingRequested: bool, queryActive: bool, queryGeneration: nat,
                         retireActive: bool, retireAt: nat, bootstrap: bool)

  /** The model of the device. */
  datatype Model = Model(maxBanks: nat, profiler: bool, browse: bool)
  {
    predicate Known() { (browse ==> profiler) && maxBanks <= 125 && (!profiler ==> maxBanks * 5 <= 128) }
    function LastRig(): nat { if browse then 128 else maxBanks * 5 }
    predicate Legal(r: nat) { 1 <= r <= LastRig() }
  }

  /** A Program Change that went out: the rig shown then, the number of rig
      changes then and the number at its selection. */
  datatype Program = Program(channel: nat, number: nat, rig: nat, epoch: nat, selected: nat)

  /** Which rig change the stored and the shown state of each block belong to. */
  datatype Reports = Reports(cached: seq<nat>, shown: seq<nat>)

  /** Everything that can happen to the engine. The flags tell whether the link takes
      what the engine sends. A reply names the query it
      answers; on the wire it does not. */
  datatype Event = Ticking(sends: bool, asks: bool) | Select(on: nat, number: nat, place: nat, sends: bool)
                 | SelectBrowse(on: nat, program: nat)
                 | Begin(rig: nat) | AskName(sends: bool) | ProgramChange(pc: nat) | BankSelect(value: nat)
                 | Broadcast(block: Block, state: bool) | Reply(query: Query, state: bool)
                 | SlotType(block: Block, wah: bool) | RigName(text: string) | BankHeader | Sensing
                 | Bind(blocks: set<Block>)
  {
    /** Neither a selection, nor a Program Change, a name, or a bank header. */
    predicate Quiet() {
      Ticking? || AskName? || BankSelect? || Broadcast? || Reply? || SlotType? || Sensing? || Bind?
    }
  }

  // ----- invariants

  /** A state that is shown was reported under the rig that is shown. Beyond
      2^30 - 1 rig changes the generation number starts over. */
  ghost predicate Evidence(known: set<Block>, c: Cache, generation: nat, epoch: nat, r: Reports) {
    && |c.generation| == BLOCKS && |r.cached| == BLOCKS && |r.shown| == BLOCKS
    && (epoch <= LAST_GENERATION ==> generation == epoch)
    && (forall i | i in known :: c.generation[i] == generation)
    && (forall i | i in known && epoch <= LAST_GENERATION :: r.shown[i] == epoch)
    && (forall i | i in c.known ::
          r.cached[i] <= epoch && (r.cached[i] <= LAST_GENERATION ==> c.generation[i] == r.cached[i]))
  }

  predicate Guards(g: Guard) { |g.budget| == BLOCKS && |g.until| == BLOCKS }

  /** A Program Change waiting to go out is the latest selection. */
  predicate Waiting(m: Model, slot: Slot, rig: nat, selected: nat, epoch: nat) {
    slot.waiting ==> slot.rig == rig && selected == epoch && m.Legal(rig)
  }

  /** Every one that went out was the latest selection then. */
  ghost predicate Sent(m: Model, programs: seq<Program>) {
    forall i | 0 <= i < |programs| ::
      && programs[i].selected == programs[i].epoch
      && m.Legal(programs[i].rig) && programs[i].number == (programs[i].rig - 1) % 128
  }

  /** A valid echo token is about the rig shown. */
  predicate Echoes(m: Model, e: Echo, rig: nat, generation: nat) {
    && (e.local.valid ==> e.local.generation == generation && e.local.rig == rig && m.Legal(rig))
    && |e.orphans| <= PC_ORPHANS
  }

  ghost predicate Timers(m: Model, s: Sync, o: Orphans, b: Bank, epoch: nat, now: nat, queries: set<Query>,
                         rounds: nat) {
    && Guarded(queries, s, o, epoch, now) && Bounded(s, o, b.AsWindow(), now)
    && (b.deferred != 0 ==> m.Legal(b.deferred))
    // at most two rounds of queries after each settling time
    && rounds <= 2 && (s.pending != {} ==> rounds == s.attempt)
  }

  // ----- values

  function Unexpired(tokens: seq<Token>, now: nat): (kept: seq<Token>)
    ensures |kept| <= |tokens|
  {
    if tokens == [] then []
    else
      var last := tokens[|tokens| - 1];
      Unexpired(tokens[..|tokens| - 1], now) + if Due(now, last.expires) then [] else [last]
  }

  lemma {:induction false} UnexpiredAgain(tokens: seq<Token>, now: nat)
    ensures Unexpired(Unexpired(tokens, now), now) == Unexpired(tokens, now)
  {
    if tokens != [] {
      var front, last := tokens[..|tokens| - 1], tokens[|tokens| - 1];
      UnexpiredAgain(front, now);
      if Due(now, last.expires) {
        assert Unexpired(front, now) + [] == Unexpired(front, now);
      } else {
        assert (Unexpired(front, now) + [last])[..|Unexpired(front, now)|] == Unexpired(front, now);
      }
    }
  }

  lemma {:induction false} UnexpiredIn(tokens: seq<Token>, now: nat)
    ensures forall t | t in Unexpired(tokens, now) :: t in tokens
  {
    if tokens != [] { UnexpiredIn(tokens[..|tokens| - 1], now); }
  }

  /** The echoes still due. */
  function StillDue(e: Echo, now: nat): Echo {
    Echo(e.local.(valid := e.local.valid && !Due(now, e.local.expires)), Unexpired(e.orphans, now))
  }

  /** Our last program is superseded: its echo, if due, joins the list of eight. */
  function Superseded(e: Echo, now: nat): Echo {
    var x := StillDue(e, now);
    Echo(x.local.(valid := false),
         if !x.local.valid then x.orphans
         else (if |x.orphans| == PC_ORPHANS then x.orphans[1..] else x.orphans) + [x.local])
  }

  lemma SupersededAgain(e: Echo, now: nat)
    ensures StillDue(StillDue(e, now), now) == StillDue(e, now)
    ensures Superseded(StillDue(e, now), now) == Superseded(e, now)
  {
    UnexpiredAgain(e.orphans, now);
  }

  /** The name query still answered. */
  function NamesDue(n: Names, now: nat): Names {
    if n.retireActive && Due(now, n.retireAt) then n.(retireActive := false, queryActive := false) else n
  }

  /** The tokens without the first one for rig r. */
  function Without(tokens: seq<Token>, r: nat): (rest: seq<Token>)
    ensures |rest| <= |tokens|
  {
    if tokens == [] then []
    else if tokens[0].rig == r then tokens[1..]
    else [tokens[0]] + Without(tokens[1..], r)
  }

  lemma {:induction false} WithoutAt(tokens: seq<Token>, r: nat, i: nat)
    requires i < |tokens| && tokens[i].rig == r && forall j | 0 <= j < i :: tokens[j].rig != r
    ensures Without(tokens, r) == tokens[..i] + tokens[i + 1..]
  {
    if i > 0 {
      WithoutAt(tokens[1..], r, i - 1);
      assert tokens[..i] == [tokens[0]] + tokens[1..][..i - 1];
      assert tokens[1..][i - 1 + 1..] == tokens[i + 1..];
    }
  }

  /** The rig a Program Change stands for, after Bank Select lsb. */
  function RigOf(m: Model, lsb: nat, pc: nat): nat { (if m.browse then 0 else lsb * 128) + pc + 1 }

  /** The bank and program sent for a legal rig are those of that rig alone; a
      Player, which takes no Bank Select back, needs only bank 0. */
  lemma SelectionDecodes(m: Model, r: nat)
    requires m.Known() && m.Legal(r)
    ensures (r - 1) % 128 < 128 && (r - 1) / 128 < 5
    ensures RigOf(m, if m.profiler then (r - 1) / 128 else 0, (r - 1) % 128) == r
  {
    assert r - 1 == 128 * ((r - 1) / 128) + (r - 1) % 128;
  }

  function NextGeneration(g: nat): nat {
    if g + 1 > LAST_GENERATION then 1 else g + 1
  }

  function With(blocks: set<Block>, i: Block, on: bool): set<Block> {
    if on then blocks + {i} else blocks - {i}
  }

  lemma ExpireQuarantined(s: Sync, o: Orphans, now: nat)
    ensures Expire(Quarantined(s, o, now), now) == Quarantined(s, o, now)
    ensures Expire(Expire(o, now), now) == Expire(o, now)
  {
  }

  class Kemper {
    const model: Model
    var bound: set<Block>
    var shown: Shown
    var cache: Cache
    var sync: Sync
    var orphans: Orphans
    var guard: Guard
    var echo: Echo
    var bank: Bank
    var slot: Slot
    var names: Names
    var generation: nat
    var identityKnown: bool
    var bankLsb: nat
    var wahGeneration: nat
    var wahRefresh: nat
    var lastSensed: nat

    // what really happened: the time, the rig changes and the state queries so far
    var clock: nat
    var epoch: nat
    var lastTick: nat
    var queries: set<Query>

    ghost var selected: nat
    /** The rounds of state queries since the last settling time ended. */
    ghost var rounds: nat
    ghost var programs: seq<Program>
    ghost var reports: Reports

    /** bosun_kemper_init_model, and the rig and mode its caller sets. */
    constructor (model: Model, rig: nat, now: nat)
      requires model.Known()
      ensures Valid() && clock == now && lastTick == now && epoch == 0 && programs == [] && queries == {}
      ensures this.model == model && !TransitionActive() && generation == 0 && bankLsb == 0
      ensures echo == Echo(Token(0, 0, 0, false), []) && bank == Bank(false, false, false, 0, 0)
    {
      this.model := model;
      bound := {};
      shown := Shown(rig, {}, {}, "", false, false, 0);
      cache := Cache({}, {}, seq(BLOCKS, _ => 0));
      sync := Sync(false, 0, {}, 0, {}, 0, 0);
      orphans := Orphans({}, 0);
      guard := Guard(seq(BLOCKS, _ => 0), seq(BLOCKS, _ => 0), {});
      echo := Echo(Token(0, 0, 0, false), []);
      bank := Bank(false, false, false, 0, 0);
      slot := Slot(false, 0, 0, 0);
      names := Names("", 0, "", 0, 0, false, false, 0, false, 0, true);
      generation, identityKnown, bankLsb, wahGeneration, wahRefresh, lastSensed := 0, false, 0, 0, 0, 0;
      clock, lastTick, epoch, selected, queries, rounds, programs := now, now, 0, 0, {}, 0, [];
      reports := Reports(seq(BLOCKS, _ => 0), seq(BLOCKS, _ => 0));
    }

    /** bosun_kemper_transition_active. */
    predicate TransitionActive()
      reads this`sync, this`bank
    {
      Active(sync, bank.AsWindow())
    }

    ghost predicate Valid()
      reads this`shown, this`cache, this`generation, this`epoch, this`reports, this`guard, this`slot, this`selected,
            this`programs, this`echo, this`sync, this`orphans, this`bank, this`clock, this`queries, this`rounds
    {
      && model.Known()
      && Evidence(shown.known, cache, generation, epoch, reports)
      && Guards(guard)
      && Waiting(model, slot, shown.rig, selected, epoch)
      && Sent(model, programs)
      && Echoes(model, echo, shown.rig, generation)
      && Timers(model, sync, orphans, bank, epoch, clock, queries, rounds)
    }

    ghost predicate Timing()
      reads this`sync, this`orphans, this`bank, this`epoch, this`clock, this`queries, this`rounds
    {
      Timers(model, sync, orphans, bank, epoch, clock, queries, rounds)
    }

    method Advance(now: nat)
      requires Valid() && clock <= now
      modifies this`clock
      ensures Valid() && clock == now
    {
      GuardedLater(queries, sync, orphans, epoch, clock, now);
      BoundedLater(sync, orphans, bank.AsWindow(), clock, now);
      hide Guarded, Bounded, Evidence, Sent, Waiting, Echoes, Guards;
      clock := now;
    }

    // ----- expire_orphans, retire_pc, quarantine

    method ExpirePcs(now: nat)
      modifies this`echo
      ensures echo == old(echo).(orphans := Unexpired(old(echo).orphans, now))
    {
      var tokens, kept: seq<Token> := echo.orphans, [];
      for i := 0 to |tokens|
        invariant echo == old(echo)
        invariant kept == Unexpired(tokens[..i], now)
      {
        assert tokens[..i + 1][..i] == tokens[..i];
        if !Due(now, tokens[i].expires) { kept := kept + [tokens[i]]; }
      }
      assert tokens[..|tokens|] == tokens;
      echo := echo.(orphans := kept);
    }

    method ExpireBlocks(now: nat)
      requires Timing() && clock == now
      modifies this`orphans
      ensures Timing() && orphans == Expire(old(orphans), now)
    {
      GuardedLater(queries, sync, orphans, epoch, now, now);
      BoundedLater(sync, orphans, bank.AsWindow(), now, now);
      hide Guarded, Bounded;
      if orphans.blocks != {} && Due(now, orphans.until) { orphans := orphans.(blocks := {}); }
    }

    method ExpireOrphans(now: nat)
      requires Valid() && clock == now
      modifies this`names, this`echo, this`orphans
      ensures Valid()
      ensures orphans == Expire(old(orphans), now)
      ensures echo == StillDue(old(echo), now) && names == NamesDue(old(names), now)
    {
      hide Evidence, Sent, Waiting, Guards, Timers, Expire;
      if names.retireActive && Due(now, names.retireAt) {
        names := names.(retireActive := false, queryActive := false);
      }
      ExpirePcs(now);
      if echo.local.valid && Due(now, echo.local.expires) { echo := echo.(local := echo.local.(valid := false)); }
      ExpireBlocks(now);
    }

    /** retire_pc: an echo that is still due may come after a newer selection. */
    method RetirePc(now: nat)
      requires Valid() && clock == now && Expire(orphans, now) == orphans
      modifies this`names, this`echo, this`orphans
      ensures Valid() && orphans == old(orphans)
      ensures echo == Superseded(old(echo), now) && names == NamesDue(old(names), now)
    {
      hide Evidence, Sent, Waiting, Guards, Timers, Expire, Unexpired;
      ExpireOrphans(now);
      if echo.local.valid {
        if |echo.orphans| == PC_ORPHANS { echo := echo.(orphans := echo.orphans[1..]); }
        echo := echo.(orphans := echo.orphans + [echo.local]);
      }
      echo := echo.(local := echo.local.(valid := false));
    }

    method Adopt(now: nat, ghost before: Orphans)
      requires Timing() && clock == now && orphans == Expire(before, now)
      modifies this`orphans
      ensures Timing() && AllQuarantined(queries, orphans, now)
      ensures orphans == Quarantined(sync, before, now) && Expire(orphans, now) == orphans
    {
      QuarantineGuards(queries, sync, orphans, epoch, now);
      ExpireQuarantined(sync, orphans, now);
      ExpireQuarantined(sync, before, now);
      hide Guarded, AllQuarantined, Quarantines;
      if sync.queried != {} && !Due(now, sync.retire) {
        orphans := Orphans(orphans.blocks + sync.queried,
                           if orphans.blocks != {} then Later(orphans.until, sync.retire) else sync.retire);
      }
    }

    /** quarantine: whatever may still answer is ignored from here on. */
    method Quarantine(now: nat)
      requires Valid() && clock == now
      modifies this`names, this`echo, this`orphans
      ensures Valid() && AllQuarantined(queries, orphans, now)
      ensures orphans == Quarantined(sync, old(orphans), now) && Expire(orphans, now) == orphans
      ensures echo == StillDue(old(echo), now) && names == NamesDue(old(names), now)
    {
      hide Evidence, Sent, Waiting, Guards, Timers, Expire, AllQuarantined, Echoes, StillDue;
      ExpireOrphans(now);
      Adopt(now, old(orphans));
    }

    /** reset_reconcile. */
    method ResetReconcile(now: nat, delay: nat)
      requires Timing() && Guards(guard) && clock == now && AllQuarantined(queries, orphans, now)
      requires delay <= SETTLE_MS && !bank.active && bank.deferred == 0
      modifies this`sync, this`guard, this`wahRefresh
      ensures Timing() && Guards(guard) && sync == Reset(old(sync), now, delay)
    {
      RestartGuards(queries, sync, Reset(sync, now, delay), orphans, epoch, now, epoch);
      hide Guarded, AllQuarantined;
      sync := sync.(settling := true, settleUntil := now + delay);
      sync := sync.(pending := {}, attempt := 0, queried := {});
      guard := guard.(budget := seq(BLOCKS, _ => 0));
      wahRefresh := now;
    }

    // ----- arm

    /** A new generation knows nothing yet about the effects of its rig. */
    method NewGeneration(next: nat)
      requires Evidence(shown.known, cache, generation, epoch, reports)
      requires Timing() && AllQuarantined(queries, orphans, clock)
      modifies this`generation, this`epoch, this`shown
      ensures Evidence(shown.known, cache, generation, epoch, reports) && Timing()
      ensures epoch == old(epoch) + 1 && generation == NextGeneration(old(generation))
      ensures shown == old(shown).(rig := next, known := {}, name := "", named := false)
    {
      RestartGuards(queries, sync, sync, orphans, epoch, clock, epoch + 1);
      hide Guarded, Bounded, AllQuarantined;
      generation := generation + 1;
      if generation > LAST_GENERATION { generation := 1; }
      epoch := epoch + 1;
      shown := shown.(rig := next, known := {}, name := "", named := false);
    }

    method CloseWindow()
      requires Timing()
      modifies this`bank
      ensures Timing() && bank == Bank(false, false, false, old(bank).deadline, 0)
    {
      hide Guarded;
      bank := bank.(active := false, seen := false, fallback := false);
      bank := bank.(deferred := 0);
    }

    /** The second half of arm. */
    method Rearm(next: nat, now: nat)
      requires Valid() && clock == now && AllQuarantined(queries, orphans, now)
      requires !slot.waiting && !echo.local.valid
      modifies this`generation, this`epoch, this`shown, this`bank, this`sync, this`guard, this`wahRefresh
      ensures Valid()
      ensures epoch == old(epoch) + 1 && generation == NextGeneration(old(generation))
      ensures shown == old(shown).(rig := next, known := {}, name := "", named := false)
      ensures sync == Reset(old(sync), now, SETTLE_MS)
      ensures bank == Bank(false, false, false, old(bank).deadline, 0)
    {
      hide Evidence, Guards, Timers, Expire, AllQuarantined, Reset, Sent;
      NewGeneration(next);
      CloseWindow();
      ResetReconcile(now, SETTLE_MS);
    }

    lemma InvalidEcho(e: Echo, now: nat)
      ensures !Superseded(e, now).local.valid
    {
    }

    /** arm: another rig, or another name for this one. */
    method Arm(next: nat, now: nat)
      requires Valid() && clock == now
      modifies this`names, this`echo, this`orphans, this`generation, this`epoch, this`shown, this`bank, this`slot,
               this`sync, this`guard, this`wahRefresh
      ensures Valid()
      ensures epoch == old(epoch) + 1 && generation == NextGeneration(old(generation))
      ensures shown == old(shown).(rig := next, known := {}, name := "", named := false)
      ensures sync == Reset(old(sync), now, SETTLE_MS) && orphans == Quarantined(old(sync), old(orphans), now)
      ensures echo == Superseded(old(echo), now)
      ensures names == NamesDue(old(names), now).(bootstrap := true, pending := "", pendingRequested := false,
                                                  queryActive := false)
      ensures bank == Bank(false, false, false, old(bank).deadline, 0) && !slot.waiting
    {
      hide Evidence, Guards, Timers, Expire, AllQuarantined, Reset, Quarantined, Sent, Echoes, Superseded, StillDue;
      SupersededAgain(echo, now);
      InvalidEcho(echo, now);
      Quarantine(now);
      RetirePc(now);
      names := names.(bootstrap := true, pending := "", pendingRequested := false, queryActive := false);
      slot := slot.(waiting := false);
      Rearm(next, now);
    }

    /** expire_bank_snapshot: a selection put off for our own echo is made after all. */
    method ExpireBankSnapshot(now: nat)
      requires Valid() && clock == now
      modifies this`names, this`echo, this`orphans, this`generation, this`epoch, this`shown, this`bank, this`slot,
               this`sync, this`guard, this`wahRefresh
      ensures Valid()
      ensures !(old(bank).deferred != 0 && Due(now, old(bank).deadline)) ==>
                && bank.AsWindow() == Closed(old(bank).AsWindow(), now) && sync == old(sync) && orphans == old(orphans)
                && epoch == old(epoch) && shown == old(shown) && echo == old(echo) && generation == old(generation)
                && bank == old(bank).(active := bank.active) && slot == old(slot) && guard == old(guard)
      ensures old(bank).deferred != 0 && Due(now, old(bank).deadline) ==>
                && bank.AsWindow() == Window(false, old(bank).deadline, false) && bank.fallback
                && epoch == old(epoch) + 1 && generation == NextGeneration(old(generation))
                && shown.rig == old(bank).deferred && shown.changes == old(shown).changes + 1 && !slot.waiting
                && sync == Reset(old(sync), now, SETTLE_MS) && orphans == Quarantined(old(sync), old(orphans), now)
                && bank == Bank(false, false, true, old(bank).deadline, 0) && echo == Superseded(old(echo), now)
    {
      hide Evidence, Guards, Guarded, Expire, AllQuarantined, Reset, Quarantined, Sent, Echoes, Waiting, Superseded;
      if !bank.active || !Due(now, bank.deadline) { return; }
      var next := bank.deferred;
      bank := bank.(active := false, deferred := 0);
      if next != 0 {
        Arm(next, now);
        bank := bank.(fallback := true);
        shown := shown.(changes := shown.changes + 1);
      }
    }

    // ----- selections

    /** bosun_kemper_begin_rig. */
    method BeginRig(next: nat, now: nat) returns (ok: bool)
      requires Valid() && clock == now
      modifies this`names, this`echo, this`orphans, this`generation, this`epoch, this`shown, this`bank, this`slot,
               this`sync, this`guard, this`wahRefresh, this`selected
      ensures Valid() && clock == now && ok == model.Legal(next)
      ensures ok ==> epoch == old(epoch) + 1 && shown.rig == next
      ensures !ok ==> epoch == old(epoch) && shown == old(shown)
    {
      hide Valid, Reset, Quarantined;
      if next < 1 || next > model.LastRig() { return false; }
      Arm(next, now);
      return true;
    }

    /** schedule_program: bank select is out, the Program Change follows. */
    method ScheduleProgram(on: nat, next: nat, now: nat)
      requires Valid() && clock == now && model.Legal(next)
      modifies this`names, this`echo, this`orphans, this`generation, this`epoch, this`shown, this`bank, this`slot,
               this`sync, this`guard, this`wahRefresh, this`selected
      ensures Valid() && clock == now && epoch == old(epoch) + 1 && shown.rig == next
      ensures slot == Slot(true, next, on, now + 5)
      ensures bank == Bank(false, false, false, old(bank).deadline, 0) && echo == Superseded(old(echo), now)
    {
      hide Evidence, Guards, Timers, Sent, Echoes, Reset, Quarantined;
      Arm(next, now);
      slot := Slot(true, next, on, now + 5);
      selected := epoch;
    }

    /** bosun_kemper_select_rig_channel. */
    method SelectRig(on: nat, number: nat, place: nat, sends: bool, now: nat) returns (ok: bool, lsb: nat)
      requires Valid() && clock == now
      modifies this`names, this`echo, this`orphans, this`generation, this`epoch, this`shown, this`bank, this`slot,
               this`sync, this`guard, this`wahRefresh, this`selected
      ensures Valid() && clock == now
      ensures ok <==> sends && !model.browse && 1 <= on <= 16 && 1 <= number <= model.maxBanks && 1 <= place <= 5
      ensures ok ==> bank == Bank(false, false, false, old(bank).deadline, 0) && echo == Superseded(old(echo), now)
      ensures ok ==> && epoch == old(epoch) + 1 && shown.rig == (number - 1) * 5 + place && model.Legal(shown.rig)
                     && slot == Slot(true, shown.rig, on, now + 5) && lsb == (shown.rig - 1) / 128
      ensures !ok ==> epoch == old(epoch) && shown == old(shown) && slot == old(slot)
    {
      hide Valid, Reset, Quarantined, Superseded;
      lsb := 0;
      if model.browse || on < 1 || on > 16 || number < 1 || number > model.maxBanks || place < 1 || place > 5 {
        return false, 0;
      }
      var next := (number - 1) * 5 + place;
      lsb := (next - 1) / 128;
      ok := sends;
      if ok { ScheduleProgram(on, next, now); }
    }

    /** bosun_kemper_select_program_channel. */
    method SelectProgram(on: nat, program: nat, now: nat) returns (ok: bool)
      requires Valid() && clock == now
      modifies this`names, this`echo, this`orphans, this`generation, this`epoch, this`shown, this`bank, this`slot,
               this`sync, this`guard, this`wahRefresh, this`selected
      ensures Valid() && clock == now
      ensures ok == (model.profiler && model.browse && 1 <= on <= 16 && program < 128)
      ensures ok ==> epoch == old(epoch) + 1 && slot == Slot(true, program + 1, on, now + 5) && shown.rig == slot.rig
      ensures !ok ==> epoch == old(epoch) && shown == old(shown) && slot == old(slot)
    {
      hide Valid, Reset, Quarantined;
      if !model.profiler || !model.browse || on < 1 || on > 16 || program >= 128 { return false; }
      ScheduleProgram(on, program + 1, now);
      return true;
    }

    // ----- effect states

    ghost predicate Reported()
      reads this`shown, this`cache, this`generation, this`epoch, this`reports
    {
      Evidence(shown.known, cache, generation, epoch, reports)
    }

    /** cache_block. */
    method CacheBlock(i: Block, on: bool)
      requires Reported()
      modifies this`cache, this`reports
      ensures Reported() && cache.generation[i] == generation
      ensures cache == Cache(old(cache).known + {i}, With(old(cache).on, i, on), old(cache).generation[i := generation])
      ensures reports == old(reports).(cached := old(reports).cached[i := epoch])
    {
      cache := cache.(known := cache.known + {i});
      if on { cache := cache.(on := cache.on + {i}); } else { cache := cache.(on := cache.on - {i}); }
      cache := cache.(generation := cache.generation[i := generation]);
      reports := reports.(cached := reports.cached[i := epoch]);
    }

    /** publish_block, of a state reported in the present epoch. */
    method PublishBlock(i: Block, on: bool, ghost reported: nat)
      requires Reported() && cache.generation[i] == generation && (epoch <= LAST_GENERATION ==> reported == epoch)
      modifies this`shown, this`reports
      ensures Reported()
      ensures shown == old(shown).(known := old(shown).known + {i}, on := With(old(shown).on, i, on))
      ensures reports.cached == old(reports).cached
    {
      reports := reports.(shown := reports.shown[i := reported]);
      shown := shown.(known := shown.known + {i}, on := With(shown.on, i, on));
    }

    /** Store a state, and show it unless the rig is still settling. */
    method TakeState(i: Block, on: bool, show: bool)
      requires Reported()
      modifies this`cache, this`shown, this`reports
      ensures Reported()
      ensures cache == Cache(old(cache).known + {i}, With(old(cache).on, i, on), cache.generation)
      ensures shown == if show then old(shown).(known := old(shown).known + {i}, on := With(old(shown).on, i, on))
                       else old(shown)
    {
      hide Evidence;
      CacheBlock(i, on);
      if show { PublishBlock(i, on, epoch); }
    }

    /** A block the engine was waiting for has answered. */
    method Answered(i: Block)
      requires Timing()
      modifies this`sync
      ensures Timing() && sync == old(sync).(pending := old(sync).pending - {i})
    {
      AnswerKeeps(i);
      hide Guarded, Bounded;
      sync := sync.(pending := sync.pending - {i});
    }

    lemma AnswerKeeps(i: Block)
      requires Timing()
      ensures Guarded(queries, sync.(pending := sync.pending - {i}), orphans, epoch, clock)
      ensures Bounded(sync.(pending := sync.pending - {i}), orphans, bank.AsWindow(), clock)
    {
    }

    /** receive_live_block: a broadcast is current, whatever was asked before. */
    method ReceiveLiveBlock(i: Block, on: bool, now: nat)
      requires Valid() && clock == now
      modifies this`cache, this`shown, this`reports, this`sync, this`guard, this`names
      ensures Valid() && sync == old(sync).(pending := old(sync).pending - {i})
      ensures cache.on == With(old(cache).on, i, on)
      ensures !old(sync).settling || Due(now, old(sync).settleUntil) ==> i in shown.known && (i in shown.on <==> on)
      ensures shown.rig == old(shown).rig
      ensures i in old(sync).queried && !Due(now, old(sync).retire) ==>
                guard == Guard(old(guard).budget[i := if old(sync).attempt > 0 then old(sync).attempt else 1],
                               old(guard).until[i := now + QUERY_MS], With(old(guard).on, i, on))
    {
      hide Evidence, Timers, Sent, Echoes, Waiting;
      var asked := i in sync.queried && !Due(now, sync.retire);
      TakeState(i, on, !sync.settling || Due(now, sync.settleUntil));
      Answered(i);
      if sync.pending == {} { CommitName(now); }
      if asked {
        guard := Guard(guard.budget[i := if sync.attempt > 0 then sync.attempt else 1],
                       guard.until[i := now + QUERY_MS], With(guard.on, i, on));
      }
    }

    // ----- names

    method AcceptName(name: string)
      modifies this`names, this`shown
      ensures shown == old(shown).(name := name, named := true)
      ensures names == old(names).(last := name, lastRig := shown.rig, bootstrap := false)
    {
      shown := shown.(name := name, named := true);
      names := names.(last := name, lastRig := shown.rig, bootstrap := false);
    }

    /** A name is held back that may be shown by now. */
    predicate NameDue(now: nat)
      reads this`names, this`sync, this`bank, this`generation
    {
      names.pending != "" && !TransitionActive() && names.pendingGeneration == generation && now >= names.pendingAt + 150
    }

    /** It may only be the name of the rig before. */
    predicate Repeats()
      reads this`names, this`shown
    {
      !names.pendingRequested && names.lastRig != 0 && names.lastRig != shown.rig && names.pending == names.last
    }

    /** commit_name: a name held back is shown once the rig has settled, unless it
        only repeats the name of the rig before. */
    method CommitName(now: nat)
      modifies this`names, this`shown
      ensures shown == if old(NameDue(now) && !Repeats()) then old(shown).(name := old(names).pending, named := true)
                       else old(shown)
      ensures names == if !old(NameDue(now)) then old(names) else if old(Repeats()) then old(names).(pending := "")
                       else old(names).(last := old(names).pending, lastRig := shown.rig, bootstrap := false, pending := "")
    {
      if names.pending == "" || TransitionActive() || names.pendingGeneration != generation
         || now < names.pendingAt + 150 { return; }
      if !names.pendingRequested && names.lastRig != 0 && names.lastRig != shown.rig && names.pending == names.last {
        names := names.(pending := "");
        return;
      }
      AcceptName(names.pending);
      names := names.(pending := "");
    }

    predicate MayAskName(now: nat)
      reads this`names, this`sync, this`bank, this`identityKnown
    {
      identityKnown && !TransitionActive() && names.pending == "" && !(names.retireActive && !Due(now, names.retireAt))
    }

    /** bosun_kemper_request_rig_name; the link may not take it. */
    method RequestRigName(now: nat, sends: bool) returns (ok: bool)
      modifies this`names
      ensures ok <==> old(MayAskName(now)) && sends
      ensures names == if !old(MayAskName(now)) then old(names)
                       else old(names).(queryGeneration := generation, retireAt := now + QUERY_MS, retireActive := true,
                                        queryActive := sends)
    {
      if !identityKnown || TransitionActive() || names.pending != ""
         || (names.retireActive && !Due(now, names.retireAt)) { return false; }
      ok := sends;
      names := names.(queryGeneration := generation, retireAt := now + QUERY_MS, retireActive := true, queryActive := ok);
    }

    /** The first name of all. */
    predicate FirstName()
      reads this`names
    {
      names.last == "" && names.lastRig == 0
    }

    /** Another name than the last one seen, or the last one for another rig. */
    predicate OtherName(name: string)
      reads this`names, this`shown
    {
      (names.last != "" && name != names.last) || (names.lastRig != 0 && names.lastRig != shown.rig)
    }

    /** A name heard while nothing is pending: the last one again, or the first
        one of all, is taken at once; any other restarts the transition. */
    method Compare(name: string, now: nat) returns (taken: bool)
      requires Valid() && clock == now
      modifies this`names, this`echo, this`orphans, this`generation, this`epoch, this`shown, this`bank, this`slot,
               this`sync, this`guard, this`wahRefresh
      ensures Valid() && shown.rig == old(shown).rig && shown.on == old(shown).on && shown.known <= old(shown).known
      ensures epoch == old(epoch) ==> sync == old(sync) && orphans == old(orphans) && bank == old(bank)
      ensures epoch == old(epoch) + if old(FirstName() || OtherName(name)) then 1 else 0
      ensures taken <==> old(FirstName() || !OtherName(name))
      ensures taken ==> shown.name == name && shown.named && names.last == name && names.lastRig == shown.rig
      ensures !taken ==> names.last == old(names).last && names.lastRig == old(names).lastRig
    {
      hide Evidence, Guarded, Bounded, Sent, Echoes, Waiting, Guards, Reset, Quarantined, Superseded;
      var initial := names.last == "" && names.lastRig == 0;
      var other := (names.last != "" && name != names.last) || (names.lastRig != 0 && names.lastRig != shown.rig);
      if other || initial {
        var fallback := bank.fallback;
        Arm(shown.rig, now);
        bank := bank.(fallback := fallback);
      }
      taken := !other || initial;
      if taken { AcceptName(name); }
    }

    /** receive_name, given the printable text without surrounding spaces. A name
        that is not the last one seen starts the transition over. */
    method ReceiveName(name: string, now: nat)
      requires Valid() && clock == now
      modifies this`names, this`echo, this`orphans, this`generation, this`epoch, this`shown, this`bank, this`slot,
               this`sync, this`guard, this`wahRefresh
      ensures Valid() && shown.rig == old(shown).rig && shown.on == old(shown).on && shown.known <= old(shown).known
      ensures epoch == old(epoch) ==> sync == old(sync) && orphans == old(orphans) && bank == old(bank)
      ensures !identityKnown || name == "" ==> names == old(names) && shown == old(shown) && epoch == old(epoch)
      ensures identityKnown && name != "" ==>
                var idle := !old(TransitionActive()) && old(names).pending == "";
                && epoch == old(epoch) + (if idle && old(FirstName() || OtherName(name)) then 1 else 0)
                && (if idle && old(FirstName() || !OtherName(name))
                    then shown.name == name && shown.named && names.last == name && names.lastRig == shown.rig
                    else names.pending == name && names.pendingAt == now && names.pendingGeneration == generation
                         && names.last == old(names).last && names.lastRig == old(names).lastRig)
    {
      hide Valid, Active;
      if !identityKnown || name == "" { return; }
      var requested := names.queryActive && names.queryGeneration == generation && !Due(now, names.retireAt);
      names := names.(queryActive := false);
      if !TransitionActive() && names.pending == "" {
        var taken := Compare(name, now);
        if taken { return; }
      }
      requested := requested
        || (names.pendingRequested && names.pendingGeneration == generation && names.pending == name);
      names := names.(pending := name, pendingAt := now, pendingGeneration := generation, pendingRequested := requested);
    }

    // ----- MIDI from the Kemper

    /** The bank header of receive_sysex: it opens one window per selection for
        the late echo of the Program Change we sent. */
    method ReceiveBankHeader(now: nat)
      requires Valid() && clock == now
      modifies this`bank
      ensures Valid()
      ensures bank == if !model.browse && !old(bank).seen && echo.local.valid && !Due(now, echo.local.expires)
                      then old(bank).(active := true, seen := true, deadline := now + BANK_SNAPSHOT_MS) else old(bank)
    {
      hide Guarded, Evidence, Sent, Waiting;
      if !model.browse && !bank.seen && echo.local.valid && echo.local.generation == generation
         && echo.local.rig == shown.rig && !Due(now, echo.local.expires) {
        bank := bank.(active := true, seen := true);
        bank := bank.(deadline := now + BANK_SNAPSHOT_MS);
      }
    }

    /** Whether a state reply that is not quarantined is refused by its guard, and
        the guard after it. */
    function Refuses(g: Guard, i: Block, on: bool, now: nat): bool
      requires Guards(g)
    {
      g.budget[i] > 0 && !Due(now, g.until[i]) && on != (i in g.on)
    }

    function Spent(g: Guard, i: Block, now: nat): Guard
      requires Guards(g)
    {
      if g.budget[i] == 0 then g
      else g.(budget := g.budget[i := if Due(now, g.until[i]) then 0 else g.budget[i] - 1])
    }

    /** A reply to the state query q, which was sent less than 1200 ms ago. If q
        belongs to an earlier rig, nothing stored or shown changes. */
    method ReceiveState(i: Block, on: bool, now: nat, ghost q: Query)
      requires Valid() && clock == now
      requires q in queries && q.block == i && now < q.sent + QUERY_MS
      modifies this`names, this`echo, this`orphans, this`cache, this`shown, this`reports, this`sync, this`guard
      ensures Valid()
      ensures q.epoch < epoch ==> cache == old(cache) && shown == old(shown) && sync == old(sync) && guard == old(guard)
      ensures orphans == Expire(old(orphans), now) && shown.rig == old(shown).rig
      ensures i in orphans.blocks || Refuses(old(guard), i, on, now) ==>
                cache == old(cache) && shown == old(shown) && sync == old(sync)
      ensures !(i in orphans.blocks || Refuses(old(guard), i, on, now)) ==>
                && cache.on == With(old(cache).on, i, on) && i in cache.known && guard == Spent(old(guard), i, now)
                && sync == old(sync).(pending := sync.pending)
                && (sync.pending == old(sync).pending - {i} || (sync.attempt == 0 && sync.pending == old(sync).pending))
                && (i in old(sync).pending && sync.attempt > 0 && !sync.settling ==>
                      i in shown.known && (i in shown.on <==> on))
    {
      hide Evidence, Timers, Sent, Echoes, Waiting, Expire;
      StaleHere(q, now);
      ExpireOrphans(now);
      if i in orphans.blocks { return; }
      if guard.budget[i] > 0 {
        if !Due(now, guard.until[i]) {
          guard := guard.(budget := guard.budget[i := guard.budget[i] - 1]);
          var expected := i in guard.on;
          if on != expected { return; }
        } else {
          guard := guard.(budget := guard.budget[i := 0]);
        }
      }
      StoreReply(i, on, now);
    }

    lemma StaleHere(q: Query, now: nat)
      requires Timing() && clock <= now && q in queries && now < q.sent + QUERY_MS
      ensures q.epoch < epoch ==> q.block in Expire(orphans, now).blocks
    {
      if q.epoch < epoch { StaleIsQuarantined(queries, sync, orphans, epoch, clock, now, q); }
    }

    /** The rest of a reply's handling. */
    method StoreReply(i: Block, on: bool, now: nat)
      requires Valid() && clock == now
      modifies this`names, this`cache, this`shown, this`reports, this`sync
      ensures Valid() && cache.on == With(old(cache).on, i, on) && i in cache.known && shown.rig == old(shown).rig
      ensures sync == old(sync).(pending := sync.pending)
      ensures sync.pending == old(sync).pending - {i} || (sync.attempt == 0 && sync.pending == old(sync).pending)
      ensures i in old(sync).pending && sync.attempt > 0 && !sync.settling ==>
                i in shown.known && (i in shown.on <==> on)
    {
      hide Evidence, Timers, Sent, Echoes, Waiting;
      var pending := i in sync.pending && sync.attempt > 0;
      TakeState(i, on, !sync.settling && (pending || !TransitionActive()));
      if pending {
        Answered(i);
        if sync.pending == {} { CommitName(now); }
      }
      assert !pending ==> sync.pending - {i} == sync.pending || sync.attempt == 0;
    }

    /** The blocks whose state was heard under this generation. */
    function CurrentBlocks(): set<Block>
      requires |cache.generation| == BLOCKS
      reads this`cache, this`generation
    {
      set i | i in cache.known && cache.generation[i] == generation
    }

    /** A wah slot whose state is not known under this generation. */
    predicate AsksFor(i: Block, wah: bool)
      reads this`wahGeneration, this`generation, this`sync, this`bank, this`cache
    {
      && wahGeneration == generation && !TransitionActive() && wah
      && |cache.generation| == BLOCKS && i !in CurrentBlocks()
    }

    /** receive_wah_type: a wah in a slot whose state is not known is asked for it. */
    method ReceiveType(i: Block, wah: bool, now: nat)
      requires Valid() && clock == now
      modifies this`sync, this`queries
      ensures Valid()
      ensures queries == old(queries) + if old(AsksFor(i, wah)) then Asked({i}, now, epoch) else {}
      ensures sync != old(sync) ==> old(AsksFor(i, wah))
      ensures old(AsksFor(i, wah)) ==> sync == old(sync).(queried := old(sync).queried + {i}, retire := now + QUERY_MS)
      ensures sync == old(sync).(queried := sync.queried, retire := sync.retire)
    {
      hide Evidence, Timers, Sent, Echoes, Waiting;
      GenerationLength();
      if wahGeneration != generation || TransitionActive() { return; }
      if wah && i !in CurrentBlocks() {
        AskAlone(i, now);
      }
    }

    lemma GenerationLength()
      requires Reported()
      ensures |cache.generation| == BLOCKS
    {
    }

    method AskAlone(i: Block, now: nat)
      requires Timing() && clock == now && !TransitionActive()
      modifies this`sync, this`queries
      ensures Timing() && queries == old(queries) + Asked({i}, now, epoch)
      ensures sync == old(sync).(queried := old(sync).queried + {i}, retire := now + QUERY_MS)
    {
      var s := sync.(queried := sync.queried + {i}, retire := now + QUERY_MS);
      AskingGuards(queries, sync, s, orphans, epoch, now, {i});
      hide Guarded;
      sync := sync.(retire := if sync.queried != {} then Later(sync.retire, now + QUERY_MS) else now + QUERY_MS);
      sync := sync.(queried := sync.queried + {i});
      queries := queries + Asked({i}, now, epoch);
    }

    // ----- receive_pc

    /** Take one superseded echo of rig r off the list. */
    method DropOrphan(r: nat) returns (found: bool)
      modifies this`echo
      ensures found <==> exists t :: t in old(echo).orphans && t.rig == r
      ensures echo == if found then old(echo).(orphans := Without(old(echo).orphans, r)) else old(echo)
    {
      hide Without;
      found := false;
      for i := 0 to |echo.orphans|
        invariant echo == old(echo) && !found
        invariant forall j | 0 <= j < i :: echo.orphans[j].rig != r
      {
        if echo.orphans[i].rig == r {
          WithoutAt(echo.orphans, r, i);
          assert echo.orphans[i] in old(echo).orphans;
          echo := echo.(orphans := echo.orphans[..i] + echo.orphans[i + 1..]);
          return true;
        }
      }
    }

    /** The rig a Program Change from the Kemper stands for. */
    function Decoded(pc: nat): nat
      reads this`bankLsb
    {
      RigOf(model, bankLsb, pc)
    }

    /** The timers after an echo: rounds already under way go on. */
    function AfterEcho(s: Sync, now: nat): Sync {
      if s.settling then s.(settleUntil := Later(s.settleUntil, now + ECHO_SETTLE_MS))
      else if s.pending != {} && s.attempt > 0 then s
      else if s.pending != {} || (s.queried != {} && !Due(now, s.retire)) then Reset(s, now, ECHO_SETTLE_MS)
      else s
    }

    /** The echo of our own Program Change: the rig is the one shown, so at most
        the effects are asked for again, a little later. */
    method TakeEcho(now: nat)
      requires Valid() && clock == now
      modifies this`names, this`echo, this`orphans, this`bank, this`sync, this`guard, this`wahRefresh
      ensures Valid() && !bank.active && bank.deferred == 0 && !echo.local.valid
      ensures sync == AfterEcho(old(sync), now)
      ensures orphans == if sync.settling && !old(sync).settling then Quarantined(old(sync), old(orphans), now)
                         else old(orphans)
    {
      hide Guarded, Evidence, Sent, Waiting, Quarantined, AllQuarantined, Expire, Timers;
      EndWindow();
      echo := echo.(local := echo.local.(valid := false));
      if sync.settling {
        Prolong(now);
      } else if !(sync.pending != {} && sync.attempt > 0)
             && (sync.pending != {} || (sync.queried != {} && !Due(now, sync.retire))) {
        Quarantine(now);
        ResetReconcile(now, ECHO_SETTLE_MS);
      }
    }

    method EndWindow()
      requires Timing()
      modifies this`bank
      ensures Timing() && bank == old(bank).(active := false, deferred := 0)
    {
      hide Guarded;
      bank := bank.(active := false);
      bank := bank.(deferred := 0);
    }

    method Prolong(now: nat)
      requires Timing() && clock == now && sync.settling
      modifies this`sync
      ensures Timing() && sync == old(sync).(settleUntil := Later(old(sync).settleUntil, now + ECHO_SETTLE_MS))
    {
      ProlongKeeps(now);
      hide Guarded;
      sync := sync.(settleUntil := Later(sync.settleUntil, now + ECHO_SETTLE_MS));
    }

    lemma ProlongKeeps(now: nat)
      requires Timing() && clock == now && sync.settling
      ensures Guarded(queries, sync.(settleUntil := Later(sync.settleUntil, now + ECHO_SETTLE_MS)), orphans, epoch, clock)
    {
    }

    /** The echo of a superseded selection, unless it is the one a fallback waits for. */
    predicate Absorbs(r: nat, now: nat)
      reads this`echo, this`bank
    {
      (exists t :: t in echo.orphans && t.rig == r)
      && !(bank.fallback && echo.local.rig == r && !Due(now, echo.local.expires))
    }

    /** A step within the bank of our selection while its window is open. */
    predicate Defers(r: nat)
      reads this`echo, this`bank, this`generation
    {
      bank.active && echo.local.valid && echo.local.generation == generation && (r - 1) / 5 == (echo.local.rig - 1) / 5
    }

    /** A Program Change that is not our echo: a superseded echo, a step of the
        bank change under way, or a selection made on the Kemper. */
    method TakeSelection(r: nat, now: nat)
      requires Valid() && clock == now && model.Legal(r)
      modifies this`names, this`echo, this`orphans, this`generation, this`epoch, this`shown, this`bank, this`slot,
               this`sync, this`guard, this`wahRefresh, this`identityKnown
      ensures Valid()
      ensures old(Absorbs(r, now) || Defers(r)) ==> epoch == old(epoch) && shown == old(shown) && sync == old(sync)
      ensures old(Absorbs(r, now)) ==> bank == old(bank) && echo == old(echo).(orphans := Without(old(echo).orphans, r))
      ensures old(!Absorbs(r, now) && Defers(r)) ==> bank == old(bank).(deferred := r) && echo.local == old(echo).local
      ensures old(!Absorbs(r, now) && !Defers(r)) ==>
                epoch == old(epoch) + 1 && shown.rig == r && shown.changes == old(shown).changes + 1 && identityKnown
    {
      hide Guarded, Bounded, Evidence, Sent, Waiting, Quarantined, AllQuarantined, Expire, Reset, Without, Superseded;
      var finalAfterFallback := bank.fallback && echo.local.rig == r && !Due(now, echo.local.expires);
      var found := DropOrphan(r);
      if found && !finalAfterFallback { return; }
      if bank.active && echo.local.valid && echo.local.generation == generation
         && (r - 1) / 5 == (echo.local.rig - 1) / 5 {
        Defer(r);
        return;
      }
      identityKnown := true;
      Arm(r, now);
      shown := shown.(changes := shown.changes + 1);
    }

    method Defer(r: nat)
      requires Timing() && model.Legal(r) && bank.active
      modifies this`bank
      ensures Timing() && bank == old(bank).(deferred := r)
    {
      hide Guarded;
      bank := bank.(deferred := r);
    }

    /** Our own Program Change is still to be echoed, and pc says its rig. */
    predicate EchoDue(pc: nat, now: nat)
      reads this`echo, this`bankLsb, this`shown, this`generation
    {
      echo.local.valid && !Due(now, echo.local.expires) && Decoded(pc) == echo.local.rig
    }

    /** pc is another rig of our selection's bank, heard while the window is open, and
        no superseded selection's echo. */
    predicate PutsOff(pc: nat, now: nat)
      reads this`echo, this`bank, this`bankLsb
    {
      && pc < 128 && Decoded(pc) <= model.LastRig() && bank.active && !Due(now, bank.deadline)
      && echo.local.valid && !Due(now, echo.local.expires) && Decoded(pc) != echo.local.rig
      && (Decoded(pc) - 1) / 5 == (echo.local.rig - 1) / 5 && forall t | t in echo.orphans :: t.rig != Decoded(pc)
    }

    /** The part of receive_pc after what is overdue has gone. */
    method Dispatch(r: nat, now: nat)
      requires Valid() && clock == now && model.Legal(r)
      modifies this`names, this`echo, this`orphans, this`generation, this`epoch, this`shown, this`bank, this`slot,
               this`sync, this`guard, this`wahRefresh, this`identityKnown
      ensures Valid()
      ensures old(IsEcho(r, now)) ==> epoch == old(epoch) && shown == old(shown)
      ensures !old(IsEcho(r, now)) && old(Absorbs(r, now) || Defers(r)) ==> epoch == old(epoch) && shown == old(shown)
      ensures !old(IsEcho(r, now) || Absorbs(r, now)) && old(Defers(r)) ==>
                bank == old(bank).(deferred := r) && echo.local == old(echo).local
      ensures !old(IsEcho(r, now) || Absorbs(r, now) || Defers(r)) ==> epoch == old(epoch) + 1 && shown.rig == r
    {
      hide Guarded, Bounded, Evidence, Sent, Waiting, Quarantined, AllQuarantined, Expire, Reset, Guards, Timers, Unexpired,
           Echoes, AfterEcho;
      if (echo.local.valid || (bank.seen && !Due(now, bank.deadline)))
         && echo.local.generation == generation && echo.local.rig == r && shown.rig == r {
        TakeEcho(now);
        return;
      }
      TakeSelection(r, now);
    }

    /** The echo of the selection shown. */
    predicate IsEcho(r: nat, now: nat)
      reads this`echo, this`bank, this`generation, this`shown
    {
      && (echo.local.valid || (bank.seen && !Due(now, bank.deadline)))
      && echo.local.generation == generation && echo.local.rig == r && shown.rig == r
    }

    /** A selection put off has waited long enough. */
    predicate Overdue(now: nat)
      reads this`bank
    {
      bank.deferred != 0 && Due(now, bank.deadline)
    }

    /** What is overdue goes first; an echo that is due stays known by its token. */
    method Clear(now: nat)
      requires Valid() && clock == now
      modifies this`names, this`echo, this`orphans, this`generation, this`epoch, this`shown, this`bank, this`slot,
               this`sync, this`guard, this`wahRefresh
      ensures Valid() && model.Known()
      ensures !old(Overdue(now)) ==> epoch == old(epoch) && shown == old(shown) && bank == old(bank).(active := bank.active)
      ensures old(Overdue(now)) ==> epoch == old(epoch) + 1 && bank == Bank(false, false, true, old(bank).deadline, 0)
      ensures !Due(now, old(bank).deadline) ==> bank == old(bank)
      ensures echo.local == old(echo).local.(valid := echo.local.valid)
      ensures echo.local.valid <==> old(echo).local.valid && !Due(now, echo.local.expires) && !old(Overdue(now))
      ensures !old(Overdue(now)) ==> forall t | t in echo.orphans :: t in old(echo).orphans
      ensures echo.local.valid ==> echo.local.generation == generation && echo.local.rig == shown.rig
    {
      hide Guarded, Bounded, Evidence, Sent, Waiting, Quarantined, AllQuarantined, Expire, Reset, Guards, Timers, Unexpired,
           Superseded, AfterExpiry, StillDue;
      LocalKept(echo, now);
      UnexpiredIn(echo.orphans, now);
      assert StillDue(echo, now).orphans == Unexpired(echo.orphans, now) by { Listed(echo, now); }
      ExpireBankSnapshot(now);
      LocalKept(echo, now);
      ExpireOrphans(now);
    }

    lemma Listed(e: Echo, now: nat)
      ensures StillDue(e, now).orphans == Unexpired(e.orphans, now)
    {
    }

    lemma LocalKept(e: Echo, now: nat)
      ensures Superseded(e, now).local == e.local.(valid := false)
      ensures StillDue(e, now).local == e.local.(valid := e.local.valid && !Due(now, e.local.expires))
    {
    }

    /** receive_pc. The echo of our own selection starts no new generation, unless an
        external selection put off for it comes due in the same moment: then that one
        is made, and ours once more after it. */
    method ReceivePc(pc: nat, now: nat)
      requires Valid() && clock == now
      modifies this`names, this`echo, this`orphans, this`generation, this`epoch, this`shown, this`bank, this`slot,
               this`sync, this`guard, this`wahRefresh, this`identityKnown
      ensures Valid()
      ensures pc >= 128 || Decoded(pc) > model.LastRig() ==> epoch == old(epoch) && shown == old(shown) && echo == old(echo)
      ensures old(EchoDue(pc, now)) && pc < 128 && Decoded(pc) <= model.LastRig() ==>
                && epoch == old(epoch) + (if old(Overdue(now)) then 2 else 0) && shown.rig == Decoded(pc)
                && (!old(Overdue(now)) ==> shown == old(shown))
      ensures old(PutsOff(pc, now)) ==>
                epoch == old(epoch) && bank == old(bank).(deferred := Decoded(pc)) && echo.local == old(echo).local
      ensures epoch == old(epoch) ==> shown == old(shown)
      ensures old(epoch) <= epoch
    {
      hide Valid, RigOf;
      if pc >= 128 { return; }
      var r := Decoded(pc);
      if r > model.LastRig() { return; }
      FromOne(pc);
      Clear(now);
      Dispatch(r, now);
    }

    lemma FromOne(pc: nat)
      ensures Decoded(pc) >= 1
    {
    }

    // ----- tick

    /** reconcile_round: ask every block still missing, unless an answer could be
        taken for that of an earlier query. */
    method ReconcileRound(now: nat)
      requires Timing() && clock == now && !sync.settling && sync.attempt < 2
      modifies this`sync, this`queries, this`rounds
      ensures Timing() && sync == Round(old(sync), orphans, bank.AsWindow(), now)
      ensures old(queries) <= queries
      ensures forall q | q in queries && q !in old(queries) ::
                q.sent == now && q.epoch == epoch && q.block in sync.pending && sync.attempt == old(sync).attempt + 1
    {
      if sync.pending == {} || orphans.blocks != {} || bank.active { return; }
      RoundKeeps(now);
      hide Guarded;
      sync := sync.(attempt := sync.attempt + 1, queried := sync.queried + sync.pending);
      sync := sync.(retire := now + QUERY_MS, deadline := now + ROUND_MS);
      queries := queries + Asked(sync.pending, now, epoch);
      rounds := rounds + 1;
    }

    lemma RoundKeeps(now: nat)
      requires Timing() && clock == now && !sync.settling
      requires sync.pending != {} && orphans.blocks == {} && !bank.active
      ensures Guarded(queries + Asked(sync.pending, now, epoch), Round(sync, orphans, bank.AsWindow(), now),
                      orphans, epoch, now)
    {
      AskingGuards(queries, sync, Round(sync, orphans, bank.AsWindow(), now), orphans, epoch, now, sync.pending);
    }

    /** The Program Change of the latest selection, when its time has come. */
    method SendProgram(now: nat, sends: bool)
      requires Valid() && clock == now && Expire(orphans, now) == orphans
      modifies this`slot, this`programs, this`names, this`echo, this`orphans, this`identityKnown
      ensures Valid() && orphans == old(orphans)
      ensures slot == old(slot).(waiting := old(slot).waiting && !Due(now, old(slot).at))
      ensures if old(slot).waiting && Due(now, old(slot).at) && sends
              then && programs == old(programs) + [Program(slot.channel, (slot.rig - 1) % 128, shown.rig, epoch, epoch)]
                   && slot.rig == shown.rig
                   && echo == Echo(Token(generation, now + ECHO_MS, shown.rig, true), Superseded(old(echo), now).orphans)
              else programs == old(programs) && echo == old(echo)
    {
      hide Guarded, Evidence, Timers, Expire, Superseded;
      if !slot.waiting || !Due(now, slot.at) { return; }
      slot := slot.(waiting := false);
      if !sends { return; }
      programs := programs + [Program(slot.channel, (slot.rig - 1) % 128, shown.rig, epoch, selected)];
      identityKnown := true;
      RetirePc(now);
      echo := echo.(local := Token(generation, now + ECHO_MS, slot.rig, true));
    }

    method ExpireGuards(now: nat)
      requires Guards(guard)
      modifies this`guard
      ensures Guards(guard) && guard == old(guard).(budget := guard.budget)
      ensures forall i | 0 <= i < BLOCKS ::
                guard.budget[i] == if Due(now, guard.until[i]) then 0 else old(guard).budget[i]
    {
      for i := 0 to BLOCKS
        invariant Guards(guard) && guard == old(guard).(budget := guard.budget)
        invariant forall j | 0 <= j < i ::
                    guard.budget[j] == if Due(now, guard.until[j]) then 0 else old(guard).budget[j]
        invariant forall j | i <= j < BLOCKS :: guard.budget[j] == old(guard).budget[j]
      {
        if guard.budget[i] > 0 && Due(now, guard.until[i]) { guard := guard.(budget := guard.budget[i := 0]); }
      }
    }

    /** Replies to the last round can no longer come. */
    method RetireQueries(now: nat)
      requires Timing() && clock == now
      modifies this`sync
      ensures Timing() && sync == Retired(old(sync), now)
    {
      if sync.queried == {} || !Due(now, sync.retire) { return; }
      RetireGuards(queries, sync, Retired(sync, now), orphans, epoch, now);
      hide Guarded;
      sync := sync.(queried := {});
      if sync.pending == {} { sync := sync.(attempt := 0); }
    }

    method EndSettling(now: nat)
      requires Timing() && clock == now
      modifies this`sync, this`queries, this`rounds
      ensures Timing() && sync == Settled(old(sync), orphans, bank.AsWindow(), bound, now) && old(queries) <= queries
      ensures sync == old(sync) ==> queries == old(queries)
    {
      if !sync.settling || !Due(now, sync.settleUntil) { return; }
      SettlingKeeps();
      hide Guarded;
      sync := sync.(settling := false, pending := bound);
      sync := sync.(attempt := 0, queried := {});
      rounds := 0;
      ReconcileRound(now);
    }

    lemma SettlingKeeps()
      requires Timing() && sync.settling
      ensures Guarded(queries, sync.(settling := false, pending := bound, attempt := 0, queried := {}),
                      orphans, epoch, clock)
    {
    }

    /** The last known state of a block that never answered, if it is of this rig. */
    method PublishMissing(missing: set<Block>)
      requires Reported()
      modifies this`shown, this`reports
      ensures Reported() && shown == old(shown).(known := shown.known, on := shown.on)
      ensures forall i | i in missing && i in cache.known && cache.generation[i] == generation ::
                i in shown.known && (i in shown.on <==> i in cache.on)
      ensures forall i | !(i in missing && i in cache.known && cache.generation[i] == generation) ::
                (i in shown.known <==> i in old(shown).known) && (i in shown.on <==> i in old(shown).on)
    {
      for i := 0 to BLOCKS
        invariant Reported() && shown == old(shown).(known := shown.known, on := shown.on)
        invariant forall j: Block | j < i && j in missing && j in cache.known && cache.generation[j] == generation ::
                    j in shown.known && (j in shown.on <==> j in cache.on)
        invariant forall j: Block | !(j < i && j in missing && j in cache.known && cache.generation[j] == generation) ::
                    (j in shown.known <==> j in old(shown).known) && (j in shown.on <==> j in old(shown).on)
      {
        if i in missing && i in cache.known && cache.generation[i] == generation {
          PublishBlock(i, i in cache.on, reports.cached[i]);
        }
      }
    }

    method Pursue(now: nat)
      requires Timing() && Reported() && clock == now
      modifies this`sync, this`queries, this`rounds, this`shown, this`reports
      ensures Timing() && Reported() && sync == Pursued(old(sync), orphans, bank.AsWindow(), now)
      ensures old(queries) <= queries && shown == old(shown).(known := shown.known, on := shown.on)
    {
      hide Evidence, Guarded;
      if sync.pending == {} || sync.settling { return; }
      if sync.attempt == 0 {
        ReconcileRound(now);
      } else if Due(now, sync.deadline) {
        if sync.attempt < 2 {
          ReconcileRound(now);
        } else {
          var missing := sync.pending;
          StopKeeps();
          sync := sync.(pending := {});
          PublishMissing(missing);
        }
      }
    }

    lemma StopKeeps()
      requires Timing()
      ensures Guarded(queries, sync.(pending := {}), orphans, epoch, clock)
    {
    }

    /** The 15 s lease of the connection, and the requests for slot types and the
        rig name, which change no effect state. */
    method Upkeep(now: nat, asks: bool)
      requires Valid() && clock == now
      modifies this`names, this`shown, this`wahGeneration, this`wahRefresh
      ensures Valid() && shown.rig == old(shown).rig && shown.on == old(shown).on && shown.known == old(shown).known
    {
      hide Guarded, Evidence, Sent, Waiting, Timers, Echoes;
      CommitName(now);
      if shown.connected && now > lastSensed + 15000 {
        shown := shown.(connected := false);
        wahRefresh := now;
      }
      if shown.connected && !TransitionActive() && shown.named && names.lastRig == shown.rig
         && (wahGeneration != generation || Due(now, wahRefresh)) {
        wahGeneration := generation;
        wahRefresh := now + 1000;
      }
      if shown.connected && names.bootstrap { var ok := RequestRigName(now, asks); }
    }

    /** What the first steps of a tick leave of the timers. */
    function AfterExpiry(s: Sync, o: Orphans, w: Window, now: nat): (Sync, Orphans, Window) {
      if w.deferred && Due(now, w.deadline)
      then (Reset(s, now, SETTLE_MS), Quarantined(s, o, now), Window(false, w.deadline, false))
      else (s, Expire(o, now), Closed(w, now))
    }

    method Expiry(now: nat)
      requires Valid() && clock == now
      modifies this`names, this`echo, this`orphans, this`generation, this`epoch, this`shown, this`bank, this`slot,
               this`sync, this`guard, this`wahRefresh
      ensures Valid() && clock == now
      ensures (sync, orphans, bank.AsWindow()) == AfterExpiry(old(sync), old(orphans), old(bank).AsWindow(), now)
      ensures Expire(orphans, now) == orphans
      ensures old(Overdue(now)) ==> !slot.waiting
      ensures !(old(bank).deferred != 0 && Due(now, old(bank).deadline)) ==>
                && bank == old(bank).(active := bank.active) && slot == old(slot) && shown == old(shown)
                && echo == StillDue(old(echo), now) && generation == old(generation)
      ensures epoch == if old(bank).deferred != 0 && Due(now, old(bank).deadline) then old(epoch) + 1 else old(epoch)
    {
      hide Guarded, Bounded, Evidence, Sent, Waiting, Guards, Reset, Quarantined, Unexpired, Expire, Timers, Echoes, StillDue;
      ghost var s, o := sync, orphans;
      ExpireBankSnapshot(now);
      ghost var expired := orphans;
      ExpireOrphans(now);
      ExpireQuarantined(s, o, now);
    }

    method Reconcile(now: nat)
      requires Valid() && clock == now && Expire(orphans, now) == orphans
      modifies this`sync, this`queries, this`rounds, this`shown, this`reports, this`guard
      ensures Valid() && clock == now
      ensures sync == Ticked(old(sync), orphans, bank.AsWindow(), bound, now)
      ensures shown == old(shown).(known := shown.known, on := shown.on)
    {
      hide Guarded, Bounded, Evidence, Sent, Waiting, Expire, Timers, Echoes, Retired, Settled, Pursued;
      ExpireGuards(now);
      RetireQueries(now);
      EndSettling(now);
      Pursue(now);
    }

    /** The first part of a tick: what is overdue goes, and the program that is due. */
    method Begin(now: nat, sends: bool)
      requires Valid() && clock == now
      modifies this`names, this`echo, this`orphans, this`generation, this`epoch, this`shown, this`bank, this`slot,
               this`sync, this`guard, this`wahRefresh, this`programs, this`identityKnown
      ensures Valid() && clock == now && Expire(orphans, now) == orphans
      ensures (sync, orphans, bank.AsWindow()) == AfterExpiry(old(sync), old(orphans), old(bank).AsWindow(), now)
      ensures epoch == if old(Overdue(now)) then old(epoch) + 1 else old(epoch)
      ensures programs == old(programs)
           || programs == old(programs) + [Program(old(slot).channel, (shown.rig - 1) % 128, shown.rig, epoch, epoch)]
      ensures !old(Overdue(now)) ==>
                && bank == old(bank).(active := bank.active) && shown == old(shown)
                && (old(slot).waiting && Due(now, old(slot).at) && sends ==>
                      && |programs| == |old(programs)| + 1
                      && echo == Echo(Token(generation, now + ECHO_MS, shown.rig, true), Superseded(old(echo), now).orphans))
    {
      hide Valid, AfterExpiry, Expire, Superseded, StillDue;
      SupersededAgain(echo, now);
      Expiry(now);
      SendProgram(now, sends);
    }

    /** bosun_kemper_tick, without the beacon it may end with. */
    method Tick(now: nat, sends: bool, asks: bool)
      requires Valid() && clock <= now
      modifies this
      ensures Valid() && clock == now && lastTick == now && bound == old(bound)
      ensures var (s, o, w) := AfterExpiry(old(sync), old(orphans), old(bank).AsWindow(), now);
              sync == Ticked(s, o, w, bound, now) && orphans == o && bank.AsWindow() == w
      ensures epoch == if old(bank).deferred != 0 && Due(now, old(bank).deadline) then old(epoch) + 1 else old(epoch)
      ensures programs == old(programs)
           || programs == old(programs) + [Program(old(slot).channel, (shown.rig - 1) % 128, shown.rig, epoch, epoch)]
      ensures !old(Overdue(now)) ==>
                && bank == old(bank).(active := bank.active) && bankLsb == old(bankLsb) && shown.rig == old(shown).rig
                && (old(slot).waiting && Due(now, old(slot).at) && sends ==>
                      && |programs| == |old(programs)| + 1
                      && echo == Echo(Token(generation, now + ECHO_MS, shown.rig, true), Superseded(old(echo), now).orphans))
    {
      hide Valid, Ticked, AfterExpiry, Expire, Superseded, StillDue;
      Advance(now);
      lastTick := now;
      Begin(now, sends);
      Reconcile(now);
      Upkeep(now, asks);
    }

    // ----- how long a transition lasts

    /** When the transition under way is over, with ticks at most d apart. */
    function TransitionEnd(d: nat): nat
      reads this`sync, this`orphans, this`bank, this`lastTick
    {
      EndBy(sync, orphans, bank.AsWindow(), lastTick, d)
    }

    /** A tick brings no transition about, and never puts its end off. */
    method QuietTick(now: nat, d: nat, sends: bool, asks: bool)
      requires Valid() && clock <= now && lastTick <= now <= lastTick + d
      modifies this
      ensures Valid() && clock == now && lastTick == now
      ensures TransitionActive() ==> old(TransitionActive()) && TransitionEnd(d) <= old(TransitionEnd(d))
    {
      hide Evidence, Sent, Waiting, Echoes, Guards, Guarded, Bounded, EndBy, Ticked, Reset, Quarantined, Closed, Expire, Active;
      Shorten(now, d);
      Tick(now, sends, asks);
    }

    lemma Shorten(now: nat, d: nat)
      requires Valid() && clock <= now && lastTick <= now <= lastTick + d
      ensures var (s, o, w) := AfterExpiry(sync, orphans, bank.AsWindow(), now);
              var t := Ticked(s, o, w, bound, now);
              Active(t, w) ==> TransitionActive() && EndBy(t, o, w, now, d) <= TransitionEnd(d)
    {
      hide Evidence, Sent, Waiting, Echoes, Guards, Guarded, Ticked, Closed, EndBy, Quarantined;
      var w := bank.AsWindow();
      BoundedLater(sync, orphans, w, clock, now);
      if w.deferred && Due(now, w.deadline) {
        DeferredShortens(sync, orphans, w, lastTick, now, d);
        RestTicked(sync, Quarantined(sync, orphans, now), Window(false, w.deadline, false), now);
      } else {
        TickShortens(sync, orphans, w, bound, lastTick, now, d);
      }
    }

    lemma RestTicked(s: Sync, o: Orphans, w: Window, now: nat)
      ensures Ticked(Reset(s, now, SETTLE_MS), o, w, bound, now) == Reset(s, now, SETTLE_MS)
    {
    }

    lemma Quieter(s: Sync, t: Sync, o: Orphans, now: nat, w: Window, i: Block, d: nat)
      requires || t == s.(pending := t.pending, queried := t.queried, retire := t.retire)
      requires t.pending == s.pending - {i} || t.pending == s.pending
      ensures Active(t, w) ==> Active(s, w)
      ensures Active(t, w) ==> EndBy(t, o, w, lastTick, d) <= EndBy(s, o, w, lastTick, d)
      ensures Active(t, w) ==> EndBy(t, Expire(o, now), w, lastTick, d) <= EndBy(s, o, w, lastTick, d)
    {
    }

    // ----- runs

    /** The link answers within 1200 ms or not at all. */
    predicate Timely(e: Event, now: nat)
      reads this`queries
    {
      e.Reply? ==> e.query in queries && now < e.query.sent + QUERY_MS
    }

    /** The messages of bosun_kemper_handle that say nothing new about the rig. */
    method Message(e: Event, now: nat)
      requires Valid() && clock == now && Timely(e, now) && e.Quiet() && !e.Ticking?
      modifies this
      ensures Valid() && clock == now && lastTick == old(lastTick) && epoch == old(epoch) && shown.rig == old(shown).rig
      ensures programs == old(programs)
      ensures bank == old(bank) && (orphans == old(orphans) || orphans == Expire(old(orphans), now))
      ensures sync == old(sync).(pending := sync.pending, queried := sync.queried, retire := sync.retire)
      ensures sync.pending == old(sync).pending
           || exists i :: sync.pending == old(sync).pending - {i}
      ensures e.Reply? && e.query.epoch < epoch ==> cache == old(cache) && shown == old(shown)
    {
      hide Valid;
      match e
      case AskName(sends) => var ok := RequestRigName(now, sends);
      case BankSelect(value) => if model.profiler && !model.browse { bankLsb := value; }
      case Broadcast(block, state) => ReceiveLiveBlock(block, state, now);
      case Reply(query, state) => ReceiveState(query.block, state, now, query);
      case SlotType(block, wah) => ReceiveType(block, wah, now);
      case Sensing => Sense(now);
      case Bind(blocks) => bound := blocks;
    }

    method Sense(now: nat)
      requires Valid()
      modifies this`shown, this`lastSensed
      ensures Valid() && shown == old(shown).(connected := true)
    {
      hide Evidence, Sent, Waiting, Echoes, Guards, Timers;
      shown := shown.(connected := true);
      lastSensed := now;
    }

    /** One quiet event: no transition starts, and none ends later for it. */
    method Quietly(e: Event, now: nat, d: nat)
      requires Valid() && clock <= now && lastTick <= clock && now <= lastTick + d && Timely(e, now) && e.Quiet()
      modifies this
      ensures Valid() && clock == now && lastTick <= clock <= lastTick + d
      ensures TransitionActive() ==> old(TransitionActive()) && TransitionEnd(d) <= old(TransitionEnd(d))
    {
      hide Valid, EndBy, Active, Expire;
      if e.Ticking? {
        QuietTick(now, d, e.sends, e.asks);
      } else {
        Advance(now);
        ghost var s, o, w := sync, orphans, bank.AsWindow();
        Message(e, now);
        ghost var i: Block :| sync.pending == s.pending - {i} || sync.pending == s.pending;
        Quieter(s, sync, o, now, w, i, d);
      }
    }

    lemma EndsInTime(d: nat)
      requires Valid() && lastTick <= clock
      ensures TransitionEnd(d) <= clock + BANK_SNAPSHOT_MS + SETTLE_MS + 2 * ROUND_MS + 4 * d
      ensures lastTick + d <= TransitionEnd(d)
    {
      EndByAtMost(sync, orphans, bank.AsWindow(), lastTick, clock, d);
    }

    /** The event may come now: time does not go back, ticks are at most d apart,
        and it is a quiet one. */
    predicate Possible(e: Event, now: nat, d: nat)
      reads this`clock, this`lastTick, this`queries
    {
      clock <= now <= lastTick + d && Timely(e, now) && e.Quiet()
    }

    /** Every rig transition ends: with ticks at most d ms apart and only quiet
        events, it is over within 3800 ms and four tick intervals. */
    method QuietRun(events: seq<(Event, nat)>, d: nat)
      requires Valid() && lastTick <= clock <= lastTick + d
      modifies this
      ensures TransitionActive() ==> clock <= old(clock) + 3800 + 4 * d
    {
      hide Valid, EndBy, Active, Timely;
      ghost var end := TransitionEnd(d);
      EndsInTime(d);
      assert BANK_SNAPSHOT_MS + SETTLE_MS + 2 * ROUND_MS == 3800;
      for k := 0 to |events|
        invariant Valid() && lastTick <= clock <= lastTick + d
        invariant TransitionActive() ==> TransitionEnd(d) <= end
      {
        var (e, now) := events[k];
        if Possible(e, now, d) { Quietly(e, now, d); }
      }
      EndsInTime(d);
    }

    /** The echo of our own selection, with the Bank Select we sent before it. */
    method OwnEcho(now: nat)
      requires Valid() && clock == now && echo.local.valid && !Due(now, echo.local.expires)
      requires model.profiler || bankLsb == 0
      modifies this
      ensures Valid() && clock == now
      ensures epoch == old(epoch) + (if old(Overdue(now)) then 2 else 0) && shown.rig == old(echo).local.rig
      ensures epoch == old(epoch) ==> shown == old(shown)
    {
      hide Evidence, Sent, Waiting, Guards, Timers, RigOf;
      var r := echo.local.rig;
      SelectionDecodes(model, r);
      if model.profiler { bankLsb := (r - 1) / 128; }
      ReceivePc((r - 1) % 128, now);
    }

    /** Any one event. */
    method Happen(e: Event, now: nat)
      requires Valid() && clock <= now && lastTick <= now && Timely(e, now)
      modifies this
      ensures Valid() && clock == now && lastTick <= now && old(epoch) <= epoch
      ensures e.Reply? && e.query.epoch < old(epoch) ==>
                cache == old(cache) && shown == old(shown) && epoch == old(epoch)
    {
      hide Valid;
      Advance(now);
      match e
      case Ticking(sends, asks) => Tick(now, sends, asks);
      case Select(on, number, place, sends) => var ok, lsb := SelectRig(on, number, place, sends, now);
      case SelectBrowse(on, program) => var ok := SelectProgram(on, program, now);
      case Begin(rig) => var ok := BeginRig(rig, now);
      case ProgramChange(pc) => ReceivePc(pc, now);
      case RigName(text) => ReceiveName(text, now);
      case BankHeader => ReceiveBankHeader(now);
      case _ => Message(e, now);
    }

    /** Any run: whatever happens, in any order and at any times, every state that
        is shown was reported under the present rig, every Program Change that went
        out was for the latest selection, and there were at most two rounds of
        queries since the last settling time ended. */
    method Run(events: seq<(Event, nat)>)
      requires Valid() && lastTick <= clock
      modifies this
      ensures Valid()
      ensures |reports.shown| == BLOCKS && |cache.generation| == BLOCKS
      ensures forall i | i in shown.known ::
                cache.generation[i] == generation && (epoch <= LAST_GENERATION ==> reports.shown[i] == epoch)
      ensures forall i | 0 <= i < |programs| :: programs[i].selected == programs[i].epoch
      ensures rounds <= 2
    {
      for k := 0 to |events|
        invariant Valid() && lastTick <= clock
      {
        var (e, now) := events[k];
        hide Valid;
        if clock <= now && Timely(e, now) { Happen(e, now); }
      }
    }
  }
  /** The first echo of our own selection, in time, does start new generations when a
      selection put off for it comes due: rig 6 is selected and sent, the bank header
      opens the window, rig 7 of the same bank is heard and put off, and the echo of
      rig 6 comes as the window closes, before the next tick. */
  method LateEcho() returns (k: Kemper, echoed: nat)
    ensures k.Valid() && echoed == 5 && k.bankLsb == 0
    ensures |k.programs| == 1 && k.programs[0] == Program(1, echoed, 6, 1, 1)
    ensures k.epoch == 3 && k.shown.rig == 6
  {
    hide Kemper.Valid, Ticked, Quarantined, Reset, Expire, Active;
    k := new Kemper(Model(25, false, false), 1, 0);
    var ok, lsb := k.SelectRig(1, 2, 1, true, 0);
    assert k.epoch == 1 && k.shown.rig == 6 && k.echo == Echo(Token(0, 0, 0, false), []);
    k.Tick(5, true, true);
    assert k.epoch == 1 && k.echo == Echo(Token(k.generation, 10005, 6, true), []);
    k.ReceiveBankHeader(5);
    assert k.bank.active && k.bank.deadline == 2505;
    k.ReceivePc(6, 5);
    assert k.bank.deferred == 7;
    k.Advance(2505);
    echoed := 5;
    k.ReceivePc(echoed, 2505);
  }
}
