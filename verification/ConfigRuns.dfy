/** Whole runs of the profile store, and what its pages tell: whatever the store does
    and wherever it fails, equal revisions mean equal pages, up to one flaw.
    Source: firmware/src/config.c and firmware/src/protocol.c, lines 440 to 455. */
module ConfigRuns {
  import opened ConfigFiles
  import opened ConfigStore
  import opened PatchCatalog
  import JsonGrammar
  import JsonParser
  import JsonTheorems

  /** The operations on the store. who is "" for the active profile; a name is taken
      literally, even the active profile's own. */
  datatype Op = Put(who: string, key: Key, json: string) | Bind(key: Key, binding: string, capacity: nat)
              | Save(which: Option<Key>, discard: bool, room: bool) | Remove(key: Key) | Select(key: Key)
              | Activate(id: string, persist: bool) | Autosave(enabled: bool, delay: nat)
              | Page(who: string, offset: nat, limit: nat)

  ghost function Now(c: Config): Moment
    reads c
  {
    Moment(c.files, c.profile, c.dirty, c.catalogRevision)
  }

  // ----- one operation

  /** A write that names the active profile goes past the copy in memory. */
  predicate Overtakes(op: Op, profile: string) {
    op.Put? && op.who != "" && op.who == profile
  }

  /** One operation, each of whose store calls may fail. What pages list moves only
      with the revision, but for the flaw; the patch in memory stays the shown one,
      but for a write that goes past it. */
  method Step(c: Config, op: Op, now: nat) returns (ghost flaw: Flaw)
    requires c.Sound() && !op.Page?
    modifies c, c.workspace, c.workTokens, c.device, c.patch
    ensures c.Sound() && Told(old(Now(c)), Now(c), flaw)
    ensures old(c.Cached()) && !Overtakes(op, old(c.profile)) ==> c.Cached()
    ensures flaw.TornSave? ==> op.Save? || op.Autosave?
    ensures flaw.TornRemoval? ==> op.Remove?
  {
    hide Config.Sound, Config.Cached, Told, Bound, Says, Visible, Staged, IsDirty, PointerText, ProfileId, Matches,
         SaveProgress, KeptBut, Torn;
    ghost var before := Now(c);
    Ready(c);
    flaw := NoFlaw;
    var r;
    ghost var torn;
    match op
    case Put(who, k, json) =>
      if who == "" { r := c.PutDraft(k, json, now); } else { r := c.PutSaved(who, k, json); }
      Outcome(c, before, r);
    case Bind(k, binding, capacity) =>
      r := c.PutBinding(k, binding, capacity, now);
      Outcome(c, before, r);
    case Save(which, discard, room) =>
      r, torn := c.SaveShown(which, discard, room);
      flaw := SaveTold(c, before, torn);
    case Remove(k) =>
      ghost var broken;
      r, broken := c.RemovePatch(k);
      flaw := if broken then TornRemoval(k) else NoFlaw;
      RemovalTold(c, before, k, r, broken);
    case Select(k) =>
      r := c.SelectChecked(k);
      Same(before, Now(c));
    case Activate(id, persist) =>
      r := c.Activate(id, persist);
      Outcome(c, before, r);
    case Autosave(enabled, delay) =>
      torn := c.Tick(enabled, delay, now);
      flaw := SaveTold(c, before, torn);
  }

  lemma Ready(c: Config)
    requires c.Sound()
    ensures c.deviceDoc.length <= c.device.Length && c.patchDoc.length <= c.patch.Length
  {
  }

  lemma Same(a: Moment, b: Moment)
    requires a == b
    ensures Told(a, b, NoFlaw)
  {
  }

  lemma Outcome(c: Config, before: Moment, r: StoreResult)
    requires r.Ok? ==> before.revision < c.catalogRevision
    requires !r.Ok? ==> before == Now(c)
    ensures Told(before, Now(c), NoFlaw)
  {
  }

  lemma SaveTold(c: Config, before: Moment, torn: Option<Key>) returns (flaw: Flaw)
    requires c.Sound() && c.profile == before.profile && before.revision <= c.catalogRevision
    requires c.catalogRevision == before.revision ==>
               c.dirty == before.dirty && c.files == Torn(before.files, before.profile, torn)
    requires torn.Some? ==> IsDirty(c.dirty, torn.value)
    ensures Told(before, Now(c), flaw) && !flaw.TornRemoval?
  {
    flaw := if torn.Some? then TornSave(torn.value) else NoFlaw;
    if torn.Some? { DirtyIsLegal(c, torn.value); }
    hide IsDirty;
  }

  lemma DirtyIsLegal(c: Config, k: Key)
    requires c.Sound() && IsDirty(c.dirty, k)
    ensures Legal(k)
  {
    var i :| 0 <= i < |c.dirty| && c.dirty[i].key == k;
  }

  lemma RemovalTold(c: Config, before: Moment, k: Key, r: StoreResult, torn: bool)
    requires c.Sound() && c.profile == before.profile
    requires r.Ok? ==> before.revision < c.catalogRevision
    requires !r.Ok? ==> && c.dirty == before.dirty && before.revision == c.catalogRevision
                        && c.files == if torn then before.files - {InProfile(c.profile, Saved(k))} else before.files
    requires torn ==> !r.Ok? && IsDirty(c.dirty, k)
    ensures Told(before, Now(c), if torn then TornRemoval(k) else NoFlaw)
  {
    if torn { DirtyIsLegal(c, k); }
    hide IsDirty;
  }

  // ----- pages

  /** The complete ordered catalog of a profile at one moment. */
  ghost predicate Inventory(m: Moment, who: string, all: seq<Entry>) {
    && StrictlySorted(KeysOf(all))
    && (forall k: Key :: k in KeysOf(all) <==>
          && Legal(k) && k.bank <= BANK_MAX
          && (if who == "" then m.profile != "" && (InProfile(m.profile, Saved(k)) in m.files || IsDirty(m.dirty, k))
              else InProfile(who, Saved(k)) in m.files))
    && forall i | 0 <= i < |all| ::
         && Some(all[i].text) == (if who == "" then Visible(m.files, m.profile, m.dirty, all[i].key)
                                  else SavedAt(m.files, who, all[i].key))
         && (all[i].draft <==> who == "" && IsDirty(m.dirty, all[i].key))
  }

  lemma InventoryHere(c: Config, who: string, all: seq<Entry>)
    requires c.IsInventory(who, all)
    ensures Inventory(Now(c), who, all)
  {
    hide StrictlySorted, IsDirty, Visible;
    forall k: Key ensures k in KeysOf(all) <==> c.InInventory(who, k) { }
    forall i | 0 <= i < |all| ensures c.EntryIs(who, all[i]) { }
  }

  lemma NoProfile(m: Moment)
    requires m.profile == ""
    ensures Inventory(m, "", [])
  {
  }

  /** The same listing means the same catalog. */
  lemma SameInventory(a: Moment, b: Moment, who: string, xs: seq<Entry>, ys: seq<Entry>)
    requires if who == "" then a.profile == b.profile && SameListing(a.files, a.dirty, b.files, b.dirty, a.profile)
             else SameSaved(a.files, b.files, who)
    requires Inventory(a, who, xs) && Inventory(b, who, ys)
    ensures xs == ys
  {
    hide StrictlySorted, IsDirty;
    forall k: Key ensures k in KeysOf(xs) <==> k in KeysOf(ys) {
      if Legal(k) {
        assert who == "" ==> Visible(a.files, a.profile, a.dirty, k) == Visible(b.files, b.profile, b.dirty, k);
        assert who != "" ==> SavedAt(a.files, who, k) == SavedAt(b.files, who, k);
      }
    }
    OneListing(KeysOf(xs), KeysOf(ys));
    forall i | 0 <= i < |xs| ensures xs[i] == ys[i] {
      assert KeysOf(xs)[i] == KeysOf(ys)[i] && KeysOf(xs)[i] in KeysOf(xs);
    }
  }

  /** At most limit entries from offset on. */
  function Slice(all: seq<Entry>, offset: nat, limit: nat): seq<Entry> {
    if offset > |all| then [] else all[offset..if limit > |all| - offset then |all| else offset + limit]
  }

  /** Sending a page: the complete catalog it is cut from, at the moment it is sent. */
  method SendPage(c: Config, who: string, offset: nat, limit: nat)
    returns (r: StoreResult, total: nat, page: seq<Entry>, ghost all: seq<Entry>)
    requires c.Sound()
    modifies c.workspace
    ensures c.Sound() && (old(c.Cached()) ==> c.Cached())
    ensures r.Ok? ==> Inventory(Now(c), who, all) && total == |all| <= CATALOG_MAX && page == Slice(all, offset, limit)
  {
    hide StrictlySorted, IsDirty, Visible, Inventory, Config.Cached, Config.IsInventory;
    Apart(c);
    r, total, page, all := c.PatchesPage(who, offset, limit);
    Unwritten(c);
    if who == "" && c.profile == "" {
      all := [];
      NoProfile(Now(c));
    } else if r.Ok? {
      InventoryHere(c, who, all);
    }
  }

  lemma Apart(c: Config)
    requires c.Sound()
    ensures c.patch != c.workspace
  {
  }

  twostate lemma Unwritten(c: Config)
    requires unchanged(c, c.patch)
    ensures old(c.Cached()) ==> c.Cached()
  {
  }

  // ----- runs

  /** A page that was sent: when, of which profile, and what it is a part of. */
  datatype Sent = Sent(at: nat, who: string, offset: nat, limit: nat, page: seq<Entry>, all: seq<Entry>)

  ghost predicate Truthful(history: seq<Moment>, p: Sent) {
    && p.at < |history| && Inventory(history[p.at], p.who, p.all) && |p.all| <= CATALOG_MAX
    && p.page == Slice(p.all, p.offset, p.limit)
  }

  /** Any run of operations and pages, every store call failing at any time: each
      page is cut from the complete ordered catalog of its moment, the revision tells
      of every change but the flaws, and, as long as no write went past it, the patch
      in memory is the one shown. */
  method Run(c: Config, ops: seq<(Op, nat)>)
    returns (ghost history: seq<Moment>, ghost flaws: seq<Flaw>, ghost pages: seq<Sent>)
    requires c.Sound()
    modifies c, c.workspace, c.workTokens, c.device, c.patch
    ensures c.Sound() && |history| == |ops| + 1 && history[|ops|] == Now(c) && AllTold(history, flaws)
    ensures forall p | p in pages :: Truthful(history, p)
    ensures old(c.Cached()) && (forall i | 0 <= i < |ops| :: !Overtakes(ops[i].0, history[i].profile)) ==> c.Cached()
  {
    hide Config.Sound, Config.Cached, Told, Inventory, Overtakes;
    history, flaws, pages := [Now(c)], [], [];
    for i := 0 to |ops|
      invariant c.Sound() && |history| == i + 1 && history[i] == Now(c) && AllTold(history, flaws)
      invariant forall p | p in pages :: Truthful(history, p)
      invariant old(c.Cached()) && (forall j | 0 <= j < i :: !Overtakes(ops[j].0, history[j].profile)) ==> c.Cached()
    {
      var (op, now) := ops[i];
      ghost var flaw, before := NoFlaw, history;
      if op.Page? {
        var r, total, page;
        ghost var all;
        r, total, page, all := SendPage(c, op.who, op.offset, op.limit);
        if r.Ok? { pages := pages + [Sent(i, op.who, op.offset, op.limit, page, all)]; }
        NotOvertaken(op, before[i].profile);
        Same(before[i], Now(c));
      } else {
        flaw := Step(c, op, now);
      }
      history, flaws := history + [Now(c)], flaws + [flaw];
      assert history[i] == before[i];
    }
  }

  lemma NotOvertaken(op: Op, profile: string)
    requires op.Page?
    ensures !Overtakes(op, profile)
  {
  }

  /** Two moments of the same revision have the same catalog: that of the active
      profile always, that of a named one if no flaw moved its saved patches in
      between. */
  lemma CatalogsAgree(history: seq<Moment>, flaws: seq<Flaw>, i: nat, j: nat, who: string, xs: seq<Entry>, ys: seq<Entry>)
    requires AllTold(history, flaws) && i <= j < |history| && history[i].revision == history[j].revision
    requires Inventory(history[i], who, xs) && Inventory(history[j], who, ys)
    requires who != "" ==> Undisturbed(history, flaws, i, j, who)
    ensures xs == ys
  {
    hide Inventory, SameListing, SameSaved, Announced, Told, Moves;
    if who == "" {
      AllAnnouncedToo(history, flaws);
      RevisionTells(history, i, j);
    } else {
      SavedTells(history, flaws, i, j, who);
    }
    SameInventory(history[i], history[j], who, xs, ys);
  }

  /** So pages of one run with the same revision are parts of the same catalog. */
  lemma PagesAgree(history: seq<Moment>, flaws: seq<Flaw>, p: Sent, q: Sent)
    requires AllTold(history, flaws) && Truthful(history, p) && Truthful(history, q)
    requires p.who == q.who && p.at <= q.at && history[p.at].revision == history[q.at].revision
    requires p.who != "" ==> Undisturbed(history, flaws, p.at, q.at, p.who)
    ensures p.all == q.all
    ensures p.page == Slice(q.all, p.offset, p.limit)
  {
    hide Inventory, Told, Moves;
    CatalogsAgree(history, flaws, p.at, q.at, p.who, p.all, q.all);
  }

  /** A catalog tells what the saved patches are. */
  lemma CatalogTells(a: Moment, b: Moment, who: string, all: seq<Entry>)
    requires who != "" && Inventory(a, who, all) && Inventory(b, who, all)
    ensures SameSaved(a.files, b.files, who)
  {
    hide IsDirty, StrictlySorted;
    forall k | Legal(k) ensures SavedAt(a.files, who, k) == SavedAt(b.files, who, k) {
      if k in KeysOf(all) {
        var i :| 0 <= i < |KeysOf(all)| && KeysOf(all)[i] == k;
        assert all[i].key == k;
      }
    }
  }

  /** Across one operation with an equal revision a named profile's catalog stays
      exactly unless the operation's flaw moved it. */
  lemma PagesAgreeExactly(a: Moment, b: Moment, flaw: Flaw, who: string, xs: seq<Entry>, ys: seq<Entry>)
    requires Told(a, b, flaw) && a.revision == b.revision && who != ""
    requires Inventory(a, who, xs) && Inventory(b, who, ys)
    ensures xs == ys <==> !Moves(a, flaw, who)
  {
    SavedMoves(a, b, flaw, who);
    hide Inventory, Told, Moves, SameSaved;
    if SameSaved(a.files, b.files, who) {
      SameInventory(a, b, who, xs, ys);
    } else if xs == ys {
      CatalogTells(a, b, who, xs);
    }
  }

  // ----- a write past the copy in memory

  /** "{}" is a JSON object text. */
  lemma EmptyObject(capacity: nat)
    requires 0 < capacity
    ensures Verdict("{}", capacity).Ok?
  {
    var d := JsonGrammar.Document("", JsonGrammar.Object("", JsonGrammar.NoMembers), "");
    assert JsonGrammar.RenderDocument(d) == "{}";
    JsonTheorems.ParseComplete("{}", capacity, d);
  }

  const PROFILE: string := "p"

  function ExampleFiles(): Files {
    map[InProfile(PROFILE, Manifest) := "{}", InProfile(PROFILE, Saved(Key(1, 1))) := "{}"]
  }

  /** Profile p is active and its patch 1/1 in memory; PUT_PATCH names p. If no store
      call fails, the files show the new text and the patch in memory is the old one. */
  method OvertakenExample() returns (c: Config, done: bool)
    ensures c.Sound()
    ensures done ==> && c.profile == PROFILE && c.at == Key(1, 1) && c.hasPatch && c.PatchText() == "{}"
                     && c.VisiblePatch(c.at) == Some("{ }") && !c.Cached()
  {
    hide Verdict, Says, ProfileId, PointerText, JsonParser.Parse, ParsedAs;
    EmptyObject(DEVICE_TOKENS);
    c := new Config(ExampleFiles(), "{}");
    Loaded(c);
    var r := c.Activate(PROFILE, false);
    if !r.Ok? { return c, false; }
    Loaded(c);
    assert IsDirty(c.dirty, c.at) <==> InProfile(PROFILE, Draft(c.at)) in c.files;
    r := c.PutSaved(PROFILE, Key(1, 1), "{ }");
    done := r.Ok?;
  }

  lemma Loaded(c: Config)
    requires c.Valid()
    ensures c.deviceDoc.length <= c.device.Length && c.patchDoc.length <= c.patch.Length
    ensures c.hasPatch ==> c.VisiblePatch(c.at) == Some(c.PatchText())
    ensures c.profile != "" ==> DirtyMatches(c.files, c.profile, c.dirty)
  {
  }
}
