/** The profile store's files, and the patches a user sees through them: a draft
    hides the saved patch. Source: firmware/src/config.c. */
module ConfigFiles {
  const DEVICE_BYTES: nat := 16384
  const PATCH_BYTES: nat := 24576
  const DEVICE_TOKENS: nat := 1024
  const PATCH_TOKENS: nat := 1536
  const BINDING_BYTES: nat := 8192
  const BINDING_TOKENS: nat := 512
  const DIRTY_PATCHES: nat := 128
  const CATALOG_MAX: nat := 625
  const BANK_MAX: nat := 125
  const SLOT_MAX: nat := 10

  datatype Option<+T> = None | Some(value: T)

  datatype Key = Key(bank: nat, slot: nat)

  datatype File = Manifest | Device | Saved(key: Key) | Draft(key: Key)

  datatype Path = InProfile(profile: string, file: File) | ActivePointer

  type Files = map<Path, string>

  datatype Dirty = Dirty(key: Key, modified: nat)

  /** bosun_config_coordinates. */
  predicate Legal(k: Key) { 1 <= k.bank <= BANK_MAX && 1 <= k.slot <= SLOT_MAX }

  function FileAt(files: Files, path: Path): Option<string> {
    if path in files then Some(files[path]) else None
  }

  function SavedAt(files: Files, profile: string, k: Key): Option<string> {
    FileAt(files, InProfile(profile, Saved(k)))
  }

  function DraftAt(files: Files, profile: string, k: Key): Option<string> {
    FileAt(files, InProfile(profile, Draft(k)))
  }

  predicate IsDirty(dirty: seq<Dirty>, k: Key) {
    exists i | 0 <= i < |dirty| :: dirty[i].key == k
  }

  /** The patch shown at k: its draft if there is one, else the saved patch. */
  function Visible(files: Files, profile: string, dirty: seq<Dirty>, k: Key): Option<string> {
    if IsDirty(dirty, k) then DraftAt(files, profile, k) else SavedAt(files, profile, k)
  }

  /** The dirty list names every draft of the profile, once. */
  ghost predicate DirtyMatches(files: Files, profile: string, dirty: seq<Dirty>) {
    && |dirty| <= DIRTY_PATCHES
    && (forall i, j | 0 <= i < j < |dirty| :: dirty[i].key != dirty[j].key)
    && (forall i | 0 <= i < |dirty| :: Legal(dirty[i].key))
    && (forall k | Legal(k) :: IsDirty(dirty, k) <==> InProfile(profile, Draft(k)) in files)
  }

  /** What a listing of the active profile depends on. */
  ghost predicate SameListing(f: Files, d: seq<Dirty>, g: Files, e: seq<Dirty>, profile: string) {
    forall k | Legal(k) ::
      (IsDirty(d, k) <==> IsDirty(e, k)) && Visible(f, profile, d, k) == Visible(g, profile, e, k)
  }

  /** What a listing of a profile that is not active depends on. */
  ghost predicate SameSaved(f: Files, g: Files, profile: string) {
    forall k | Legal(k) :: SavedAt(f, profile, k) == SavedAt(g, profile, k)
  }

  // ----- staging

  /** dirty[index] = ..., or one more at the end. */
  function Staged(dirty: seq<Dirty>, k: Key, now: nat): seq<Dirty> {
    var i := IndexOf(dirty, k);
    if i < |dirty| then dirty[i := Dirty(k, now)] else dirty + [Dirty(k, now)]
  }

  function IndexOf(dirty: seq<Dirty>, k: Key): (i: nat)
    ensures i <= |dirty| && (i < |dirty| ==> dirty[i].key == k)
    ensures forall j | 0 <= j < i :: dirty[j].key != k
    ensures i < |dirty| <==> IsDirty(dirty, k)
  {
    if dirty == [] then 0
    else if dirty[0].key == k then 0
    else
      var j := IndexOf(dirty[1..], k);
      assert j < |dirty[1..]| ==> dirty[1 + j].key == k;
      1 + j
  }

  lemma StagedKeys(dirty: seq<Dirty>, k: Key, now: nat, other: Key)
    ensures IsDirty(Staged(dirty, k, now), other) <==> other == k || IsDirty(dirty, other)
  {
    var i := IndexOf(dirty, k);
    var staged := Staged(dirty, k, now);
    if i < |dirty| { assert staged[i].key == k; } else { assert staged[|dirty|].key == k; }
    if IsDirty(dirty, other) {
      var j :| 0 <= j < |dirty| && dirty[j].key == other;
      assert staged[j].key == other;
    }
    if IsDirty(staged, other) && other != k {
      var j :| 0 <= j < |staged| && staged[j].key == other;
      assert j < |dirty| && dirty[j].key == other;
    }
  }

  /** A staged patch is shown, and no other patch moves. */
  lemma StagingShows(files: Files, profile: string, dirty: seq<Dirty>, k: Key, json: string, now: nat)
    requires DirtyMatches(files, profile, dirty) && Legal(k)
    requires |dirty| < DIRTY_PATCHES || IsDirty(dirty, k)
    ensures var after := files[InProfile(profile, Draft(k)) := json];
      && DirtyMatches(after, profile, Staged(dirty, k, now))
      && Visible(after, profile, Staged(dirty, k, now), k) == Some(json)
      && forall other | other != k ::
           Visible(after, profile, Staged(dirty, k, now), other) == Visible(files, profile, dirty, other)
  {
    hide IsDirty;
    forall other: Key
      ensures IsDirty(Staged(dirty, k, now), other) <==> other == k || IsDirty(dirty, other)
    {
      StagedKeys(dirty, k, now, other);
    }
  }

  // ----- saving and discarding

  function Erased(dirty: seq<Dirty>, i: nat): seq<Dirty>
    requires i < |dirty|
  {
    dirty[..i] + dirty[i + 1..]
  }

  lemma ErasedKeys(dirty: seq<Dirty>, i: nat, other: Key)
    requires i < |dirty| && forall a, b | 0 <= a < b < |dirty| :: dirty[a].key != dirty[b].key
    ensures IsDirty(Erased(dirty, i), other) <==> other != dirty[i].key && IsDirty(dirty, other)
  {
    var rest := Erased(dirty, i);
    if IsDirty(rest, other) {
      var j :| 0 <= j < |rest| && rest[j].key == other;
      assert dirty[if j < i then j else j + 1].key == other;
    }
    if IsDirty(dirty, other) && other != dirty[i].key {
      var j :| 0 <= j < |dirty| && dirty[j].key == other;
      assert rest[if j < i then j else j - 1].key == other;
    }
  }

  /** Taking the draft of dirty[i] away shows the saved patch; no other moves. */
  lemma ErasingShows(files: Files, profile: string, dirty: seq<Dirty>, i: nat)
    requires DirtyMatches(files, profile, dirty) && i < |dirty|
    ensures var after, k := files - {InProfile(profile, Draft(dirty[i].key))}, dirty[i].key;
      && DirtyMatches(after, profile, Erased(dirty, i))
      && Visible(after, profile, Erased(dirty, i), k) == SavedAt(files, profile, k)
      && forall other | other != k ::
           Visible(after, profile, Erased(dirty, i), other) == Visible(files, profile, dirty, other)
  {
    hide IsDirty;
    forall other: Key
      ensures IsDirty(Erased(dirty, i), other) <==> other != dirty[i].key && IsDirty(dirty, other)
    {
      ErasedKeys(dirty, i, other);
    }
  }

  /** Writing the saved patch under a draft changes nothing that is shown. */
  lemma SavingHidden(files: Files, profile: string, dirty: seq<Dirty>, k: Key, json: string)
    requires DirtyMatches(files, profile, dirty) && IsDirty(dirty, k)
    ensures var after := files[InProfile(profile, Saved(k)) := json];
      && DirtyMatches(after, profile, dirty)
      && forall other :: Visible(after, profile, dirty, other) == Visible(files, profile, dirty, other)
  {
  }

  // ----- bosun_config_save as a whole

  /** A save or discard of all drafts, or of one. */
  predicate Matches(which: Option<Key>, k: Key) { which.None? || which.value == k }

  /** g, e is f, d after some of the matching drafts were saved, or discarded; of
      torn the saved patch was written, but its draft is still there. */
  ghost predicate SaveProgress(f: Files, d: seq<Dirty>, g: Files, e: seq<Dirty>, profile: string,
                               which: Option<Key>, discard: bool, torn: Option<Key>) {
    forall k: Key ::
      if IsDirty(d, k) && !IsDirty(e, k) then
        && Matches(which, k) && DraftAt(g, profile, k).None?
        && SavedAt(g, profile, k) == (if discard then SavedAt(f, profile, k) else DraftAt(f, profile, k))
      else
        && IsDirty(d, k) == IsDirty(e, k) && DraftAt(g, profile, k) == DraftAt(f, profile, k)
        && (if torn == Some(k) then Matches(which, k) && !discard && IsDirty(d, k)
                                    && SavedAt(g, profile, k) == DraftAt(f, profile, k)
            else SavedAt(g, profile, k) == SavedAt(f, profile, k))
  }

  /** Of the files only the saved patch and the draft of k differ: the saved patch
      is the draft if written, and the draft is gone if dropped. */
  predicate SaveFrame(f: Files, g: Files, profile: string, k: Key, written: bool, dropped: bool) {
    var saved, draft := InProfile(profile, Saved(k)), InProfile(profile, Draft(k));
    && draft in f
    && g == (if written then f[saved := f[draft]] else f) - (if dropped then {draft} else {})
  }

  /** The files after a save that wrote the saved patch at torn and no more. */
  function Torn(f: Files, profile: string, torn: Option<Key>): Files {
    if torn.None? || DraftAt(f, profile, torn.value).None? then f
    else f[InProfile(profile, Saved(torn.value)) := DraftAt(f, profile, torn.value).value]
  }

  /** Only patches and drafts of the profile at the matching coordinates differ. */
  ghost predicate KeptBut(f: Files, g: Files, profile: string, which: Option<Key>) {
    forall p: Path :: FileAt(g, p) == FileAt(f, p)
                      || (p.InProfile? && p.profile == profile && (p.file.Saved? || p.file.Draft?) && Matches(which, p.file.key))
  }

  lemma NothingTorn(f: Files, profile: string, which: Option<Key>)
    ensures KeptBut(f, f, profile, which) && Torn(f, profile, None) == f
  {
  }

  lemma KeptOn(f: Files, g: Files, h: Files, profile: string, which: Option<Key>)
    requires KeptBut(f, g, profile, which) && KeptBut(g, h, profile, which)
    ensures KeptBut(f, h, profile, which)
  {
    forall p: Path
      ensures FileAt(h, p) == FileAt(f, p)
              || (p.InProfile? && p.profile == profile && (p.file.Saved? || p.file.Draft?) && Matches(which, p.file.key))
    {
      assert FileAt(g, p) == FileAt(f, p)
             || (p.InProfile? && p.profile == profile && (p.file.Saved? || p.file.Draft?) && Matches(which, p.file.key));
    }
  }

  lemma FrameKeeps(f: Files, g: Files, profile: string, k: Key, which: Option<Key>, written: bool, dropped: bool)
    requires SaveFrame(f, g, profile, k, written, dropped) && Matches(which, k)
    ensures KeptBut(f, g, profile, which)
    ensures !dropped ==> g == Torn(f, profile, if written then Some(k) else None)
  {
  }

  lemma SaveStep(f: Files, d: seq<Dirty>, g: Files, e: seq<Dirty>, h: Files, i: nat, profile: string,
                 which: Option<Key>, discard: bool)
    requires SaveProgress(f, d, g, e, profile, which, discard, None)
    requires i < |e| && Matches(which, e[i].key) && DirtyMatches(g, profile, e)
    requires SaveFrame(g, h, profile, e[i].key, !discard, true)
    ensures SaveProgress(f, d, h, Erased(e, i), profile, which, discard, None)
  {
    hide IsDirty, Erased;
    assert IsDirty(e, e[i].key) by { Member(e, i); }
    forall k: Key ensures IsDirty(Erased(e, i), k) <==> k != e[i].key && IsDirty(e, k) {
      ErasedKeys(e, i, k);
    }
  }

  lemma Member(d: seq<Dirty>, i: nat)
    requires i < |d|
    ensures IsDirty(d, d[i].key)
  {
  }

  lemma SaveStopped(f: Files, d: seq<Dirty>, g: Files, e: seq<Dirty>, h: Files, i: nat, profile: string,
                    which: Option<Key>, discard: bool, torn: bool)
    requires SaveProgress(f, d, g, e, profile, which, discard, None)
    requires i < |e| && Matches(which, e[i].key)
    requires SaveFrame(g, h, profile, e[i].key, torn, false) && (torn ==> !discard)
    ensures SaveProgress(f, d, h, e, profile, which, discard, if torn then Some(e[i].key) else None)
  {
    Member(e, i);
    hide IsDirty;
  }

  /** A save shows everything as before, at every exit; a discard shows the saved
      patch where the draft went away, and nothing else moves. */
  lemma SaveShows(f: Files, d: seq<Dirty>, g: Files, e: seq<Dirty>, profile: string,
                  which: Option<Key>, discard: bool, torn: Option<Key>)
    requires SaveProgress(f, d, g, e, profile, which, discard, torn)
    ensures !discard ==> forall k :: Visible(g, profile, e, k) == Visible(f, profile, d, k)
    ensures discard ==> forall k ::
              Visible(g, profile, e, k) == if IsDirty(d, k) && !IsDirty(e, k) then SavedAt(f, profile, k)
                                           else Visible(f, profile, d, k)
  {
    hide IsDirty;
  }

  // ----- what the catalog revision tells

  /** The store at one moment, with its catalog revision. */
  datatype Moment = Moment(files: Files, profile: string, dirty: seq<Dirty>, revision: nat)

  /** An operation: the listing of the active profile moves only with the revision,
      which never goes back. */
  ghost predicate Announced(a: Moment, b: Moment) {
    && a.revision <= b.revision
    && (a.revision == b.revision ==> a.profile == b.profile && SameListing(a.files, a.dirty, b.files, b.dirty, a.profile))
  }

  ghost predicate AllAnnounced(h: seq<Moment>) {
    forall i | 0 < i < |h| :: Announced(h[i - 1], h[i])
  }

  /** Two moments with the same revision have the same listing, whatever happened
      in between. */
  lemma {:induction false} RevisionTells(h: seq<Moment>, i: nat, j: nat)
    requires AllAnnounced(h) && i <= j < |h|
    ensures h[i].revision <= h[j].revision
    ensures h[i].revision == h[j].revision ==>
              h[i].profile == h[j].profile
              && SameListing(h[i].files, h[i].dirty, h[j].files, h[j].dirty, h[i].profile)
  {
    hide IsDirty;
    if i < j {
      RevisionTells(h, i, j - 1);
      assert Announced(h[j - 1], h[j]);
    }
  }

  // ----- the saved patches of a named profile

  /** How an operation may move saved patches without raising the revision: a save
      that wrote the saved patch but could not drop the draft, and a removal that
      deleted the saved patch but could not. */
  datatype Flaw = NoFlaw | TornSave(key: Key) | TornRemoval(key: Key)

  /** The files after such an operation. */
  function Left(m: Moment, flaw: Flaw): Files {
    match flaw
    case NoFlaw => m.files
    case TornSave(k) => Torn(m.files, m.profile, Some(k))
    case TornRemoval(k) => m.files - {InProfile(m.profile, Saved(k))}
  }

  /** One operation: if it does not raise the revision, it leaves all as it was, up
      to one flaw at a coordinate with a draft. */
  ghost predicate Told(a: Moment, b: Moment, flaw: Flaw) {
    && a.revision <= b.revision
    && (a.revision == b.revision ==>
          && b.profile == a.profile && b.dirty == a.dirty && b.files == Left(a, flaw)
          && (flaw != NoFlaw ==> Legal(flaw.key) && IsDirty(a.dirty, flaw.key)))
  }

  /** The flaw shows: the draft written differs, or there was a saved patch to delete. */
  predicate Moves(m: Moment, flaw: Flaw, who: string) {
    who == m.profile &&
    match flaw
    case NoFlaw => false
    case TornSave(k) => DraftAt(m.files, who, k).Some? && DraftAt(m.files, who, k) != SavedAt(m.files, who, k)
    case TornRemoval(k) => SavedAt(m.files, who, k).Some?
  }

  /** Without a new revision the saved patches of a profile stay exactly unless the
      operation was a save torn at a draft that differs, or a removal torn at an
      existing saved patch, of that profile. */
  lemma SavedMoves(a: Moment, b: Moment, flaw: Flaw, who: string)
    requires Told(a, b, flaw) && a.revision == b.revision
    ensures SameSaved(a.files, b.files, who) <==> !Moves(a, flaw, who)
  {
    hide IsDirty;
    if Moves(a, flaw, who) {
      assert Legal(flaw.key) && SavedAt(a.files, who, flaw.key) != SavedAt(b.files, who, flaw.key);
    }
  }

  /** What the active profile shows does not move even then. */
  lemma ToldAnnounces(a: Moment, b: Moment, flaw: Flaw)
    requires Told(a, b, flaw)
    ensures Announced(a, b)
  {
    hide IsDirty;
  }

  /** A history of operations, flaws[i] being that of the operation after h[i]. */
  ghost predicate AllTold(h: seq<Moment>, flaws: seq<Flaw>) {
    |h| == |flaws| + 1 && forall i | 0 <= i < |flaws| :: Told(h[i], h[i + 1], flaws[i])
  }

  lemma AllAnnouncedToo(h: seq<Moment>, flaws: seq<Flaw>)
    requires AllTold(h, flaws)
    ensures AllAnnounced(h)
  {
    hide Told, Announced;
    forall i | 0 < i < |h| ensures Announced(h[i - 1], h[i]) {
      assert Told(h[i - 1], h[i - 1 + 1], flaws[i - 1]);
      ToldAnnounces(h[i - 1], h[i], flaws[i - 1]);
    }
  }

  /** No operation between the two moments moved the profile's saved patches. */
  predicate Undisturbed(h: seq<Moment>, flaws: seq<Flaw>, i: nat, j: nat, who: string)
    requires j <= |flaws| < |h|
  {
    forall m | i <= m < j :: !Moves(h[m], flaws[m], who)
  }

  /** For a named profile equal revisions mean equal saved patches, if no flaw moved
      them in between. */
  lemma {:induction false} SavedTells(h: seq<Moment>, flaws: seq<Flaw>, i: nat, j: nat, who: string)
    requires AllTold(h, flaws) && i <= j < |h| && h[i].revision == h[j].revision && Undisturbed(h, flaws, i, j, who)
    ensures SameSaved(h[i].files, h[j].files, who)
  {
    if i < j {
      AllAnnouncedToo(h, flaws);
      RevisionTells(h, i, j - 1);
      RevisionTells(h, j - 1, j);
      hide Told, Announced, SameListing, Moves, IsDirty;
      SavedTells(h, flaws, i, j - 1, who);
      assert Told(h[j - 1], h[j - 1 + 1], flaws[j - 1]);
      SavedMoves(h[j - 1], h[j], flaws[j - 1], who);
    }
  }

  /** A save that writes the saved patch, fails to remove the draft, and leaves the
      revision alone. */
  lemma TornSaveExample()
    ensures var k, p := Key(1, 1), "p";
            var f: Files := map[InProfile(p, Draft(k)) := "{\"a\":1}", InProfile(p, Saved(k)) := "{}"];
            var g := f[InProfile(p, Saved(k)) := "{\"a\":1}"];
            var d := [Dirty(k, 0)];
            && DirtyMatches(f, p, d) && SaveProgress(f, d, g, d, p, Some(k), false, Some(k))
            && Told(Moment(f, p, d, 0), Moment(g, p, d, 0), TornSave(k)) && !SameSaved(f, g, p)
  {
    var k, p := Key(1, 1), "p";
    var f: Files := map[InProfile(p, Draft(k)) := "{\"a\":1}", InProfile(p, Saved(k)) := "{}"];
    var g := f[InProfile(p, Saved(k)) := "{\"a\":1}"];
    assert |"{}"| != |"{\"a\":1}"|;
    Member([Dirty(k, 0)], 0);
    assert g == Torn(f, p, Some(k));
    SavedMoves(Moment(f, p, [Dirty(k, 0)], 0), Moment(g, p, [Dirty(k, 0)], 0), TornSave(k), p);
  }

  /** A removal that deletes the saved patch and cannot remove the draft. It is no
      progress of any save. */
  lemma TornRemovalExample()
    ensures var k, p := Key(1, 1), "p";
            var f: Files := map[InProfile(p, Draft(k)) := "{\"a\":1}", InProfile(p, Saved(k)) := "{}"];
            var g := f - {InProfile(p, Saved(k))};
            var d := [Dirty(k, 0)];
            && DirtyMatches(f, p, d) && SameListing(f, d, g, d, p)
            && Told(Moment(f, p, d, 0), Moment(g, p, d, 0), TornRemoval(k)) && !SameSaved(f, g, p)
            && forall which, discard, torn :: !SaveProgress(f, d, g, d, p, which, discard, torn)
  {
    var k, p := Key(1, 1), "p";
    var f: Files := map[InProfile(p, Draft(k)) := "{\"a\":1}", InProfile(p, Saved(k)) := "{}"];
    var g, d := f - {InProfile(p, Saved(k))}, [Dirty(k, 0)];
    Member(d, 0);
    var a, b := Moment(f, p, d, 0), Moment(g, p, d, 0);
    SavedMoves(a, b, TornRemoval(k), p);
    ToldAnnounces(a, b, TornRemoval(k));
    forall which, discard, torn ensures !SaveProgress(f, d, g, d, p, which, discard, torn) {
      assert SavedAt(g, p, k).None? && DraftAt(f, p, k).Some? && SavedAt(f, p, k).Some?;
    }
  }
}
