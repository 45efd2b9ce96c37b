/** The editor's reader of the paginated patch inventory, against a pedal that is
    edited while it reads: its replies are the pages of ConfigRuns, with any store
    operations between them. Source: editor/src/lib/patch-catalog.ts; the pages are
    those of firmware/src/protocol.c, lines 440 to 455. */
module CatalogReader {
  import opened ConfigFiles
  import opened ConfigStore
  import opened ConfigRuns
  import opened PatchCatalog

  const PAGE: nat := 64

  /** A property of a message that may be anything. */
  datatype Field = Missing | Int(n: int) | Other(text: string)

  datatype Item = NotObject | Item(bank: Field, slot: Field, rest: string)

  /** What a request comes back with; listing tells that it is a PATCH_LIST with an
      array of patches. */
  datatype Reply = Rejected
                 | Page(listing: bool, offset: Field, revision: Field, profile: Field, total: Field, next: Field,
                        patches: seq<Item>)

  /** The pedal at one moment: the profile asked about, the catalog's revision, and
      the complete ordered catalog. Older firmware sends it in one piece. */
  datatype Pedal = Pedal(paged: bool, profile: string, revision: nat, catalog: seq<Item>)

  /** What a page reply says. */
  function Answer(p: Pedal, offset: nat): (r: Reply)
    ensures r.Page? && r.listing && (r.offset == Missing <==> !p.paged)
  {
    if !p.paged then Reply.Page(true, Missing, Missing, Other(p.profile), Missing, Missing, p.catalog)
    else
      var end := if offset > |p.catalog| then offset else if PAGE > |p.catalog| - offset then |p.catalog| else offset + PAGE;
      Reply.Page(true, Int(offset), Int(p.revision), Other(p.profile), Int(|p.catalog|),
           Int(if offset + PAGE < |p.catalog| then offset + PAGE else -1),
           if offset > |p.catalog| then [] else p.catalog[offset..end])
  }

  function ItemsOf(all: seq<Entry>): (items: seq<Item>)
    ensures |items| == |all|
  {
    seq(|all|, i requires 0 <= i < |all| => Item(Int(all[i].key.bank), Int(all[i].key.slot), all[i].text))
  }

  function PedalOf(m: Moment, who: string, paged: bool, all: seq<Entry>): Pedal {
    Pedal(paged, if who == "" then m.profile else who, m.revision, ItemsOf(all))
  }

  predicate LegalItem(i: Item) {
    i.Item? && i.bank.Int? && 1 <= i.bank.n <= 125 && i.slot.Int? && 1 <= i.slot.n <= 10
  }

  predicate Distinct(items: seq<Item>) {
    forall i, j | 0 <= i < j < |items| && LegalItem(items[i]) && LegalItem(items[j]) ::
      items[i].bank != items[j].bank || items[i].slot != items[j].slot
  }

  /** A catalog the pedal can have. */
  predicate GoodCatalog(items: seq<Item>) {
    |items| <= CATALOG_MAX && Distinct(items) && forall i | 0 <= i < |items| :: LegalItem(items[i])
  }

  lemma GoodItems(m: Moment, who: string, all: seq<Entry>)
    requires Inventory(m, who, all) && |all| <= CATALOG_MAX
    ensures GoodCatalog(ItemsOf(all))
  {
    hide IsDirty, Visible;
    var items := ItemsOf(all);
    forall i | 0 <= i < |items| ensures LegalItem(items[i]) {
      assert KeysOf(all)[i] in KeysOf(all);
    }
    forall i, j | 0 <= i < j < |items| ensures items[i].bank != items[j].bank || items[i].slot != items[j].slot {
      assert Less(KeysOf(all)[i], KeysOf(all)[j]);
    }
  }

  /** A request that was answered: when, and the complete catalog then. */
  datatype Visit = Visit(at: nat, all: seq<Entry>)

  ghost predicate Visited(moments: seq<Moment>, who: string, paged: bool, visits: seq<Visit>, history: seq<Pedal>) {
    && |visits| == |history|
    && (forall i | 0 <= i < |visits| ::
          && visits[i].at < |moments| && |visits[i].all| <= CATALOG_MAX
          && Inventory(moments[visits[i].at], who, visits[i].all)
          && history[i] == PedalOf(moments[visits[i].at], who, paged, visits[i].all))
    && forall i, j | 0 <= i < j < |visits| :: visits[i].at <= visits[j].at
  }

  lemma SameLength(moments: seq<Moment>, who: string, paged: bool, visits: seq<Visit>, history: seq<Pedal>)
    requires Visited(moments, who, paged, visits, history)
    ensures |visits| == |history|
  {
    hide Inventory;
  }

  lemma MoreMoments(moments: seq<Moment>, who: string, paged: bool, visits: seq<Visit>, history: seq<Pedal>, m: Moment)
    requires Visited(moments, who, paged, visits, history)
    ensures Visited(moments + [m], who, paged, visits, history)
  {
    hide Inventory;
  }

  lemma MoreVisits(moments: seq<Moment>, who: string, paged: bool, visits: seq<Visit>, history: seq<Pedal>, all: seq<Entry>)
    requires Visited(moments, who, paged, visits, history) && moments != []
    requires Inventory(moments[|moments| - 1], who, all) && |all| <= CATALOG_MAX
    ensures Visited(moments, who, paged, visits + [Visit(|moments| - 1, all)],
                    history + [PedalOf(moments[|moments| - 1], who, paged, all)])
  {
    hide Inventory;
  }

  lemma MoreFlaws(moments: seq<Moment>, flaws: seq<Flaw>, m: Moment, f: Flaw, who: string)
    requires AllTold(moments, flaws) && Told(moments[|flaws|], m, f)
    ensures AllTold(moments + [m], flaws + [f])
    ensures Undisturbed(moments, flaws, 0, |flaws|, who) && !Moves(moments[|flaws|], f, who) ==>
              Undisturbed(moments + [m], flaws + [f], 0, |flaws| + 1, who)
  {
    hide Told, Moves;
    var h, g := moments + [m], flaws + [f];
    forall i | 0 <= i < |g| ensures Told(h[i], h[i + 1], g[i]) {
      if i < |flaws| { assert Told(moments[i], moments[i + 1], flaws[i]); }
    }
  }

  lemma Later(moments: seq<Moment>, flaws: seq<Flaw>, i: nat, j: nat, who: string)
    requires i <= j <= |flaws| < |moments| && Undisturbed(moments, flaws, 0, |flaws|, who)
    ensures Undisturbed(moments, flaws, i, j, who)
  {
  }

  /** The link to the pedal. When honest, replies are the pages of its store, which
      other commands may change at any time; otherwise they can be anything. */
  class Link {
    const config: Config
    /** The profile named in the request, or "". */
    const who: string
    const paged: bool
    const honest: bool
    var rejected: bool
    ghost var moments: seq<Moment>
    ghost var flaws: seq<Flaw>
    ghost var visits: seq<Visit>
    ghost var history: seq<Pedal>
    /** A flaw of the store has moved what a named profile lists, unannounced. */
    ghost var disturbed: bool

    ghost predicate Valid()
      reads this, config, config.device, config.patch
    {
      && config.Sound() && AllTold(moments, flaws) && moments[|flaws|] == Now(config)
      && Visited(moments, who, paged, visits, history)
      && (who != "" && !disturbed ==> Undisturbed(moments, flaws, 0, |flaws|, who))
      && (who == "" ==> !disturbed)
    }

    constructor (config: Config, who: string, paged: bool, honest: bool)
      requires config.Sound()
      ensures Valid() && this.config == config && this.who == who && this.honest == honest && !rejected && !disturbed
    {
      this.config, this.who, this.paged, this.honest := config, who, paged, honest;
      rejected, disturbed := false, false;
      moments, flaws, visits, history := [Now(config)], [], [], [];
    }

    /** Another command changes the store. */
    method Edit(op: Op, now: nat)
      requires Valid() && !op.Page?
      modifies this`moments, this`flaws, this`disturbed,
               config, config.workspace, config.workTokens, config.device, config.patch
      ensures Valid() && (old(disturbed) ==> disturbed) && |moments| == |old(moments)| + 1
    {
      hide Told, Moves, Config.Sound, Config.Cached, Inventory, Visited, Undisturbed;
      ghost var flaw := Step(config, op, now);
      ghost var m := Now(config);
      MoreFlaws(moments, flaws, m, flaw, who);
      MoreMoments(moments, who, paged, visits, history, m);
      disturbed := disturbed || (who != "" && Moves(moments[|flaws|], flaw, who));
      moments, flaws := moments + [m], flaws + [flaw];
    }

    /** One request for at most PAGE patches from offset on. */
    method Request(offset: nat) returns (r: Reply)
      requires Valid()
      modifies this`moments, this`flaws, this`disturbed, this`visits, this`history, this`rejected,
               config, config.workspace, config.workTokens, config.device, config.patch
      ensures Valid() && old(history) <= history && (old(rejected) ==> rejected) && (old(disturbed) ==> disturbed)
      ensures r == Rejected ==> rejected
      ensures |old(moments)| <= |moments|
      ensures honest && r != Rejected ==>
                && |history| == |old(history)| + 1 && r == Answer(history[|history| - 1], offset)
                && |visits| == |history| && visits[|history| - 1].at >= |old(moments)| - 1
      ensures old(visits) <= visits
    {
      hide Config.Sound, Config.Cached, Inventory, Told, Moves, Undisturbed, Visited;
      if honest {
        var edits: seq<(Op, nat)> := *;
        Edits(edits);
        r := Serve(offset);
      } else {
        r := *;
      }
      if r == Rejected { rejected := true; }
    }

    method Edits(edits: seq<(Op, nat)>)
      requires Valid()
      modifies this`moments, this`flaws, this`disturbed,
               config, config.workspace, config.workTokens, config.device, config.patch
      ensures Valid() && (old(disturbed) ==> disturbed) && |old(moments)| <= |moments|
    {
      hide Valid;
      for i := 0 to |edits|
        invariant Valid() && (old(disturbed) ==> disturbed) && |old(moments)| <= |moments|
      {
        if !edits[i].0.Page? { Edit(edits[i].0, edits[i].1); }
      }
    }

    /** The reply to a page request, when it is not lost. */
    method Serve(offset: nat) returns (r: Reply)
      requires Valid()
      modifies this`visits, this`history, config.workspace
      ensures Valid() && old(history) <= history && old(visits) <= visits
      ensures r != Rejected ==>
                && |history| == |old(history)| + 1 && r == Answer(history[|history| - 1], offset)
                && |visits| == |history| && visits[|history| - 1].at == |moments| - 1
    {
      hide Config.Sound, Config.Cached, Inventory, Told, Moves, Undisturbed, Visited;
      SameLength(moments, who, paged, visits, history);
      var lost: bool := *;
      if lost || (paged && offset > CATALOG_MAX) { return Rejected; }
      var result, total, page;
      ghost var all;
      result, total, page, all := SendPage(config, who, if paged then offset else 0, if paged then PAGE else CATALOG_MAX);
      if !result.Ok? { return Rejected; }
      MoreVisits(moments, who, paged, visits, history, all);
      var name := if who == "" then config.profile else who;
      r := if paged
           then Reply.Page(true, Int(offset), Int(config.catalogRevision), Other(name), Int(total),
                     Int(if offset + PAGE < total then offset + PAGE else -1), ItemsOf(page))
           else Reply.Page(true, Missing, Missing, Other(name), Missing, Missing, ItemsOf(page));
      Cut(all, page, offset);
      history, visits := history + [PedalOf(Now(config), who, paged, all)], visits + [Visit(|moments| - 1, all)];
    }

    lemma Cut(all: seq<Entry>, page: seq<Entry>, offset: nat)
      requires |all| <= CATALOG_MAX
      requires page == Slice(all, if paged then offset else 0, if paged then PAGE else CATALOG_MAX)
      ensures !paged ==> page == all
      ensures paged ==> ItemsOf(page) == Answer(Pedal(true, "", 0, ItemsOf(all)), offset).patches
    {
    }

    /** Two answers of the same revision came from the same good catalog. */
    lemma SameCatalog(i: nat, j: nat)
      requires Valid() && !disturbed && i <= j < |history| && history[i].revision == history[j].revision
      ensures history[i].catalog == history[j].catalog && GoodCatalog(history[j].catalog)
      ensures history[i].paged == history[j].paged == paged
    {
      var v, w := visits[i], visits[j];
      assert Inventory(moments[v.at], who, v.all) && Inventory(moments[w.at], who, w.all);
      GoodItems(moments[w.at], who, w.all);
      hide Inventory, Told, Moves, Undisturbed, Config.Sound;
      if who != "" { Later(moments, flaws, v.at, w.at, who); }
      CatalogsAgree(moments, flaws, v.at, w.at, who, v.all, w.all);
    }
  }

  datatype Result = Failed | Whole(reply: Reply) | Complete(profile: Field, revision: Field, patches: seq<Item>)

  /** All pages of one attempt came from pedals that agree with the first one. */
  ghost predicate Consistent(link: Link, first: nat, revision: Field, profile: Field, total: Field, patches: seq<Item>)
    reads link
  {
    && first < |link.history|
    && var p := link.history[first];
       p.paged && revision == Int(p.revision) && profile == Other(p.profile) && total == Int(|p.catalog|)
       && |patches| <= |p.catalog| && patches == p.catalog[..|patches|]
  }

  /** What an inventory promises whatever the replies were. */
  predicate Sound(patches: seq<Item>) {
    |patches| <= CATALOG_MAX && Distinct(patches) && forall i | 0 <= i < |patches| :: LegalItem(patches[i])
  }

  /** The checks of one page, field by field. */
  predicate PageOk(r: Reply, offset: nat, revision: Field, total: Field)
    requires r.Page?
  {
    && r.offset == Int(offset) && total.Int? && 0 <= total.n <= CATALOG_MAX && revision.Int?
    && |r.patches| <= PAGE && offset + |r.patches| <= total.n
  }

  /** The loop over a page's items. */
  method Take(items: seq<Item>, patches: seq<Item>) returns (ok: bool, all: seq<Item>)
    requires Sound(patches) && |patches| + |items| <= CATALOG_MAX
    ensures ok <==> Sound(patches + items)
    ensures ok ==> all == patches + items
  {
    all := patches;
    for i := 0 to |items|
      invariant all == patches + items[..i] && Sound(all)
    {
      var item := items[i];
      Extend(patches, items, i);
      if !LegalItem(item) || exists j :: 0 <= j < |all| && all[j].bank == item.bank && all[j].slot == item.slot {
        return false, all;
      }
      all := all + [item];
    }
    assert items[..|items|] == items;
    ok := true;
  }

  /** An item that cannot follow the ones before spoils the whole. */
  lemma Extend(patches: seq<Item>, items: seq<Item>, i: nat)
    requires i < |items| && Sound(patches + items[..i])
    ensures var all := patches + items[..i];
            all + [items[i]] == patches + items[..i + 1]
            && (Sound(patches + items) ==>
                  LegalItem(items[i]) && forall j | 0 <= j < |all| :: all[j].bank != items[i].bank || all[j].slot != items[i].slot)
  {
    var all, whole := patches + items[..i], patches + items;
    assert whole[|patches| + i] == items[i];
    assert forall j | 0 <= j < |all| :: all[j] == whole[j];
  }

  /** The pedal did not change since the n-th request, and sends pages. */
  predicate Stable(history: seq<Pedal>, n: nat) {
    n <= |history| && forall i | n <= i < |history| :: history[i].paged && history[i] == history[n]
  }

  /** What one attempt ends with: an answer, or a page that did not fit the first. */
  datatype Attempt = Over(inventory: Result) | Moved

  /** The link can be relied on: it is honest, and no flaw of the store went
      unannounced. */
  ghost predicate Reliable(link: Link)
    reads link
  {
    link.honest && !link.disturbed
  }

  /** The inventory is the complete catalog the pedal had at one of the moments from
      the n-th on, with that moment's profile and revision. */
  ghost predicate IsSnapshot(link: Link, n: nat, profile: Field, revision: Field, patches: seq<Item>)
    reads link
  {
    exists i, all :: && n <= i < |link.moments| && Inventory(link.moments[i], link.who, all) && patches == ItemsOf(all)
                     && revision == Int(link.moments[i].revision)
                     && profile == Other(if link.who == "" then link.moments[i].profile else link.who)
  }

  lemma Snapshot(link: Link, n: nat, first: nat, revision: Field, profile: Field, total: Field, patches: seq<Item>)
    requires link.Valid() && Consistent(link, first, revision, profile, total, patches)
    requires patches == link.history[first].catalog
    requires |link.visits| == |link.history| && n <= link.visits[first].at
    ensures IsSnapshot(link, n, profile, revision, patches)
  {
    hide Inventory, Told, Moves, Undisturbed, Config.Sound;
    var v := link.visits[first];
    assert Inventory(link.moments[v.at], link.who, v.all);
  }

  /** A page of an honest pedal continues what was collected. */
  lemma PageContinues(p: Pedal, offset: nat, patches: seq<Item>)
    requires p.paged && GoodCatalog(p.catalog) && offset == |patches| <= |p.catalog| && patches == p.catalog[..offset]
    ensures var r := Answer(p, offset);
            && r.Page? && patches + r.patches == p.catalog[..offset + |r.patches|]
            && PageOk(r, offset, Int(p.revision), Int(|p.catalog|))
            && Sound(patches + r.patches)
            && (offset + PAGE < |p.catalog| ==> r.next == Int(offset + PAGE) && |r.patches| == PAGE)
            && (offset + PAGE >= |p.catalog| ==> r.next == Int(-1) && offset + |r.patches| == |p.catalog|)
  {
  }

  /** One turn of the inner loop, after the reply: the items it adds, or its verdict. */
  method Turn(r: Reply, offset: nat, patches: seq<Item>, revision: Field, profile: Field, total: Field)
    returns (more: bool, inventory: Result, all: seq<Item>)
    requires r.Page? && Sound(patches) && offset == |patches|
    ensures more ==> all == patches + r.patches && Sound(all) && total.Int? && offset < |all| < total.n <= CATALOG_MAX
    ensures !more ==> inventory.Failed? || inventory.Complete?
    ensures inventory.Complete? && !more ==>
              && inventory == Complete(profile, revision, patches + r.patches) && Sound(inventory.patches)
              && total == Int(|inventory.patches|)
    ensures PageOk(r, offset, revision, total) && Sound(patches + r.patches) ==>
              && (r.next == Int(-1) && total == Int(offset + |r.patches|) ==> !more && inventory.Complete?)
              && (r.next == Int(offset + |r.patches|) && 0 < |r.patches| && offset + |r.patches| < total.n ==> more)
  {
    hide Sound;
    all := patches;
    if !PageOk(r, offset, revision, total) { return false, Failed, all; }
    var ok;
    ok, all := Take(r.patches, patches);
    if !ok { return false, Failed, all; }
    if r.next == Int(-1) && Int(|all|) == total { return false, Complete(profile, revision, all), all; }
    if r.next != Int(|all|) || |all| <= offset || |all| >= total.n { return false, Failed, all; }
    return true, Failed, all;
  }

  /** One attempt: all pages, or until one does not fit the first. */
  method Try(link: Link, ghost n: nat) returns (a: Attempt)
    requires link.Valid() && n <= |link.history|
    modifies link, link.config, link.config.workspace, link.config.workTokens, link.config.device, link.config.patch
    ensures link.Valid() && old(link.history) <= link.history && (old(link.rejected) ==> link.rejected)
    ensures (old(link.disturbed) ==> link.disturbed) && |old(link.moments)| <= |link.moments|
    ensures a.Over? && a.inventory.Complete? ==> Sound(a.inventory.patches)
    ensures a.Over? && a.inventory.Complete? && Reliable(link) ==>
              IsSnapshot(link, |old(link.moments)| - 1, a.inventory.profile, a.inventory.revision, a.inventory.patches)
    ensures Reliable(link) && link.paged && !link.rejected && Stable(link.history, n) ==> a.Over? && a.inventory.Complete?
  {
    hide Sound, GoodCatalog, PageOk, Distinct, Link.Valid, IsSnapshot, Answer;
    var patches: seq<Item> := [];
    var revision, profile, total := Missing, Missing, Missing;
    ghost var first := |link.history|;
    ghost var from := |link.moments| - 1;
    NothingTaken();
    SomeMoment(link);
    while true
      invariant link.Valid() && old(link.history) <= link.history && (old(link.rejected) ==> link.rejected)
      invariant (old(link.disturbed) ==> link.disturbed) && |old(link.moments)| <= |link.moments|
      invariant Sound(patches) && n <= first && 0 <= from
      invariant Reliable(link) ==> if patches == [] then first == |link.history|
                                   else && Consistent(link, first, revision, profile, total, patches)
                                        && |link.visits| == |link.history| && from <= link.visits[first].at
      invariant patches != [] ==> |patches| < CATALOG_MAX
      decreases CATALOG_MAX - |patches|
    {
      var offset := |patches|;
      ghost var visits := link.visits;
      var r := link.Request(offset);
      if r == Rejected || !r.listing { return Over(Failed); }
      if r.offset == Missing {
        if link.honest { OldFirmware(link, offset); }
        if offset != 0 { return Over(Failed); }
        return Over(Whole(r));
      }
      if offset == 0 {
        revision, profile, total := r.revision, r.profile, r.total;
      } else if revision != r.revision || profile != r.profile || total != r.total {
        if Reliable(link) { Differs(link, first, revision, profile, total, patches, r); }
        return Moved;
      }
      if Reliable(link) { Continues(link, first, revision, profile, total, patches, r); }
      var more, inventory, all := Turn(r, offset, patches, revision, profile, total);
      if !more {
        if Reliable(link) && inventory.Complete? {
          Snapshot(link, from, first, revision, profile, total, inventory.patches);
        }
        return Over(inventory);
      }
      patches := all;
    }
  }

  lemma NothingTaken()
    ensures Sound([])
  {
  }

  lemma SomeMoment(link: Link)
    requires link.Valid()
    ensures |link.moments| > 0
  {
  }

  /** Only older firmware answers without an offset. */
  lemma OldFirmware(link: Link, offset: nat)
    requires link.Valid() && |link.history| > 0 && Answer(link.history[|link.history| - 1], offset).offset == Missing
    ensures !link.paged
  {
    hide Inventory, Told, Moves, Undisturbed, Config.Sound;
  }

  /** A reply that does not fit the first page comes from a pedal that has changed. */
  lemma Differs(link: Link, first: nat, revision: Field, profile: Field, total: Field, patches: seq<Item>, r: Reply)
    requires |link.history| > 0 && Consistent(link, first, revision, profile, total, patches)
    requires r == Answer(link.history[|link.history| - 1], |patches|) && r.Page? && r.offset != Missing
    requires revision != r.revision || profile != r.profile || total != r.total
    ensures link.history[first] != link.history[|link.history| - 1]
  {
  }

  /** A reliable reply that fits the first page comes from the same catalog. */
  lemma Continues(link: Link, first: nat, revision: Field, profile: Field, total: Field, patches: seq<Item>, r: Reply)
    requires link.Valid() && Reliable(link) && |link.history| > 0
    requires var last := |link.history| - 1;
             r == Answer(link.history[last], |patches|) && r.Page? && r.offset != Missing
             && (patches == [] ==> first == last)
             && (patches != [] ==> first < last && Consistent(link, first, revision, profile, total, patches))
    requires revision == r.revision && profile == r.profile && total == r.total
    ensures Consistent(link, first, revision, profile, total, patches + r.patches)
    ensures PageOk(r, |patches|, revision, total) && Sound(patches + r.patches)
    ensures link.history[first].paged && link.history[first].catalog == link.history[|link.history| - 1].catalog
    ensures total == Int(|patches| + |r.patches|) ==> r.next == Int(-1)
    ensures total != Int(|patches| + |r.patches|) ==>
              r.next == Int(|patches| + |r.patches|) && 0 < |r.patches| && total.Int? && |patches| + |r.patches| < total.n
    ensures total == Int(|patches| + |r.patches|) ==> patches + r.patches == link.history[first].catalog
  {
    hide GoodCatalog, Sound, Link.Valid;
    link.SameCatalog(first, |link.history| - 1);
    PageContinues(link.history[|link.history| - 1], |patches|, patches);
  }

  lemma StableBefore(before: seq<Pedal>, after: seq<Pedal>, n: nat)
    requires before <= after && n <= |before|
    ensures Stable(after, n) ==> Stable(before, n)
  {
    assert forall i | 0 <= i < |before| :: before[i] == after[i];
  }

  lemma Earlier(link: Link, n: nat, m: nat, profile: Field, revision: Field, patches: seq<Item>)
    requires IsSnapshot(link, m, profile, revision, patches) && n <= m
    ensures IsSnapshot(link, n, profile, revision, patches)
  {
    hide Inventory;
  }

  /** collectPatchCatalog. An inventory it completes is the complete catalog of the
      pedal's store at one single moment while it read, though any operations changed
      the store between any two pages: of the active profile always, of a named one
      unless a flaw of the store moved it unannounced. While the pedal stays as it is,
      the first attempt completes. Whatever the replies are, it ends, and what it
      returns lists each legal coordinate once. */
  method Collect(link: Link) returns (inventory: Result)
    requires link.Valid()
    modifies link, link.config, link.config.workspace, link.config.workTokens, link.config.device, link.config.patch
    ensures link.Valid()
    ensures inventory.Complete? ==> Sound(inventory.patches)
    ensures inventory.Complete? && Reliable(link) ==>
              IsSnapshot(link, |old(link.moments)| - 1, inventory.profile, inventory.revision, inventory.patches)
    ensures Reliable(link) && link.paged && !link.rejected && Stable(link.history, |old(link.history)|) ==> inventory.Complete?
  {
    hide Sound, Stable, IsSnapshot, Link.Valid;
    ghost var n, from := |link.history|, |link.moments| - 1;
    SomeMoment(link);
    for attempt := 0 to 3
      invariant link.Valid() && old(link.history) <= link.history && |old(link.moments)| <= |link.moments|
      invariant attempt > 0 && Reliable(link) && link.paged && !link.rejected ==> !Stable(link.history, n)
    {
      ghost var before := link.history;
      ghost var m := |link.moments| - 1;
      var a := Try(link, n);
      StableBefore(before, link.history, n);
      if a.Over? {
        if Reliable(link) && a.inventory.Complete? {
          Earlier(link, from, m, a.inventory.profile, a.inventory.revision, a.inventory.patches);
        }
        return a.inventory;
      }
    }
    inventory := Failed;
  }
}
