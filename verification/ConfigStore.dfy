/** The configuration of one running pedal: the active profile's device document
    and current patch in memory, its drafts, and the files underneath. Every
    store call may fail. Source: firmware/src/config.c. */
module ConfigStore {
  import opened ConfigFiles
  import opened PatchCatalog
  import JsonGrammar
  import JsonParser
  import JsonReader
  import JsonTheorems
  import JsonWriter
  import PatchBinding
  import PatchRewrite

  datatype StoreResult = Ok | NotFound | Unavailable | Invalid | Limit | IoError

  /** A document in a text buffer: its length and its tokens, none when it did not parse. */
  datatype Doc = Doc(length: nat, tokens: seq<JsonParser.Token>)

  function TokensOf(text: string, capacity: nat): seq<JsonParser.Token> {
    match JsonParser.Parse(text, capacity)
    case Ok(tokens) => tokens
    case _ => []
  }

  datatype Snapshot = Snapshot(files: Files, profile: string, kind: string, device: string, patch: string,
                               deviceDoc: Doc, patchDoc: Doc, dirty: seq<Dirty>, at: Key, hasPatch: bool,
                               revision: nat, patchRevision: nat, catalogRevision: nat, lastError: StoreResult)

  /** object(): the verdict on a text that must be one JSON object. */
  function Verdict(text: string, capacity: nat): StoreResult {
    match JsonParser.Parse(text, capacity)
    case Limit => Limit
    case Invalid => Invalid
    case Ok(tokens) => if tokens != [] && tokens[0].kind == JsonParser.ObjectToken then Ok else Invalid
  }

  predicate ParsedAs(text: string, doc: Doc, capacity: nat) {
    doc == Doc(|text|, TokensOf(text, capacity))
  }

  lemma VerdictTokens(text: string, capacity: nat)
    ensures Verdict(text, capacity).Ok? ==> TokensOf(text, capacity) != []
    ensures TokensOf("", capacity) == []
  {
  }

  /** The string member key of a JSON object text, if it decodes to fewer than
      capacity bytes. */
  function StringMember(o: JsonGrammar.Value, key: string, capacity: nat): Option<string> {
    if !o.Object? then None else
    match JsonReader.Lookup(o.members, key)
    case Some(Str(body)) =>
      (match JsonReader.Decode(body)
       case Text(t) => if |t| < capacity then Some(t) else None
       case Undecodable => None)
    case _ => None
  }

  /** text is a JSON text whose member key is the string value; None: no such member. */
  ghost predicate Says(text: string, key: string, capacity: nat, value: Option<string>) {
    exists d: JsonGrammar.Document :: JsonTheorems.DocumentOf(d, text) && StringMember(d.value, key, capacity) == value
  }

  /** bosun_json_string of bosun_json_get on an object text. */
  method ReadString(text: string, tokenCapacity: nat, key: string, capacity: nat) returns (value: Option<string>)
    requires Verdict(text, tokenCapacity).Ok?
    ensures Says(text, key, capacity, value)
  {
    hide JsonParser.Parse, JsonReader.Encodes, JsonReader.Lookup, JsonReader.Decode, JsonGrammar.Render, JsonGrammar.Valid,
         JsonReader.Body, JsonTheorems.DocumentOf, JsonTheorems.Fits, JsonGrammar.IsBody;
    var tokens := JsonParser.Parse(text, tokenCapacity).tokens;
    ghost var d := JsonReader.RootEncodes(text, tokenCapacity);
    JsonReader.HeadToken(text, tokens, 0, d.value);
    value := ReadStringAt(text, tokens, key, capacity, d.value);
  }

  method ReadStringAt(text: string, tokens: seq<JsonParser.Token>, key: string, capacity: nat, ghost o: JsonGrammar.Value)
    returns (value: Option<string>)
    requires 0 < |tokens| && JsonReader.Encodes(text, tokens, 0, o)
    ensures value == StringMember(o, key, capacity)
  {
    hide JsonReader.Encodes, JsonReader.Lookup, JsonReader.Decode, JsonGrammar.Render, JsonGrammar.Valid, JsonReader.Body,
         JsonGrammar.IsBody;
    var found := JsonReader.Get(text, tokens, 0, key, o);
    if found < 0 { return None; }
    ghost var v := JsonReader.Lookup(o.members, key).value;
    JsonReader.HeadToken(text, tokens, found, v);
    if tokens[found].kind != JsonParser.StringToken { return None; }
    JsonReader.BodyOf(text, tokens, found, v);
    JsonReader.KeyIsBody(text, tokens, found, v.body);
    var ok, out := JsonReader.String(JsonReader.Body(text, tokens[found]), capacity);
    value := if ok then Some(out) else None;
  }

  /** bosun_config_profile_id. */
  predicate ProfileId(id: string) {
    && 0 < |id| < PROFILE_ID_BYTES
    && (forall i | 0 <= i < |id| :: 'a' <= id[i] <= 'z' || 'A' <= id[i] <= 'Z' || '0' <= id[i] <= '9'
                                    || id[i] == '_' || id[i] == '-' || id[i] as int >= 128)
    && JsonParser.Parse("\"" + id + "\"", 1).Ok?
  }

  /** What /config/active_profile.json says about the profile. */
  function PointerText(id: string): string {
    "{\"id\":" + JsonGrammar.Quoted(JsonWriter.Escape(id)) + "}"
  }

  const PROFILE_ID_BYTES: nat := 33
  const KIND_BYTES: nat := 40

  const NAME_MAX: nat := 64

  /** b is the tree of a binding text for the switch of this name. */
  ghost predicate BindingFor(b: JsonGrammar.Document, binding: string, name: string) {
    JsonTheorems.DocumentOf(b, binding) && PatchBinding.IsFor(b.value, name) && name != ""
  }

  ghost predicate Names(binding: string, name: string) {
    exists b: JsonGrammar.Document :: BindingFor(b, binding, name)
  }

  /** now is the text of the patch was with the binding put in its place. */
  ghost predicate Bound(was: string, binding: string, now: string) {
    exists d: JsonGrammar.Document, b: JsonGrammar.Document, name: string ::
      && JsonTheorems.DocumentOf(d, was) && d.value.Object? && PatchRewrite.HasBindings(d.value.members)
      && BindingFor(b, binding, name)
      && now == JsonGrammar.Render(PatchBinding.Rewritten(d.value.members, name, b))
  }

  /** One line of the inventory. */
  datatype Entry = Entry(key: Key, text: string, draft: bool)

  function KeysOf(entries: seq<Entry>): seq<Key> {
    seq(|entries|, i requires 0 <= i < |entries| => entries[i].key)
  }

  function Line(files: Files, profile: string, dirty: seq<Dirty>, who: string, k: Key): Entry {
    var text := if who == "" then Visible(files, profile, dirty, k) else SavedAt(files, who, k);
    Entry(k, if text.Some? then text.value else "", who == "" && IsDirty(dirty, k))
  }

  /** memcpy into the start of a buffer. */
  method Copy(target: array<char>, source: seq<char>)
    requires |source| <= target.Length
    modifies target
    ensures target[..|source|] == source
  {
    forall i | 0 <= i < |source| {
      target[i] := source[i];
    }
  }

  class Config {
    // the files
    var files: Files

    // the active profile, "" for none
    var profile: string
    var kind: string
    const device: array<char>
    const patch: array<char>
    var deviceDoc: Doc
    var patchDoc: Doc
    var dirty: seq<Dirty>
    var at: Key
    var hasPatch: bool
    var revision: nat
    var patchRevision: nat
    var catalogRevision: nat
    var lastError: StoreResult

    // shared scratch memory
    const workspace: array<char>
    const workTokens: array<char>

    /** What a profile without a device document runs with. */
    const defaultDevice: string

    function DeviceText(): string
      requires deviceDoc.length <= device.Length
      reads this`deviceDoc, device
    {
      device[..deviceDoc.length]
    }

    function PatchText(): string
      requires patchDoc.length <= patch.Length
      reads this`patchDoc, patch
    {
      patch[..patchDoc.length]
    }

    predicate Buffers() {
      && device.Length == DEVICE_BYTES + 1 && patch.Length == PATCH_BYTES + 1
      && workspace.Length == PATCH_BYTES + 1 && workTokens.Length >= DEVICE_BYTES + 1
      && device != patch && device != workspace && device != workTokens
      && patch != workspace && patch != workTokens && workspace != workTokens
      && |defaultDevice| <= DEVICE_BYTES && Verdict(defaultDevice, DEVICE_TOKENS).Ok?
    }

    /** Both documents in memory are what their texts parse to. */
    predicate Documents()
      reads this`deviceDoc, this`patchDoc, device, patch
    {
      && Buffers()
      && deviceDoc.length <= DEVICE_BYTES && ParsedAs(DeviceText(), deviceDoc, DEVICE_TOKENS)
      && device[deviceDoc.length] == '\0' && deviceDoc.tokens != []
      && patchDoc.length <= PATCH_BYTES && ParsedAs(PatchText(), patchDoc, PATCH_TOKENS)
      && patch[patchDoc.length] == '\0' && (patchDoc.tokens == [] ==> patchDoc.length == 0)
    }

    function VisiblePatch(k: Key): Option<string>
      reads this`files, this`profile, this`dirty
    {
      Visible(files, profile, dirty, k)
    }

    ghost predicate Drafts()
      reads this`files, this`profile, this`dirty
    {
      if profile == "" then dirty == [] else DirtyMatches(files, profile, dirty)
    }

    /** The patch in memory is the one shown at the current coordinates. */
    predicate Cached()
      reads this`files, this`profile, this`dirty, this`patchDoc, this`at, this`hasPatch, patch
    {
      hasPatch ==> patchDoc.length <= patch.Length && profile != "" && VisiblePatch(at) == Some(PatchText())
    }

    /** What every operation keeps. */
    ghost predicate Sound()
      reads this, device, patch
    {
      Documents() && Drafts()
    }

    ghost predicate Valid()
      reads this, device, patch
    {
      Sound() && Cached()
    }

    // ----- the store

    /** bosun_store_read; a file longer than the capacity is an error. */
    method Read(path: Path, capacity: nat) returns (r: StoreResult, text: string)
      ensures r.Ok? ==> FileAt(files, path) == Some(text) && |text| <= capacity
      ensures r.NotFound? ==> path !in files
    {
      text := "";
      var failure: StoreResult := *;
      if !failure.Ok? && !failure.NotFound? { return failure, ""; }
      if path !in files { return NotFound, ""; }
      if |files[path]| > capacity { return Limit, ""; }
      return Ok, files[path];
    }

    /** bosun_store_write_atomic: all or nothing. */
    method Write(path: Path, text: string) returns (r: StoreResult)
      modifies this`files
      ensures files == if r.Ok? then old(files)[path := text] else old(files)
      ensures !r.NotFound?
    {
      r := *;
      if r.NotFound? { r := IoError; }
      if r.Ok? { files := files[path := text]; }
    }

    /** bosun_store_remove. */
    method Remove(path: Path) returns (r: StoreResult)
      modifies this`files
      ensures r.Ok? ==> files == old(files) - {path}
      ensures !r.Ok? ==> files == old(files)
      ensures r.NotFound? ==> path !in files
    {
      if path !in files { return NotFound; }
      r := *;
      if r.NotFound? { r := IoError; }
      if r.Ok? { files := files - {path}; }
    }

    /** bosun_config_profile_exists: the manifest, which is written last, can be read. */
    method ProfileExists(id: string) returns (ok: bool)
      ensures ok ==> id != "" && InProfile(id, Manifest) in files
    {
      if id == "" || InProfile(id, Manifest) !in files { return false; }
      ok := *;
    }

    // ----- object and read_object, into the two live buffers and the workspace

    /** Fill a buffer with a text and its closing NUL. */
    method Fill(buffer: array<char>, text: string)
      requires |text| < buffer.Length
      modifies buffer
      ensures buffer[..|text|] == text && buffer[|text|] == '\0'
    {
      Copy(buffer, text + ['\0']);
      assert buffer[..|text| + 1][..|text|] == text;
      assert buffer[..|text| + 1][|text|] == '\0';
    }

    /** read_object into the workspace. */
    method ReadObject(path: Path, capacity: nat) returns (r: StoreResult, text: string)
      requires workspace.Length > 0
      modifies workspace
      ensures r.Ok? ==> && FileAt(files, path) == Some(text) && |text| < workspace.Length
                        && workspace[..|text|] == text && Verdict(text, capacity).Ok?
      ensures r.NotFound? ==> path !in files
    {
      r, text := Read(path, workspace.Length - 1);
      if !r.Ok? { return; }
      Fill(workspace, text);
      r := Verdict(text, capacity);
    }

    /** read_object into the device buffer. */
    method ReadDevice(path: Path) returns (r: StoreResult)
      requires Buffers()
      modifies device, this`deviceDoc
      ensures r.Ok? ==> && deviceDoc.length <= DEVICE_BYTES && FileAt(files, path) == Some(DeviceText())
                        && ParsedAs(DeviceText(), deviceDoc, DEVICE_TOKENS)
                        && device[deviceDoc.length] == '\0' && deviceDoc.tokens != []
      ensures r.NotFound? ==> path !in files
    {
      hide JsonParser.Parse;
      var text;
      r, text := Read(path, device.Length - 1);
      if !r.Ok? { return; }
      Fill(device, text);
      deviceDoc := Doc(|text|, TokensOf(text, DEVICE_TOKENS));
      r := Verdict(text, DEVICE_TOKENS);
      VerdictTokens(text, DEVICE_TOKENS);
    }

    /** read_object into the patch buffer. */
    method ReadPatchInto(path: Path) returns (r: StoreResult)
      requires Buffers()
      modifies patch, this`patchDoc
      ensures r.Ok? ==> && patchDoc.length <= PATCH_BYTES && FileAt(files, path) == Some(PatchText())
                        && ParsedAs(PatchText(), patchDoc, PATCH_TOKENS)
                        && patch[patchDoc.length] == '\0' && patchDoc.tokens != []
      ensures r.NotFound? ==> path !in files
    {
      hide JsonParser.Parse;
      var text;
      r, text := Read(path, patch.Length - 1);
      if !r.Ok? { return; }
      Fill(patch, text);
      patchDoc := Doc(|text|, TokensOf(text, PATCH_TOKENS));
      r := Verdict(text, PATCH_TOKENS);
      VerdictTokens(text, PATCH_TOKENS);
    }

    // ----- activate

    /** Everything a caller or the store can see, scratch memory apart. */
    function Snap(): Snapshot
      requires deviceDoc.length <= device.Length && patchDoc.length <= patch.Length
      reads this, device, patch
    {
      Snapshot(files, profile, kind, DeviceText(), PatchText(), deviceDoc, patchDoc, dirty, at, hasPatch,
               revision, patchRevision, catalogRevision, lastError)
    }

    /** catalog(): the coordinates of the saved or the draft patches of a profile, in
        the order the directories list them. It uses the shared workspace. */
    method Catalog(id: string, drafts: bool, lastBank: nat, capacity: nat) returns (r: StoreResult, keys: seq<Key>)
      modifies workspace
      ensures r.Ok? ==> && |keys| <= capacity && (forall i, j | 0 <= i < j < |keys| :: keys[i] != keys[j])
                        && forall k: Key :: k in keys <==> Listed(id, drafts, lastBank, k)
      ensures !r.NotFound?
    {
      r := *;
      keys := [];
      if !r.Ok? {
        if r.NotFound? { r := IoError; }
        return;
      }
      var left := set p | p in files && p.InProfile? && p.profile == id
                          && (p.file.Draft? || p.file.Saved?) && Listed(id, drafts, lastBank, p.file.key)
                          && p.file == (if drafts then Draft(p.file.key) else Saved(p.file.key)) :: p.file.key;
      ghost var all := left;
      assert forall k: Key :: k in all <==> Listed(id, drafts, lastBank, k) by { ListedAll(id, drafts, lastBank, all); }
      while left != {}
        invariant left <= all && |keys| <= capacity
        invariant forall k :: k in keys <==> k in all && k !in left
        invariant forall i, j | 0 <= i < j < |keys| :: keys[i] != keys[j]
        decreases |left|
      {
        if |keys| == capacity { return Limit, []; }
        var k :| k in left;
        left := left - {k};
        keys := keys + [k];
      }
    }

    predicate Listed(id: string, drafts: bool, lastBank: nat, k: Key)
      reads this`files
    {
      Legal(k) && k.bank <= lastBank && InProfile(id, if drafts then Draft(k) else Saved(k)) in files
    }

    lemma ListedAll(id: string, drafts: bool, lastBank: nat, all: set<Key>)
      requires all == set p | p in files && p.InProfile? && p.profile == id
                          && (p.file.Draft? || p.file.Saved?) && Listed(id, drafts, lastBank, p.file.key)
                          && p.file == (if drafts then Draft(p.file.key) else Saved(p.file.key)) :: p.file.key
      ensures forall k: Key :: k in all <==> Listed(id, drafts, lastBank, k)
    {
      forall k: Key | Listed(id, drafts, lastBank, k) ensures k in all {
        var p := InProfile(id, if drafts then Draft(k) else Saved(k));
        assert p in files && p.file.key == k;
      }
    }

    /** The raw documents in memory, kept in the two workspaces. */
    method KeepOld()
      requires Documents()
      modifies workspace, workTokens
      ensures workTokens[..deviceDoc.length + 1] == device[..deviceDoc.length + 1]
      ensures workspace[..patchDoc.length + 1] == patch[..patchDoc.length + 1]
    {
      hide JsonParser.Parse, ParsedAs;
      Copy(workTokens, device[..deviceDoc.length + 1]);
      Copy(workspace, patch[..patchDoc.length + 1]);
    }

    /** The rollback label: both documents from the workspaces, parsed again. */
    method Rollback(d: nat, p: nat, valid: bool, ghost was: Snapshot)
      requires Buffers() && d <= DEVICE_BYTES && p <= PATCH_BYTES
      requires ParsedAs(was.device, was.deviceDoc, DEVICE_TOKENS) && was.deviceDoc.length == d
      requires ParsedAs(was.patch, was.patchDoc, PATCH_TOKENS) && was.patchDoc.length == p
      requires valid == (was.patchDoc.tokens != []) && (!valid ==> p == 0)
      requires workTokens[..d + 1] == was.device + ['\0'] && workspace[..p + 1] == was.patch + ['\0']
      modifies device, patch, this`deviceDoc, this`patchDoc
      ensures Documents() || was.deviceDoc.tokens == []
      ensures deviceDoc == was.deviceDoc && patchDoc == was.patchDoc
      ensures DeviceText() == was.device && PatchText() == was.patch
    {
      hide JsonParser.Parse;
      Copy(device, workTokens[..d + 1]);
      Copy(patch, workspace[..p + 1]);
      Ends(device, was.device);
      Ends(patch, was.patch);
      deviceDoc := Doc(d, TokensOf(device[..d], DEVICE_TOKENS));
      var length := if valid then p else 0;
      patchDoc := Doc(length, TokensOf(patch[..length], PATCH_TOKENS));
    }

    lemma Ends(buffer: array<char>, text: string)
      requires |text| + 1 <= buffer.Length && buffer[..|text| + 1] == text + ['\0']
      ensures buffer[..|text|] == text && buffer[|text|] == '\0'
    {
      assert buffer[..|text|] == buffer[..|text| + 1][..|text|];
      assert buffer[|text|] == buffer[..|text| + 1][|text|];
    }

    method DefaultDevice()
      requires Buffers()
      modifies device, this`deviceDoc
      ensures deviceDoc.length <= DEVICE_BYTES && DeviceText() == defaultDevice
      ensures ParsedAs(DeviceText(), deviceDoc, DEVICE_TOKENS) && device[deviceDoc.length] == '\0'
      ensures deviceDoc.tokens != []
    {
      hide JsonParser.Parse;
      VerdictTokens(defaultDevice, DEVICE_TOKENS);
      Fill(device, defaultDevice);
      deviceDoc := Doc(|defaultDevice|, TokensOf(defaultDevice, DEVICE_TOKENS));
    }

    /** c->patch[0] = 0 and the failing parse of an empty text. */
    method ClearPatch()
      requires Buffers()
      modifies patch, this`patchDoc
      ensures patchDoc == Doc(0, []) && PatchText() == "" && patch[0] == '\0'
      ensures ParsedAs(PatchText(), patchDoc, PATCH_TOKENS)
    {
      hide JsonParser.Parse;
      VerdictTokens("", PATCH_TOKENS);
      patch[0] := '\0';
      assert patch[..0] == "";
      patchDoc := Doc(0, TokensOf(patch[..0], PATCH_TOKENS));
    }

    /** The patch an activation shows: 1/1, its draft if there is one. */
    function First(id: string, draft: bool): Path {
      InProfile(id, if draft then Draft(Key(1, 1)) else Saved(Key(1, 1)))
    }

    /** The new profile's documents, read and checked in place. */
    method LoadDocuments(id: string, draft: bool) returns (r: StoreResult, has: bool)
      requires Buffers()
      modifies device, patch, this`deviceDoc, this`patchDoc
      ensures r.Ok? ==> Documents()
      ensures r.Ok? ==> DeviceText() == if InProfile(id, Device) in files then files[InProfile(id, Device)] else defaultDevice
      ensures r.Ok? ==> (has <==> First(id, draft) in files) && (!has ==> patchDoc == Doc(0, []) && PatchText() == "")
      ensures r.Ok? && has ==> PatchText() == files[First(id, draft)]
      ensures r.Ok? && draft ==> has
    {
      hide JsonParser.Parse, ParsedAs;
      has := false;
      r := ReadDevice(InProfile(id, Device));
      if r.NotFound? {
        DefaultDevice();
        r := Ok;
      }
      if !r.Ok? { return; }
      r := ReadPatchInto(First(id, draft));
      has := r.Ok?;
      if r.NotFound? && !draft {
        ClearPatch();
        r := Ok;
      }
    }

    /** Publish which profile is active. */
    method WritePointer(id: string) returns (r: StoreResult)
      modifies this`files
      ensures r.Ok? ==> files == old(files)[ActivePointer := PointerText(id)]
      ensures !r.Ok? ==> files == old(files)
    {
      hide JsonWriter.Escape;
      var pointer := new char[256];
      var w := new JsonWriter.Writer(pointer);
      assert w.Contents() == "";
      var ok := w.Write("{\"id\":");
      assert ok ==> w.Contents() == "{\"id\":";
      ok := w.Quote(id);
      assert ok ==> w.Contents() == "{\"id\":" + JsonGrammar.Quoted(JsonWriter.Escape(id));
      ok := w.Write("}");
      if w.failed { return Limit; }
      assert w.Contents() == PointerText(id);
      var text := w.data[..w.length];
      r := Write(ActivePointer, text);
    }

    /** The device, the patch and the pointer: everything that can fail once the
        old documents are set aside. */
    method Switch(id: string, draft: bool, persist: bool) returns (r: StoreResult, has: bool)
      requires Documents()
      modifies workspace, workTokens, device, patch, this`deviceDoc, this`patchDoc, this`files
      ensures Documents()
      ensures !r.Ok? ==> && files == old(files) && deviceDoc == old(deviceDoc) && patchDoc == old(patchDoc)
                         && DeviceText() == old(DeviceText()) && PatchText() == old(PatchText())
      ensures r.Ok? ==> files == if persist then old(files)[ActivePointer := PointerText(id)] else old(files)
      ensures r.Ok? ==> DeviceText() == if InProfile(id, Device) in old(files) then old(files)[InProfile(id, Device)]
                                        else defaultDevice
      ensures r.Ok? ==> (has <==> First(id, draft) in old(files)) && (!has ==> patchDoc == Doc(0, []))
      ensures r.Ok? && has ==> PatchText() == old(files)[First(id, draft)]
      ensures r.Ok? && draft ==> has
    {
      hide JsonParser.Parse, ParsedAs, JsonWriter.Escape, Documents;
      ghost var was := Start();
      var d, p, valid := deviceDoc.length, patchDoc.length, patchDoc.tokens != [];
      KeepOld();
      r, has := LoadDocuments(id, draft);
      if r.Ok? && persist { r := WritePointer(id); }
      if !r.Ok? { Rollback(d, p, valid, was); }
    }

    /** What the rollback will need. */
    ghost method Start() returns (was: Snapshot)
      requires Documents()
      ensures was == Snap()
      ensures was.deviceDoc.length <= DEVICE_BYTES && was.patchDoc.length <= PATCH_BYTES
      ensures ParsedAs(was.device, was.deviceDoc, DEVICE_TOKENS) && ParsedAs(was.patch, was.patchDoc, PATCH_TOKENS)
      ensures was.patchDoc.tokens == [] ==> was.patchDoc.length == 0
      ensures was.deviceDoc.tokens != []
      ensures device[..deviceDoc.length + 1] == was.device + ['\0'] && patch[..patchDoc.length + 1] == was.patch + ['\0']
      ensures Buffers()
    {
      hide ParsedAs;
      was := Snap();
      assert device[..deviceDoc.length + 1] == device[..deviceDoc.length] + [device[deviceDoc.length]];
      assert patch[..patchDoc.length + 1] == patch[..patchDoc.length] + [patch[patchDoc.length]];
    }

    /** The kind a manifest gives, or "unknown". */
    ghost predicate KindIs(id: string, k: string)
      reads this`files
    {
      && InProfile(id, Manifest) in files
      && (Says(files[InProfile(id, Manifest)], "kind", KIND_BYTES, Some(k))
          || (k == "unknown" && Says(files[InProfile(id, Manifest)], "kind", KIND_BYTES, None)))
    }

    /** The part of an activation that only reads: manifest and drafts. */
    method Inspect(id: string) returns (r: StoreResult, k: string, keys: seq<Key>)
      requires Buffers()
      modifies workspace
      ensures r.Ok? ==> KindIs(id, k)
      ensures r.Ok? ==> && |keys| <= DIRTY_PATCHES && (forall i, j | 0 <= i < j < |keys| :: keys[i] != keys[j])
                        && forall x: Key :: x in keys <==> Listed(id, true, BANK_MAX, x)
    {
      hide JsonParser.Parse, Verdict, Says, Listed;
      k, keys := "unknown", [];
      var text;
      r, text := ReadObject(InProfile(id, Manifest), PATCH_TOKENS);
      if !r.Ok? { return; }
      var named := ReadString(text, PATCH_TOKENS, "kind", KIND_BYTES);
      if named.Some? { k := named.value; }
      r, keys := Catalog(id, true, BANK_MAX, DIRTY_PATCHES);
    }

    /** bosun_config_activate. On any failure nothing changes at all; on success
        the new profile is shown whole, and with persist the file that names the
        active profile names this one. */
    method Activate(id: string, persist: bool) returns (r: StoreResult)
      requires Sound()
      modifies this, workspace, workTokens, device, patch
      ensures Sound() && (old(Cached()) ==> Cached()) && (r.Ok? ==> Cached())
      ensures !r.Ok? ==> Snap() == old(Snap())
      ensures r.Ok? ==> && profile == id && at == Key(1, 1) && lastError == Ok && ProfileId(id)
                        && revision == old(revision) + 1 && patchRevision == old(patchRevision) + 1
                        && catalogRevision == old(catalogRevision) + 1
                        && files == if persist then old(files)[ActivePointer := PointerText(id)] else old(files)
      ensures r.Ok? ==> DeviceText() == if InProfile(id, Device) in files then files[InProfile(id, Device)] else defaultDevice
      ensures r.Ok? ==> (hasPatch <==> VisiblePatch(at).Some?) && KindIs(id, kind)
    {
      hide JsonParser.Parse, ParsedAs, PointerText, Documents, Verdict, Says, ProfileId, DirtyMatches, Visible;
      if !ProfileId(id) { return Invalid; }
      Started(id);
      var k, keys;
      r, k, keys := Inspect(id);
      Apart();
      if !r.Ok? { return; }
      var draft := Key(1, 1) in keys;
      var has;
      r, has := Switch(id, draft, persist);
      if !r.Ok? { return; }
      ghost var shown := FileAt(files, First(id, draft));
      Adopt(id, k, keys, has);
      Publish();
      Adopted(keys, draft);
      Started(id);
    }

    lemma Started(id: string)
      requires Documents() && ProfileId(id)
      ensures Buffers() && id != ""
      ensures deviceDoc.length <= device.Length && patchDoc.length <= patch.Length
    {
    }

    /** The workspace is no part of what Documents and Snap read. */
    twostate lemma Apart()
      requires old(Documents()) && unchanged(this, device, patch)
      ensures Documents()
    {
    }

    method Publish()
      modifies this`revision, this`patchRevision, this`catalogRevision, this`lastError
      ensures revision == old(revision) + 1 && patchRevision == old(patchRevision) + 1
      ensures catalogRevision == old(catalogRevision) + 1 && lastError == Ok
    {
      revision, patchRevision, catalogRevision := revision + 1, patchRevision + 1, catalogRevision + 1;
      lastError := Ok;
    }

    method Adopt(id: string, k: string, keys: seq<Key>, has: bool)
      modifies this`profile, this`kind, this`dirty, this`hasPatch, this`at
      ensures profile == id && kind == k && at == Key(1, 1) && hasPatch == has
      ensures |dirty| == |keys| && forall i | 0 <= i < |keys| :: dirty[i] == Dirty(keys[i], 0)
    {
      profile, kind, hasPatch, at := id, k, has, Key(1, 1);
      dirty := seq(|keys|, i requires 0 <= i < |keys| => Dirty(keys[i], 0));
    }

    lemma Adopted(keys: seq<Key>, draft: bool)
      requires |keys| <= DIRTY_PATCHES && forall i, j | 0 <= i < j < |keys| :: keys[i] != keys[j]
      requires forall k: Key :: k in keys <==> Listed(profile, true, BANK_MAX, k)
      requires |dirty| == |keys| && forall i | 0 <= i < |keys| :: dirty[i] == Dirty(keys[i], 0)
      requires at == Key(1, 1) && draft == (at in keys)
      ensures DirtyMatches(files, profile, dirty)
      ensures IsDirty(dirty, at) == draft
      ensures VisiblePatch(at) == FileAt(files, First(profile, draft))
    {
      forall k: Key ensures IsDirty(dirty, k) <==> k in keys {
        if k in keys {
          var i :| 0 <= i < |keys| && keys[i] == k;
          assert dirty[i].key == k;
        }
      }
      hide IsDirty;
      forall i | 0 <= i < |dirty| ensures Legal(dirty[i].key) {
        assert keys[i] in keys;
      }
      forall k | Legal(k) ensures IsDirty(dirty, k) <==> InProfile(profile, Draft(k)) in files {
        assert k in keys <==> Listed(profile, true, BANK_MAX, k);
      }
    }

    // ----- the drafts

    /** bosun_config_read_patch; who is "" for the active profile, whose drafts hide
        its saved patches. */
    method ReadPatch(who: string, k: Key) returns (r: StoreResult, text: string)
      ensures r.Ok? && who == "" ==> VisiblePatch(k) == Some(text)
      ensures r.Ok? && who != "" ==> SavedAt(files, who, k) == Some(text)
      ensures r.Ok? ==> Legal(k) && |text| <= PATCH_BYTES && ProfileId(if who == "" then profile else who)
    {
      hide ProfileId, IsDirty;
      text := "";
      var id := if who == "" then profile else who;
      if !ProfileId(id) || !Legal(k) { return Invalid, ""; }
      r, text := Read(InProfile(id, if who == "" && IsDirty(dirty, k) then Draft(k) else Saved(k)), PATCH_BYTES);
    }

    /** Copy a checked text into the live patch. */
    method ShowPatch(text: string)
      requires Buffers() && |text| <= PATCH_BYTES && Verdict(text, PATCH_TOKENS).Ok?
      modifies patch, this`patchDoc
      ensures patchDoc.length <= PATCH_BYTES && PatchText() == text
      ensures ParsedAs(PatchText(), patchDoc, PATCH_TOKENS) && patch[patchDoc.length] == '\0' && patchDoc.tokens != []
    {
      hide JsonParser.Parse;
      VerdictTokens(text, PATCH_TOKENS);
      Fill(patch, text);
      patchDoc := Doc(|text|, TokensOf(text, PATCH_TOKENS));
    }

    /** bosun_config_select_checked: the validator may refuse the patch. */
    method SelectChecked(k: Key) returns (r: StoreResult)
      requires Sound()
      modifies workspace, patch, this`patchDoc, this`at, this`hasPatch, this`patchRevision, this`revision
      ensures Sound() && (old(Cached()) ==> Cached())
      ensures r.Ok? ==> at == k && hasPatch && VisiblePatch(k) == Some(PatchText()) && Cached()
      ensures !r.Ok? ==> Snap() == old(Snap())
    {
      hide JsonParser.Parse, ParsedAs, Verdict, DirtyMatches, Visible, ProfileId;
      var text;
      r, text := ReadPatch("", k);
      if !r.Ok? { return; }
      NotEmpty(profile);
      Fill(workspace, text);
      r := Verdict(text, PATCH_TOKENS);
      if !r.Ok? { return; }
      var valid: bool := *;
      if !valid { return Invalid; }
      ShowPatch(text);
      at, hasPatch, patchRevision, revision := k, true, patchRevision + 1, revision + 1;
    }

    lemma NotEmpty(id: string)
      requires ProfileId(id)
      ensures id != ""
    {
    }

    /** The active profile's part of bosun_config_put_patch, once the draft is written. */
    method Stage(k: Key, json: string, now: nat)
      requires Documents() && Legal(k) && |json| <= PATCH_BYTES && Verdict(json, PATCH_TOKENS).Ok? && profile != ""
      modifies patch, this`patchDoc, this`dirty, this`hasPatch, this`patchRevision, this`revision
      ensures Documents() && dirty == Staged(old(dirty), k, now)
      ensures at == k ==> hasPatch && PatchText() == json
      ensures at != k ==> hasPatch == old(hasPatch) && patchDoc == old(patchDoc) && patch[..] == old(patch[..])
    {
      hide JsonParser.Parse, ParsedAs, Verdict, Visible, IsDirty;
      var i := IndexOf(dirty, k);
      dirty := if i < |dirty| then dirty[i := Dirty(k, now)] else dirty + [Dirty(k, now)];
      if at == k {
        ShowPatch(json);
        hasPatch, patchRevision := true, patchRevision + 1;
      }
      revision := revision + 1;
    }

    /** The checks of bosun_config_put_patch, before anything is written. */
    method MayPut(id: string, active: bool, k: Key, json: string) returns (r: StoreResult)
      requires active ==> id == profile
      ensures r.Ok? ==> && |json| <= PATCH_BYTES && Legal(k) && ProfileId(id) && Verdict(json, PATCH_TOKENS).Ok?
                        && (active ==> |dirty| < DIRTY_PATCHES || IsDirty(dirty, k))
    {
      if |json| > PATCH_BYTES { return Limit; }
      var exists_ := ProfileExists(id);
      if !exists_ { return NotFound; }
      if !ProfileId(id) || !Legal(k) { return Invalid; }
      if active && !IsDirty(dirty, k) && |dirty| >= DIRTY_PATCHES { return Limit; }
      r := Verdict(json, PATCH_TOKENS);
    }

    /** bosun_config_put_patch for the active profile: the patch becomes a draft. */
    method PutDraft(k: Key, json: string, now: nat) returns (r: StoreResult)
      requires Sound()
      modifies this, patch
      ensures Sound() && (old(Cached()) ==> Cached()) && profile == old(profile)
      ensures !r.Ok? ==> Snap() == old(Snap())
      ensures r.Ok? ==> && files == old(files)[InProfile(profile, Draft(k)) := json]
                        && dirty == Staged(old(dirty), k, now) && IsDirty(dirty, k) && Legal(k)
                        && VisiblePatch(k) == Some(json) && (at == k ==> hasPatch && PatchText() == json)
                        && catalogRevision == old(catalogRevision) + 1
      ensures r.Ok? ==> forall other | other != k :: VisiblePatch(other) == old(Visible(files, profile, dirty, other))
    {
      hide JsonParser.Parse, ParsedAs, Verdict, ProfileId, DirtyMatches, Visible, IsDirty, Staged, Documents;
      Lengths();
      r := MayPut(profile, true, k, json);
      if !r.Ok? { return; }
      NotEmpty(profile);
      r := Write(InProfile(profile, Draft(k)), json);
      if !r.Ok? { return; }
      StagingShows(old(files), profile, dirty, k, json, now);
      StagedKeys(dirty, k, now, k);
      catalogRevision := catalogRevision + 1;
      Stage(k, json, now);
      Lengths();
    }

    lemma Lengths()
      requires Documents()
      ensures deviceDoc.length <= device.Length && patchDoc.length <= patch.Length && Buffers()
    {
    }

    /** bosun_config_put_patch with a profile named: its saved patch is written. When
        that is the active profile, the patch in memory is not looked at: it stays
        the shown one except for a new text at the current coordinates without a
        draft. */
    method PutSaved(who: string, k: Key, json: string) returns (r: StoreResult)
      requires Sound() && who != ""
      modifies this`files, this`catalogRevision
      ensures !r.Ok? ==> Snap() == old(Snap())
      ensures r.Ok? ==> && files == old(files)[InProfile(who, Saved(k)) := json] && Legal(k)
                        && catalogRevision == old(catalogRevision) + 1
      ensures Sound() && dirty == old(dirty)
      ensures old(Cached()) && (!r.Ok? || who != profile) ==> Cached()
      ensures r.Ok? && old(Cached()) ==> (Cached() <==> !(who == profile && k == at && hasPatch && !IsDirty(dirty, k) && json != PatchText()))
    {
      hide JsonParser.Parse, ParsedAs, Verdict, ProfileId, IsDirty, Documents;
      Lengths();
      r := MayPut(who, false, k, json);
      if !r.Ok? { return; }
      r := Write(InProfile(who, Saved(k)), json);
      if !r.Ok? { return; }
      catalogRevision := catalogRevision + 1;
    }

    /** Steps of bosun_config_save before the draft goes away, for a save: the draft
        becomes the saved patch. */
    method CopyDraft(k: Key) returns (r: StoreResult)
      requires Buffers() && DirtyMatches(files, profile, dirty) && IsDirty(dirty, k)
      modifies workspace, this`files
      ensures DirtyMatches(files, profile, dirty)
      ensures !r.Ok? ==> files == old(files)
      ensures r.Ok? ==> DraftAt(old(files), profile, k).Some?
                        && files == old(files)[InProfile(profile, Saved(k)) := DraftAt(old(files), profile, k).value]
      ensures forall other :: VisiblePatch(other) == old(Visible(files, profile, dirty, other))
    {
      if DraftAt(files, profile, k).Some? {
        SavingHidden(files, profile, dirty, k, DraftAt(files, profile, k).value);
      }
      hide JsonParser.Parse, Verdict, IsDirty, DirtyMatches, Visible;
      var text;
      r, text := Read(InProfile(profile, Draft(k)), PATCH_BYTES);
      if !r.Ok? { return; }
      Fill(workspace, text);
      r := Verdict(text, PATCH_TOKENS);
      if !r.Ok? { return; }
      r := Write(InProfile(profile, Saved(k)), text);
    }

    /** Remove the draft of dirty[i] and strike it off the list. */
    method DropDraft(i: nat) returns (r: StoreResult)
      requires DirtyMatches(files, profile, dirty) && i < |dirty|
      modifies this`files, this`dirty, this`revision, this`catalogRevision
      ensures DirtyMatches(files, profile, dirty)
      ensures !r.Ok? ==> files == old(files) && dirty == old(dirty) && catalogRevision == old(catalogRevision)
      ensures r.Ok? ==> && files == old(files) - {InProfile(profile, Draft(old(dirty)[i].key))}
                        && dirty == Erased(old(dirty), i) && catalogRevision == old(catalogRevision) + 1
      ensures r.Ok? ==> VisiblePatch(old(dirty)[i].key) == old(SavedAt(files, profile, dirty[i].key))
                        && forall other | other != old(dirty)[i].key ::
                             VisiblePatch(other) == old(Visible(files, profile, dirty, other))
    {
      var k := dirty[i].key;
      ErasingShows(files, profile, dirty, i);
      hide DirtyMatches, Visible, IsDirty;
      r := Remove(InProfile(profile, Draft(k)));
      if !r.Ok? && !r.NotFound? { return; }
      assert files == old(files) - {InProfile(profile, Draft(k))};
      dirty := dirty[..i] + dirty[i + 1..];
      revision, catalogRevision := revision + 1, catalogRevision + 1;
      r := Ok;
    }

    /** After a discard at the current coordinates: the saved patch, or none. */
    method Reload(baseline: Option<string>)
      requires Documents()
      requires baseline.Some? ==> |baseline.value| <= PATCH_BYTES && Verdict(baseline.value, PATCH_TOKENS).Ok?
      modifies patch, this`patchDoc, this`hasPatch, this`patchRevision
      ensures Documents() && hasPatch == baseline.Some? && (hasPatch ==> PatchText() == baseline.value)
    {
      hide JsonParser.Parse, ParsedAs, Verdict;
      if baseline.Some? { ShowPatch(baseline.value); } else { ClearPatch(); }
      hasPatch, patchRevision := baseline.Some?, patchRevision + 1;
    }

    /** The saved patch to go back to, if a discard is about the patch in memory. */
    method Baseline(k: Key, reload: bool) returns (r: StoreResult, baseline: Option<string>)
      requires Buffers()
      modifies workspace
      ensures r.Ok? && reload ==> baseline == SavedAt(files, profile, k)
      ensures baseline.Some? ==> |baseline.value| <= PATCH_BYTES && Verdict(baseline.value, PATCH_TOKENS).Ok?
    {
      hide JsonParser.Parse, Verdict;
      baseline := None;
      if !reload { return Ok, None; }
      var text;
      r, text := ReadObject(InProfile(profile, Saved(k)), PATCH_TOKENS);
      if r.Ok? { return Ok, Some(text); }
      if r.NotFound? { return Ok, None; }
    }

    /** One turn of the loop of bosun_config_save. torn tells that the saved patch
        was written but its draft could not be removed. */
    method SaveOne(i: nat, discard: bool) returns (r: StoreResult, ghost torn: bool)
      requires Documents() && profile != "" && DirtyMatches(files, profile, dirty) && i < |dirty|
      modifies this`files, this`dirty, this`revision, this`catalogRevision, this`patchRevision, this`hasPatch,
               this`patchDoc, patch, workspace
      ensures Documents() && DirtyMatches(files, profile, dirty) && (old(Cached()) ==> Cached())
      ensures r.Ok? ==> dirty == Erased(old(dirty), i) && catalogRevision == old(catalogRevision) + 1
      ensures !r.Ok? ==> dirty == old(dirty) && catalogRevision == old(catalogRevision)
      ensures forall other | other != old(dirty)[i].key :: VisiblePatch(other) == old(Visible(files, profile, dirty, other))
      ensures VisiblePatch(old(dirty)[i].key) ==
              if discard && r.Ok? then old(SavedAt(files, profile, dirty[i].key))
              else old(Visible(files, profile, dirty, dirty[i].key))
      ensures SaveFrame(old(files), files, profile, old(dirty)[i].key, !discard && (r.Ok? || torn), r.Ok?)
      ensures torn ==> !r.Ok? && !discard
    {
      hide JsonParser.Parse, ParsedAs, Verdict, DirtyMatches, Visible, IsDirty, Documents;
      torn := false;
      var k := dirty[i].key;
      IsListed(i);
      Lengths();
      var reload := discard && at == k;
      var baseline;
      r, baseline := Baseline(k, reload);
      if !r.Ok? { return; }
      if !discard {
        r := CopyDraft(k);
        if !r.Ok? { return; }
      }
      ghost var middle := files;
      r := DropDraft(i);
      if !r.Ok? { return r, !discard; }
      if reload { Reload(baseline); }
      Lengths();
    }

    lemma IsListed(i: nat)
      requires i < |dirty| && DirtyMatches(files, profile, dirty)
      ensures IsDirty(dirty, dirty[i].key) && Legal(dirty[i].key)
      ensures InProfile(profile, Draft(dirty[i].key)) in files
      ensures VisiblePatch(dirty[i].key) == DraftAt(files, profile, dirty[i].key)
    {
    }

    /** What every save and discard keeps. */
    ghost predicate Stable()
      reads this, device, patch
    {
      Documents() && profile != "" && DirtyMatches(files, profile, dirty)
    }

    /** bosun_config_save: all drafts or one, saved or discarded. room tells whether
        the reply that lists them fits; it is made before anything is touched. */
    method Save(which: Option<Key>, discard: bool, room: bool) returns (r: StoreResult, ghost torn: Option<Key>)
      requires Stable()
      modifies this`files, this`dirty, this`revision, this`catalogRevision, this`patchRevision, this`hasPatch,
               this`patchDoc, patch, workspace
      ensures Stable() && (old(Cached()) ==> Cached())
      ensures SaveProgress(old(files), old(dirty), files, dirty, profile, which, discard, torn)
      ensures r.Ok? ==> torn.None? && forall k | Matches(which, k) :: !IsDirty(dirty, k)
      ensures old(catalogRevision) <= catalogRevision
      ensures catalogRevision == old(catalogRevision) ==> dirty == old(dirty) && files == Torn(old(files), profile, torn)
      ensures torn.Some? ==> IsDirty(dirty, torn.value)
      ensures KeptBut(old(files), files, profile, which)
      ensures !r.Ok? && which.Some? ==> dirty == old(dirty) && catalogRevision == old(catalogRevision)
      ensures !r.Ok? ==> !room || (which.Some? && !Legal(which.value))
                         || exists i :: 0 <= i < |dirty| && Matches(which, dirty[i].key)
    {
      hide JsonParser.Parse, DirtyMatches, Visible, IsDirty, Documents, SaveProgress, SaveFrame, Matches, KeptBut, Torn;
      torn := None;
      Unmoved(which, discard);
      NothingTorn(files, profile, which);
      if which.Some? && !Legal(which.value) { return Invalid, None; }
      if !room { return Limit, None; }
      var i: nat := 0;
      while i < |dirty|
        invariant i <= |dirty| && Stable() && (old(Cached()) ==> Cached()) && torn.None?
        invariant SaveProgress(old(files), old(dirty), files, dirty, profile, which, discard, None)
        invariant forall j | 0 <= j < i :: !Matches(which, dirty[j].key)
        invariant old(catalogRevision) <= catalogRevision
        invariant catalogRevision == old(catalogRevision) ==> dirty == old(dirty) && files == old(files)
        invariant KeptBut(old(files), files, profile, which)
        invariant which.Some? && !(dirty == old(dirty) && catalogRevision == old(catalogRevision)) ==>
                    forall j | 0 <= j < |dirty| :: !Matches(which, dirty[j].key)
        decreases |dirty| - i
      {
        if !Matches(which, dirty[i].key) {
          i := i + 1;
        } else {
          OnlyMatch(which, i);
          ghost var g := files;
          r, torn := SaveNext(i, which, discard, old(files), old(dirty));
          KeptOn(old(files), g, files, profile, which);
          if !r.Ok? { return; }
        }
      }
      NoneLeft(which);
      r := Ok;
    }

    method SaveNext(i: nat, which: Option<Key>, discard: bool, ghost f: Files, ghost d: seq<Dirty>)
      returns (r: StoreResult, ghost torn: Option<Key>)
      requires Stable() && i < |dirty| && Matches(which, dirty[i].key)
      requires SaveProgress(f, d, files, dirty, profile, which, discard, None)
      modifies this`files, this`dirty, this`revision, this`catalogRevision, this`patchRevision, this`hasPatch,
               this`patchDoc, patch, workspace
      ensures Stable() && (old(Cached()) ==> Cached())
      ensures SaveProgress(f, d, files, dirty, profile, which, discard, torn) && (r.Ok? ==> torn.None?)
      ensures r.Ok? ==> dirty == Erased(old(dirty), i) && catalogRevision == old(catalogRevision) + 1
      ensures !r.Ok? ==> && dirty == old(dirty) && catalogRevision == old(catalogRevision)
                         && files == Torn(old(files), profile, torn)
      ensures torn.Some? ==> IsDirty(dirty, torn.value)
      ensures KeptBut(old(files), files, profile, which)
    {
      hide JsonParser.Parse, DirtyMatches, Visible, IsDirty, Documents, SaveProgress, SaveFrame, Matches, Erased, KeptBut, Torn;
      ghost var g, e := files, dirty;
      ghost var t;
      Member(dirty, i);
      r, t := SaveOne(i, discard);
      FrameKeeps(g, files, profile, e[i].key, which, !discard && (r.Ok? || t), r.Ok?);
      if r.Ok? {
        torn := None;
        SaveStep(f, d, g, e, files, i, profile, which, discard);
      } else {
        torn := if t then Some(e[i].key) else None;
        SaveStopped(f, d, g, e, files, i, profile, which, discard, t);
      }
    }

    lemma Unmoved(which: Option<Key>, discard: bool)
      ensures SaveProgress(files, dirty, files, dirty, profile, which, discard, None)
    {
    }

    lemma NoneLeft(which: Option<Key>)
      requires forall j | 0 <= j < |dirty| :: !Matches(which, dirty[j].key)
      ensures forall k | Matches(which, k) :: !IsDirty(dirty, k)
    {
    }

    /** The save and discard commands on the active profile: a save changes no
        patch shown, at any exit; a discard shows the saved patch instead of each
        draft that went away. */
    method SaveShown(which: Option<Key>, discard: bool, room: bool) returns (r: StoreResult, ghost torn: Option<Key>)
      requires Sound()
      modifies this`files, this`dirty, this`revision, this`catalogRevision, this`patchRevision, this`hasPatch,
               this`patchDoc, patch, workspace
      ensures Sound() && (old(Cached()) ==> Cached())
      ensures SaveProgress(old(files), old(dirty), files, dirty, profile, which, discard, torn)
      ensures KeptBut(old(files), files, profile, which)
      ensures catalogRevision == old(catalogRevision) ==> dirty == old(dirty) && files == Torn(old(files), profile, torn)
      ensures torn.Some? ==> !discard && IsDirty(dirty, torn.value)
      ensures forall k :: VisiblePatch(k) == if discard && old(IsDirty(dirty, k)) && !IsDirty(dirty, k)
                                             then old(SavedAt(files, profile, k)) else old(Visible(files, profile, dirty, k))
      ensures r.Ok? ==> forall k | Matches(which, k) :: !IsDirty(dirty, k)
      ensures forall k | IsDirty(dirty, k) :: old(IsDirty(dirty, k))
      ensures forall k | old(IsDirty(dirty, k)) && !IsDirty(dirty, k) :: Matches(which, k)
      ensures old(catalogRevision) <= catalogRevision
    {
      hide JsonParser.Parse, DirtyMatches, Visible, IsDirty, Documents, SaveProgress, Matches, KeptBut, Torn;
      if profile == "" {
        NoDrafts();
        Unmoved(which, discard);
        NothingTorn(files, profile, which);
        torn := None;
        r := if which.Some? && !Legal(which.value) then Invalid else if !room then Limit else Ok;
        return;
      }
      ghost var f, d := files, dirty;
      r, torn := Save(which, discard, room);
      SaveShows(f, d, files, dirty, profile, which, discard, torn);
      OnlyFewer(f, d, which, discard, torn);
      TornIsSave(f, d, which, discard, torn);
      Lengths();
    }

    lemma NoDrafts()
      requires Sound() && profile == ""
      ensures forall k :: !IsDirty(dirty, k)
    {
    }

    lemma OnlyFewer(f: Files, d: seq<Dirty>, which: Option<Key>, discard: bool, torn: Option<Key>)
      requires SaveProgress(f, d, files, dirty, profile, which, discard, torn)
      ensures forall k | IsDirty(dirty, k) :: IsDirty(d, k)
      ensures forall k | IsDirty(d, k) && !IsDirty(dirty, k) :: Matches(which, k)
    {
      hide IsDirty;
    }

    lemma TornIsSave(f: Files, d: seq<Dirty>, which: Option<Key>, discard: bool, torn: Option<Key>)
      requires SaveProgress(f, d, files, dirty, profile, which, discard, torn)
      requires torn.Some? ==> IsDirty(dirty, torn.value)
      ensures torn.Some? ==> !discard
    {
      hide IsDirty;
    }

    lemma OnlyMatch(which: Option<Key>, i: nat)
      requires DirtyMatches(files, profile, dirty) && i < |dirty| && Matches(which, dirty[i].key)
      ensures which.Some? ==> forall j | 0 <= j < |Erased(dirty, i)| :: !Matches(which, Erased(dirty, i)[j].key)
    {
    }

    /** Removing the saved patch shows through only where there is no draft. */
    lemma RemovingKeeps(f: Files, k: Key)
      requires DirtyMatches(f, profile, dirty)
      ensures var g := f - {InProfile(profile, Saved(k))};
        && DirtyMatches(g, profile, dirty) && SavedAt(g, profile, k).None?
        && (forall other | other != k :: Visible(g, profile, dirty, other) == Visible(f, profile, dirty, other))
        && Visible(g, profile, dirty, k) == if IsDirty(dirty, k) then Visible(f, profile, dirty, k) else None
    {
      hide IsDirty;
    }

    lemma RemovedKeeps(f: Files, g: Files, k: Key)
      requires g == f - {InProfile(profile, Saved(k))}
      ensures KeptBut(f, g, profile, Some(k))
    {
    }

    /** A failed discard touches no file, and a discard is never torn. */
    lemma NotTorn(g: Files, d: seq<Dirty>, k: Key, torn: Option<Key>)
      requires SaveProgress(g, d, files, dirty, profile, Some(k), true, torn)
      requires torn.Some? ==> IsDirty(dirty, torn.value)
      ensures torn.None? && Torn(g, profile, torn) == g
    {
      hide IsDirty;
    }

    lemma AfterDiscard(g: Files, d: seq<Dirty>, k: Key, torn: Option<Key>)
      requires SaveProgress(g, d, files, dirty, profile, Some(k), true, torn)
      requires SavedAt(g, profile, k).None?
      ensures forall other | other != k :: VisiblePatch(other) == Visible(g, profile, d, other)
      ensures !IsDirty(dirty, k) ==> VisiblePatch(k).None?
      ensures SavedAt(files, profile, k).None?
      ensures dirty == d ==> VisiblePatch(k) == Visible(g, profile, d, k)
    {
      hide IsDirty;
    }

    lemma SomeDirty(k: Key)
      requires exists i :: 0 <= i < |dirty| && Matches(Some(k), dirty[i].key)
      ensures IsDirty(dirty, k)
    {
    }

    /** The steps of bosun_config_remove_patch that touch files: the saved patch,
        then the draft. */
    method RemoveFiles(k: Key) returns (r: StoreResult, ghost torn: bool)
      requires Stable() && Legal(k)
      modifies this`files, this`dirty, this`revision, this`catalogRevision, this`patchRevision, this`hasPatch,
               this`patchDoc, patch, workspace
      ensures Stable()
      ensures forall other | other != k :: VisiblePatch(other) == old(Visible(files, profile, dirty, other))
      ensures r.Ok? ==> VisiblePatch(k).None? && !IsDirty(dirty, k)
      ensures !r.Ok? ==> && VisiblePatch(k) == old(Visible(files, profile, dirty, k)) && dirty == old(dirty)
                         && catalogRevision == old(catalogRevision)
                         && files == if torn then old(files) - {InProfile(profile, Saved(k))} else old(files)
      ensures torn ==> !r.Ok? && IsDirty(dirty, k)
      ensures SavedAt(files, profile, k) == if r.Ok? || torn then None else old(SavedAt(files, profile, k))
      ensures KeptBut(old(files), files, profile, Some(k))
      ensures old(Cached()) && (!r.Ok? || at != k) ==> Cached()
      ensures old(catalogRevision) <= catalogRevision
    {
      hide JsonParser.Parse, DirtyMatches, Documents, Verdict, ParsedAs, Visible, IsDirty, SaveProgress, Matches, KeptBut, Torn;
      torn := false;
      RemovingKeeps(files, k);
      NothingTorn(files, profile, Some(k));
      r := Remove(InProfile(profile, Saved(k)));
      if !r.Ok? && !r.NotFound? { return; }
      ghost var g, d, t := files, dirty, None;
      RemovedKeeps(old(files), g, k);
      assert files == old(files) - {InProfile(profile, Saved(k))};
      Lengths();
      assert old(Cached()) && (IsDirty(dirty, k) || at != k) ==> Cached();
      r, t := Save(Some(k), true, true);
      AfterDiscard(g, d, k, t);
      KeptOn(old(files), g, files, profile, Some(k));
      NotTorn(g, d, k, t);
      if !r.Ok? {
        SomeDirty(k);
        torn := true;
      }
      assert r.Ok? ==> Matches(Some(k), k) by { MatchesItself(k); }
    }

    lemma MatchesItself(k: Key)
      ensures Matches(Some(k), k)
    {
    }

    /** bosun_config_remove_patch: afterwards nothing is shown at k; a failure
        changes nothing that is shown. */
    method RemovePatch(k: Key) returns (r: StoreResult, ghost torn: bool)
      requires Sound()
      modifies this`files, this`dirty, this`revision, this`catalogRevision, this`patchRevision, this`hasPatch,
               this`patchDoc, patch, workspace
      ensures Sound() && (old(Cached()) ==> Cached())
      ensures forall other | other != k :: VisiblePatch(other) == old(Visible(files, profile, dirty, other))
      ensures r.Ok? ==> VisiblePatch(k).None? && (at == k ==> !hasPatch) && catalogRevision > old(catalogRevision)
      ensures !r.Ok? ==> VisiblePatch(k) == old(Visible(files, profile, dirty, k)) && dirty == old(dirty)
      ensures old(catalogRevision) <= catalogRevision
      ensures !r.Ok? ==> && catalogRevision == old(catalogRevision)
                         && files == if torn then old(files) - {InProfile(profile, Saved(k))} else old(files)
      ensures torn ==> !r.Ok? && IsDirty(dirty, k)
      ensures SavedAt(files, profile, k) == if r.Ok? || torn then None else old(SavedAt(files, profile, k))
      ensures KeptBut(old(files), files, profile, Some(k))
    {
      hide JsonParser.Parse, DirtyMatches, Documents, ProfileId, ParsedAs, Visible, IsDirty, Verdict, KeptBut, Torn;
      torn := false;
      NothingTorn(files, profile, Some(k));
      if !ProfileId(profile) || !Legal(k) { return Invalid, false; }
      NotEmpty(profile);
      r, torn := RemoveFiles(k);
      if !r.Ok? { return; }
      if at == k { Forget(); }
      revision, catalogRevision := revision + 1, catalogRevision + 1;
    }

    method Forget()
      requires Documents()
      modifies patch, this`patchDoc, this`hasPatch, this`patchRevision
      ensures Documents() && !hasPatch
    {
      hide JsonParser.Parse, ParsedAs, Verdict;
      ClearPatch();
      hasPatch, patchRevision := false, patchRevision + 1;
    }

    /** The milliseconds since the draft was changed, by a clock of 32 bits; a draft found
        at activation counts from 0. */
    function Age(d: Dirty, now: nat): int {
      (now - d.modified) % 0x1_0000_0000
    }

    /** bosun_config_tick: autosave at most one draft, the first that is old enough. */
    method Tick(enabled: bool, delay: nat, now: nat) returns (ghost torn: Option<Key>)
      requires Sound()
      modifies this`files, this`dirty, this`revision, this`catalogRevision, this`patchRevision, this`hasPatch,
               this`patchDoc, this`lastError, patch, workspace
      ensures Sound() && (old(Cached()) ==> Cached())
      ensures forall k :: VisiblePatch(k) == old(Visible(files, profile, dirty, k))
      ensures !enabled ==> files == old(files) && dirty == old(dirty)
      ensures forall k | old(IsDirty(dirty, k)) && !IsDirty(dirty, k) ::
                exists i :: 0 <= i < |old(dirty)| && old(dirty)[i].key == k && Age(old(dirty)[i], now) >= delay
      ensures old(catalogRevision) <= catalogRevision
      ensures SaveProgress(old(files), old(dirty), files, dirty, profile, None, false, torn)
      ensures KeptBut(old(files), files, profile, None)
      ensures catalogRevision == old(catalogRevision) ==> dirty == old(dirty) && files == Torn(old(files), profile, torn)
      ensures torn.Some? ==> IsDirty(dirty, torn.value)
    {
      hide JsonParser.Parse, DirtyMatches, Documents, Visible, SaveProgress, KeptBut, Torn;
      torn := None;
      Unmoved(None, false);
      NothingTorn(files, profile, None);
      if !enabled { return; }
      for i := 0 to |dirty|
        invariant dirty == old(dirty) && files == old(files) && Sound() && torn.None?
        invariant unchanged(this, patch)
      {
        if Age(dirty[i], now) >= delay {
          var k := dirty[i].key;
          var r;
          r, torn := SaveShown(Some(k), false, true);
          AnyMatch(old(files), old(dirty), Some(k), false, torn);
          lastError := r;
          Lengths();
          return;
        }
      }
    }

    /** Saving one draft is a step of saving all. */
    lemma AnyMatch(f: Files, d: seq<Dirty>, which: Option<Key>, discard: bool, torn: Option<Key>)
      requires SaveProgress(f, d, files, dirty, profile, which, discard, torn) && KeptBut(f, files, profile, which)
      ensures SaveProgress(f, d, files, dirty, profile, None, discard, torn) && KeptBut(f, files, profile, None)
    {
      hide IsDirty;
    }

    // ----- init

    /** bosun_config_init up to the active profile: the default device, and the
        profile the pointer file names, if any. */
    constructor (files: Files, defaultDevice: string)
      requires |defaultDevice| <= DEVICE_BYTES && Verdict(defaultDevice, DEVICE_TOKENS).Ok?
      ensures Valid() && this.files == files && this.defaultDevice == defaultDevice && profile == ""
      ensures DeviceText() == defaultDevice && !hasPatch && at == Key(1, 1) && lastError == Ok
      ensures fresh(device) && fresh(patch) && fresh(workspace) && fresh(workTokens)
    {
      hide JsonParser.Parse, ParsedAs, Verdict, DirtyMatches, Visible, TokensOf, Documents;
      this.files, this.defaultDevice := files, defaultDevice;
      profile, kind, dirty, at, hasPatch := "", "", [], Key(1, 1), false;
      revision, patchRevision, catalogRevision, lastError := 0, 0, 0, Ok;
      deviceDoc, patchDoc := Doc(0, []), Doc(0, []);
      device := new char[DEVICE_BYTES + 1];
      patch := new char[PATCH_BYTES + 1];
      workspace := new char[PATCH_BYTES + 1];
      workTokens := new char[PATCH_TOKENS * 12];
      new;
      NoDocuments();
    }

    /** The default device and no patch. */
    method NoDocuments()
      requires Buffers()
      modifies device, patch, this`deviceDoc, this`patchDoc
      ensures Documents() && DeviceText() == defaultDevice
    {
      hide JsonParser.Parse, ParsedAs, Verdict, TokensOf;
      DefaultDevice();
      ClearPatch();
    }

    /** The rest of bosun_config_init. */
    method Resume() returns (r: StoreResult)
      requires Valid() && profile == ""
      modifies this, workspace, workTokens, device, patch
      ensures Valid() && files == old(files)
      ensures r.Ok? && profile != "" ==>
                ActivePointer in files && Says(files[ActivePointer], "id", PROFILE_ID_BYTES, Some(profile))
    {
      hide JsonParser.Parse, ParsedAs, Verdict, Says, Documents, PointerText, ProfileId;
      Lengths();
      var text;
      r, text := ReadObject(ActivePointer, PATCH_TOKENS);
      Apart();
      if r.NotFound? { return Ok; }
      if !r.Ok? {
        lastError := r;
        return;
      }
      var id := ReadString(text, PATCH_TOKENS, "id", PROFILE_ID_BYTES);
      if id.None? {
        lastError := Invalid;
        return Invalid;
      }
      if id.value == "" { return Ok; }
      r := Activate(id.value, false);
      lastError := r;
      Lengths();
    }

    // ----- put_binding

    /** The new text for the patch text, the binding going into its place. */
    method Rebind(text: string, binding: string, name: string, capacity: nat) returns (r: StoreResult, output: string)
      requires Verdict(text, PATCH_TOKENS).Ok? && Names(binding, name)
      ensures r.Ok? ==> Bound(text, binding, output) && |output| < capacity
    {
      hide JsonParser.Parse, JsonReader.Encodes, JsonTheorems.DocumentOf, JsonTheorems.Fits, JsonGrammar.Render,
           JsonGrammar.Valid, PatchBinding.Rewritten, PatchRewrite.HasBindings, Names, JsonGrammar.RenderDocument;
      output := "";
      var tokens := JsonParser.Parse(text, PATCH_TOKENS).tokens;
      ghost var d := JsonReader.RootEncodes(text, PATCH_TOKENS);
      JsonReader.HeadToken(text, tokens, 0, d.value);
      ghost var b := BindingTree(binding, name);
      var buffer := new char[capacity];
      var w := new JsonWriter.Writer(buffer);
      var result := PatchRewrite.RewritePatch(text, tokens, binding, name, w, d.value, b);
      if result.NotBindings? { return Invalid, ""; }
      if result.TooBig? { return Limit, ""; }
      output := w.data[..w.length];
      BoundHere(text, binding, output, d, b, name);
      r := Ok;
    }

    lemma BindingTree(binding: string, name: string) returns (b: JsonGrammar.Document)
      requires Names(binding, name)
      ensures BindingFor(b, binding, name) && JsonGrammar.RenderDocument(b) == binding
    {
      hide BindingFor;
      b :| BindingFor(b, binding, name);
      assert JsonGrammar.RenderDocument(b) == binding by { TreeText(b, binding, name); }
    }

    lemma TreeText(b: JsonGrammar.Document, binding: string, name: string)
      requires BindingFor(b, binding, name)
      ensures JsonGrammar.RenderDocument(b) == binding
    {
    }

    lemma BoundHere(was: string, binding: string, now: string, d: JsonGrammar.Document, b: JsonGrammar.Document, name: string)
      requires JsonTheorems.DocumentOf(d, was) && d.value.Object? && PatchRewrite.HasBindings(d.value.members)
      requires BindingFor(b, binding, name)
      requires now == JsonGrammar.Render(PatchBinding.Rewritten(d.value.members, name, b))
      ensures Bound(was, binding, now)
    {
      hide JsonTheorems.DocumentOf, PatchRewrite.HasBindings, JsonGrammar.Render, PatchBinding.Rewritten, BindingFor;
    }

    /** The switch a binding text is for. */
    method SwitchName(binding: string) returns (r: StoreResult, name: string)
      ensures r.Ok? ==> Names(binding, name) && |binding| <= BINDING_BYTES
    {
      hide JsonParser.Parse, JsonReader.Encodes, JsonTheorems.DocumentOf, JsonTheorems.Fits, JsonGrammar.Render,
           JsonGrammar.Valid, StringMember;
      name := "";
      if |binding| > BINDING_BYTES { return Limit, ""; }
      r := Verdict(binding, BINDING_TOKENS);
      if !r.Ok? { return; }
      var tokens := JsonParser.Parse(binding, BINDING_TOKENS).tokens;
      ghost var b := JsonReader.RootEncodes(binding, BINDING_TOKENS);
      JsonReader.HeadToken(binding, tokens, 0, b.value);
      var found := ReadStringAt(binding, tokens, PatchBinding.SWITCH, NAME_MAX, b.value);
      if found.None? || found.value == "" { return Invalid, ""; }
      name := found.value;
      SwitchIs(b.value, name);
      NamesHere(b, binding, name);
    }

    lemma SwitchIs(v: JsonGrammar.Value, name: string)
      requires StringMember(v, PatchBinding.SWITCH, NAME_MAX) == Some(name)
      ensures PatchBinding.IsFor(v, name)
    {
    }

    lemma NamesHere(b: JsonGrammar.Document, binding: string, name: string)
      requires JsonTheorems.DocumentOf(b, binding) && PatchBinding.IsFor(b.value, name) && name != ""
      ensures Names(binding, name)
    {
      assert BindingFor(b, binding, name);
    }

    /** bosun_config_put_binding: the patch shown at k, with the binding put in its
        place, becomes a draft there. */
    method PutBinding(k: Key, binding: string, capacity: nat, now: nat) returns (r: StoreResult)
      requires Sound()
      modifies this, patch, workspace
      ensures Sound() && (old(Cached()) ==> Cached()) && profile == old(profile)
      ensures !r.Ok? ==> Snap() == old(Snap())
      ensures r.Ok? ==> && old(VisiblePatch(k)).Some? && VisiblePatch(k).Some?
                        && Bound(old(VisiblePatch(k)).value, binding, VisiblePatch(k).value)
                        && catalogRevision == old(catalogRevision) + 1
                        && forall other | other != k :: VisiblePatch(other) == old(Visible(files, profile, dirty, other))
    {
      hide JsonParser.Parse, Verdict, Visible, Documents, Drafts, ParsedAs, Bound, Names, ProfileId, Staged, IsDirty;
      Lengths();
      if !Legal(k) || capacity == 0 { return Invalid; }
      var name, text, output;
      r, name := SwitchName(binding);
      if !r.Ok? { return; }
      r, text := ReadPatch("", k);
      if !r.Ok? { return; }
      Fill(workspace, text);
      Apart();
      r := Verdict(text, PATCH_TOKENS);
      if !r.Ok? { return; }
      r, output := Rebind(text, binding, name, if capacity > PATCH_BYTES + 1 then PATCH_BYTES + 1 else capacity);
      if !r.Ok? { return; }
      r := PutDraft(k, output, now);
    }

    // ----- listings

    /** The coordinates of the active profile's inventory, drafts without a saved
        patch included. */
    ghost predicate InListing(k: Key, lastBank: nat)
      reads this`files, this`profile, this`dirty
    {
      Legal(k) && k.bank <= lastBank && (InProfile(profile, Saved(k)) in files || IsDirty(dirty, k))
    }

    /** The drafts that have no saved patch, after the saved ones. */
    method AddDrafts(keys: array<Key>, saved: nat, lastBank: nat) returns (r: StoreResult, count: nat)
      requires saved <= keys.Length && DirtyMatches(files, profile, dirty)
      requires forall i, j | 0 <= i < j < saved :: keys[i] != keys[j]
      requires forall k: Key :: k in keys[..saved] <==> Listed(profile, false, lastBank, k)
      modifies keys
      ensures r.Ok? ==> && count <= keys.Length && (forall i, j | 0 <= i < j < count :: keys[i] != keys[j])
                        && forall k: Key :: k in keys[..count] <==> InListing(k, lastBank)
      ensures r.Ok? || (r.Limit? && count == 0)
    {
      count := saved;
      for i := 0 to |dirty|
        invariant saved <= count <= keys.Length
        invariant forall a, b | 0 <= a < b < count :: keys[a] != keys[b]
        invariant forall k: Key :: k in keys[..count] <==>
                    Listed(profile, false, lastBank, k) || (k.bank <= lastBank && IsDirty(dirty[..i], k))
      {
        var k := dirty[i].key;
        TakeOne(i);
        if k.bank <= lastBank && k !in keys[..count] {
          if count == keys.Length { return Limit, 0; }
          keys[count] := k;
          assert keys[..count + 1] == keys[..count] + [k];
          count := count + 1;
        }
      }
      assert dirty[..|dirty|] == dirty;
      AllLegal();
      r := Ok;
    }

    lemma TakeOne(i: nat)
      requires i < |dirty|
      ensures forall k :: IsDirty(dirty[..i + 1], k) <==> IsDirty(dirty[..i], k) || k == dirty[i].key
    {
      forall k ensures IsDirty(dirty[..i + 1], k) <==> IsDirty(dirty[..i], k) || k == dirty[i].key {
        if IsDirty(dirty[..i], k) {
          var j :| 0 <= j < i && dirty[..i][j].key == k;
          assert dirty[..i + 1][j].key == k;
        }
        if k == dirty[i].key { assert dirty[..i + 1][i].key == k; }
        if IsDirty(dirty[..i + 1], k) && k != dirty[i].key {
          var j :| 0 <= j < i + 1 && dirty[..i + 1][j].key == k;
          assert dirty[..i][j].key == k;
        }
      }
    }

    lemma AllLegal()
      requires DirtyMatches(files, profile, dirty)
      ensures forall k | IsDirty(dirty, k) :: Legal(k)
    {
    }

    /** coordinates_list: all coordinates, each once, by bank and slot. */
    method CoordinatesList(lastBank: nat, keys: array<Key>) returns (r: StoreResult, count: nat)
      requires Drafts()
      modifies keys, workspace
      ensures r.Ok? ==> count <= keys.Length && StrictlySorted(keys[..count])
      ensures r.Ok? && profile != "" ==> forall k: Key :: k in keys[..count] <==> InListing(k, lastBank)
      ensures r.Ok? && profile == "" ==> count == 0
      ensures !r.Ok? ==> count == 0
    {
      hide Listed, InListing, SortedBy, StrictlySorted, Permutes, DirtyMatches;
      if keys.Length > CATALOG_MAX { return Limit, 0; }
      if profile == "" {
        NothingSorted(keys[..0]);
        return Ok, 0;
      }
      var found;
      r, found := Catalog(profile, false, lastBank, keys.Length);
      if !r.Ok? { return r, 0; }
      FillKeys(keys, found);
      r, count := AddDrafts(keys, |found|, lastBank);
      if !r.Ok? { return; }
      ghost var before := keys[..count];
      SortKeys(keys, count);
      DistinctPermutes(keys[..count], before);
      AreLegal(keys[..count], lastBank);
      SortedStrictly(keys[..count]);
    }

    lemma NothingSorted(keys: seq<Key>)
      requires keys == []
      ensures StrictlySorted(keys)
    {
    }

    lemma AreLegal(keys: seq<Key>, lastBank: nat)
      requires forall k: Key | k in keys :: InListing(k, lastBank)
      ensures forall i | 0 <= i < |keys| :: Legal(keys[i])
    {
      forall i | 0 <= i < |keys| ensures Legal(keys[i]) { assert keys[i] in keys; }
    }

    method FillKeys(keys: array<Key>, found: seq<Key>)
      requires |found| <= keys.Length
      modifies keys
      ensures keys[..|found|] == found
      ensures (forall i, j | 0 <= i < j < |found| :: found[i] != found[j]) ==>
                forall i, j | 0 <= i < j < |found| :: keys[i] != keys[j]
    {
      forall i | 0 <= i < |found| {
        keys[i] := found[i];
      }
    }

    /** The coordinates a page request is about; who is "" for the active profile. */
    ghost predicate InInventory(who: string, k: Key)
      reads this`files, this`profile, this`dirty
    {
      if who == "" then profile != "" && InListing(k, BANK_MAX) else Listed(who, false, BANK_MAX, k)
    }

    /** The complete ordered catalog of a profile: each patch once, by bank and slot,
        with the text shown and whether it is a draft. */
    ghost predicate IsInventory(who: string, all: seq<Entry>)
      reads this`files, this`profile, this`dirty
    {
      && StrictlySorted(KeysOf(all)) && (forall k: Key :: k in KeysOf(all) <==> InInventory(who, k))
      && forall i | 0 <= i < |all| :: EntryIs(who, all[i])
    }

    ghost predicate EntryIs(who: string, e: Entry)
      reads this`files, this`profile, this`dirty
    {
      && Some(e.text) == (if who == "" then VisiblePatch(e.key) else SavedAt(files, who, e.key))
      && (e.draft <==> who == "" && IsDirty(dirty, e.key))
    }

    /** The listing of an explicitly named profile. */
    method SavedList(who: string, keys: array<Key>) returns (r: StoreResult, count: nat)
      requires who != ""
      modifies keys, workspace
      ensures r.Ok? ==> count <= keys.Length && StrictlySorted(keys[..count])
      ensures r.Ok? ==> forall k: Key :: k in keys[..count] <==> Listed(who, false, BANK_MAX, k)
    {
      hide SortedBy, StrictlySorted, Permutes;
      var found;
      r, found := Catalog(who, false, BANK_MAX, keys.Length);
      count := 0;
      if !r.Ok? { return; }
      FillKeys(keys, found);
      count := |found|;
      ghost var before := keys[..count];
      SortKeys(keys, count);
      DistinctPermutes(keys[..count], before);
      SavedLegal(who, keys[..count]);
      SortedStrictly(keys[..count]);
    }

    lemma SavedLegal(who: string, keys: seq<Key>)
      requires forall k: Key | k in keys :: Listed(who, false, BANK_MAX, k)
      ensures forall i | 0 <= i < |keys| :: Legal(keys[i])
    {
      forall i | 0 <= i < |keys| ensures Legal(keys[i]) { assert keys[i] in keys; }
    }

    lemma ShownIfListed(who: string, k: Key)
      requires Drafts() && InInventory(who, k)
      ensures (if who == "" then VisiblePatch(k) else SavedAt(files, who, k)).Some?
    {
    }

    /** The inventory a listing stands for: every listed patch has a text. */
    lemma InventoryOf(who: string, keys: seq<Key>) returns (all: seq<Entry>)
      requires StrictlySorted(keys) && Drafts() && forall k: Key :: k in keys <==> InInventory(who, k)
      ensures IsInventory(who, all) && KeysOf(all) == keys
    {
      hide StrictlySorted, DirtyMatches, InInventory, IsDirty;
      var f, p, d := files, profile, dirty;
      all := seq(|keys|, i requires 0 <= i < |keys| => Line(f, p, d, who, keys[i]));
      assert KeysOf(all) == keys;
      forall i | 0 <= i < |all| ensures EntryIs(who, all[i]) {
        assert keys[i] in keys;
        ShownIfListed(who, keys[i]);
      }
    }

    /** One line of a page: the patch must be readable and a JSON object. */
    method ReadLine(who: string, k: Key) returns (r: StoreResult, e: Entry)
      requires Sound()
      modifies workspace
      ensures Sound() && (r.Ok? ==> e.key == k && EntryIs(who, e))
    {
      hide JsonParser.Parse, Verdict, Visible, Documents, Drafts, ParsedAs, IsDirty, ProfileId;
      Lengths();
      var text;
      r, text := ReadPatch(who, k);
      e := Entry(k, text, who == "" && IsDirty(dirty, k));
      if !r.Ok? { return; }
      Fill(workspace, text);
      Apart();
      r := Verdict(text, PATCH_TOKENS);
    }

    lemma SameLine(who: string, a: Entry, b: Entry)
      requires EntryIs(who, a) && EntryIs(who, b) && a.key == b.key
      ensures a == b
    {
    }

    /** The lines from offset up to end. */
    method ReadLines(who: string, keys: seq<Key>, offset: nat, end: nat, ghost all: seq<Entry>)
      returns (r: StoreResult, page: seq<Entry>)
      requires Sound() && offset <= end <= |keys| && IsInventory(who, all) && KeysOf(all) == keys
      modifies workspace
      ensures Sound() && (r.Ok? ==> page == all[offset..end])
    {
      hide Sound, StrictlySorted, InInventory, EntryIs;
      page := [];
      for i := offset to end
        invariant Sound() && page == all[offset..i] && IsInventory(who, all)
      {
        var e;
        r, e := ReadLine(who, keys[i]);
        if !r.Ok? { return; }
        assert KeysOf(all)[i] == all[i].key;
        SameLine(who, e, all[i]);
        page := page + [e];
      }
      r := Ok;
    }

    /** bosun_config_patches_page: the entries from offset on, at most limit of them,
        of the complete ordered catalog, and the catalog's size. */
    method PatchesPage(who: string, offset: nat, limit: nat)
      returns (r: StoreResult, total: nat, page: seq<Entry>, ghost all: seq<Entry>)
      requires Sound()
      modifies workspace
      ensures Sound()
      ensures who == "" && profile == "" ==> r.Ok? && total == 0 && page == []
      ensures r.Ok? && !(who == "" && profile == "") ==>
                && IsInventory(who, all) && total == |all| && offset <= total <= CATALOG_MAX
                && page == all[offset..if limit > total - offset then total else offset + limit]
    {
      hide Sound, StrictlySorted, Listed, InListing, IsInventory, Drafts;
      total := 0;
      page, all := [], [];
      if who == "" && profile == "" { return Ok, 0, [], []; }
      var known := ProfileExists(if who == "" then profile else who);
      if !known { return NotFound, 0, [], []; }
      var keys := new Key[CATALOG_MAX];
      HasDrafts();
      if who == "" { r, total := CoordinatesList(BANK_MAX, keys); } else { r, total := SavedList(who, keys); }
      Unscratched();
      if !r.Ok? { return; }
      Membership(who, keys[..total]);
      all := InventoryOf(who, keys[..total]);
      if offset > total { return Invalid, total, [], all; }
      var end := if limit > total - offset then total else offset + limit;
      r, page := ReadLines(who, keys[..total], offset, end, all);
    }

    lemma HasDrafts()
      requires Sound()
      ensures Drafts() && Buffers()
    {
    }

    twostate lemma Unscratched()
      requires old(Sound()) && unchanged(this, device, patch)
      ensures Sound()
    {
    }

    lemma Membership(who: string, keys: seq<Key>)
      requires who == "" ==> profile != "" && forall k: Key :: k in keys <==> InListing(k, BANK_MAX)
      requires who != "" ==> forall k: Key :: k in keys <==> Listed(who, false, BANK_MAX, k)
      ensures forall k: Key :: k in keys <==> InInventory(who, k)
    {
    }
  }
}
