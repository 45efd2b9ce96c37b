/** The file that names the active profile: what bosun_config_activate writes,
    bosun_config_init reads back. Source: firmware/src/config.c, lines 46 to 56,
    460 to 466 and 481 to 492. */
module ConfigPointer {
  import opened JsonGrammar
  import opened JsonParser
  import opened JsonParserProofs
  import opened JsonTheorems
  import opened JsonCompleteness
  import opened JsonReader
  import opened JsonWriter
  import opened JsonRoundTrip
  import ConfigStore

  // ----- a text means one thing

  /** Whatever tree a parsed text has, the tokens encode it. */
  lemma TreeEncodes(text: string, capacity: nat, d: Document)
    requires Parse(text, capacity).Ok? && DocumentOf(d, text)
    ensures Encodes(text, Parse(text, capacity).tokens, 0, d.value)
  {
    ParserAcceptsExactly(text, capacity);
    ParseComplete(text, capacity, d);
    hide Flat, Valid, Render, Height, Count, Parse, At;
    var v := d.value;
    FlatHead(v, |d.before|, 0);
    AtSlice(text, 0, text);
    assert text[0..|text|] == text;
    AtConcat(text, 0, d.before, Render(v) + d.after);
    AtConcat(text, |d.before|, Render(v), d.after);
    var t := Flat(v, |d.before|, 0);
    assert t[0..|t|] == t;
  }

  /** Two trees of the same tokens have the same kind, the same size and, if they
      are strings, the same body. */
  lemma SameHead(text: string, tokens: seq<Token>, i: nat, v: Value, w: Value)
    requires Encodes(text, tokens, i, v) && Encodes(text, tokens, i, w)
    ensures KindOf(v) == KindOf(w) && Count(v) == Count(w)
    ensures v.Str? ==> w.Str? && v.body == w.body
  {
    hide Encodes, Flat, Render, Count, Body;
    HeadToken(text, tokens, i, v);
    HeadToken(text, tokens, i, w);
    if v.Str? {
      BodyOf(text, tokens, i, v);
      BodyOf(text, tokens, i, w);
    }
  }

  ghost predicate BothEncode(text: string, tokens: seq<Token>, a: Option<Value>, b: Option<Value>) {
    (a.None? && b.None?)
    || (a.Some? && b.Some? && exists j: nat :: Encodes(text, tokens, j, a.value) && Encodes(text, tokens, j, b.value))
  }

  /** Looking a key up gives the same token in every tree of the same tokens. */
  lemma {:induction false} SameLookup(text: string, tokens: seq<Token>, i: nat, end: nat,
                                      m: Members, at: nat, n: Members, from: nat, key: string)
    requires EncodesMembers(text, tokens, i, end, m, at) && EncodesMembers(text, tokens, i, end, n, from)
    ensures BothEncode(text, tokens, Lookup(m, key), Lookup(n, key))
    decreases end - i
  {
    hide EncodesMembers, Encodes, Flat, Render, Count, Spells, At, Valid;
    if i >= end {
      NoMembersLeft(text, tokens, i, end, m, at);
      NoMembersLeft(text, tokens, i, end, n, from);
    } else {
      MembersLeft(text, tokens, i, end, m, at);
      MembersLeft(text, tokens, i, end, n, from);
      FirstMember(text, tokens, i, end, m, at);
      FirstMember(text, tokens, i, end, n, from);
      SameHead(text, tokens, i, Str(m.key), Str(n.key));
      SameHead(text, tokens, i + 1, m.value, n.value);
      SameLookup(text, tokens, i + 1 + Count(m.value), end, m.rest, MemberRestAt(m, at), n.rest, MemberRestAt(n, from), key);
    }
  }

  /** What a parsed text says a member is does not depend on the tree it is read from. */
  lemma SaysOnce(text: string, tokenCapacity: nat, key: string, capacity: nat,
                 a: ConfigStore.ConfigFiles.Option<string>, b: ConfigStore.ConfigFiles.Option<string>)
    requires Parse(text, tokenCapacity).Ok?
    requires ConfigStore.Says(text, key, capacity, a) && ConfigStore.Says(text, key, capacity, b)
    ensures a == b
  {
    hide DocumentOf, ConfigStore.StringMember, Parse, Encodes, EncodesMembers;
    var d: Document :| DocumentOf(d, text) && ConfigStore.StringMember(d.value, key, capacity) == a;
    var e: Document :| DocumentOf(e, text) && ConfigStore.StringMember(e.value, key, capacity) == b;
    var tokens := Parse(text, tokenCapacity).tokens;
    TreeEncodes(text, tokenCapacity, d);
    TreeEncodes(text, tokenCapacity, e);
    SameMember(text, tokens, d.value, e.value, key, capacity);
  }

  lemma SameMember(text: string, tokens: seq<Token>, v: Value, w: Value, key: string, capacity: nat)
    requires Encodes(text, tokens, 0, v) && Encodes(text, tokens, 0, w)
    ensures ConfigStore.StringMember(v, key, capacity) == ConfigStore.StringMember(w, key, capacity)
  {
    hide Encodes, EncodesMembers, Lookup, Decode, Count;
    SameHead(text, tokens, 0, v, w);
    HeadToken(text, tokens, 0, v);
    hide Render;
    if v.Object? {
      InsideObject(text, tokens, 0, v);
      InsideObject(text, tokens, 0, w);
      SameLookup(text, tokens, 1, Count(v), v.members, tokens[0].start + 1 + |v.pad|,
                 w.members, tokens[0].start + 1 + |w.pad|, key);
      var a, b := Lookup(v.members, key), Lookup(w.members, key);
      if a.Some? {
        var j: nat :| Encodes(text, tokens, j, a.value) && Encodes(text, tokens, j, b.value);
        SameHead(text, tokens, j, a.value, b.value);
        SameHead(text, tokens, j, b.value, a.value);
      }
    }
  }

  // ----- the pointer

  /** A profile id needs no escapes and is a string body. */
  lemma IdIsBody(id: string)
    requires ConfigStore.ProfileId(id)
    ensures IsBody(id) && Escape(id) == id && Spells(id, id)
  {
    var text := "\"" + id + "\"";
    var d := ParseSound(text, 1);
    QuotedOnly(d, id);
    PlainEscape(id);
    RawRun(id, 0, |id|);
    hide Decode;
  }

  lemma Ends(a: string, b: string, c: string)
    ensures |a| > 0 ==> (a + (b + c))[0] == a[0]
    ensures |c| > 0 ==> (a + (b + c))[|a + (b + c)| - 1] == c[|c| - 1]
  {
  }

  lemma QuotedOnly(d: Document, id: string)
    requires DocumentOf(d, "\"" + id + "\"")
    requires Fits(d.value, 1)
    ensures IsBody(id)
  {
    hide IsBody;
    var text := "\"" + id + "\"";
    var v := d.value;
    Ends(d.before, Render(v), d.after);
    assert d.before == "";
    FirstChar(v);
    assert text[0] == Render(v)[0];
    assert d.after == "";
    assert Quoted(v.body) == text;
    assert text[1..|text| - 1] == v.body && text[1..|text| - 1] == id;
  }

  lemma FirstChar(v: Value)
    requires Valid(v)
    ensures |Render(v)| > 0 && (Render(v)[0] == '"' <==> v.Str?)
  {
    if v.Number? {
      var parts: NumberParts :| ValidParts(parts) && RenderParts(parts) == v.digits;
      assert v.digits[0] == if parts.minus == "" then parts.whole[0] else '-';
    }
  }

  lemma {:induction false} PlainEscape(id: string)
    requires forall i | 0 <= i < |id| :: id[i] as int >= 32 && id[i] != '"' && id[i] != '\\'
    ensures Escape(id) == id
  {
    if id != "" {
      PlainEscape(id[1..]);
      assert EscapeByte(id[0]) == [id[0]];
    }
  }

  function PointerMembers(id: string): Members {
    Member("", "id", "", "", Str(Escape(id)), "", NoMembers)
  }

  lemma PointerTree(id: string)
    ensures Render(Object("", PointerMembers(id))) == ConfigStore.PointerText(id)
    ensures Height(Object("", PointerMembers(id))) <= 1 && Count(Object("", PointerMembers(id))) == 3
  {
    hide Escape;
    var q := Quoted(Escape(id));
    var m := PointerMembers(id);
    assert MembersHeight(NoMembers) == 0 && MembersCount(NoMembers) == 0;
    assert Height(m.value) == 0 && Count(m.value) == 1;
    assert MembersHeight(m) == 1 && MembersCount(m) == 2;
    assert Render(Str(Escape(id))) == q;
    assert RenderMembers(NoMembers) == "";
    assert RenderMembers(PointerMembers(id)) == Quoted("id") + (":" + (q + ("" + "")));
    assert Quoted("id") == "\"id\"";
  }

  /** The file written for a profile is read back as that profile, and as no other. */
  lemma PointerNames(id: string)
    requires ConfigStore.ProfileId(id)
    ensures ConfigStore.Verdict(ConfigStore.PointerText(id), ConfigStore.ConfigFiles.PATCH_TOKENS).Ok?
    ensures ConfigStore.Says(ConfigStore.PointerText(id), "id", ConfigStore.PROFILE_ID_BYTES, ConfigStore.ConfigFiles.Some(id))
    ensures forall other :: ConfigStore.Says(ConfigStore.PointerText(id), "id", ConfigStore.PROFILE_ID_BYTES, other) ==>
              other == ConfigStore.ConfigFiles.Some(id)
  {
    var text, v := ConfigStore.PointerText(id), Object("", PointerMembers(id));
    IdIsBody(id);
    KeyIsId();
    PointerTree(id);
    var d := Document("", v, "");
    assert DocumentOf(d, text) by { PointerDocument(id); }
    PointerParses(text, v, id);
    assert ConfigStore.StringMember(v, "id", ConfigStore.PROFILE_ID_BYTES) == ConfigStore.ConfigFiles.Some(id) by {
      PointerMember(id);
    }
    forall other | ConfigStore.Says(text, "id", ConfigStore.PROFILE_ID_BYTES, other)
      ensures other == ConfigStore.ConfigFiles.Some(id)
    {
      SaysOnce(text, ConfigStore.ConfigFiles.PATCH_TOKENS, "id", ConfigStore.PROFILE_ID_BYTES, other,
               ConfigStore.ConfigFiles.Some(id));
    }
  }

  lemma KeyIsId()
    ensures IsBody("id") && Spells("id", "id")
  {
    RawRun("id", 0, 2);
    assert CharUnit("id"[..1]) && CharUnit("d"[..1]);
    assert "id"[1..] == "d" && "d"[1..] == "";
    assert IsBody("d");
  }

  lemma PointerDocument(id: string)
    requires IsBody(Escape(id)) && IsBody("id")
    ensures DocumentOf(Document("", Object("", PointerMembers(id)), ""), ConfigStore.PointerText(id))
  {
    PointerTree(id);
    hide Escape, Render, IsBody;
    var v := Object("", PointerMembers(id));
    assert Valid(Str(Escape(id)));
    assert ValidMembers(PointerMembers(id));
    assert RenderDocument(Document("", v, "")) == Render(v);
  }

  lemma PointerParses(text: string, v: Value, id: string)
    requires text == ConfigStore.PointerText(id) && v == Object("", PointerMembers(id)) && Escape(id) == id
    requires DocumentOf(Document("", v, ""), text) && |id| < ConfigStore.PROFILE_ID_BYTES
    ensures Parse(text, ConfigStore.ConfigFiles.PATCH_TOKENS).Ok?
    ensures ConfigStore.Verdict(text, ConfigStore.ConfigFiles.PATCH_TOKENS).Ok?
  {
    PointerTree(id);
    hide Escape, Render, Parse, Flat, DocumentOf, Height, Count;
    assert |text| < 50;
    ParseComplete(text, ConfigStore.ConfigFiles.PATCH_TOKENS, Document("", v, ""));
    FlatHead(v, 0, 0);
  }

  lemma PointerMember(id: string)
    requires Spells("id", "id") && Escape(id) == id && Spells(id, id) && |id| < ConfigStore.PROFILE_ID_BYTES
    ensures ConfigStore.StringMember(Object("", PointerMembers(id)), "id", ConfigStore.PROFILE_ID_BYTES)
         == ConfigStore.ConfigFiles.Some(id)
  {
    hide Decode, Escape;
    assert Lookup(NoMembers, "id").None?;
  }
}
