/** The rewriting loops of bosun_config_put_binding (firmware/src/config.c, lines
    281 to 305) over the token arrays, against PatchBinding.Rewritten. */
module PatchRewrite {
  import opened JsonGrammar
  import opened JsonParser
  import opened JsonTheorems
  import opened JsonReader
  import opened JsonWriter
  import opened PatchBinding

  // ----- the rewritten tree is valid

  lemma {:induction false} KeptValid(m: Members)
    requires ValidMembers(m)
    ensures ValidMembers(Kept(m))
  {
    hide IsBody, Spells;
    if m.Member? { KeptValid(m.rest); }
  }

  lemma {:induction false} AppendValid(m: Members, key: string, v: Value)
    requires ValidMembers(m) && IsBody(key) && Valid(v)
    ensures ValidMembers(Append(m, key, v)) && Append(m, key, v).Member?
  {
    hide IsBody;
    if m.Member? { AppendValid(m.rest, key, v); }
  }

  lemma {:induction false} LookupValid(m: Members, key: string)
    requires ValidMembers(m) && Lookup(m, key).Some?
    ensures Valid(Lookup(m, key).value)
  {
    hide IsBody, Spells;
    if m.Member? && Lookup(m.rest, key).Some? { LookupValid(m.rest, key); }
  }

  lemma {:induction false} BareValid(items: Items)
    requires ValidItems(items)
    ensures ValidItems(Bare(items))
  {
    if items.Item? { BareValid(items.rest); }
  }

  lemma {:induction false} ReplaceValid(items: Items, name: string, binding: Document)
    requires ValidItems(items) && ValidDocument(binding)
    ensures ValidItems(Replace(items, name, binding)) && Replace(items, name, binding).Item?
  {
    hide IsFor;
    if items.Item? {
      if IsFor(items.value, name) { BareValid(items.rest); } else { ReplaceValid(items.rest, name, binding); }
    }
  }

  lemma RewrittenValid(m: Members, name: string, binding: Document)
    requires ValidMembers(m) && ValidDocument(binding)
    ensures Valid(Rewritten(m, name, binding))
  {
    hide IsBody, Spells, Lookup, Append, Kept, Replace;
    KeptValid(m);
    SpellsItself();
    if Lookup(m, BINDINGS).Some? { LookupValid(m, BINDINGS); }
    ReplaceValid(OldItems(m), name, binding);
    AppendValid(Kept(m), BINDINGS, Array("", Replace(OldItems(m), name, binding)));
  }

  /** The new text parses to the new tree, unless it is too big for the parser. */
  lemma RewrittenParses(m: Members, name: string, binding: Document, capacity: nat)
    requires ValidMembers(m) && ValidDocument(binding)
    requires 0 < capacity && |Render(Rewritten(m, name, binding))| <= MAX_LENGTH
    ensures var v := Rewritten(m, name, binding);
      && DocumentOf(Document("", v, ""), Render(v))
      && Parse(Render(v), capacity) == if Fits(v, capacity) then Ok(Flat(v, 0, 0)) else Limit
  {
    hide Rewritten, Render, Valid, Flat, Fits, Parse;
    RewrittenValid(m, name, binding);
    var v := Rewritten(m, name, binding);
    NoPadding(v);
    ParseComplete(Render(v), capacity, Document("", v, ""));
  }

  lemma NoPadding(v: Value)
    ensures RenderDocument(Document("", v, "")) == Render(v)
  {
  }

  // ----- its text, piece by piece

  function MemberText(key: string, v: Value): string {
    Quoted(key) + (":" + (Render(v) + ","))
  }

  function MembersText(m: Members): string {
    match m
    case NoMembers => ""
    case Member(_, k, _, _, v, _, rest) =>
      if Spells(k, BINDINGS) then MembersText(rest) else MemberText(k, v) + MembersText(rest)
  }

  lemma {:induction false} MembersRender(m: Members, v: Value)
    ensures RenderMembers(Append(Kept(m), BINDINGS, v)) == MembersText(m) + (Quoted(BINDINGS) + (":" + Render(v)))
  {
    hide Spells, Render, Quoted;
    var tail := Quoted(BINDINGS) + (":" + Render(v));
    match m
    case NoMembers =>
      assert RenderMembers(NoMembers) == "";
    case Member(_, k, _, _, w, _, rest) =>
      MembersRender(rest, v);
      if !Spells(k, BINDINGS) {
        AppendMember(Kept(rest), v);
        var more := RenderMembers(Append(Kept(rest), BINDINGS, v));
        assert RenderMembers(Append(Kept(m), BINDINGS, v)) == MemberText(k, w) + more;
        assert MemberText(k, w) + (MembersText(rest) + tail) == (MemberText(k, w) + MembersText(rest)) + tail;
      }
  }

  lemma AppendMember(m: Members, v: Value)
    ensures Append(m, BINDINGS, v).Member?
  {
  }

  /** What the item loop still has to write, before the closing bracket. */
  function RestText(rest: Items, first: bool, replaced: bool, name: string, binding: Document): string {
    var left := if replaced then Bare(rest) else Replace(rest, name, binding);
    Separator(!first && left.Item?) + RenderItems(left)
  }

  function ItemText(rest: Items, replaced: bool, name: string, binding: Document): string
    requires rest.Item?
  {
    if !replaced && IsFor(rest.value, name) then RenderDocument(binding) else Render(rest.value)
  }

  lemma RestStep(rest: Items, first: bool, replaced: bool, name: string, binding: Document)
    requires rest.Item?
    ensures RestText(rest, first, replaced, name, binding)
         == Separator(!first) + (ItemText(rest, replaced, name, binding)
              + RestText(rest.rest, false, replaced || IsFor(rest.value, name), name, binding))
  {
    hide Render, IsFor;
  }

  lemma RestEnd(first: bool, replaced: bool, name: string, binding: Document)
    ensures RestText(NoItems, first, replaced, name, binding)
         == if replaced then "" else Separator(!first) + RenderDocument(binding)
  {
    hide Render;
    assert RenderItems(NoItems) == "";
  }

  lemma WholeText(m: Members, name: string, binding: Document)
    ensures Render(Rewritten(m, name, binding))
         == "{" + (MembersText(m)
                   + ("\"bindings\":[" + (RestText(OldItems(m), true, false, name, binding) + "]}")))
  {
    hide MembersText, Append, Kept, OldItems;
    var items := Replace(OldItems(m), name, binding);
    hide Replace, RenderItems;
    MembersRender(m, Array("", items));
    assert RestText(OldItems(m), true, false, name, binding) == RenderItems(items);
    ArrayText(items);
    assert Quoted(BINDINGS) == "\"bindings\"";
    Regroup(MembersText(m), RenderItems(items));
    hide RenderMembers;
    ObjectText(Append(Kept(m), BINDINGS, Array("", items)));
  }

  lemma ArrayText(items: Items)
    ensures Render(Array("", items)) == "[" + (RenderItems(items) + "]")
  {
  }

  lemma ObjectText(m: Members)
    ensures Render(Object("", m)) == "{" + (RenderMembers(m) + "}")
  {
  }

  lemma Regroup(a: string, b: string)
    ensures "{" + ((a + ("\"bindings\"" + (":" + ("[" + (b + "]"))))) + "}")
         == "{" + (a + ("\"bindings\":[" + (b + "]}")))
  {
  }

  // ----- the loops

  /** The writer holds text, or gave up because text did not fit. */
  predicate Emitted(w: Writer, text: string)
    reads w, w.data
  {
    w.Valid() && if |text| < w.data.Length then !w.failed && w.Contents() == text else w.failed
  }

  /** One bosun_json_write of a sequence whose failures are looked at only at the end. */
  method Emit(w: Writer, text: string, ghost sofar: string)
    requires Emitted(w, sofar)
    modifies w`length, w`failed, w.data
    ensures Emitted(w, sofar + text)
  {
    var ok := w.Write(text);
  }

  /** The members other than bindings, as they stand. */
  method WriteMembers(text: string, tokens: seq<Token>, w: Writer, ghost o: Value)
    requires 0 < |tokens| && Encodes(text, tokens, 0, o) && o.Object? && Emitted(w, "{")
    modifies w`length, w`failed, w.data
    ensures Emitted(w, "{" + MembersText(o.members))
  {
    hide Encodes, EncodesMembers, Emitted, Flat, At, Render, Valid, Count, Spells, Body, IsBody, MembersText, MemberText;
    HeadToken(text, tokens, 0, o);
    var end := tokens[0].next;
    var i: nat := 1;
    InsideObject(text, tokens, 0, o);
    ghost var rest, at: nat := o.members, tokens[0].start + 1 + |o.pad|;
    ghost var sofar := "{";
    while i < end
      invariant EncodesMembers(text, tokens, i, end, rest, at)
      invariant Emitted(w, sofar) && sofar + MembersText(rest) == "{" + MembersText(o.members)
      decreases end - i
    {
      MembersLeft(text, tokens, i, end, rest, at);
      FirstMember(text, tokens, i, end, rest, at);
      HeadToken(text, tokens, i + 1, rest.value);
      MemberStep(rest);
      sofar := WriteMember(text, tokens, i, w, rest, sofar);
      at := MemberRestAt(rest, at);
      rest := rest.rest;
      i := tokens[i + 1].next;
    }
    NoMembersLeft(text, tokens, i, end, rest, at);
    MembersDone(sofar);
  }

  lemma MemberStep(m: Members)
    requires m.Member?
    ensures MembersText(m) ==
            (if Spells(m.key, BINDINGS) then "" else MemberText(m.key, m.value)) + MembersText(m.rest)
  {
    hide Spells, Render;
  }

  lemma MembersDone(sofar: string)
    ensures sofar + MembersText(NoMembers) == sofar
  {
  }

  /** One turn of the loop. */
  method WriteMember(text: string, tokens: seq<Token>, i: nat, w: Writer, ghost m: Members, ghost sofar: string)
    returns (ghost now: string)
    requires m.Member? && i + 1 < |tokens| && Encodes(text, tokens, i, Str(m.key)) && Encodes(text, tokens, i + 1, m.value)
    requires Emitted(w, sofar)
    modifies w`length, w`failed, w.data
    ensures Emitted(w, now)
    ensures now + MembersText(m.rest) == sofar + MembersText(m)
  {
    hide Encodes, Emitted, Flat, At, Render, Valid, Count, Spells, Body, IsBody, MembersText;
    BodyOf(text, tokens, i, Str(m.key));
    KeyIsBody(text, tokens, i, m.key);
    MemberStep(m);
    var same := Equal(Body(text, tokens[i]), BINDINGS);
    if same { return sofar; }
    var ok, key := Raw(text, tokens, i, Str(m.key));
    var good, value := Raw(text, tokens, i + 1, m.value);
    Emit(w, key, sofar);
    Emit(w, ":", sofar + key);
    Emit(w, value, sofar + key + ":");
    Emit(w, ",", sofar + key + ":" + value);
    now := sofar + key + ":" + value + ",";
    KeyText(m.key);
    PiecesOf(sofar, key, value, MembersText(m.rest));
  }

  lemma KeyText(key: string)
    ensures Render(Str(key)) == Quoted(key)
  {
  }

  lemma PiecesOf(sofar: string, key: string, value: string, rest: string)
    ensures sofar + key + ":" + value + "," + rest == sofar + ((key + (":" + (value + ","))) + rest)
  {
  }

  /** The entry for this switch, by its switch member. */
  method SameSwitch(text: string, tokens: seq<Token>, i: nat, name: string, ghost v: Value) returns (same: bool)
    requires i < |tokens| && Encodes(text, tokens, i, v)
    ensures same <==> IsFor(v, name)
  {
    hide Encodes, Lookup, Spells, Body, IsBody, Valid, Flat, Render;
    HeadToken(text, tokens, i, v);
    var at := Get(text, tokens, i, SWITCH, v);
    if at < 0 { return false; }
    ghost var found := Lookup(v.members, SWITCH).value;
    HeadToken(text, tokens, at, found);
    if tokens[at].kind != StringToken { return false; }
    BodyOf(text, tokens, at, found);
    KeyIsBody(text, tokens, at, found.body);
    same := Equal(Body(text, tokens[at]), name);
  }

  ghost predicate AllObjects(items: Items) {
    match items
    case NoItems => true
    case Item(_, v, _, rest) => v.Object? && AllObjects(rest)
  }

  /** The new array, without its closing bracket; false when an entry is no object. */
  method WriteItems(text: string, tokens: seq<Token>, bindings: int, binding: string, name: string, w: Writer,
                    ghost a: Value, ghost b: Document, ghost before: string)
    returns (ok: bool)
    requires bindings < |tokens| && (bindings >= 0 ==> Encodes(text, tokens, bindings, a) && a.Array?)
    requires Emitted(w, before) && RenderDocument(b) == binding
    modifies w`length, w`failed, w.data
    ensures var items := if bindings >= 0 then a.items else NoItems;
      && (ok <==> AllObjects(items))
      && (ok ==> Emitted(w, before + RestText(items, true, false, name, b)))
  {
    hide Encodes, EncodesItems, Emitted, Flat, At, Render, Valid, Count, IsFor, RestText, ItemText, Lookup, RenderDocument;
    var first, replaced := true, false;
    ghost var items := if bindings >= 0 then a.items else NoItems;
    ghost var sofar, rest := before, items;
    if bindings >= 0 {
      HeadToken(text, tokens, bindings, a);
      var end := tokens[bindings].next;
      var i: nat := bindings + 1;
      InsideArray(text, tokens, bindings, a);
      ghost var at: nat := tokens[bindings].start + 1 + |a.pad|;
      while i < end
        invariant EncodesItems(text, tokens, i, end, rest, at)
        invariant Emitted(w, sofar)
        invariant sofar + RestText(rest, first, replaced, name, b) == before + RestText(items, true, false, name, b)
        invariant AllObjects(items) <==> AllObjects(rest)
        decreases end - i
      {
        ItemsLeft(text, tokens, i, end, rest, at);
        FirstItem(text, tokens, i, end, rest, at);
        HeadToken(text, tokens, i, rest.value);
        CountPositive(rest.value);
        if tokens[i].kind != ObjectToken { return false; }
        replaced, sofar := WriteItem(text, tokens, i, binding, name, w, first, replaced, rest, b, sofar);
        first := false;
        at := ItemRestAt(rest, at);
        rest := rest.rest;
        i := tokens[i].next;
      }
      NoItemsLeft(text, tokens, i, end, rest, at);
    }
    FinishItems(binding, w, first, replaced, name, b, sofar);
    ok := true;
  }

  method WriteItem(text: string, tokens: seq<Token>, i: nat, binding: string, name: string, w: Writer,
                   first: bool, replaced: bool, ghost rest: Items, ghost b: Document, ghost sofar: string)
    returns (done: bool, ghost now: string)
    requires rest.Item? && i < |tokens| && Encodes(text, tokens, i, rest.value)
    requires Emitted(w, sofar) && RenderDocument(b) == binding
    modifies w`length, w`failed, w.data
    ensures Emitted(w, now) && done == (replaced || IsFor(rest.value, name))
    ensures now + RestText(rest.rest, false, done, name, b) == sofar + RestText(rest, first, replaced, name, b)
  {
    hide Encodes, Emitted, Flat, At, Render, Valid, Count, IsFor, RestText, Lookup, RenderDocument;
    RestStep(rest, first, replaced, name, b);
    var separator := if first then "" else ",";
    if !first { Emit(w, ",", sofar); }
    assert Emitted(w, sofar + separator) by { assert sofar + "" == sofar; }
    done := replaced;
    var same := false;
    if !replaced { same := SameSwitch(text, tokens, i, name, rest.value); }
    var piece := binding;
    if same {
      done := true;
    } else {
      var good;
      good, piece := Raw(text, tokens, i, rest.value);
    }
    Emit(w, piece, sofar + separator);
    now := sofar + separator + piece;
    assert now + RestText(rest.rest, false, done, name, b)
        == sofar + (separator + (piece + RestText(rest.rest, false, done, name, b)));
  }

  method FinishItems(binding: string, w: Writer, first: bool, replaced: bool, name: string,
                     ghost b: Document, ghost sofar: string)
    requires Emitted(w, sofar) && RenderDocument(b) == binding
    modifies w`length, w`failed, w.data
    ensures Emitted(w, sofar + RestText(NoItems, first, replaced, name, b))
  {
    hide Emitted, RestText, RenderDocument;
    RestEnd(first, replaced, name, b);
    if replaced {
      assert sofar + "" == sofar;
      return;
    }
    if !first { Emit(w, ",", sofar); }
    ghost var separator := if first then "" else ",";
    assert Emitted(w, sofar + separator) by { assert sofar + "" == sofar; }
    Emit(w, binding, sofar + separator);
    assert sofar + separator + binding == sofar + (separator + binding);
  }

  datatype Rewrite = Written | TooBig | NotBindings

  /** The bindings member, if any, is an array of objects. */
  ghost predicate HasBindings(m: Members) {
    match Lookup(m, BINDINGS)
    case None => true
    case Some(Array(_, items)) => AllObjects(items)
    case _ => false
  }

  /** bosun_config_put_binding from the parsed patch to the new text: what it
      writes is the text of PatchBinding.Rewritten. */
  method RewritePatch(text: string, tokens: seq<Token>, binding: string, name: string, w: Writer,
                      ghost o: Value, ghost b: Document)
    returns (r: Rewrite)
    requires 0 < |tokens| && Encodes(text, tokens, 0, o) && o.Object?
    requires w.Valid() && w.length == 0 && w.failed == (w.data.Length == 0)
    requires RenderDocument(b) == binding
    modifies w`length, w`failed, w.data
    ensures r.NotBindings? <==> !HasBindings(o.members)
    ensures !r.NotBindings? ==>
              (r.Written? <==> |Render(Rewritten(o.members, name, b))| < w.data.Length)
    ensures r.Written? ==> w.Valid() && w.Contents() == Render(Rewritten(o.members, name, b))
  {
    hide Encodes, EncodesItems, EncodesMembers, Flat, At, Render, Valid, Count, Lookup, MembersText, RestText,
         RenderDocument, Rewritten;
    var at := Get(text, tokens, 0, BINDINGS, o);
    ghost var found := Lookup(o.members, BINDINGS);
    if at >= 0 {
      HeadToken(text, tokens, at, found.value);
      if tokens[at].kind != ArrayToken { return NotBindings; }
    }
    NothingWritten(w);
    Emit(w, "{", "");
    WriteMembers(text, tokens, w, o);
    ghost var head := "{" + MembersText(o.members);
    Emit(w, "\"bindings\":[", head);
    var ok := WriteItems(text, tokens, at, binding, name, w, if at >= 0 then found.value else Null, b,
                         head + "\"bindings\":[");
    if !ok { return NotBindings; }
    ghost var rest := RestText(OldItems(o.members), true, false, name, b);
    Emit(w, "]}", head + "\"bindings\":[" + rest);
    WholeText(o.members, name, b);
    Whole(MembersText(o.members), rest);
    r := if w.failed then TooBig else Written;
  }

  lemma NothingWritten(w: Writer)
    requires w.Valid() && w.length == 0 && w.failed == (w.data.Length == 0)
    ensures Emitted(w, "") && "" + "{" == "{"
  {
  }

  lemma Whole(a: string, b: string)
    ensures ("{" + a) + "\"bindings\":[" + b + "]}" == "{" + (a + ("\"bindings\":[" + (b + "]}")))
  {
  }
}
