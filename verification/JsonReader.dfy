/** firmware/src/json.c, lines 136 to 227: reading a parsed document through its
    token array. Each reader is specified on the syntax tree the tokens encode. */
module JsonReader {
  import opened JsonGrammar
  import opened JsonParser
  import opened JsonParserProofs
  import opened JsonCompleteness
  import opened JsonTheorems

  datatype Option<+T> = None | Some(value: T)

  /** Token i and its children are the encoding of v at its place in the text. */
  ghost predicate Encodes(text: string, tokens: seq<Token>, i: nat, v: Value) {
    && i + Count(v) <= |tokens|
    && tokens[i..i + Count(v)] == Flat(v, tokens[i].start, i)
    && At(text, tokens[i].start, Render(v))
    && Valid(v)
  }

  /** The first token of a successful parse encodes the document's value. */
  lemma RootEncodes(text: string, capacity: nat) returns (d: Document)
    requires Parse(text, capacity).Ok?
    ensures DocumentOf(d, text) && Fits(d.value, capacity)
    ensures Encodes(text, Parse(text, capacity).tokens, 0, d.value)
  {
    d := ParseSound(text, capacity);
    hide Flat, Valid, Render, Height, Count, Parse, At;
    var v := d.value;
    FlatHead(v, |d.before|, 0);
    AtSlice(text, 0, text);
    assert text[0..|text|] == text;
    AtConcat(text, 0, d.before, Render(v) + d.after);
    AtConcat(text, |d.before|, Render(v), d.after);
    var t := Flat(v, |d.before|, 0);
    assert t[0..|t|] == t;
  }

  lemma CountPositive(v: Value)
    ensures Count(v) > 0
  {
  }

  lemma FlatHead(v: Value, at: nat, index: nat)
    ensures Count(v) > 0
    ensures Flat(v, at, index)[0].start == at
    ensures Flat(v, at, index)[0].end == at + |Render(v)|
    ensures Flat(v, at, index)[0].next == index + Count(v)
    ensures Flat(v, at, index)[0].kind == KindOf(v)
  {
  }

  function KindOf(v: Value): Kind {
    match v
    case Null => NullToken
    case True => TrueToken
    case False => FalseToken
    case Number(_) => NumberToken
    case Str(_) => StringToken
    case Array(_, _) => ArrayToken
    case Object(_, _) => ObjectToken
  }

  /** What a token says about the value it encodes. */
  lemma HeadToken(text: string, tokens: seq<Token>, i: nat, v: Value)
    requires Encodes(text, tokens, i, v)
    ensures i < |tokens| && tokens[i].kind == KindOf(v)
    ensures tokens[i].end == tokens[i].start + |Render(v)| <= |text|
    ensures tokens[i].next == i + Count(v) <= |tokens|
    ensures text[tokens[i].start..tokens[i].end] == Render(v)
  {
    hide Flat, Valid, Render, Count;
    CountPositive(v);
    FlatHead(v, tokens[i].start, i);
    assert tokens[i..i + Count(v)][0] == tokens[i];
  }

  // ----- lookups on the tree

  /** The value of the last member whose key spells key. */
  function Lookup(m: Members, key: string): Option<Value> {
    match m
    case NoMembers => None
    case Member(_, k, _, _, v, _, rest) =>
      match Lookup(rest, key)
      case Some(later) => Some(later)
      case None => if Spells(k, key) then Some(v) else None
  }

  function Element(items: Items, n: nat): Option<Value> {
    match items
    case NoItems => None
    case Item(_, v, _, rest) => if n == 0 then Some(v) else Element(rest, n - 1)
  }

  // ----- decoded strings

  datatype Decoded = Text(bytes: string) | Undecodable

  function Prepend(head: string, tail: Decoded): Decoded {
    match tail
    case Text(t) => Text(head + t)
    case Undecodable => Undecodable
  }

  function HexDigit(c: char): nat
    requires IsHex(c)
  {
    if IsDigit(c) then c as int - '0' as int
    else if 'a' <= c <= 'f' then c as int - 'a' as int + 10
    else c as int - 'A' as int + 10
  }

  predicate Hex4At(s: string, pos: nat) {
    pos + 4 <= |s| && IsHex(s[pos]) && IsHex(s[pos + 1]) && IsHex(s[pos + 2]) && IsHex(s[pos + 3])
  }

  function Hex4(s: string, pos: nat): (code: nat)
    requires Hex4At(s, pos)
    ensures code <= 0xFFFF
  {
    HexDigit(s[pos]) * 0x1000 + HexDigit(s[pos + 1]) * 0x100 + HexDigit(s[pos + 2]) * 0x10 + HexDigit(s[pos + 3])
  }

  function Unescape(c: char): char {
    if c == 'b' then 8 as char else if c == 'f' then 12 as char else if c == 'n' then 10 as char
    else if c == 'r' then 13 as char else if c == 't' then 9 as char else c
  }

  /** Section 3 of RFC 3629. */
  function Utf8Encode(code: nat): (t: string)
    requires code <= 0x10_FFFF && !(0xD800 <= code <= 0xDFFF)
    ensures 1 <= |t| <= 4
  {
    if code < 0x80 then [code as char]
    else if code < 0x800 then [(0xC0 + code / 0x40) as char, (0x80 + code % 0x40) as char]
    else if code < 0x1_0000 then
      [(0xE0 + code / 0x1000) as char, (0x80 + code / 0x40 % 0x40) as char, (0x80 + code % 0x40) as char]
    else
      [(0xF0 + code / 0x4_0000) as char, (0x80 + code / 0x1000 % 0x40) as char,
       (0x80 + code / 0x40 % 0x40) as char, (0x80 + code % 0x40) as char]
  }

  /** The code point of the escape at pos and the bytes it takes: a surrogate pair
      is two escapes. None when it is unpaired, NUL or cut off. */
  function EscapedCode(s: string, pos: nat): (r: Option<(nat, nat)>)
    ensures r.Some? ==> 0 < r.value.0 <= 0x10_FFFF && !(0xD800 <= r.value.0 <= 0xDFFF)
    ensures r.Some? ==> (r.value.1 == 6 || r.value.1 == 12) && pos + r.value.1 <= |s|
  {
    if !Hex4At(s, pos + 2) then None
    else
      var code := Hex4(s, pos + 2);
      if 0xD800 <= code <= 0xDBFF then
        if |s| - pos < 12 || s[pos + 6] != '\\' || s[pos + 7] != 'u' || !Hex4At(s, pos + 8) then None
        else
          var low := Hex4(s, pos + 8);
          if low < 0xDC00 || low > 0xDFFF then None
          else Some((0x1_0000 + (code - 0xD800) * 0x400 + (low - 0xDC00), 12))
      else if code == 0 || 0xDC00 <= code <= 0xDFFF then None
      else Some((code, 6))
  }

  /** The bytes a string body stands for, from pos on. */
  function DecodeFrom(body: string, pos: nat): Decoded
    requires pos <= |body|
    decreases |body| - pos
  {
    if pos == |body| then Text("")
    else if body[pos] != '\\' then Prepend([body[pos]], DecodeFrom(body, pos + 1))
    else if pos + 1 == |body| then Undecodable
    else if body[pos + 1] != 'u' then Prepend([Unescape(body[pos + 1])], DecodeFrom(body, pos + 2))
    else
      match EscapedCode(body, pos)
      case None => Undecodable
      case Some((code, n)) => Prepend(Utf8Encode(code), DecodeFrom(body, pos + n))
  }

  function Decode(body: string): Decoded {
    DecodeFrom(body, 0)
  }

  predicate Spells(body: string, text: string) {
    Decode(body) == Text(text)
  }

  // ----- the readers

  /** bosun_json_raw */
  method Raw(text: string, tokens: seq<Token>, i: int, ghost v: Value) returns (ok: bool, raw: string)
    requires 0 <= i < |tokens| ==> Encodes(text, tokens, i, v)
    ensures ok <==> 0 <= i < |tokens|
    ensures ok ==> raw == Render(v)
  {
    if i < 0 || i >= |tokens| { return false, ""; }
    HeadToken(text, tokens, i, v);
    return true, text[tokens[i].start..tokens[i].end];
  }

  /** The body of a string token. */
  function Body(text: string, t: Token): string
    requires t.start + 2 <= t.end <= |text|
  {
    text[t.start + 1..t.end - 1]
  }

  lemma BodyOf(text: string, tokens: seq<Token>, i: nat, v: Value)
    requires Encodes(text, tokens, i, v) && v.Str?
    ensures i < |tokens| && tokens[i].start + 2 <= tokens[i].end <= |text| && Body(text, tokens[i]) == v.body
  {
    HeadToken(text, tokens, i, v);
    var t := tokens[i];
    var raw := text[t.start..t.end];
    assert raw == Quoted(v.body);
    assert raw[1..|raw| - 1] == v.body;
    assert text[t.start + 1..t.end - 1] == raw[1..|raw| - 1];
  }

  /** The rest of a body from pos on is a sequence of well-formed characters. */
  predicate Units(body: string, pos: nat)
    requires pos <= |body|
    decreases |body| - pos
  {
    pos == |body| || (UnitLength(body, pos) > 0 && Units(body, pos + UnitLength(body, pos)))
  }

  lemma {:induction false} BodyUnits(body: string, pos: nat)
    requires pos <= |body| && IsBody(body[pos..])
    ensures Units(body, pos)
    decreases |body| - pos
  {
    if pos < |body| {
      var rest := body[pos..];
      var n :| 1 <= n <= |rest| && CharUnit(rest[..n]) && IsBody(rest[n..]);
      assert rest[..n] == body[pos..pos + n];
      assert rest[n..] == body[pos + n..];
      UnitComplete(body, pos, n);
      BodyUnits(body, pos + n);
    }
  }

  /** Raw bytes up to the character boundary at hold, and only there escapes. */
  ghost predicate Aligned(body: string, pos: nat, hold: nat) {
    pos <= hold <= |body| && Units(body, hold) && forall i | pos <= i < hold :: body[i] != '\\'
  }

  lemma AlignedStart(body: string)
    requires IsBody(body)
    ensures Aligned(body, 0, 0)
  {
    assert body[0..] == body;
    BodyUnits(body, 0);
  }

  lemma DecodeEnd(body: string)
    ensures DecodeFrom(body, |body|) == Text("")
  {
  }

  /** The bytes at pos: what they stand for, and where the next ones are. */
  method NextBytes(body: string, pos: nat, ghost hold: nat)
    returns (ok: bool, bytes: string, next: nat, ghost held: nat)
    requires pos < |body| && Aligned(body, pos, hold)
    ensures pos < next <= |body| && (ok ==> Aligned(body, next, held))
    ensures DecodeFrom(body, pos) == if ok then Prepend(bytes, DecodeFrom(body, next)) else Undecodable
  {
    hide EscapedCode, Utf8Length, SimpleEscape, Utf8Multi;
    ghost var n := UnitLength(body, pos);
    held := if pos == hold then pos + n else hold;
    ok, bytes, next := true, [body[pos]], pos + 1;
    if body[pos] == '\\' {
      assert pos == hold && Units(body, pos + n);
      var c := body[next];
      if c == 'u' {
        var code;
        ok, code, next := EscapeCode(body, pos);
        if !ok { return false, "", next, held; }
        bytes := Utf8Encode(code);
        held := next;
      } else {
        next := next + 1;
        bytes := [Unescape(c)];
      }
    } else if pos == hold {
      UnitSound(body, pos);
      RawUnit(body[pos..pos + n]);
      assert forall i | pos <= i < pos + n :: body[i] == body[pos..pos + n][i - pos];
    }
  }

  /** The code point of a \\u escape, or of two that form a surrogate pair. */
  method EscapeCode(body: string, pos: nat) returns (ok: bool, code: nat, next: nat)
    requires pos + 6 <= |body| && body[pos] == '\\' && body[pos + 1] == 'u' && Units(body, pos)
    ensures ok <==> EscapedCode(body, pos).Some?
    ensures ok ==> EscapedCode(body, pos) == Some((code, next - pos)) && Units(body, next)
    ensures pos < next <= |body|
  {
    assert UnitLength(body, pos) == 6 && Units(body, pos + 6);
    code := Hex4(body, pos + 2);
    next := pos + 6;
    if 0xD800 <= code <= 0xDBFF {
      if |body| - next < 6 || body[next] != '\\' || body[next + 1] != 'u' { return false, 0, next; }
      assert UnitLength(body, next) == 6 && Units(body, next + 6);
      var low := Hex4(body, next + 2);
      if low < 0xDC00 || low > 0xDFFF { return false, 0, next; }
      code := 0x1_0000 + (code - 0xD800) * 0x400 + low - 0xDC00;
      next := next + 6;
    } else if 0xDC00 <= code <= 0xDFFF {
      return false, 0, next;
    }
    ok := code != 0;
  }

  lemma RawUnit(u: string)
    requires CharUnit(u) && u[0] != '\\'
    ensures forall i | 0 <= i < |u| :: u[i] != '\\'
  {
  }

  lemma PrependTwice(a: string, b: string, d: Decoded)
    ensures Prepend(a, Prepend(b, d)) == Prepend(a + b, d)
  {
    if d.Text? {
      assert a + (b + d.bytes) == (a + b) + d.bytes;
    }
  }

  /** bosun_json_equal on a string token: compare is a C string. */
  method Equal(body: string, compare: string) returns (ok: bool)
    requires IsBody(body)
    ensures ok <==> Spells(body, compare)
  {
    hide Aligned, DecodeFrom, IsBody, Units;
    DecodeEnd(body);
    var pos: nat, length: nat := 0, 0;
    ghost var hold := 0;
    AlignedStart(body);
    while pos < |body|
      invariant pos <= |body| && length <= |compare| && Aligned(body, pos, hold)
      invariant Decode(body) == Prepend(compare[..length], DecodeFrom(body, pos))
    {
      ghost var rest := DecodeFrom(body, pos);
      var good, bytes, next;
      good, bytes, next, hold := NextBytes(body, pos, hold);
      if !good { return false; }
      PrependTwice(compare[..length], bytes, DecodeFrom(body, next));
      if |bytes| > |compare| - length || compare[length..length + |bytes|] != bytes {
        Mismatch(compare, length, bytes, DecodeFrom(body, next));
        return false;
      }
      assert compare[..length] + bytes == compare[..length + |bytes|];
      length := length + |bytes|;
      pos := next;
    }
    ok := length == |compare|;
    assert Decode(body) == Text(compare[..length]);
    assert ok ==> compare[..length] == compare;
  }

  lemma Mismatch(compare: string, length: nat, bytes: string, tail: Decoded)
    requires length <= |compare|
    requires |bytes| > |compare| - length || compare[length..length + |bytes|] != bytes
    ensures Prepend(compare[..length] + bytes, tail) != Text(compare)
  {
    var whole := compare[..length] + bytes + (if tail.Text? then tail.bytes else "");
    assert whole[length..length + |bytes|] == bytes;
  }

  /** bosun_json_string on a string token: out holds capacity - 1 bytes and a NUL. */
  method String(body: string, capacity: nat) returns (ok: bool, out: string)
    requires IsBody(body)
    ensures ok <==> Decode(body).Text? && |Decode(body).bytes| < capacity
    ensures ok ==> out == Decode(body).bytes
  {
    hide Aligned, DecodeFrom, IsBody, Units;
    DecodeEnd(body);
    out := "";
    if capacity == 0 { return false, out; }
    var pos := 0;
    ghost var hold := 0;
    AlignedStart(body);
    assert Decode(body) == Prepend("", DecodeFrom(body, 0));
    while pos < |body|
      invariant pos <= |body| && |out| < capacity && Aligned(body, pos, hold)
      invariant Decode(body) == Prepend(out, DecodeFrom(body, pos))
    {
      var good, bytes, next;
      good, bytes, next, hold := NextBytes(body, pos, hold);
      if !good { return false, out; }
      PrependTwice(out, bytes, DecodeFrom(body, next));
      if |out| + |bytes| >= capacity { return false, out; }
      out := out + bytes;
      pos := next;
    }
    ok := true;
  }

  /** Tokens i up to end are the encoding of a member list. */
  ghost predicate EncodesMembers(text: string, tokens: seq<Token>, i: nat, end: nat, m: Members, at: nat) {
    && i + MembersCount(m) == end <= |tokens|
    && tokens[i..end] == FlatMembers(m, at, i)
    && At(text, at, RenderMembers(m))
    && ValidMembers(m)
  }

  ghost predicate EncodesItems(text: string, tokens: seq<Token>, i: nat, end: nat, items: Items, at: nat) {
    && i + ItemsCount(items) == end <= |tokens|
    && tokens[i..end] == FlatItems(items, at, i)
    && At(text, at, RenderItems(items))
    && ValidItems(items)
  }

  lemma Cut(tokens: seq<Token>, a: nat, m: nat, b: nat, left: seq<Token>, right: seq<Token>)
    requires a <= m <= b <= |tokens| && tokens[a..b] == left + right && |left| == m - a
    ensures tokens[a..m] == left && tokens[m..b] == right
  {
    assert tokens[a..m] == tokens[a..b][..m - a];
    assert tokens[m..b] == tokens[a..b][m - a..];
  }

  lemma InsideObject(text: string, tokens: seq<Token>, i: nat, o: Value)
    requires Encodes(text, tokens, i, o) && o.Object?
    ensures EncodesMembers(text, tokens, i + 1, i + Count(o), o.members, tokens[i].start + 1 + |o.pad|)
  {
    hide At, FlatMembers, RenderMembers, Render;
    EncloseAt(text, tokens[i].start, o, '}');
    Cut(tokens, i, i + 1, i + Count(o), Flat(o, tokens[i].start, i)[..1], Flat(o, tokens[i].start, i)[1..]);
  }

  lemma InsideArray(text: string, tokens: seq<Token>, i: nat, o: Value)
    requires Encodes(text, tokens, i, o) && o.Array?
    ensures EncodesItems(text, tokens, i + 1, i + Count(o), o.items, tokens[i].start + 1 + |o.pad|)
  {
    hide At, FlatItems, RenderItems, Render;
    EncloseAt(text, tokens[i].start, o, ']');
    Cut(tokens, i, i + 1, i + Count(o), Flat(o, tokens[i].start, i)[..1], Flat(o, tokens[i].start, i)[1..]);
  }

  lemma EncodesPart(text: string, tokens: seq<Token>, i: nat, v: Value, at: nat)
    requires i + Count(v) <= |tokens| && tokens[i..i + Count(v)] == Flat(v, at, i)
    requires At(text, at, Render(v)) && Valid(v)
    ensures Encodes(text, tokens, i, v)
  {
    hide Flat, At, Valid, Render, Count;
    CountPositive(v);
    FlatHead(v, at, i);
    assert tokens[i..i + Count(v)][0] == tokens[i];
  }

  lemma FirstItem(text: string, tokens: seq<Token>, i: nat, end: nat, items: Items, at: nat)
    requires EncodesItems(text, tokens, i, end, items, at) && items.Item?
    ensures Encodes(text, tokens, i, items.value)
    ensures EncodesItems(text, tokens, i + Count(items.value), end, items.rest, ItemRestAt(items, at))
  {
    hide At, Flat, Render, RenderItems, Valid, Count;
    ItemAt(text, at, items);
    var c := Count(items.value);
    Cut(tokens, i, i + c, end, Flat(items.value, at + |items.before|, i),
        FlatItems(items.rest, ItemRestAt(items, at), i + c));
    EncodesPart(text, tokens, i, items.value, at + |items.before|);
  }

  lemma FirstMember(text: string, tokens: seq<Token>, i: nat, end: nat, m: Members, at: nat)
    requires EncodesMembers(text, tokens, i, end, m, at) && m.Member?
    ensures i + 1 + Count(m.value) <= end
    ensures Encodes(text, tokens, i, Str(m.key))
    ensures Encodes(text, tokens, i + 1, m.value)
    ensures EncodesMembers(text, tokens, i + 1 + Count(m.value), end, m.rest, MemberRestAt(m, at))
  {
    hide At, Flat, Render, RenderMembers, Valid, Count, FlatMembers, IsBody;
    MemberAt(text, at, m);
    FlatMember(m, at, [], Str(m.key));
    MemberSizes(m);
    KeyFacts(m.key, at + |m.before|, i);
    FlatFirst(m, at, i);
    var c := Count(m.value);
    var k := at + |m.before|;
    Cut(tokens, i, i + 1, end, Flat(Str(m.key), k, i),
        Flat(m.value, MemberValueAt(m, at), i + 1) + FlatMembers(m.rest, MemberRestAt(m, at), i + 1 + c));
    Cut(tokens, i + 1, i + 1 + c, end, Flat(m.value, MemberValueAt(m, at), i + 1),
        FlatMembers(m.rest, MemberRestAt(m, at), i + 1 + c));
    EncodesPart(text, tokens, i, Str(m.key), k);
    EncodesPart(text, tokens, i + 1, m.value, MemberValueAt(m, at));
  }

  lemma FlatFirst(m: Members, at: nat, i: nat)
    requires m.Member?
    ensures FlatMembers(m, at, i)
         == Flat(Str(m.key), at + |m.before|, i)
            + (Flat(m.value, MemberValueAt(m, at), i + 1)
               + FlatMembers(m.rest, MemberRestAt(m, at), i + 1 + Count(m.value)))
  {
  }

  /** bosun_json_get: the token of the last member with this key, or -1. */
  method Get(text: string, tokens: seq<Token>, target: int, key: string, ghost o: Value) returns (found: int)
    requires 0 <= target < |tokens| ==> Encodes(text, tokens, target, o)
    ensures var v := if 0 <= target < |tokens| && o.Object? then Lookup(o.members, key) else None;
      match v
      case None => found == -1
      case Some(w) => 0 <= found < |tokens| && Encodes(text, tokens, found, w)
  {
    hide Encodes, EncodesMembers, Flat, At, Render, Valid, Count, Spells, Body, IsBody;
    found := -1;
    if target < 0 || target >= |tokens| { return; }
    HeadToken(text, tokens, target, o);
    if tokens[target].kind != ObjectToken { return; }
    var end := tokens[target].next;
    var i: nat := target + 1;
    InsideObject(text, tokens, target, o);
    ghost var rest, at: nat := o.members, tokens[target].start + 1 + |o.pad|;
    ghost var last: Option<Value> := None;
    while i < end
      invariant EncodesMembers(text, tokens, i, end, rest, at)
      invariant last.None? ==> found == -1
      invariant last.Some? ==> 0 <= found < |tokens| && Encodes(text, tokens, found, last.value)
      invariant Lookup(o.members, key) == if Lookup(rest, key).Some? then Lookup(rest, key) else last
      decreases end - i
    {
      MembersLeft(text, tokens, i, end, rest, at);
      FirstMember(text, tokens, i, end, rest, at);
      var v := i + 1;
      HeadToken(text, tokens, v, rest.value);
      BodyOf(text, tokens, i, Str(rest.key));
      KeyIsBody(text, tokens, i, rest.key);
      var same := Equal(Body(text, tokens[i]), key);
      if same {
        found := v;
        last := Some(rest.value);
      }
      at := MemberRestAt(rest, at);
      rest := rest.rest;
      i := tokens[v].next;
    }
    NoMembersLeft(text, tokens, i, end, rest, at);
  }

  lemma MembersLeft(text: string, tokens: seq<Token>, i: nat, end: nat, m: Members, at: nat)
    requires EncodesMembers(text, tokens, i, end, m, at) && i < end
    ensures m.Member?
  {
  }

  lemma NoMembersLeft(text: string, tokens: seq<Token>, i: nat, end: nat, m: Members, at: nat)
    requires EncodesMembers(text, tokens, i, end, m, at) && i >= end
    ensures m.NoMembers?
  {
  }

  lemma KeyIsBody(text: string, tokens: seq<Token>, i: nat, key: string)
    requires Encodes(text, tokens, i, Str(key))
    ensures IsBody(key)
  {
  }

  /** bosun_json_at: the token of the element at this index, or -1. */
  method ElementAt(text: string, tokens: seq<Token>, target: int, index: nat, ghost a: Value) returns (found: int)
    requires 0 <= target < |tokens| ==> Encodes(text, tokens, target, a)
    ensures var v := if 0 <= target < |tokens| && a.Array? then Element(a.items, index) else None;
      match v
      case None => found == -1
      case Some(w) => 0 <= found < |tokens| && Encodes(text, tokens, found, w)
  {
    hide Encodes, Flat, At, Render, Valid, Count;
    found := -1;
    if target < 0 || target >= |tokens| { return; }
    HeadToken(text, tokens, target, a);
    if tokens[target].kind != ArrayToken { return; }
    var end := tokens[target].next;
    var i: nat := target + 1;
    var left := index;
    InsideArray(text, tokens, target, a);
    ghost var rest, at: nat := a.items, tokens[target].start + 1 + |a.pad|;
    while i < end
      invariant EncodesItems(text, tokens, i, end, rest, at)
      invariant Element(a.items, index) == Element(rest, left)
      decreases end - i
    {
      ItemsLeft(text, tokens, i, end, rest, at);
      FirstItem(text, tokens, i, end, rest, at);
      HeadToken(text, tokens, i, rest.value);
      CountPositive(rest.value);
      if left == 0 { return i; }
      left := left - 1;
      at := ItemRestAt(rest, at);
      rest := rest.rest;
      i := tokens[i].next;
    }
    NoItemsLeft(text, tokens, i, end, rest, at);
  }

  lemma ItemsLeft(text: string, tokens: seq<Token>, i: nat, end: nat, items: Items, at: nat)
    requires EncodesItems(text, tokens, i, end, items, at) && i < end
    ensures items.Item?
  {
  }

  lemma NoItemsLeft(text: string, tokens: seq<Token>, i: nat, end: nat, items: Items, at: nat)
    requires EncodesItems(text, tokens, i, end, items, at) && i >= end
    ensures items.NoItems?
  {
  }

  // ----- numbers

  newtype uint32 = x: int | 0 <= x < 0x1_0000_0000

  /** The number a run of decimal digits denotes. */
  function DigitsValue(s: string): nat
    requires Digits(s)
  {
    if s == "" then 0 else 10 * DigitsValue(s[..|s| - 1]) + Digit(s[|s| - 1])
  }

  function Digit(c: char): nat
    requires IsDigit(c)
  {
    c as int - '0' as int
  }

  function Magnitude(number: string): string {
    if number != "" && number[0] == '-' then number[1..] else number
  }

  /** An optional minus and digits only: no fraction, no exponent. */
  predicate PlainInteger(number: string) {
    Digits(Magnitude(number))
  }

  function IntegerValue(number: string): int
    requires PlainInteger(number)
  {
    if number != "" && number[0] == '-' then -(DigitsValue(number[1..]) as int) else DigitsValue(number)
  }

  const INT32_MIN: int := -0x8000_0000
  const INT32_MAX: int := 0x7FFF_FFFF

  lemma {:induction false} DigitsGrow(s: string, i: nat)
    requires i <= |s| && Digits(s)
    ensures DigitsValue(s[..i]) <= DigitsValue(s)
    decreases |s|
  {
    if i < |s| {
      var t := s[..|s| - 1];
      DigitsGrow(t, i);
      assert t[..i] == s[..i];
    } else {
      assert s[..i] == s;
    }
  }

  /** bosun_json_integer on a number token. All arithmetic is unsigned 32-bit and
      none of it wraps. */
  method Integer(number: string) returns (ok: bool, out: int)
    requires IsNumber(number)
    ensures ok <==> PlainInteger(number) && INT32_MIN <= IntegerValue(number) <= INT32_MAX
    ensures ok ==> out == IntegerValue(number)
  {
    hide DigitsValue, IsNumber;
    NumberStart(number);
    var negative := number[0] == '-';
    ghost var digits := Magnitude(number);
    var i := if negative then 1 else 0;
    ghost var first := i;
    assert forall j | 0 <= j < |digits| :: digits[j] == number[first + j];
    NoDigits();
    var value: uint32 := 0;
    var limit: uint32 := if negative then 0x8000_0000 else 0x7FFF_FFFF;
    while i < |number|
      invariant first <= i <= |number|
      invariant Digits(digits[..i - first])
      invariant value as int == DigitsValue(digits[..i - first])
      invariant value <= limit
    {
      ghost var k := i - first;
      if !IsDigit(number[i]) {
        assert !IsDigit(digits[k]);
        return false, 0;
      }
      var n := Digit(number[i]) as uint32;
      NextDigit(digits, k);
      if value > (limit - n) / 10 {
        if Digits(digits) {
          DigitsGrow(digits, k + 1);
        }
        return false, 0;
      }
      value := value * 10 + n;
      i := i + 1;
    }
    assert digits[..i - first] == digits;
    out := if negative then (if value == 0x8000_0000 then INT32_MIN else -(value as int)) else value as int;
    ok := true;
  }

  lemma NoDigits()
    ensures DigitsValue("") == 0
  {
  }

  lemma NextDigit(digits: string, k: nat)
    requires k < |digits| && Digits(digits[..k]) && IsDigit(digits[k])
    ensures Digits(digits[..k + 1])
    ensures DigitsValue(digits[..k + 1]) == 10 * DigitsValue(digits[..k]) + Digit(digits[k])
  {
    assert digits[..k + 1][..k] == digits[..k];
  }
}
