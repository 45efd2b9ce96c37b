/** The tokenizer of firmware/src/json.c as a function, and its correctness
    against the grammar: it accepts exactly the JSON texts within its limits,
    and its flat token array is the preorder encoding of the syntax tree. */
module JsonParser {
  import opened JsonGrammar

  const MAX_DEPTH: nat := 32
  const MAX_LENGTH: nat := 0xFFFF_FFFF

  datatype Kind = ObjectToken | ArrayToken | StringToken | NumberToken | TrueToken | FalseToken | NullToken

  /** next is the index of the first token after this value and all its children. */
  datatype Token = Token(kind: Kind, start: nat, end: nat, next: nat)

  datatype Parsed = Done(pos: nat, tokens: seq<Token>) | Stop(limit: bool)

  datatype Result = Ok(tokens: seq<Token>) | Invalid | Limit

  // ----- scanners

  function SkipWs(s: string, pos: nat): (end: nat)
    requires pos <= |s|
    ensures pos <= end <= |s|
    decreases |s| - pos
  {
    if pos < |s| && IsWs(s[pos]) then SkipWs(s, pos + 1) else pos
  }

  function SkipDigits(s: string, pos: nat): (end: nat)
    requires pos <= |s|
    ensures pos <= end <= |s|
    decreases |s| - pos
  {
    if pos < |s| && IsDigit(s[pos]) then SkipDigits(s, pos + 1) else pos
  }

  datatype Scan = Ends(end: nat) | Malformed

  /** Length of the multi-byte character at pos, by decoding it; 0 when malformed. */
  function Utf8Length(s: string, pos: nat): (n: nat)
    requires pos < |s|
    ensures pos + n <= |s|
  {
    var c := s[pos] as int;
    var count := if 0xC2 <= c <= 0xDF then 2 else if 0xE0 <= c <= 0xEF then 3 else if 0xF0 <= c <= 0xF4 then 4 else 0;
    if count == 0 || |s| - pos < count || !(forall i | pos < i < pos + count :: Tail(s[i])) then 0
    else if count == 2 then 2
    else
      var six1 := s[pos + 1] as int - 0x80;
      var six2 := s[pos + 2] as int - 0x80;
      if count == 3 then
        var code := (c - 0xE0) * 0x1000 + six1 * 0x40 + six2;
        if code < 0x800 || 0xD800 <= code <= 0xDFFF then 0 else 3
      else
        var code := (c - 0xF0) * 0x4_0000 + six1 * 0x1000 + six2 * 0x40 + (s[pos + 3] as int - 0x80);
        if code < 0x1_0000 || code > 0x10_FFFF then 0 else 4
  }

  /** Length of the string character at pos; 0 when there is none. */
  function UnitLength(s: string, pos: nat): (n: nat)
    requires pos < |s|
    ensures pos + n <= |s|
  {
    var c := s[pos];
    if c == '"' || c as int < 0x20 then 0
    else if c == '\\' then
      if pos + 1 == |s| then 0
      else if s[pos + 1] == 'u' then
        if pos + 6 <= |s| && forall i | pos + 2 <= i < pos + 6 :: IsHex(s[i]) then 6 else 0
      else if SimpleEscape(s[pos + 1]) then 2 else 0
    else if c as int >= 0x80 then Utf8Length(s, pos)
    else 1
  }

  /** Position after the closing quote, from inside a string body. */
  function StringEnd(s: string, pos: nat): (r: Scan)
    requires pos <= |s|
    ensures r.Ends? ==> pos < r.end <= |s|
    decreases |s| - pos
  {
    if pos == |s| then Malformed
    else if s[pos] == '"' then Ends(pos + 1)
    else
      var n := UnitLength(s, pos);
      if n == 0 then Malformed else StringEnd(s, pos + n)
  }

  function FractionEnd(s: string, pos: nat): (r: Scan)
    requires pos <= |s|
    ensures r.Ends? ==> pos <= r.end <= |s|
  {
    if pos < |s| && s[pos] == '.' then
      if pos + 1 == |s| || !IsDigit(s[pos + 1]) then Malformed else Ends(SkipDigits(s, pos + 1))
    else Ends(pos)
  }

  function ExponentEnd(s: string, pos: nat): (r: Scan)
    requires pos <= |s|
    ensures r.Ends? ==> pos <= r.end <= |s|
  {
    if pos < |s| && (s[pos] == 'e' || s[pos] == 'E') then
      if pos + 1 == |s| then Malformed
      else
        var p := if s[pos + 1] == '-' || s[pos + 1] == '+' then pos + 2 else pos + 1;
        if p == |s| || !IsDigit(s[p]) then Malformed else Ends(SkipDigits(s, p))
    else Ends(pos)
  }

  function IntEnd(s: string, pos: nat): (r: Scan)
    requires pos <= |s|
    ensures r.Ends? ==> pos < r.end <= |s|
  {
    if pos == |s| then Malformed
    else if s[pos] == '0' then Ends(pos + 1)
    else if '1' <= s[pos] <= '9' then Ends(SkipDigits(s, pos))
    else Malformed
  }

  function NumberEnd(s: string, pos: nat): (r: Scan)
    requires pos < |s|
    ensures r.Ends? ==> pos < r.end <= |s|
  {
    match IntEnd(s, if s[pos] == '-' then pos + 1 else pos)
    case Malformed => Malformed
    case Ends(p) =>
      match FractionEnd(s, p)
      case Malformed => Malformed
      case Ends(q) => ExponentEnd(s, q)
  }

  predicate At(s: string, pos: nat, t: string): (b: bool)
    ensures b ==> pos + |t| <= |s|
  {
    pos + |t| <= |s| && s[pos..pos + |t|] == t
  }

  // ----- the parser

  predicate Grows(r: Parsed, s: string, pos: nat, tokens: seq<Token>) {
    r.Done? ==> pos <= r.pos <= |s| && |tokens| < |r.tokens|
  }

  function Scalar(kind: Kind, scan: Scan, pos: nat, tokens: seq<Token>): Parsed {
    match scan
    case Malformed => Stop(false)
    case Ends(end) => Done(end, tokens + [Token(kind, pos, end, |tokens| + 1)])
  }

  function Word(s: string, pos: nat, word: string): Scan {
    if At(s, pos, word) then Ends(pos + |word|) else Malformed
  }

  /** Ends the container whose token is at index: its children are the later tokens. */
  function Close(s: string, r: Parsed, close: char, index: nat): (c: Parsed)
    requires r.Done? ==> r.pos <= |s| && index < |r.tokens|
  {
    match r
    case Stop(_) => r
    case Done(p, t) =>
      if p == |s| || s[p] != close then Stop(false)
      else Done(p + 1, t[index := t[index].(end := p + 1, next := |t|)])
  }

  /** A fresh container token: its end and next are filled in by Close. */
  function Open(s: string, pos: nat, tokens: seq<Token>): seq<Token>
    requires pos < |s|
  {
    tokens + [Token(if s[pos] == '{' then ObjectToken else ArrayToken, pos, pos, 0)]
  }

  function ParseValue(s: string, from: nat, tokens: seq<Token>, capacity: nat, depth: nat): (r: Parsed)
    requires from <= |s|
    ensures Grows(r, s, from, tokens)
    ensures r.Done? ==> from < r.pos
    decreases |s| - from, 1
  {
    var pos := SkipWs(s, from);
    if depth > MAX_DEPTH || |tokens| == capacity then Stop(true)
    else if pos == |s| then Stop(false)
    else if s[pos] == '{' || s[pos] == '[' then ContainerSpec(s, pos, tokens, capacity, depth)
    else ScalarSpec(s, pos, tokens)
  }

  function ScalarSpec(s: string, pos: nat, tokens: seq<Token>): (r: Parsed)
    requires pos < |s|
    ensures Grows(r, s, pos, tokens) && (r.Done? ==> pos < r.pos)
  {
    var c := s[pos];
    if c == '"' then Scalar(StringToken, StringEnd(s, pos + 1), pos, tokens)
    else if c == '-' || IsDigit(c) then Scalar(NumberToken, NumberEnd(s, pos), pos, tokens)
    else if c == 't' then Scalar(TrueToken, Word(s, pos, "true"), pos, tokens)
    else if c == 'f' then Scalar(FalseToken, Word(s, pos, "false"), pos, tokens)
    else if c == 'n' then Scalar(NullToken, Word(s, pos, "null"), pos, tokens)
    else Stop(false)
  }

  function ContainerSpec(s: string, pos: nat, tokens: seq<Token>, capacity: nat, depth: nat): (r: Parsed)
    requires pos < |s| && (s[pos] == '{' || s[pos] == '[')
    ensures Grows(r, s, pos, tokens) && (r.Done? ==> pos < r.pos)
    decreases |s| - pos, 0
  {
    var first := SkipWs(s, pos + 1);
    var close := if s[pos] == '{' then '}' else ']';
    var begun := Open(s, pos, tokens);
    var inner :=
      if first == |s| || s[first] == close then Done(first, begun)
      else if s[pos] == '{' then ParseMembers(s, first, begun, capacity, depth)
      else ParseItems(s, first, begun, capacity, depth);
    Close(s, inner, close, |tokens|)
  }

  function ParseItems(s: string, from: nat, tokens: seq<Token>, capacity: nat, depth: nat): (r: Parsed)
    requires from <= |s|
    ensures Grows(r, s, from, tokens)
    decreases |s| - from, 2
  {
    match ParseValue(s, from, tokens, capacity, depth + 1)
    case Stop(l) => Stop(l)
    case Done(p, t) =>
      var q := SkipWs(s, p);
      if q == |s| then Stop(false)
      else if s[q] != ',' then Done(q, t)
      else ParseItems(s, q + 1, t, capacity, depth)
  }

  function ParseMembers(s: string, from: nat, tokens: seq<Token>, capacity: nat, depth: nat): (r: Parsed)
    requires from <= |s|
    ensures Grows(r, s, from, tokens)
    decreases |s| - from, 3
  {
    match ParsePair(s, from, tokens, capacity, depth)
    case Stop(l) => Stop(l)
    case Done(q, t) =>
      if s[q] != ',' then Done(q, t)
      else ParseMembers(s, q + 1, t, capacity, depth)
  }

  /** A key, a colon and a value, and the white space around them: more must follow. */
  function ParsePair(s: string, from: nat, tokens: seq<Token>, capacity: nat, depth: nat): (r: Parsed)
    requires from <= |s|
    ensures Grows(r, s, from, tokens) && (r.Done? ==> from < r.pos < |s|)
    decreases |s| - from, 2
  {
    var k := SkipWs(s, from);
    if k == |s| || s[k] != '"' then Stop(false)
    else
      match ParseValue(s, k, tokens, capacity, depth + 1)
      case Stop(l) => Stop(l)
      case Done(p, t) =>
        var colon := SkipWs(s, p);
        if colon == |s| || s[colon] != ':' then Stop(false)
        else
          match ParseValue(s, colon + 1, t, capacity, depth + 1)
          case Stop(l) => Stop(l)
          case Done(p2, t2) =>
            var q := SkipWs(s, p2);
            if q == |s| then Stop(false) else Done(q, t2)
  }

  function Parse(s: string, capacity: nat): Result {
    if capacity == 0 || |s| > MAX_LENGTH then Invalid
    else
      match ParseValue(s, 0, [], capacity, 0)
      case Stop(limit) => if limit then Limit else Invalid
      case Done(p, t) => if SkipWs(s, p) == |s| then Ok(t) else Invalid
  }

  // ----- the token encoding of a tree

  function Flat(v: Value, at: nat, index: nat): (t: seq<Token>)
    ensures |t| == Count(v)
  {
    match v
    case Null => [Token(NullToken, at, at + 4, index + 1)]
    case True => [Token(TrueToken, at, at + 4, index + 1)]
    case False => [Token(FalseToken, at, at + 5, index + 1)]
    case Number(d) => [Token(NumberToken, at, at + |d|, index + 1)]
    case Str(b) => [Token(StringToken, at, at + |b| + 2, index + 1)]
    case Array(pad, items) =>
      [Token(ArrayToken, at, at + |Render(v)|, index + Count(v))] + FlatItems(items, at + 1 + |pad|, index + 1)
    case Object(pad, members) =>
      [Token(ObjectToken, at, at + |Render(v)|, index + Count(v))] + FlatMembers(members, at + 1 + |pad|, index + 1)
  }

  function FlatItems(items: Items, at: nat, index: nat): (t: seq<Token>)
    ensures |t| == ItemsCount(items)
  {
    match items
    case NoItems => []
    case Item(b, v, a, rest) =>
      Flat(v, at + |b|, index)
      + FlatItems(rest, ItemRestAt(items, at), index + Count(v))
  }

  function ItemRestAt(i: Items, at: nat): nat
    requires i.Item?
  {
    at + |i.before| + |Render(i.value)| + |i.after| + |Separator(i.rest.Item?)|
  }

  function FlatMembers(members: Members, at: nat, index: nat): (t: seq<Token>)
    ensures |t| == MembersCount(members)
  {
    match members
    case NoMembers => []
    case Member(b, k, _, _, v, _, rest) =>
      var keyAt := at + |b|;
      var valueAt := MemberValueAt(members, at);
      [Token(StringToken, keyAt, keyAt + |k| + 2, index + 1)]
      + Flat(v, valueAt, index + 1)
      + FlatMembers(rest, MemberRestAt(members, at), index + 1 + Count(v))
  }

  function MemberValueAt(m: Members, at: nat): nat
    requires m.Member?
  {
    at + |m.before| + |m.key| + 2 + |m.colonBefore| + 1 + |m.valueBefore|
  }

  function MemberRestAt(m: Members, at: nat): nat
    requires m.Member?
  {
    MemberValueAt(m, at) + |Render(m.value)| + |m.after| + |Separator(m.rest.Member?)|
  }
}
