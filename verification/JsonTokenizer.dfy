/** firmware/src/json.c, lines 6 to 135: the in-place parser, one cursor over
    the text and one caller-owned token array. */
module JsonTokenizer {
  import opened JsonGrammar
  import opened JsonParser

  class Tokenizer {
    const text: string
    const tokens: array<Token>
    var pos: nat
    var count: nat
    /** The error to report is LIMIT rather than INVALID. */
    var limit: bool

    predicate Valid()
      reads this
    {
      pos <= |text| && count <= tokens.Length
    }

    function Out(): seq<Token>
      requires count <= tokens.Length
      reads this, tokens
    {
      tokens[..count]
    }

    constructor (text: string, tokens: array<Token>)
      ensures this.text == text && this.tokens == tokens
      ensures Valid() && pos == 0 && count == 0 && !limit
    {
      this.text, this.tokens := text, tokens;
      pos, count, limit := 0, 0, false;
    }

    method Whitespace()
      requires Valid()
      modifies this`pos
      ensures Valid() && pos == SkipWs(text, old(pos))
    {
      while pos < |text|
        invariant pos <= |text| && SkipWs(text, pos) == SkipWs(text, old(pos))
      {
        if !IsWs(text[pos]) { break; }
        pos := pos + 1;
      }
    }

    /** Decodes the multi-byte character at p; 0 when malformed. */
    method Utf8(p: nat) returns (n: nat)
      requires p < |text| && text[p] as int >= 0x80
      ensures n == Utf8Length(text, p)
    {
      hide Six, Tail;
      var c := text[p] as int;
      Lead(c);
      var used, value, minimum := 0, 0, 0;
      if 0xC2 <= c <= 0xDF { used, value, minimum := 2, c % 32, 0x80; }
      else if 0xE0 <= c <= 0xEF { used, value, minimum := 3, c % 16, 0x800; }
      else if 0xF0 <= c <= 0xF4 { used, value, minimum := 4, c % 8, 0x1_0000; }
      else { return 0; }
      if |text| - p < used { return 0; }
      var ok;
      ok, value := Continuation(p, used, value);
      if ok { Payloads(p, used); }
      if !ok || value < minimum || value > 0x10_FFFF || 0xD800 <= value <= 0xDFFF { return 0; }
      n := used;
    }

    static lemma Lead(c: nat)
      ensures 0xC2 <= c <= 0xDF ==> c % 32 == c - 0xC0
      ensures 0xE0 <= c <= 0xEF ==> c % 16 == c - 0xE0
      ensures 0xF0 <= c <= 0xF4 ==> c % 8 == c - 0xF0
    {
    }

    lemma Payloads(p: nat, used: nat)
      requires 2 <= used <= 4 && p + used <= |text| && forall j | p < j < p + used :: Tail(text[j])
      ensures forall j | p < j < p + used :: Six(text[j]) == text[j] as int - 0x80 && 0 <= Six(text[j]) < 64
    {
    }

    /** Appends the payload of the used - 1 bytes after the lead byte at p. */
    method Continuation(p: nat, used: nat, lead: int) returns (ok: bool, value: int)
      requires 2 <= used <= 4 && p + used <= |text|
      ensures ok == forall j | p < j < p + used :: Tail(text[j])
      ensures ok && used == 2 ==> value == lead * 64 + Six(text[p + 1])
      ensures ok && used == 3 ==> value == lead * 0x1000 + Six(text[p + 1]) * 64 + Six(text[p + 2])
      ensures ok && used == 4 ==>
        value == lead * 0x4_0000 + Six(text[p + 1]) * 0x1000 + Six(text[p + 2]) * 64 + Six(text[p + 3])
    {
      hide Tail, Six;
      value := lead;
      for i := 1 to used
        invariant forall j | p < j < p + i :: Tail(text[j])
        invariant value == Folded(text, p, lead, i)
      {
        if !Tail(text[p + i]) { return false, value; }
        value := value * 64 + Six(text[p + i]);
      }
      FoldedCode(text, p, lead, used);
      ok := true;
    }

    /** The cursor is on the opening quote. */
    method StringToken() returns (ok: bool)
      requires Valid() && pos < |text|
      modifies this`pos
      ensures Valid()
      ensures ok == StringEnd(text, old(pos) + 1).Ends?
      ensures ok ==> pos == StringEnd(text, old(pos) + 1).end
    {
      pos := pos + 1;
      while pos < |text|
        invariant pos <= |text| && StringEnd(text, pos) == StringEnd(text, old(pos) + 1)
      {
        var at := pos;
        var c := text[pos];
        pos := pos + 1;
        if c == '"' { return true; }
        if c as int < 32 { return false; }
        if c == '\\' {
          if pos == |text| { return false; }
          c := text[pos];
          pos := pos + 1;
          if c == 'u' {
            var four := FourHex();
            if !four { return false; }
          } else if !SimpleEscape(c) { return false; }
        } else if c as int >= 0x80 {
          var n := Utf8(at);
          if n == 0 { return false; }
          pos := at + n;
        }
      }
      ok := false;
    }

    method FourHex() returns (ok: bool)
      requires Valid()
      modifies this`pos
      ensures Valid()
      ensures ok == (old(pos) + 4 <= |text| && forall i | old(pos) <= i < old(pos) + 4 :: IsHex(text[i]))
      ensures ok ==> pos == old(pos) + 4
    {
      for i := 0 to 4
        invariant Valid() && pos == old(pos) + i
        invariant forall j | old(pos) <= j < pos :: IsHex(text[j])
      {
        if pos == |text| || !IsHex(text[pos]) { return false; }
        pos := pos + 1;
      }
      ok := true;
    }

    method Digits()
      requires Valid()
      modifies this`pos
      ensures Valid() && pos == SkipDigits(text, old(pos))
    {
      while pos < |text| && IsDigit(text[pos])
        invariant pos <= |text| && SkipDigits(text, pos) == SkipDigits(text, old(pos))
      {
        pos := pos + 1;
      }
    }

    method IntPart() returns (ok: bool)
      requires Valid()
      modifies this`pos
      ensures Valid() && ok == IntEnd(text, old(pos)).Ends?
      ensures ok ==> pos == IntEnd(text, old(pos)).end
    {
      if pos == |text| { return false; }
      if text[pos] == '0' { pos := pos + 1; }
      else {
        if text[pos] < '1' || text[pos] > '9' { return false; }
        Digits();
      }
      ok := true;
    }

    method FractionPart() returns (ok: bool)
      requires Valid()
      modifies this`pos
      ensures Valid() && ok == FractionEnd(text, old(pos)).Ends?
      ensures ok ==> pos == FractionEnd(text, old(pos)).end
    {
      if pos < |text| && text[pos] == '.' {
        pos := pos + 1;
        if pos == |text| || !IsDigit(text[pos]) { return false; }
        Digits();
      }
      ok := true;
    }

    method ExponentPart() returns (ok: bool)
      requires Valid()
      modifies this`pos
      ensures Valid() && ok == ExponentEnd(text, old(pos)).Ends?
      ensures ok ==> pos == ExponentEnd(text, old(pos)).end
    {
      if pos < |text| && (text[pos] == 'e' || text[pos] == 'E') {
        pos := pos + 1;
        if pos == |text| { return false; }
        if text[pos] == '-' || text[pos] == '+' { pos := pos + 1; }
        if pos == |text| || !IsDigit(text[pos]) { return false; }
        Digits();
      }
      ok := true;
    }

    method NumberToken() returns (ok: bool)
      requires Valid() && pos < |text|
      modifies this`pos
      ensures Valid()
      ensures ok == NumberEnd(text, old(pos)).Ends?
      ensures ok ==> pos == NumberEnd(text, old(pos)).end
    {
      hide IntEnd, FractionEnd, ExponentEnd;
      if text[pos] == '-' { pos := pos + 1; }
      ok := IntPart();
      if ok { ok := FractionPart(); }
      if ok { ok := ExponentPart(); }
    }

    /** How a parsing method must end, given the specification's result. */
    ghost predicate Follows(r: Parsed, ok: bool, wasLimit: bool)
      reads this, tokens
    {
      && Valid()
      && (match r
          case Done(p, t) => ok && pos == p && Out() == t && limit == wasLimit
          case Stop(l) => !ok && limit == (wasLimit || l))
    }

    method Value(depth: nat) returns (ok: bool)
      requires Valid() && depth <= MAX_DEPTH + 1
      modifies this`pos, this`count, this`limit, tokens
      ensures Follows(ParseValue(text, old(pos), old(Out()), tokens.Length, depth), ok, old(limit))
      decreases MAX_DEPTH + 1 - depth, 2
    {
      Whitespace();
      if depth > MAX_DEPTH || count == tokens.Length {
        limit := true;
        return false;
      }
      if pos == |text| { return false; }
      var c := text[pos];
      if c == '{' || c == '[' {
        ok := Container(depth);
      } else {
        ok := Scalar();
      }
    }

    /** Strings, numbers and literals, the cursor on their first byte. */
    method Scalar() returns (ok: bool)
      requires Valid() && count < tokens.Length && pos < |text|
      requires text[pos] != '{' && text[pos] != '['
      modifies this`pos, this`count, tokens
      ensures Follows(ScalarSpec(text, old(pos), old(Out())), ok, limit)
    {
      var start := pos;
      var kind;
      var c := text[pos];
      if c == '"' {
        kind := JsonParser.StringToken;
        ok := StringToken();
      } else if c == '-' || IsDigit(c) {
        kind := JsonParser.NumberToken;
        ok := NumberToken();
      } else {
        var literal;
        if c == 't' { literal, kind := "true", TrueToken; }
        else if c == 'f' { literal, kind := "false", FalseToken; }
        else if c == 'n' { literal, kind := "null", NullToken; }
        else { return false; }
        if |literal| > |text| - pos || text[pos..pos + |literal|] != literal { return false; }
        pos := pos + |literal|;
        ok := true;
      }
      if ok {
        tokens[count] := Token(kind, start, pos, count + 1);
        count := count + 1;
      }
    }

    /** Objects and arrays, the cursor on the opening bracket. */
    method Container(depth: nat) returns (ok: bool)
      requires Valid() && count < tokens.Length && depth <= MAX_DEPTH
      requires pos < |text| && (text[pos] == '{' || text[pos] == '[')
      modifies this`pos, this`count, this`limit, tokens
      ensures Follows(ContainerSpec(text, old(pos), old(Out()), tokens.Length, depth), ok, old(limit))
      decreases MAX_DEPTH + 1 - depth, 1
    {
      var index := count;
      var isObject := text[pos] == '{';
      var close := if isObject then '}' else ']';
      ghost var begun := Open(text, pos, Out());
      tokens[index] := Token(if isObject then ObjectToken else ArrayToken, pos, pos, 0);
      count := count + 1;
      assert Out() == begun;
      ghost var start := pos;
      pos := pos + 1;
      Whitespace();
      ok := true;
      if pos < |text| && text[pos] != close {
        if isObject { ok := Members(depth); } else { ok := Elements(depth); }
      }
      if !ok { return; }
      ghost var kids := Out();
      if pos == |text| || text[pos] != close { return false; }
      pos := pos + 1;
      tokens[index] := tokens[index].(end := pos, next := count);
      assert Out() == kids[index := kids[index].(end := pos, next := count)];
    }

    method Elements(depth: nat) returns (ok: bool)
      requires Valid() && depth <= MAX_DEPTH
      modifies this`pos, this`count, this`limit, tokens
      ensures Follows(ParseItems(text, old(pos), old(Out()), tokens.Length, depth), ok, old(limit))
      decreases MAX_DEPTH + 1 - depth, 0
    {
      while true
        invariant Valid() && limit == old(limit)
        invariant ParseItems(text, pos, Out(), tokens.Length, depth)
               == ParseItems(text, old(pos), old(Out()), tokens.Length, depth)
        decreases |text| - pos
      {
        ok := Value(depth + 1);
        if !ok { return; }
        Whitespace();
        if pos == |text| { return false; }
        if text[pos] != ',' { break; }
        pos := pos + 1;
      }
    }

    /** One key, its value and the white space around them. */
    method Pair(depth: nat) returns (ok: bool)
      requires Valid() && depth <= MAX_DEPTH
      modifies this`pos, this`count, this`limit, tokens
      ensures Follows(ParsePair(text, old(pos), old(Out()), tokens.Length, depth), ok, old(limit))
      decreases MAX_DEPTH + 1 - depth, 0, 0
    {
      hide ParseValue, SkipWs;
      Whitespace();
      if pos == |text| || text[pos] != '"' { return false; }
      ok := Value(depth + 1);
      if !ok { return; }
      Whitespace();
      if pos == |text| || text[pos] != ':' { return false; }
      pos := pos + 1;
      ok := Value(depth + 1);
      if !ok { return; }
      Whitespace();
      ok := pos < |text|;
    }

    method Members(depth: nat) returns (ok: bool)
      requires Valid() && depth <= MAX_DEPTH
      modifies this`pos, this`count, this`limit, tokens
      ensures Follows(ParseMembers(text, old(pos), old(Out()), tokens.Length, depth), ok, old(limit))
      decreases MAX_DEPTH + 1 - depth, 0
    {
      hide ParsePair;
      while true
        invariant Valid() && limit == old(limit)
        invariant ParseMembers(text, pos, Out(), tokens.Length, depth)
               == ParseMembers(text, old(pos), old(Out()), tokens.Length, depth)
        decreases |text| - pos
      {
        ok := Pair(depth);
        if !ok { return; }
        if text[pos] != ',' { break; }
        pos := pos + 1;
      }
    }
  }

  function Six(c: char): int {
    c as int % 64
  }

  /** The payload bits of a lead byte and the i - 1 bytes after it. */
  function Folded(text: string, p: nat, lead: int, i: nat): int
    requires 1 <= i && p + i <= |text|
  {
    if i == 1 then lead else Folded(text, p, lead, i - 1) * 64 + Six(text[p + i - 1])
  }

  lemma FoldedCode(text: string, p: nat, lead: int, i: nat)
    requires 2 <= i <= 4 && p + i <= |text|
    ensures i == 2 ==> Folded(text, p, lead, i) == lead * 64 + Six(text[p + 1])
    ensures i == 3 ==> Folded(text, p, lead, i) == lead * 0x1000 + Six(text[p + 1]) * 64 + Six(text[p + 2])
    ensures i == 4 ==>
      Folded(text, p, lead, i) == lead * 0x4_0000 + Six(text[p + 1]) * 0x1000 + Six(text[p + 2]) * 64 + Six(text[p + 3])
  {
    assert Folded(text, p, lead, 2) == lead * 64 + Six(text[p + 1]);
    if i >= 3 {
      assert Folded(text, p, lead, 3) == Folded(text, p, lead, 2) * 64 + Six(text[p + 2]);
    }
  }

  /** bosun_json_parse: the result, and the tokens used when it is OK. */
  method ParseText(text: string, tokens: array<Token>) returns (ok: bool, limit: bool, count: nat)
    modifies tokens
    ensures count <= tokens.Length
    ensures match Parse(text, tokens.Length)
            case Ok(t) => ok && tokens[..count] == t
            case Invalid => !ok && !limit && count == 0
            case Limit => !ok && limit && count == 0
  {
    if tokens.Length == 0 || |text| > MAX_LENGTH { return false, false, 0; }
    var p := new Tokenizer(text, tokens);
    assert p.Out() == [];
    ok := p.Value(0);
    if !ok { return false, p.limit, 0; }
    p.Whitespace();
    if p.pos != |text| { return false, false, 0; }
    return true, false, p.count;
  }
}
