/** Writing then parsing then reading gives back every string and every int32. */
module JsonRoundTrip {
  import opened JsonGrammar
  import opened JsonParser
  import opened JsonParserProofs
  import opened JsonCompleteness
  import opened JsonTheorems
  import opened JsonReader
  import opened JsonWriter

  /** A NUL-free UTF-8 text: what a C string may hold. */
  ghost predicate IsUtf8(t: string)
    decreases |t|
  {
    t == "" || exists n | 1 <= n <= |t| :: Utf8Char(t[..n]) && IsUtf8(t[n..])
  }

  predicate Utf8Char(u: string) {
    (|u| == 1 && 0 < u[0] as int < 0x80) || Utf8Multi(u)
  }

  // ----- strings

  lemma {:induction false} EscapeConcat(a: string, b: string)
    ensures Escape(a + b) == Escape(a) + Escape(b)
  {
    if a == "" {
      assert a + b == b;
    } else {
      hide EscapeByte;
      EscapeConcat(a[1..], b);
      assert (a + b)[1..] == a[1..] + b;
      Resume(EscapeByte(a[0]), Escape(a[1..]), Escape(b));
    }
  }

  lemma {:induction false} EscapeHigh(u: string)
    requires forall i | 0 <= i < |u| :: u[i] as int >= 0x80
    ensures Escape(u) == u
  {
    if u != "" {
      EscapeHigh(u[1..]);
    }
  }

  lemma MultiIsHigh(u: string)
    requires Utf8Multi(u)
    ensures forall i | 0 <= i < |u| :: u[i] as int >= 0x80
  {
  }

  /** The escaped form of one character is one string character of the grammar. */
  lemma EscapedUnit(u: string)
    requires Utf8Char(u)
    ensures CharUnit(Escape(u)) && 1 <= |Escape(u)|
  {
    if |u| == 1 {
      assert Escape(u[1..]) == "";
      assert Escape(u) == EscapeByte(u[0]);
    } else {
      MultiIsHigh(u);
      EscapeHigh(u);
    }
  }

  lemma {:induction false} EscapeIsBody(t: string)
    requires IsUtf8(t)
    ensures IsBody(Escape(t))
    decreases |t|
  {
    hide Escape;
    if t == "" {
      NothingEscaped();
    } else {
      var n :| 1 <= n <= |t| && Utf8Char(t[..n]) && IsUtf8(t[n..]);
      assert t == t[..n] + t[n..];
      EscapeConcat(t[..n], t[n..]);
      EscapedUnit(t[..n]);
      EscapeIsBody(t[n..]);
      var unit, rest := Escape(t[..n]), Escape(t[n..]);
      assert (unit + rest)[..|unit|] == unit;
      assert (unit + rest)[|unit|..] == rest;
    }
  }

  lemma NothingEscaped()
    ensures Escape("") == ""
  {
  }

  lemma EscapedShift(head: string, body: string, pos: nat)
    requires pos < |body|
    ensures EscapedCode(head + body, |head| + pos) == EscapedCode(body, pos)
  {
    var s := head + body;
    assert forall i | 0 <= i < |body| :: s[|head| + i] == body[i];
  }

  lemma {:induction false} DecodeShift(head: string, body: string, pos: nat)
    requires pos <= |body|
    ensures DecodeFrom(head + body, |head| + pos) == DecodeFrom(body, pos)
    decreases |body| - pos
  {
    hide EscapedCode;
    assert forall i | 0 <= i < |body| :: (head + body)[|head| + i] == body[i];
    if pos < |body| {
      if body[pos] != '\\' {
        DecodeShift(head, body, pos + 1);
      } else if pos + 1 < |body| {
        if body[pos + 1] != 'u' {
          DecodeShift(head, body, pos + 2);
        } else {
          EscapedShift(head, body, pos);
          if EscapedCode(body, pos).Some? {
            DecodeShift(head, body, pos + EscapedCode(body, pos).value.1);
          }
        }
      }
    }
  }

  /** Decoding an escaped byte gives the byte, whatever follows it. */
  lemma DecodeEscapedByte(c: char, tail: string)
    requires 0 < c as int < 0x100
    ensures Decode(EscapeByte(c) + tail) == Prepend([c], Decode(tail))
  {
    var e := EscapeByte(c);
    var s := e + tail;
    DecodeShift(e, tail, 0);
    assert forall i | 0 <= i < |e| :: s[i] == e[i];
    if c as int < 32 && c != '"' && c != '\\' {
      assert Hex4(s, 2) == c as int;
    }
  }

  lemma {:induction false} DecodeEscape(t: string)
    requires forall i | 0 <= i < |t| :: 0 < t[i] as int < 0x100
    ensures Decode(Escape(t)) == Text(t)
  {
    if t != "" {
      DecodeEscape(t[1..]);
      DecodeEscapedByte(t[0], Escape(t[1..]));
      assert [t[0]] + t[1..] == t;
    }
  }

  lemma {:induction false} Utf8Bytes(t: string)
    requires IsUtf8(t)
    ensures forall i | 0 <= i < |t| :: 0 < t[i] as int < 0x100
    decreases |t|
  {
    if t != "" {
      var n :| 1 <= n <= |t| && Utf8Char(t[..n]) && IsUtf8(t[n..]);
      Utf8Bytes(t[n..]);
      forall i | 0 <= i < |t|
        ensures 0 < t[i] as int < 0x100
      {
        if i < n { assert t[i] == t[..n][i]; } else { assert t[i] == t[n..][i - n]; }
      }
    }
  }

  /** A whole text that is one scalar value parses to one token. */
  lemma ScalarText(v: Value, capacity: nat)
    requires Valid(v) && !v.Array? && !v.Object? && 0 < capacity && |Render(v)| <= MAX_LENGTH
    ensures Parse(Render(v), capacity) == Ok([Token(KindOf(v), 0, |Render(v)|, 1)])
  {
    var d := Document("", v, "");
    assert RenderDocument(d) == Render(v);
    ParseComplete(Render(v), capacity, d);
    FlatHead(v, 0, 0);
  }

  /** Quote, parse and read: every NUL-free UTF-8 text comes back, given room. */
  lemma QuoteRoundTrip(t: string, capacity: nat)
    requires IsUtf8(t) && 0 < capacity && |Quoted(Escape(t))| <= MAX_LENGTH
    ensures var quoted := Quoted(Escape(t));
      && Parse(quoted, capacity) == Ok([Token(StringToken, 0, |quoted|, 1)])
      && Body(quoted, Token(StringToken, 0, |quoted|, 1)) == Escape(t)
      && IsBody(Escape(t))
      && Spells(Escape(t), t)
  {
    hide Decode, IsBody, Escape;
    EscapeIsBody(t);
    Utf8Bytes(t);
    DecodeEscape(t);
    StringText(Escape(t), capacity);
  }

  lemma StringText(body: string, capacity: nat)
    requires IsBody(body) && 0 < capacity && |Quoted(body)| <= MAX_LENGTH
    ensures Parse(Quoted(body), capacity) == Ok([Token(StringToken, 0, |Quoted(body)|, 1)])
    ensures Body(Quoted(body), Token(StringToken, 0, |Quoted(body)|, 1)) == body
  {
    ScalarText(Str(body), capacity);
    assert Render(Str(body)) == Quoted(body);
  }

  // ----- what a decoded string can be

  lemma RawRun(body: string, pos: nat, end: nat)
    requires pos <= end <= |body| && forall i | pos <= i < end :: body[i] != '\\'
    ensures DecodeFrom(body, pos) == Prepend(body[pos..end], DecodeFrom(body, end))
    decreases end - pos
  {
    if pos < end {
      RawRun(body, pos + 1, end);
      PrependTwice([body[pos]], body[pos + 1..end], DecodeFrom(body, end));
      assert [body[pos]] + body[pos + 1..end] == body[pos..end];
    }
  }

  lemma Utf8Prepend(u: string, t: string)
    requires Utf8Char(u) && IsUtf8(t)
    ensures IsUtf8(u + t)
  {
    assert (u + t)[..|u|] == u && (u + t)[|u|..] == t;
  }

  lemma EncodeIsUtf8(code: nat)
    requires 0 < code <= 0x10_FFFF && !(0xD800 <= code <= 0xDFFF)
    ensures Utf8Char(Utf8Encode(code))
  {
    if code >= 0x1_0000 {
      FourBytes(code);
    } else if code >= 0x800 {
      ThreeBytes(code);
    }
  }

  lemma ThreeBytes(code: nat)
    requires 0x800 <= code < 0x1_0000 && !(0xD800 <= code <= 0xDFFF)
    ensures Utf8Multi(Utf8Encode(code))
  {
    var a, b := code / 0x1000, code / 0x40 % 0x40;
    assert code / 0x40 == a * 0x40 + b;
  }

  lemma FourBytes(code: nat)
    requires 0x1_0000 <= code <= 0x10_FFFF
    ensures Utf8Multi(Utf8Encode(code))
  {
    var a, b := code / 0x4_0000, code / 0x1000 % 0x40;
    assert code / 0x1000 == a * 0x40 + b;
  }

  lemma UnitsAfterEscape(body: string, pos: nat)
    requires pos < |body| && Units(body, pos) && UnitLength(body, pos) == 6 && EscapedCode(body, pos).Some?
    ensures Units(body, pos + EscapedCode(body, pos).value.1)
  {
    assert Units(body, pos + 6);
    if EscapedCode(body, pos).value.1 == 12 {
      assert UnitLength(body, pos + 6) == 6;
      assert Units(body, pos + 12);
    }
  }

  /** Every string the reader returns is NUL-free UTF-8. */
  lemma {:induction false} DecodedIsUtf8(body: string, pos: nat)
    requires pos <= |body| && Units(body, pos) && DecodeFrom(body, pos).Text?
    ensures IsUtf8(DecodeFrom(body, pos).bytes)
    decreases |body| - pos
  {
    hide Utf8Multi, Utf8Length, EscapedCode, Utf8Encode;
    if pos < |body| {
      var n := UnitLength(body, pos);
      UnitSound(body, pos);
      var unit := body[pos..pos + n];
      if body[pos] != '\\' {
        RawUnit(unit);
        assert forall i | pos <= i < pos + n :: body[i] == unit[i - pos];
        RawRun(body, pos, pos + n);
        DecodedIsUtf8(body, pos + n);
        Utf8Prepend(unit, DecodeFrom(body, pos + n).bytes);
      } else if n == 2 {
        DecodedIsUtf8(body, pos + 2);
        Utf8Prepend([Unescape(body[pos + 1])], DecodeFrom(body, pos + 2).bytes);
      } else {
        var (code, used) := EscapedCode(body, pos).value;
        UnitsAfterEscape(body, pos);
        DecodedIsUtf8(body, pos + used);
        EncodeIsUtf8(code);
        Utf8Prepend(Utf8Encode(code), DecodeFrom(body, pos + used).bytes);
      }
    }
  }

  // ----- integers

  lemma {:induction false} DecimalDigits(n: nat)
    ensures Digits(Decimal(n)) && Decimal(n) != "" && DigitsValue(Decimal(n)) == n
    ensures Decimal(n)[0] == '0' <==> n == 0
    ensures n == 0 ==> Decimal(n) == "0"
  {
    if n < 10 {
      assert Decimal(n)[..0] == "";
    } else {
      DecimalDigits(n / 10);
      var d := Decimal(n);
      assert d[..|d| - 1] == Decimal(n / 10);
      assert n == 10 * (n / 10) + n % 10;
    }
  }

  function PowerOfTen(k: nat): nat {
    if k == 0 then 1 else 10 * PowerOfTen(k - 1)
  }

  lemma {:induction false} DecimalLength(n: nat, k: nat)
    requires 0 < k && n < PowerOfTen(k)
    ensures |Decimal(n)| <= k
  {
    if 10 <= n {
      assert 1 < k;
      DecimalLength(n / 10, k - 1);
    }
  }

  lemma IntTextIsShort(n: int)
    requires INT32_MIN <= n <= INT32_MAX
    ensures |IntText(n)| <= 11
  {
    assert PowerOfTen(10) == 10_000_000_000 by {
      assert PowerOfTen(3) == 1000;
      assert PowerOfTen(6) == 1_000_000;
      assert PowerOfTen(8) == 100_000_000;
    }
    DecimalLength(if n < 0 then -n else n, 10);
  }

  lemma IntTextIsNumber(n: int)
    ensures IsNumber(IntText(n)) && PlainInteger(IntText(n)) && IntegerValue(IntText(n)) == n
  {
    hide Decimal, DigitsValue, IsDigit;
    var m: nat := if n < 0 then -n else n;
    DecimalDigits(m);
    var parts := NumberParts(if n < 0 then "-" else "", Decimal(m), "", "");
    DecimalIsInt(m);
    NumberIntro(parts);
    assert Decimal(m) + ("" + "") == Decimal(m);
    if n < 0 {
      assert IntText(n)[1..] == Decimal(m);
    }
  }

  lemma DecimalIsInt(n: nat)
    ensures ValidInt(Decimal(n)) && Decimal(n)[0] != '-'
  {
    DecimalDigits(n);
    assert IsDigit(Decimal(n)[0]);
  }

  /** Write, parse and read an integer: every int32 comes back. */
  lemma IntegerRoundTrip(n: int, capacity: nat)
    requires INT32_MIN <= n <= INT32_MAX && 0 < capacity
    ensures var text := IntText(n);
      && Parse(text, capacity) == Ok([Token(NumberToken, 0, |text|, 1)])
      && IsNumber(text) && PlainInteger(text) && IntegerValue(text) == n
  {
    hide IsNumber, PlainInteger, IntegerValue, IntText;
    IntTextIsNumber(n);
    IntTextIsShort(n);
    ScalarText(Number(IntText(n)), capacity);
  }
}
