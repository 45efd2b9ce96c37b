/** The parser accepts exactly the JSON texts within its limits. */
module JsonParserProofs {
  import opened JsonGrammar
  import opened JsonParser

  // ----- substrings

  lemma AtConcat(s: string, pos: nat, a: string, b: string)
    ensures At(s, pos, a + b) <==> At(s, pos, a) && At(s, pos + |a|, b)
  {
    if At(s, pos, a + b) {
      assert s[pos..pos + |a|] == s[pos..pos + |a + b|][..|a|];
      assert s[pos + |a|..pos + |a| + |b|] == s[pos..pos + |a + b|][|a|..];
    }
    if At(s, pos, a) && At(s, pos + |a|, b) {
      assert s[pos..pos + |a + b|] == s[pos..pos + |a|] + s[pos + |a|..pos + |a| + |b|];
    }
  }

  lemma AtChar(s: string, pos: nat, t: string, i: nat)
    requires At(s, pos, t) && i < |t|
    ensures s[pos + i] == t[i]
  {
    assert s[pos..pos + |t|][i] == t[i];
  }

  lemma AtSlice(s: string, pos: nat, t: string)
    requires pos + |t| <= |s|
    ensures At(s, pos, t) <==> s[pos..pos + |t|] == t
  {
  }

  lemma {:induction false} SkippedWs(s: string, pos: nat)
    requires pos <= |s|
    ensures var end := SkipWs(s, pos);
      && (forall i | pos <= i < end :: IsWs(s[i]))
      && (end < |s| ==> !IsWs(s[end]))
    decreases |s| - pos
  {
    if pos < |s| && IsWs(s[pos]) {
      SkippedWs(s, pos + 1);
    }
  }

  lemma {:induction false} SkipBlank(s: string, pos: nat, blank: string)
    requires At(s, pos, blank) && Blank(blank)
    requires pos + |blank| < |s| ==> !IsWs(s[pos + |blank|])
    ensures SkipWs(s, pos) == pos + |blank|
    decreases |blank|
  {
    if blank != "" {
      assert blank == blank[..1] + blank[1..];
      AtConcat(s, pos, blank[..1], blank[1..]);
      AtChar(s, pos, blank, 0);
      SkipBlank(s, pos + 1, blank[1..]);
    }
  }

  lemma {:induction false} SkipAgain(s: string, pos: nat, mid: nat)
    requires pos <= |s| && pos <= mid <= SkipWs(s, pos)
    ensures SkipWs(s, mid) == SkipWs(s, pos)
    decreases mid - pos
  {
    if pos < mid {
      SkipAgain(s, pos + 1, mid);
    }
  }

  lemma SkippedBlank(s: string, pos: nat)
    requires pos <= |s|
    ensures Blank(s[pos..SkipWs(s, pos)])
    ensures At(s, pos, s[pos..SkipWs(s, pos)])
  {
    SkippedWs(s, pos);
  }

  // ----- strings

  lemma UnitSound(s: string, pos: nat)
    requires pos < |s| && UnitLength(s, pos) > 0
    ensures CharUnit(s[pos..pos + UnitLength(s, pos)])
  {
    var n := UnitLength(s, pos);
    var u := s[pos..pos + n];
    assert forall i | 0 <= i < n :: u[i] == s[pos + i];
  }

  lemma UnitComplete(s: string, pos: nat, n: nat)
    requires 1 <= n && pos + n <= |s| && CharUnit(s[pos..pos + n])
    ensures UnitLength(s, pos) == n && s[pos] != '"'
  {
    var u := s[pos..pos + n];
    assert forall i | 0 <= i < n :: u[i] == s[pos + i];
    if n == 6 {
      forall i | pos + 2 <= i < pos + 6
        ensures IsHex(s[i])
      {
        assert u[i - pos] == s[i];
      }
    }
  }

  lemma {:induction false} StringSound(s: string, pos: nat)
    requires pos <= |s| && StringEnd(s, pos).Ends?
    ensures var e := StringEnd(s, pos).end; s[e - 1] == '"' && IsBody(s[pos..e - 1])
    decreases |s| - pos
  {
    if s[pos] != '"' {
      var n := UnitLength(s, pos);
      StringSound(s, pos + n);
      UnitSound(s, pos);
      var e := StringEnd(s, pos).end;
      var body := s[pos..e - 1];
      assert body[..n] == s[pos..pos + n];
      assert body[n..] == s[pos + n..e - 1];
    }
  }

  lemma {:induction false} StringComplete(s: string, pos: nat, body: string)
    requires At(s, pos, body) && IsBody(body)
    requires pos + |body| < |s| && s[pos + |body|] == '"'
    ensures StringEnd(s, pos) == Ends(pos + |body| + 1)
    decreases |body|
  {
    hide At, CharUnit, UnitLength;
    if body != "" {
      var n :| 1 <= n <= |body| && CharUnit(body[..n]) && IsBody(body[n..]);
      assert body == body[..n] + body[n..];
      AtConcat(s, pos, body[..n], body[n..]);
      AtSlice(s, pos, body[..n]);
      UnitComplete(s, pos, n);
      StringComplete(s, pos + n, body[n..]);
    }
  }

  // ----- numbers

  /** The bytes that may follow a number without being taken for a part of it. */
  predicate Follows(s: string, end: nat) {
    end < |s| ==> !IsDigit(s[end]) && s[end] != '.' && s[end] != 'e' && s[end] != 'E'
  }

  lemma {:induction false} SkipDigitsExact(s: string, pos: nat, digits: string)
    requires At(s, pos, digits) && Digits(digits)
    requires pos + |digits| < |s| ==> !IsDigit(s[pos + |digits|])
    ensures SkipDigits(s, pos) == pos + |digits|
    decreases |digits|
  {
    if digits != "" {
      assert digits == digits[..1] + digits[1..];
      AtConcat(s, pos, digits[..1], digits[1..]);
      AtChar(s, pos, digits, 0);
      SkipDigitsExact(s, pos + 1, digits[1..]);
    }
  }

  lemma {:induction false} SkippedDigits(s: string, pos: nat)
    requires pos <= |s|
    ensures Digits(s[pos..SkipDigits(s, pos)])
    decreases |s| - pos
  {
    if pos < |s| && IsDigit(s[pos]) {
      SkippedDigits(s, pos + 1);
      assert s[pos..SkipDigits(s, pos)] == [s[pos]] + s[pos + 1..SkipDigits(s, pos + 1)];
    }
  }

  lemma IntSound(s: string, pos: nat)
    requires pos <= |s| && IntEnd(s, pos).Ends?
    ensures ValidInt(s[pos..IntEnd(s, pos).end])
  {
    SkippedDigits(s, pos);
  }

  lemma FractionSound(s: string, pos: nat)
    requires pos <= |s| && FractionEnd(s, pos).Ends?
    ensures ValidFrac(s[pos..FractionEnd(s, pos).end])
  {
    var t := s[pos..FractionEnd(s, pos).end];
    if t != "" {
      assert t[1..] == s[pos + 1..SkipDigits(s, pos + 1)];
      SkippedDigits(s, pos + 1);
    }
  }

  lemma ExponentSound(s: string, pos: nat)
    requires pos <= |s| && ExponentEnd(s, pos).Ends?
    ensures ValidExp(s[pos..ExponentEnd(s, pos).end])
  {
    var t := s[pos..ExponentEnd(s, pos).end];
    if t != "" {
      if s[pos + 1] == '-' || s[pos + 1] == '+' {
        assert t[2..] == s[pos + 2..SkipDigits(s, pos + 2)];
        SkippedDigits(s, pos + 2);
      } else {
        assert t[1..] == s[pos + 1..SkipDigits(s, pos + 1)];
        SkippedDigits(s, pos + 1);
      }
    }
  }

  lemma NumberSound(s: string, pos: nat)
    requires pos < |s| && NumberEnd(s, pos).Ends?
    ensures IsNumber(s[pos..NumberEnd(s, pos).end])
  {
    hide IntEnd, FractionEnd, ExponentEnd, ValidInt, ValidFrac, ValidExp, IsDigit, SkipDigits;
    var p := if s[pos] == '-' then pos + 1 else pos;
    var i := IntEnd(s, p).end;
    var f := FractionEnd(s, i).end;
    var e := ExponentEnd(s, f).end;
    IntSound(s, p);
    FractionSound(s, i);
    ExponentSound(s, f);
    var n := NumberParts(s[pos..p], s[p..i], s[i..f], s[f..e]);
    assert n.minus == if s[pos] == '-' then "-" else "";
    assert NumberEnd(s, pos) == Ends(e);
    JoinSlices(s, i, f, e);
    JoinSlices(s, p, i, e);
    JoinSlices(s, pos, p, e);
    NumberIntro(n);
  }

  lemma JoinSlices(s: string, a: nat, b: nat, c: nat)
    requires a <= b <= c <= |s|
    ensures s[a..b] + s[b..c] == s[a..c]
  {
  }

  lemma NumberIntro(n: NumberParts)
    requires ValidParts(n)
    ensures IsNumber(RenderParts(n))
  {
  }

  lemma IntComplete(s: string, pos: nat, t: string)
    requires At(s, pos, t) && ValidInt(t)
    requires pos + |t| < |s| ==> !IsDigit(s[pos + |t|])
    ensures IntEnd(s, pos) == Ends(pos + |t|)
  {
    AtChar(s, pos, t, 0);
    if t != "0" {
      SkipDigitsExact(s, pos, t);
    }
  }

  lemma FractionComplete(s: string, pos: nat, t: string)
    requires At(s, pos, t) && ValidFrac(t)
    requires pos + |t| < |s| ==> !IsDigit(s[pos + |t|]) && s[pos + |t|] != '.'
    ensures FractionEnd(s, pos) == Ends(pos + |t|)
  {
    if t != "" {
      assert t == t[..1] + t[1..];
      AtConcat(s, pos, t[..1], t[1..]);
      AtChar(s, pos, t, 0);
      AtChar(s, pos, t, 1);
      assert t[1] == t[1..][0];
      SkipDigitsExact(s, pos + 1, t[1..]);
    }
  }

  lemma ExponentComplete(s: string, pos: nat, t: string)
    requires At(s, pos, t) && ValidExp(t)
    requires Follows(s, pos + |t|)
    ensures ExponentEnd(s, pos) == Ends(pos + |t|)
  {
    hide At, SkipDigits, IsDigit;
    if t != "" {
      var skip := if t[1] == '-' || t[1] == '+' then 2 else 1;
      assert t == t[..skip] + t[skip..];
      AtConcat(s, pos, t[..skip], t[skip..]);
      AtChar(s, pos, t, 0);
      AtChar(s, pos, t, 1);
      AtChar(s, pos + skip, t[skip..], 0);
      SkipDigitsExact(s, pos + skip, t[skip..]);
    }
  }

  lemma NumberComplete(s: string, pos: nat, t: string)
    requires At(s, pos, t) && IsNumber(t)
    requires Follows(s, pos + |t|)
    ensures pos < |s| && (s[pos] == '-' || IsDigit(s[pos]))
    ensures NumberEnd(s, pos) == Ends(pos + |t|)
  {
    var n: NumberParts :| ValidParts(n) && RenderParts(n) == t;
    NumberPartsComplete(s, pos, n);
  }

  lemma Pieces(n: NumberParts)
    requires ValidParts(n)
    ensures n.minus == "" || n.minus == "-"
    ensures |n.whole| > 0 && IsDigit(n.whole[0]) && ValidInt(n.whole) && ValidFrac(n.frac) && ValidExp(n.exp)
    ensures n.frac != "" ==> n.frac[0] == '.'
    ensures n.exp != "" ==> n.exp[0] == 'e' || n.exp[0] == 'E'
  {
  }

  lemma NumberPartsComplete(s: string, pos: nat, n: NumberParts)
    requires ValidParts(n) && At(s, pos, RenderParts(n))
    requires Follows(s, pos + |RenderParts(n)|)
    ensures pos < |s| && (s[pos] == '-' || IsDigit(s[pos]))
    ensures NumberEnd(s, pos) == Ends(pos + |RenderParts(n)|)
  {
    hide At, IntEnd, FractionEnd, ExponentEnd, SkipDigits, Digits, ValidParts, ValidInt, ValidFrac, ValidExp;
    Pieces(n);
    AtConcat(s, pos, n.minus, n.whole + (n.frac + n.exp));
    var p := pos + |n.minus|;
    AtConcat(s, p, n.whole, n.frac + n.exp);
    AtConcat(s, p + |n.whole|, n.frac, n.exp);
    AtChar(s, p, n.whole, 0);
    if n.minus != "" {
      AtChar(s, pos, n.minus, 0);
    }
    if n.frac != "" {
      AtChar(s, p + |n.whole|, n.frac, 0);
    }
    if n.exp != "" {
      AtChar(s, p + |n.whole| + |n.frac|, n.exp, 0);
    }
    IntComplete(s, p, n.whole);
    FractionComplete(s, p + |n.whole|, n.frac);
    ExponentComplete(s, p + |n.whole| + |n.frac|, n.exp);
  }

  // ----- soundness: every accepted text has a tree

  ghost predicate SoundFor(s: string, from: nat, tokens: seq<Token>, capacity: nat, depth: nat, v: Value)
    requires from <= |s|
  {
    var at := SkipWs(s, from);
    && Valid(v)
    && At(s, at, Render(v))
    && ParseValue(s, from, tokens, capacity, depth) == Done(at + |Render(v)|, tokens + Flat(v, at, |tokens|))
    && depth + Height(v) <= MAX_DEPTH
    && |tokens| + Count(v) <= capacity
  }

  lemma {:induction false} ValueSound(s: string, from: nat, tokens: seq<Token>, capacity: nat, depth: nat)
    returns (v: Value)
    requires from <= |s| && |tokens| <= capacity
    requires ParseValue(s, from, tokens, capacity, depth).Done?
    ensures SoundFor(s, from, tokens, capacity, depth, v)
    decreases |s| - from, 0, 1
  {
    hide At, Flat, Render, Valid;
    var c := s[SkipWs(s, from)];
    if c == '{' || c == '[' {
      v := ContainerSound(s, from, tokens, capacity, depth);
    } else {
      v := ScalarSound(s, from, tokens, capacity, depth);
    }
  }

  lemma ScalarSound(s: string, from: nat, tokens: seq<Token>, capacity: nat, depth: nat)
    returns (v: Value)
    requires from <= |s| && |tokens| <= capacity
    requires ParseValue(s, from, tokens, capacity, depth).Done?
    requires s[SkipWs(s, from)] != '{' && s[SkipWs(s, from)] != '['
    ensures SoundFor(s, from, tokens, capacity, depth, v)
  {
    hide StringEnd, NumberEnd, IsNumber, IsBody;
    var at := SkipWs(s, from);
    var c := s[at];
    var end := ParseValue(s, from, tokens, capacity, depth).pos;
    if c == '"' {
      StringSound(s, at + 1);
      v := Str(s[at + 1..end - 1]);
      assert s[at..end] == Quoted(v.body);
    } else if c == '-' || IsDigit(c) {
      NumberSound(s, at);
      v := Number(s[at..end]);
    } else {
      v := if c == 't' then True else if c == 'f' then False else Null;
    }
  }

  /** What ParseValue finds between the brackets of the container at at. */
  function Inside(s: string, at: nat, tokens: seq<Token>, capacity: nat, depth: nat): Parsed
    requires at < |s| && (s[at] == '{' || s[at] == '[')
  {
    var first := SkipWs(s, at + 1);
    var begun := Open(s, at, tokens);
    if first == |s| || s[first] == (if s[at] == '{' then '}' else ']') then Done(first, begun)
    else if s[at] == '{' then ParseMembers(s, first, begun, capacity, depth)
    else ParseItems(s, first, begun, capacity, depth)
  }

  lemma {:induction false} ContainerSound(s: string, from: nat, tokens: seq<Token>, capacity: nat, depth: nat)
    returns (v: Value)
    requires from <= |s| && |tokens| <= capacity
    requires ParseValue(s, from, tokens, capacity, depth).Done?
    requires s[SkipWs(s, from)] == '{' || s[SkipWs(s, from)] == '['
    ensures SoundFor(s, from, tokens, capacity, depth, v)
    decreases |s| - from, 0, 0
  {
    hide At, IsWs, Flat, FlatItems, FlatMembers, ParseItems, ParseMembers;
    var at := SkipWs(s, from);
    var first := SkipWs(s, at + 1);
    var begun := Open(s, at, tokens);
    if first == |s| || s[first] == (if s[at] == '{' then '}' else ']') {
      var pad := s[at + 1..first];
      v := if s[at] == '{' then Object(pad, NoMembers) else Array(pad, NoItems);
      SkippedBlank(s, at + 1);
      EmptyKids(v, at, |tokens|);
      AtSlice(s, first, "");
    } else if s[at] == '{' {
      var members := MembersSound(s, at + 1, first, begun, capacity, depth);
      v := Object("", members);
    } else {
      var items := ItemsSound(s, at + 1, first, begun, capacity, depth);
      v := Array("", items);
    }
    AtSlice(s, at + 1, "");
    EncloseSound(s, from, tokens, capacity, depth, v);
  }

  lemma EmptyKids(v: Value, at: nat, index: nat)
    requires (v.Array? && v.items.NoItems?) || (v.Object? && v.members.NoMembers?)
    ensures Kids(v, at, index) == []
  {
  }

  function Inner(v: Value): string
    requires v.Array? || v.Object?
  {
    if v.Array? then RenderItems(v.items) else RenderMembers(v.members)
  }

  lemma EncloseSound(s: string, from: nat, tokens: seq<Token>, capacity: nat, depth: nat, v: Value)
    requires from <= |s| && |tokens| < capacity && depth <= MAX_DEPTH
    requires (v.Array? || v.Object?) && Valid(v)
    requires depth + Height(v) <= MAX_DEPTH && |tokens| + Count(v) <= capacity
    requires ParseValue(s, from, tokens, capacity, depth).Done?
    requires var at := SkipWs(s, from);
      && at < |s| && s[at] == (if v.Array? then '[' else '{')
      && At(s, at + 1, v.pad)
      && At(s, at + 1 + |v.pad|, Inner(v))
      && Inside(s, at, tokens, capacity, depth)
         == Done(at + 1 + |v.pad| + |Inner(v)|, Open(s, at, tokens) + Kids(v, at, |tokens|))
    ensures SoundFor(s, from, tokens, capacity, depth, v)
  {
    hide At, Flat, Render, Valid, Height, Count, SkipWs, ParseItems, ParseMembers, Kids, Inner;
    var at := SkipWs(s, from);
    var close := if v.Array? then ']' else '}';
    var p := at + 1 + |v.pad| + |Inner(v)|;
    assert ParseValue(s, from, tokens, capacity, depth)
        == Close(s, Inside(s, at, tokens, capacity, depth), close, |tokens|);
    EncloseAt(s, at, v, close);
    EncloseTokens(s, at, v, tokens, p, close);
  }

  lemma EncloseAt(s: string, at: nat, v: Value, close: char)
    requires match v
             case Array(pad, items) => close == ']'
             case Object(pad, members) => close == '}'
             case _ => false
    ensures At(s, at, Render(v)) <==>
            && at + 1 + |v.pad| + |Inner(v)| < |s|
            && s[at] == (if v.Array? then '[' else '{')
            && At(s, at + 1, v.pad)
            && At(s, at + 1 + |v.pad|, Inner(v))
            && s[at + 1 + |v.pad| + |Inner(v)|] == close
    ensures |Render(v)| == 2 + |v.pad| + |Inner(v)|
  {
    hide At, RenderItems, RenderMembers;
    if v.Array? {
      Bracketed(s, at, '[', v.pad, Inner(v), ']');
      assert Render(v) == ['['] + (v.pad + (Inner(v) + [']']));
    } else {
      Bracketed(s, at, '{', v.pad, Inner(v), '}');
      assert Render(v) == ['{'] + (v.pad + (Inner(v) + ['}']));
    }
  }

  function Kids(v: Value, at: nat, index: nat): seq<Token>
    requires v.Array? || v.Object?
  {
    if v.Array? then FlatItems(v.items, at + 1 + |v.pad|, index + 1)
    else FlatMembers(v.members, at + 1 + |v.pad|, index + 1)
  }

  lemma EncloseTokens(s: string, at: nat, v: Value, tokens: seq<Token>, p: nat, close: char)
    requires v.Array? || v.Object?
    requires at < |s| && s[at] == (if v.Array? then '[' else '{')
    requires p == at + |Render(v)| - 1 < |s| && s[p] == close
    ensures Close(s, Done(p, Open(s, at, tokens) + Kids(v, at, |tokens|)), close, |tokens|)
         == Done(p + 1, tokens + Flat(v, at, |tokens|))
  {
    hide Render, Flat, Kids, Count, Close;
    FlatContainer(v, at, |tokens|);
    var head := Token(if v.Array? then ArrayToken else ObjectToken, at, p + 1, |tokens| + Count(v));
    CloseAfter(s, p, tokens, Token(head.kind, at, at, 0), Kids(v, at, |tokens|), close, head);
  }

  lemma FlatContainer(v: Value, at: nat, index: nat)
    requires v.Array? || v.Object?
    ensures |Kids(v, at, index)| == Count(v) - 1
    ensures Flat(v, at, index)
         == [Token(if v.Array? then ArrayToken else ObjectToken, at, at + |Render(v)|, index + Count(v))]
            + Kids(v, at, index)
  {
    hide Render, FlatItems, FlatMembers;
  }

  lemma CloseAfter(s: string, p: nat, tokens: seq<Token>, begun: Token, kids: seq<Token>, close: char, head: Token)
    requires p < |s| && s[p] == close
    requires head == begun.(end := p + 1, next := |tokens| + 1 + |kids|)
    ensures Close(s, Done(p, tokens + [begun] + kids), close, |tokens|) == Done(p + 1, tokens + ([head] + kids))
  {
    var t := tokens + [begun] + kids;
    assert t[|tokens|] == begun;
    assert t[|tokens| := head] == tokens + ([head] + kids);
  }

  lemma Bracketed(s: string, at: nat, first: char, pad: string, inner: string, close: char)
    ensures At(s, at, [first] + (pad + (inner + [close])))
       <==> && at + 1 + |pad| + |inner| < |s|
            && s[at] == first
            && At(s, at + 1, pad)
            && At(s, at + 1 + |pad|, inner)
            && s[at + 1 + |pad| + |inner|] == close
  {
    hide At;
    var end := at + 1 + |pad| + |inner|;
    if at < |s| { AtSlice(s, at, [first]); }
    if end < |s| { AtSlice(s, end, [close]); }
    AtConcat(s, at + 1 + |pad|, inner, [close]);
    AtConcat(s, at + 1, pad, inner + [close]);
    AtConcat(s, at, [first], pad + (inner + [close]));
  }

  ghost predicate ItemsSoundFor(s: string, start: nat, from: nat, tokens: seq<Token>, capacity: nat, depth: nat,
                                items: Items)
    requires from <= |s|
  {
    && items.Item? && ValidItems(items)
    && At(s, start, RenderItems(items))
    && ParseItems(s, from, tokens, capacity, depth)
       == Done(start + |RenderItems(items)|, tokens + FlatItems(items, start, |tokens|))
    && depth + ItemsHeight(items) <= MAX_DEPTH
    && |tokens| + ItemsCount(items) <= capacity
  }

  /** start is where the list begins; from is start or later within leading white space. */
  lemma {:induction false} ItemsSound(s: string, start: nat, from: nat, tokens: seq<Token>, capacity: nat, depth: nat)
    returns (items: Items)
    requires start <= |s| && start <= from <= SkipWs(s, start) && |tokens| <= capacity
    requires ParseItems(s, from, tokens, capacity, depth).Done?
    ensures ItemsSoundFor(s, start, from, tokens, capacity, depth, items)
    decreases |s| - from, 1
  {
    hide At, Flat, Render, ParseValue, IsWs, Valid, Height;
    SkipAgain(s, start, from);
    var at := SkipWs(s, start);
    var v := ValueSound(s, from, tokens, capacity, depth + 1);
    var r := ParseValue(s, from, tokens, capacity, depth + 1);
    var q := SkipWs(s, r.pos);
    var rest := NoItems;
    if s[q] == ',' {
      rest := ItemsSound(s, q + 1, q + 1, r.tokens, capacity, depth);
    }
    items := Item(s[start..at], v, s[r.pos..q], rest);
    ItemSound(s, start, from, tokens, capacity, depth, items);
  }

  lemma ItemSound(s: string, start: nat, from: nat, tokens: seq<Token>, capacity: nat, depth: nat, i: Items)
    requires start <= |s| && start <= from <= SkipWs(s, start) && |tokens| <= capacity
    requires i.Item? && SoundFor(s, from, tokens, capacity, depth + 1, i.value)
    requires i.before == s[start..SkipWs(s, start)] && SkipWs(s, from) == SkipWs(s, start)
    requires var r := ParseValue(s, from, tokens, capacity, depth + 1);
      && var q := SkipWs(s, r.pos);
      && i.after == s[r.pos..q]
      && q < |s|
      && if s[q] == ',' then ItemsSoundFor(s, q + 1, q + 1, r.tokens, capacity, depth, i.rest) else i.rest.NoItems?
    ensures ItemsSoundFor(s, start, from, tokens, capacity, depth, i)
  {
    hide At, Flat, Render, ParseValue, IsWs, Valid, Height, Blank, SkipWs;
    var r := ParseValue(s, from, tokens, capacity, depth + 1);
    var q := SkipWs(s, r.pos);
    SkippedBlank(s, start);
    SkippedBlank(s, r.pos);
    assert r.pos == start + |i.before| + |Render(i.value)|;
    ItemPlaced(s, start, i, q);
    FlatItem(i, start, tokens);
    if s[q] != ',' {
      assert RenderItems(i.rest) == "";
      assert FlatItems(i.rest, q, |r.tokens|) == [];
      assert ParseItems(s, from, tokens, capacity, depth) == Done(q, r.tokens);
      assert r.tokens == tokens + FlatItems(i, start, |tokens|);
    } else {
      assert ParseItems(s, from, tokens, capacity, depth) == ParseItems(s, q + 1, r.tokens, capacity, depth);
    }
    assert ValidItems(i);
    assert depth + ItemsHeight(i) <= MAX_DEPTH;
    assert |tokens| + ItemsCount(i) <= capacity;
  }

  lemma ItemPlaced(s: string, start: nat, i: Items, q: nat)
    requires i.Item? && q < |s|
    requires q == start + |i.before| + |Render(i.value)| + |i.after|
    requires At(s, start, i.before)
    requires At(s, start + |i.before|, Render(i.value))
    requires At(s, q - |i.after|, i.after)
    requires if s[q] == ',' then i.rest.Item? && At(s, q + 1, RenderItems(i.rest)) else i.rest.NoItems?
    ensures At(s, start, RenderItems(i))
    ensures start + |RenderItems(i)| == (if s[q] == ',' then q + 1 else q) + |RenderItems(i.rest)|
    ensures ItemRestAt(i, start) == if s[q] == ',' then q + 1 else q
  {
    hide At, Render;
    if s[q] == ',' {
      assert s[q..q + 1] == ",";
      AtSlice(s, q, ",");
    } else {
      AtSlice(s, q, "");
    }
    ItemAt(s, start, i);
  }

  ghost predicate MembersSoundFor(s: string, start: nat, from: nat, tokens: seq<Token>, capacity: nat, depth: nat,
                                  members: Members)
    requires from <= |s|
  {
    && members.Member? && ValidMembers(members)
    && At(s, start, RenderMembers(members))
    && ParseMembers(s, from, tokens, capacity, depth)
       == Done(start + |RenderMembers(members)|, tokens + FlatMembers(members, start, |tokens|))
    && depth + MembersHeight(members) <= MAX_DEPTH
    && |tokens| + MembersCount(members) <= capacity
  }

  lemma {:induction false} MembersSound(s: string, start: nat, from: nat, tokens: seq<Token>, capacity: nat, depth: nat)
    returns (members: Members)
    requires start <= |s| && start <= from <= SkipWs(s, start) && |tokens| <= capacity
    requires ParseMembers(s, from, tokens, capacity, depth).Done?
    ensures MembersSoundFor(s, start, from, tokens, capacity, depth, members)
    decreases |s| - from, 1
  {
    hide *;
    ParsesMember(s, from, tokens, capacity, depth);
    SkipAgain(s, start, from);
    var k := SkipWs(s, start);
    SkipAgain(s, start, k);
    var key := ValueSound(s, k, tokens, capacity, depth + 1);
    KeyIsString(s, k, tokens, capacity, depth + 1, key);
    var r := ParseValue(s, k, tokens, capacity, depth + 1);
    WithinCapacity(s, k, tokens, capacity, depth + 1, key);
    var colon := SkipWs(s, r.pos);
    var v := ValueSound(s, colon + 1, r.tokens, capacity, depth + 1);
    var r2 := ParseValue(s, colon + 1, r.tokens, capacity, depth + 1);
    WithinCapacity(s, colon + 1, r.tokens, capacity, depth + 1, v);
    var q := SkipWs(s, r2.pos);
    var rest := NoMembers;
    if s[q] == ',' {
      rest := MembersSound(s, q + 1, q + 1, r2.tokens, capacity, depth);
    }
    members := Member(s[start..k], key.body, s[r.pos..colon], s[colon + 1..SkipWs(s, colon + 1)], v, s[r2.pos..q], rest);
    MemberSound(s, start, from, tokens, capacity, depth, members, r, r2);
  }

  lemma MemberSound(s: string, start: nat, from: nat, tokens: seq<Token>, capacity: nat, depth: nat, m: Members,
                    r: Parsed, r2: Parsed)
    requires start <= |s| && start <= from <= |s| && |tokens| <= capacity
    requires r.Done? && r2.Done? && r.pos <= |s| && r2.pos <= |s|
    requires SkipWs(s, from) == SkipWs(s, start) < |s| && s[SkipWs(s, start)] == '"'
    requires m.Member? && m.before == s[start..SkipWs(s, start)]
    requires SkipWs(s, SkipWs(s, start)) == SkipWs(s, start)
    requires SoundFor(s, SkipWs(s, start), tokens, capacity, depth + 1, Str(m.key))
    requires r == ParseValue(s, SkipWs(s, start), tokens, capacity, depth + 1) && |r.tokens| <= capacity
    requires var colon := SkipWs(s, r.pos);
      && colon < |s| && s[colon] == ':'
      && m.colonBefore == s[r.pos..colon]
      && m.valueBefore == s[colon + 1..SkipWs(s, colon + 1)]
      && SoundFor(s, colon + 1, r.tokens, capacity, depth + 1, m.value)
      && r2 == ParseValue(s, colon + 1, r.tokens, capacity, depth + 1) && |r2.tokens| <= capacity
      && var q := SkipWs(s, r2.pos);
      && m.after == s[r2.pos..q]
      && q < |s|
      && if s[q] == ',' then MembersSoundFor(s, q + 1, q + 1, r2.tokens, capacity, depth, m.rest) else m.rest.NoMembers?
    ensures MembersSoundFor(s, start, from, tokens, capacity, depth, m)
  {
    hide At, Flat, ParseValue, IsWs, IsBody, Valid, Render, Height, Blank, SkipWs, ParseMembers;
    hide MembersHeight, MembersCount, Count, FlatMembers, RenderMembers;
    var k := SkipWs(s, start);
    var colon := SkipWs(s, r.pos);
    var q := SkipWs(s, r2.pos);
    SkippedBlank(s, start);
    SkippedBlank(s, r.pos);
    SkippedBlank(s, colon + 1);
    SkippedBlank(s, r2.pos);
    KeyFacts(m.key, k, |tokens|);
    MemberPlaced(s, start, m, q);
    FlatMember(m, start, tokens, Str(m.key));
    MemberParsed(s, from, tokens, capacity, depth);
    LastMember(m, |r2.tokens|);
    MemberSizes(m);
    assert ValidMembers(m);
  }

  lemma KeyFacts(key: string, at: nat, index: nat)
    ensures Render(Str(key)) == Quoted(key) && |Quoted(key)| == |key| + 2
    ensures Valid(Str(key)) <==> IsBody(key)
    ensures Count(Str(key)) == 1
  {
  }

  lemma KeyToken(key: string, at: nat, index: nat)
    ensures Flat(Str(key), at, index) == [Token(StringToken, at, at + |key| + 2, index + 1)]
  {
  }

  lemma MemberSizes(m: Members)
    requires m.Member?
    ensures MembersHeight(m) == Max(1 + Height(m.value), MembersHeight(m.rest))
    ensures MembersCount(m) == 1 + Count(m.value) + MembersCount(m.rest)
  {
  }

  lemma LastMember(m: Members, index: nat)
    requires m.Member?
    ensures m.rest.NoMembers? ==>
            && RenderMembers(m.rest) == ""
            && MembersHeight(m.rest) == MembersCount(m.rest) == 0
            && ValidMembers(m.rest)
            && forall at: nat :: FlatMembers(m.rest, at, index) == []
  {
  }

  lemma MemberParsed(s: string, from: nat, tokens: seq<Token>, capacity: nat, depth: nat)
    requires from <= |s|
    requires var k := SkipWs(s, from);
      && k < |s| && s[k] == '"'
      && var r := ParseValue(s, k, tokens, capacity, depth + 1);
      && r.Done?
      && var colon := SkipWs(s, r.pos);
      && colon < |s| && s[colon] == ':'
      && var r2 := ParseValue(s, colon + 1, r.tokens, capacity, depth + 1);
      && r2.Done?
      && SkipWs(s, r2.pos) < |s|
    ensures var r := ParseValue(s, SkipWs(s, from), tokens, capacity, depth + 1);
      var r2 := ParseValue(s, SkipWs(s, r.pos) + 1, r.tokens, capacity, depth + 1);
      var q := SkipWs(s, r2.pos);
      ParseMembers(s, from, tokens, capacity, depth)
      == if s[q] == ',' then ParseMembers(s, q + 1, r2.tokens, capacity, depth) else Done(q, r2.tokens)
  {
    hide ParseValue, SkipWs;
  }

  lemma MemberPlaced(s: string, start: nat, m: Members, q: nat)
    requires m.Member? && q < |s|
    requires var k := start + |m.before|;
             var c := k + |m.key| + 2 + |m.colonBefore|;
             var at := MemberValueAt(m, start);
      && At(s, start, m.before)
      && At(s, k, Quoted(m.key))
      && At(s, k + |m.key| + 2, m.colonBefore)
      && c < |s| && s[c] == ':'
      && At(s, c + 1, m.valueBefore)
      && At(s, at, Render(m.value))
      && At(s, at + |Render(m.value)|, m.after)
      && q == at + |Render(m.value)| + |m.after|
    requires if s[q] == ',' then m.rest.Member? && At(s, q + 1, RenderMembers(m.rest)) else m.rest.NoMembers?
    ensures At(s, start, RenderMembers(m))
    ensures start + |RenderMembers(m)| == (if s[q] == ',' then q + 1 else q) + |RenderMembers(m.rest)|
    ensures MemberRestAt(m, start) == if s[q] == ',' then q + 1 else q
  {
    hide At, Render;
    var c := start + |m.before| + |m.key| + 2 + |m.colonBefore|;
    assert s[c..c + 1] == ":";
    AtSlice(s, c, ":");
    if s[q] == ',' {
      assert s[q..q + 1] == ",";
      AtSlice(s, q, ",");
    } else {
      AtSlice(s, q, "");
    }
    MemberAt(s, start, m);
  }

  lemma NumberStart(t: string)
    requires IsNumber(t)
    ensures t != "" && (t[0] == '-' || IsDigit(t[0]))
  {
    var n: NumberParts :| ValidParts(n) && RenderParts(n) == t;
    assert t[0] == if n.minus == "" then n.whole[0] else '-';
  }

  lemma KeyIsString(s: string, from: nat, tokens: seq<Token>, capacity: nat, depth: nat, v: Value)
    requires from <= |s| && SkipWs(s, from) == from < |s| && s[from] == '"'
    requires SoundFor(s, from, tokens, capacity, depth, v)
    ensures v.Str?
  {
    if v.Number? {
      NumberStart(v.digits);
    }
    AtChar(s, from, Render(v), 0);
  }

  lemma WithinCapacity(s: string, from: nat, tokens: seq<Token>, capacity: nat, depth: nat, v: Value)
    requires from <= |s| && SoundFor(s, from, tokens, capacity, depth, v)
    ensures |ParseValue(s, from, tokens, capacity, depth).tokens| <= capacity
  {
    hide At, Flat, Valid, Height, Render;
  }

  /** What a successful ParseMembers went through for its first member. */
  lemma ParsesMember(s: string, from: nat, tokens: seq<Token>, capacity: nat, depth: nat)
    requires from <= |s| && |tokens| <= capacity
    requires ParseMembers(s, from, tokens, capacity, depth).Done?
    ensures var k := SkipWs(s, from);
      && from <= k < |s| && s[k] == '"'
      && var r := ParseValue(s, k, tokens, capacity, depth + 1);
      && r.Done?
      && var colon := SkipWs(s, r.pos);
      && colon < |s| && s[colon] == ':'
      && var r2 := ParseValue(s, colon + 1, r.tokens, capacity, depth + 1);
      && r2.Done?
      && var q := SkipWs(s, r2.pos);
      && q < |s|
      && (s[q] == ',' ==> ParseMembers(s, q + 1, r2.tokens, capacity, depth).Done?)
  {
    hide ParseValue, SkipWs;
    var k := SkipWs(s, from);
    var r := ParseValue(s, k, tokens, capacity, depth + 1);
    assert r.Done?;
    var colon := SkipWs(s, r.pos);
    assert colon < |s| && s[colon] == ':';
    var r2 := ParseValue(s, colon + 1, r.tokens, capacity, depth + 1);
    assert r2.Done?;
    var q := SkipWs(s, r2.pos);
    assert q < |s|;
  }

  lemma ItemAt(s: string, start: nat, i: Items)
    requires i.Item?
    ensures At(s, start, RenderItems(i)) <==>
            && var at := start + |i.before|;
               var q := at + |Render(i.value)|;
            && At(s, start, i.before)
            && At(s, at, Render(i.value))
            && At(s, q, i.after)
            && At(s, q + |i.after|, Separator(i.rest.Item?))
            && At(s, ItemRestAt(i, start), RenderItems(i.rest))
    ensures |RenderItems(i)| == ItemRestAt(i, start) - start + |RenderItems(i.rest)|
  {
    hide At;
    var at := start + |i.before|;
    var q := at + |Render(i.value)|;
    var t3 := Separator(i.rest.Item?) + RenderItems(i.rest);
    var t2 := i.after + t3;
    var t1 := Render(i.value) + t2;
    AtConcat(s, start, i.before, t1);
    AtConcat(s, at, Render(i.value), t2);
    AtConcat(s, q, i.after, t3);
    AtConcat(s, q + |i.after|, Separator(i.rest.Item?), RenderItems(i.rest));
  }

  lemma FlatItem(i: Items, start: nat, tokens: seq<Token>)
    requires i.Item?
    ensures tokens + FlatItems(i, start, |tokens|)
         == (tokens + Flat(i.value, start + |i.before|, |tokens|))
            + FlatItems(i.rest, ItemRestAt(i, start), |tokens| + Count(i.value))
  {
  }

  /** The pieces of one member, laid end to end, are the rendering of the list. */
  lemma MemberAt(s: string, start: nat, m: Members)
    requires m.Member?
    ensures At(s, start, RenderMembers(m)) <==>
            && var k := start + |m.before|;
               var c := k + |m.key| + 2 + |m.colonBefore|;
               var at := MemberValueAt(m, start);
               var q := at + |Render(m.value)|;
            && At(s, start, m.before)
            && At(s, k, Quoted(m.key))
            && At(s, k + |m.key| + 2, m.colonBefore)
            && At(s, c, ":")
            && At(s, c + 1, m.valueBefore)
            && At(s, at, Render(m.value))
            && At(s, q, m.after)
            && At(s, q + |m.after|, Separator(m.rest.Member?))
            && At(s, MemberRestAt(m, start), RenderMembers(m.rest))
    ensures |RenderMembers(m)| == MemberRestAt(m, start) - start + |RenderMembers(m.rest)|
  {
    hide At;
    var k := start + |m.before|;
    var c := k + |m.key| + 2 + |m.colonBefore|;
    var at := MemberValueAt(m, start);
    var q := at + |Render(m.value)|;
    var t7 := Separator(m.rest.Member?) + RenderMembers(m.rest);
    var t6 := m.after + t7;
    var t5 := Render(m.value) + t6;
    var t4 := m.valueBefore + t5;
    var t3 := ":" + t4;
    var t2 := m.colonBefore + t3;
    var t1 := Quoted(m.key) + t2;
    AtConcat(s, start, m.before, t1);
    AtConcat(s, k, Quoted(m.key), t2);
    AtConcat(s, k + |m.key| + 2, m.colonBefore, t3);
    AtConcat(s, c, ":", t4);
    AtConcat(s, c + 1, m.valueBefore, t5);
    AtConcat(s, at, Render(m.value), t6);
    AtConcat(s, q, m.after, t7);
    AtConcat(s, q + |m.after|, Separator(m.rest.Member?), RenderMembers(m.rest));
  }

  lemma FlatMember(m: Members, start: nat, tokens: seq<Token>, key: Value)
    requires m.Member? && key == Str(m.key)
    ensures tokens + FlatMembers(m, start, |tokens|)
         == ((tokens + Flat(key, start + |m.before|, |tokens|))
             + Flat(m.value, MemberValueAt(m, start), |tokens| + 1))
            + FlatMembers(m.rest, MemberRestAt(m, start), |tokens| + 1 + Count(m.value))
  {
  }
}
