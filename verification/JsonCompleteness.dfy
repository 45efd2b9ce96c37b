/** Every valid tree within the limits is parsed back, token for token; a valid
    tree beyond them is reported as a limit, never as malformed. */
module JsonCompleteness {
  import opened JsonGrammar
  import opened JsonParser
  import opened JsonParserProofs

  /** What parsing a value of this height and count must give. */
  function Expect(height: nat, count: nat, depth: nat, used: nat, capacity: nat, end: nat, tokens: seq<Token>): Parsed {
    if depth + height <= MAX_DEPTH && used + count <= capacity then Done(end, tokens) else Stop(true)
  }

  predicate Plain(c: char) {
    !IsWs(c) && c != ',' && c != ':' && c != ']' && c != '}'
  }

  lemma ValueStart(v: Value)
    requires Valid(v)
    ensures Render(v) != "" && Plain(Render(v)[0])
  {
    if v.Number? {
      NumberStart(v.digits);
    }
  }

  lemma StartsAt(s: string, at: nat, v: Value)
    requires Valid(v) && At(s, at, Render(v))
    ensures at < |s| && Plain(s[at]) && s[at] == Render(v)[0]
  {
    hide At, Valid, Render;
    ValueStart(v);
    AtChar(s, at, Render(v), 0);
  }

  /** The byte after a piece of white space that ends in front of stop. */
  lemma AfterBlank(s: string, pos: nat, blank: string)
    requires At(s, pos, blank) && Blank(blank)
    requires pos + |blank| < |s| ==> !IsWs(s[pos + |blank|]) && Follows(s, pos + |blank|)
    ensures SkipWs(s, pos) == pos + |blank|
    ensures Follows(s, pos)
  {
    hide At;
    SkipBlank(s, pos, blank);
    if blank != "" {
      AtChar(s, pos, blank, 0);
    }
  }

  ghost predicate CompleteFor(s: string, from: nat, tokens: seq<Token>, capacity: nat, depth: nat, v: Value)
    requires from <= |s|
  {
    var at := SkipWs(s, from);
    ParseValue(s, from, tokens, capacity, depth)
    == Expect(Height(v), Count(v), depth, |tokens|, capacity, at + |Render(v)|, tokens + Flat(v, at, |tokens|))
  }

  lemma {:induction false} ValueComplete(s: string, from: nat, tokens: seq<Token>, capacity: nat, depth: nat, v: Value)
    requires from <= |s| && |tokens| <= capacity
    requires Valid(v) && At(s, SkipWs(s, from), Render(v)) && Follows(s, SkipWs(s, from) + |Render(v)|)
    ensures CompleteFor(s, from, tokens, capacity, depth, v)
    decreases v, 1
  {
    hide At, SkipWs, ParseItems, ParseMembers, Valid, Render, Flat, Height;
    if depth > MAX_DEPTH || |tokens| == capacity {
    } else if v.Array? || v.Object? {
      ContainerComplete(s, from, tokens, capacity, depth, v);
    } else {
      ScalarComplete(s, from, tokens, capacity, depth, v);
    }
  }

  lemma ScalarComplete(s: string, from: nat, tokens: seq<Token>, capacity: nat, depth: nat, v: Value)
    requires from <= |s| && |tokens| < capacity && depth <= MAX_DEPTH
    requires !v.Array? && !v.Object?
    requires Valid(v) && At(s, SkipWs(s, from), Render(v)) && Follows(s, SkipWs(s, from) + |Render(v)|)
    ensures CompleteFor(s, from, tokens, capacity, depth, v)
  {
    hide At, SkipWs, IsBody, IsNumber, NumberEnd, StringEnd;
    var at := SkipWs(s, from);
    StartsAt(s, at, v);
    if v.Number? {
      NumberComplete(s, at, v.digits);
      NumberStart(v.digits);
    } else if v.Str? {
      Bracketed(s, at, '"', "", v.body, '"');
      assert Render(v) == ['"'] + ("" + (v.body + ['"']));
      StringComplete(s, at + 1, v.body);
    }
  }

  lemma {:induction false} ContainerComplete(s: string, from: nat, tokens: seq<Token>, capacity: nat, depth: nat,
                                             v: Value)
    requires from <= |s| && |tokens| < capacity && depth <= MAX_DEPTH
    requires v.Array? || v.Object?
    requires Valid(v) && At(s, SkipWs(s, from), Render(v)) && Follows(s, SkipWs(s, from) + |Render(v)|)
    ensures CompleteFor(s, from, tokens, capacity, depth, v)
    decreases v, 0
  {
    hide At, Flat, FlatItems, FlatMembers, ParseItems, ParseMembers, SkipWs, Render, RenderItems, RenderMembers;
    var at := SkipWs(s, from);
    var close := if v.Array? then ']' else '}';
    EncloseAt(s, at, v, close);
    var begun := Open(s, at, tokens);
    var end := at + 1 + |v.pad| + |Inner(v)|;
    if (v.Array? && v.items.NoItems?) || (v.Object? && v.members.NoMembers?) {
      EmptyInner(v);
      AfterBlank(s, at + 1, v.pad);
      EmptyKids(v, at, |tokens|);
    } else if v.Array? {
      ItemsComplete(s, at + 1, SkipWs(s, at + 1), begun, capacity, depth, v.items);
    } else {
      MembersComplete(s, at + 1, SkipWs(s, at + 1), begun, capacity, depth, v.members);
    }
    assert Inside(s, at, tokens, capacity, depth)
        == Expect(Height(v), Count(v) - 1, depth, |begun|, capacity, end, begun + Kids(v, at, |tokens|));
    EncloseExpect(s, from, tokens, capacity, depth, v);
  }

  lemma EmptyInner(v: Value)
    requires (v.Array? && v.items.NoItems?) || (v.Object? && v.members.NoMembers?)
    ensures Inner(v) == "" && Height(v) == 0 && Count(v) == 1
  {
  }

  lemma EncloseExpect(s: string, from: nat, tokens: seq<Token>, capacity: nat, depth: nat, v: Value)
    requires from <= |s| && |tokens| < capacity && depth <= MAX_DEPTH
    requires (v.Array? || v.Object?) && At(s, SkipWs(s, from), Render(v))
    requires var at := SkipWs(s, from);
      && at < |s| && s[at] == (if v.Array? then '[' else '{')
      && Inside(s, at, tokens, capacity, depth)
         == Expect(Height(v), Count(v) - 1, depth, |tokens| + 1, capacity, at + 1 + |v.pad| + |Inner(v)|,
                   Open(s, at, tokens) + Kids(v, at, |tokens|))
    ensures CompleteFor(s, from, tokens, capacity, depth, v)
  {
    hide At, Flat, Render, Valid, Height, Count, SkipWs, ParseItems, ParseMembers, Kids, Inner;
    var at := SkipWs(s, from);
    var close := if v.Array? then ']' else '}';
    EncloseAt(s, at, v, close);
    var p := at + 1 + |v.pad| + |Inner(v)|;
    assert ParseValue(s, from, tokens, capacity, depth)
        == Close(s, Inside(s, at, tokens, capacity, depth), close, |tokens|);
    EncloseTokens(s, at, v, tokens, p, close);
  }

  ghost predicate ListEnds(s: string, end: nat, close: char) {
    end < |s| && s[end] == close && (close == ']' || close == '}')
  }

  lemma {:induction false} ItemsComplete(s: string, start: nat, from: nat, tokens: seq<Token>, capacity: nat,
                                         depth: nat, i: Items)
    requires start <= |s| && start <= from <= SkipWs(s, start) && |tokens| <= capacity
    requires i.Item? && ValidItems(i) && At(s, start, RenderItems(i))
    requires ListEnds(s, start + |RenderItems(i)|, ']')
    ensures SkipWs(s, start) < |s| && s[SkipWs(s, start)] != ']'
    ensures ParseItems(s, from, tokens, capacity, depth)
         == Expect(ItemsHeight(i), ItemsCount(i), depth, |tokens|, capacity,
                   start + |RenderItems(i)|, tokens + FlatItems(i, start, |tokens|))
    decreases i
  {
    hide At, Flat, FlatItems, Render, RenderItems, ParseValue, ParseItems, SkipWs, Valid, Height, Count, Blank, IsWs;
    ItemPieces(s, start, from, i);
    ValueComplete(s, from, tokens, capacity, depth + 1, i.value);
    var at := start + |i.before|;
    var q := at + |Render(i.value)| + |i.after|;
    var next := tokens + Flat(i.value, at, |tokens|);
    if i.rest.Item? && |next| <= capacity {
      ItemsComplete(s, q + 1, q + 1, next, capacity, depth, i.rest);
    }
    ItemExpect(s, start, from, tokens, capacity, depth, i);
  }

  /** Where the pieces of the first item lie, and what follows each of them. */
  lemma ItemPieces(s: string, start: nat, from: nat, i: Items)
    requires start <= |s| && start <= from <= SkipWs(s, start)
    requires i.Item? && ValidItems(i) && At(s, start, RenderItems(i))
    requires ListEnds(s, start + |RenderItems(i)|, ']')
    ensures Valid(i.value) && ValidItems(i.rest)
    ensures var at := start + |i.before|;
      var p := at + |Render(i.value)|;
      var q := p + |i.after|;
      && SkipWs(s, start) == SkipWs(s, from) == at < |s|
      && s[at] != ']'
      && At(s, at, Render(i.value)) && Follows(s, p)
      && p <= |s| && SkipWs(s, p) == q < |s|
      && (if i.rest.Item?
          then s[q] == ',' && ItemRestAt(i, start) == q + 1 && At(s, q + 1, RenderItems(i.rest))
          else s[q] == ']' && ItemRestAt(i, start) == q && |RenderItems(i.rest)| == 0)
    ensures start + |RenderItems(i)| == ItemRestAt(i, start) + |RenderItems(i.rest)|
  {
    hide At, Render, SkipWs, Valid, Blank;
    ItemAt(s, start, i);
    var at := start + |i.before|;
    var q := at + |Render(i.value)| + |i.after|;
    SeparatorAt(s, q, i.rest.Item?);
    StartsAt(s, at, i.value);
    SkipBlank(s, start, i.before);
    SkipAgain(s, start, from);
    AfterBlank(s, at + |Render(i.value)|, i.after);
  }

  lemma SeparatorAt(s: string, at: nat, more: bool)
    requires At(s, at, Separator(more))
    ensures more ==> at < |s| && s[at] == ','
  {
    if more {
      AtChar(s, at, ",", 0);
    }
  }

  lemma ItemExpect(s: string, start: nat, from: nat, tokens: seq<Token>, capacity: nat, depth: nat, i: Items)
    requires from <= |s| && |tokens| <= capacity && i.Item?
    requires SkipWs(s, from) == start + |i.before|
    requires CompleteFor(s, from, tokens, capacity, depth + 1, i.value)
    requires var p := start + |i.before| + |Render(i.value)|;
      var q := p + |i.after|;
      && p <= |s| && SkipWs(s, p) == q < |s|
      && ItemRestAt(i, start) == (if i.rest.Item? then q + 1 else q)
      && start + |RenderItems(i)| == ItemRestAt(i, start) + |RenderItems(i.rest)|
      && (i.rest.NoItems? ==> |RenderItems(i.rest)| == 0)
      && (i.rest.Item? <==> s[q] == ',')
      && var next := tokens + Flat(i.value, start + |i.before|, |tokens|);
      && (i.rest.Item? && |next| <= capacity ==>
            ParseItems(s, q + 1, next, capacity, depth)
            == Expect(ItemsHeight(i.rest), ItemsCount(i.rest), depth, |next|, capacity,
                      start + |RenderItems(i)|, next + FlatItems(i.rest, q + 1, |next|)))
    ensures ParseItems(s, from, tokens, capacity, depth)
         == Expect(ItemsHeight(i), ItemsCount(i), depth, |tokens|, capacity,
                   start + |RenderItems(i)|, tokens + FlatItems(i, start, |tokens|))
  {
    hide At, Flat, Render, RenderItems, ParseValue, SkipWs, Height, Count;
    FlatItem(i, start, tokens);
    LastItem(i.rest, ItemRestAt(i, start), |tokens| + Count(i.value));
  }

  lemma LastItem(i: Items, at: nat, index: nat)
    ensures i.NoItems? ==> ItemsHeight(i) == ItemsCount(i) == 0 && FlatItems(i, at, index) == []
  {
  }

  lemma {:induction false} MembersComplete(s: string, start: nat, from: nat, tokens: seq<Token>, capacity: nat,
                                           depth: nat, m: Members)
    requires start <= |s| && start <= from <= SkipWs(s, start) && |tokens| <= capacity
    requires m.Member? && ValidMembers(m) && At(s, start, RenderMembers(m))
    requires ListEnds(s, start + |RenderMembers(m)|, '}')
    ensures SkipWs(s, start) < |s| && s[SkipWs(s, start)] != '}'
    ensures ParseMembers(s, from, tokens, capacity, depth)
         == Expect(MembersHeight(m), MembersCount(m), depth, |tokens|, capacity,
                   start + |RenderMembers(m)|, tokens + FlatMembers(m, start, |tokens|))
    decreases m
  {
    hide At, Flat, FlatMembers, Render, RenderMembers, ParseValue, ParseMembers, SkipWs, Valid, Height, Count, Blank;
    hide IsWs;
    MemberPieces(s, start, from, m);
    var k := start + |m.before|;
    var at := MemberValueAt(m, start);
    var q := at + |Render(m.value)| + |m.after|;
    KeyComplete(s, k, tokens, capacity, depth + 1, m.key);
    var named := tokens + [Token(StringToken, k, k + |m.key| + 2, |tokens| + 1)];
    if |named| <= capacity {
      ValueComplete(s, at - |m.valueBefore|, named, capacity, depth + 1, m.value);
    }
    var next := named + Flat(m.value, at, |named|);
    if m.rest.Member? && |next| <= capacity {
      MembersComplete(s, q + 1, q + 1, next, capacity, depth, m.rest);
    }
    MemberExpect(s, start, from, tokens, capacity, depth, m);
  }

  lemma KeyComplete(s: string, k: nat, tokens: seq<Token>, capacity: nat, depth: nat, key: string)
    requires k <= |s| && SkipWs(s, k) == k && At(s, k, Quoted(key)) && IsBody(key) && |tokens| <= capacity
    ensures ParseValue(s, k, tokens, capacity, depth)
         == Expect(0, 1, depth, |tokens|, capacity, k + |key| + 2,
                   tokens + [Token(StringToken, k, k + |key| + 2, |tokens| + 1)])
  {
    hide SkipWs, StringEnd, IsBody, At;
    Bracketed(s, k, '"', "", key, '"');
    assert Quoted(key) == ['"'] + ("" + (key + ['"']));
    StringComplete(s, k + 1, key);
  }

  lemma MemberPieces(s: string, start: nat, from: nat, m: Members)
    requires start <= |s| && start <= from <= SkipWs(s, start)
    requires m.Member? && ValidMembers(m) && At(s, start, RenderMembers(m))
    requires ListEnds(s, start + |RenderMembers(m)|, '}')
    ensures IsBody(m.key) && Valid(m.value) && ValidMembers(m.rest)
    ensures var k := start + |m.before|;
      var colon := k + |m.key| + 2 + |m.colonBefore|;
      var at := MemberValueAt(m, start);
      var p := at + |Render(m.value)|;
      var q := p + |m.after|;
      && SkipWs(s, start) == SkipWs(s, from) == k < |s| && SkipWs(s, k) == k
      && s[k] == '"' && At(s, k, Quoted(m.key))
      && colon < |s| && SkipWs(s, k + |m.key| + 2) == colon && s[colon] == ':'
      && SkipWs(s, colon + 1) == at && At(s, at, Render(m.value)) && Follows(s, p)
      && p <= |s| && SkipWs(s, p) == q < |s|
      && (if m.rest.Member?
          then s[q] == ',' && MemberRestAt(m, start) == q + 1 && At(s, q + 1, RenderMembers(m.rest))
          else s[q] == '}' && MemberRestAt(m, start) == q && |RenderMembers(m.rest)| == 0)
    ensures start + |RenderMembers(m)| == MemberRestAt(m, start) + |RenderMembers(m.rest)|
  {
    hide At, Render, RenderMembers, SkipWs, Valid, Blank, IsBody;
    MemberAt(s, start, m);
    LastMember(m, 0);
    var k := start + |m.before|;
    var c := k + |m.key| + 2 + |m.colonBefore|;
    var at := MemberValueAt(m, start);
    var q := at + |Render(m.value)| + |m.after|;
    AtChar(s, k, Quoted(m.key), 0);
    AtChar(s, c, ":", 0);
    SeparatorAt(s, q, m.rest.Member?);
    StartsAt(s, at, m.value);
    SkipBlank(s, start, m.before);
    SkipAgain(s, start, from);
    SkipAgain(s, start, k);
    SkipBlank(s, k + |m.key| + 2, m.colonBefore);
    SkipBlank(s, c + 1, m.valueBefore);
    AfterBlank(s, at + |Render(m.value)|, m.after);
  }

  lemma MemberExpect(s: string, start: nat, from: nat, tokens: seq<Token>, capacity: nat, depth: nat, m: Members)
    requires from <= |s| && |tokens| <= capacity && m.Member?
    requires SkipWs(s, from) == start + |m.before| < |s| && s[start + |m.before|] == '"'
    requires var k := start + |m.before|;
      var end := k + |m.key| + 2;
      var colon := end + |m.colonBefore|;
      var at := MemberValueAt(m, start);
      var p := at + |Render(m.value)|;
      var q := p + |m.after|;
      var named := tokens + [Token(StringToken, k, end, |tokens| + 1)];
      var next := named + Flat(m.value, at, |named|);
      && ParseValue(s, k, tokens, capacity, depth + 1) == Expect(0, 1, depth + 1, |tokens|, capacity, end, named)
      && colon < |s| && SkipWs(s, end) == colon && s[colon] == ':'
      && SkipWs(s, colon + 1) == at
      && (|named| <= capacity ==> CompleteFor(s, colon + 1, named, capacity, depth + 1, m.value))
      && p <= |s| && SkipWs(s, p) == q < |s|
      && MemberRestAt(m, start) == (if m.rest.Member? then q + 1 else q)
      && start + |RenderMembers(m)| == MemberRestAt(m, start) + |RenderMembers(m.rest)|
      && (m.rest.NoMembers? ==> |RenderMembers(m.rest)| == 0)
      && (m.rest.Member? <==> s[q] == ',')
      && (m.rest.Member? && |next| <= capacity ==>
            ParseMembers(s, q + 1, next, capacity, depth)
            == Expect(MembersHeight(m.rest), MembersCount(m.rest), depth, |next|, capacity,
                      start + |RenderMembers(m)|, next + FlatMembers(m.rest, q + 1, |next|)))
    ensures ParseMembers(s, from, tokens, capacity, depth)
         == Expect(MembersHeight(m), MembersCount(m), depth, |tokens|, capacity,
                   start + |RenderMembers(m)|, tokens + FlatMembers(m, start, |tokens|))
  {
    hide FlatMembers, IsWs, ParseItems, MembersHeight, MembersCount;
    hide At, Flat, Render, RenderMembers, ParseValue, SkipWs, Height, Count;
    FlatMember(m, start, tokens, Str(m.key));
    KeyToken(m.key, start + |m.before|, |tokens|);
    MemberSizes(m);
    LastMembers(m.rest, MemberRestAt(m, start), |tokens| + 1 + Count(m.value));
    var named := tokens + [Token(StringToken, start + |m.before|, start + |m.before| + |m.key| + 2, |tokens| + 1)];
    var next := named + Flat(m.value, MemberValueAt(m, start), |named|);
    assert |named| == |tokens| + 1;
    assert |next| == |named| + Count(m.value);
    if depth + 1 > MAX_DEPTH || |named| > capacity {
      assert ParseMembers(s, from, tokens, capacity, depth) == Stop(true);
    } else if depth + 1 + Height(m.value) > MAX_DEPTH || |next| > capacity {
      assert ParseMembers(s, from, tokens, capacity, depth) == Stop(true);
    } else if m.rest.NoMembers? {
      assert tokens + FlatMembers(m, start, |tokens|) == next;
    }
  }

  lemma LastMembers(m: Members, at: nat, index: nat)
    ensures m.NoMembers? ==> MembersHeight(m) == MembersCount(m) == 0 && FlatMembers(m, at, index) == []
  {
  }
}
