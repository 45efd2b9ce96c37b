/** What the parser accepts, and what its tokens mean, for every text. */
module JsonTheorems {
  import opened JsonGrammar
  import opened JsonParser
  import opened JsonParserProofs
  import opened JsonCompleteness

  predicate Fits(v: Value, capacity: nat) {
    Height(v) <= MAX_DEPTH && Count(v) <= capacity
  }

  ghost predicate DocumentOf(d: Document, s: string) {
    ValidDocument(d) && RenderDocument(d) == s
  }

  lemma ParseSound(s: string, capacity: nat) returns (d: Document)
    requires Parse(s, capacity).Ok?
    ensures DocumentOf(d, s) && Fits(d.value, capacity)
    ensures Parse(s, capacity).tokens == Flat(d.value, |d.before|, 0)
  {
    hide At, Flat, Valid, Render, Height, ParseValue, Blank, SkipWs;
    var v := ValueSound(s, 0, [], capacity, 0);
    var at := SkipWs(s, 0);
    var end := at + |Render(v)|;
    SkippedBlank(s, 0);
    SkippedBlank(s, end);
    d := Document(s[..at], v, s[end..]);
    assert s[0..at] == s[..at] && s[end..|s|] == s[end..];
    AtSlice(s, at, Render(v));
    assert s == s[..at] + (s[at..end] + s[end..]);
  }

  lemma ParseComplete(s: string, capacity: nat, d: Document)
    requires DocumentOf(d, s) && 0 < capacity && |s| <= MAX_LENGTH
    ensures Parse(s, capacity) == if Fits(d.value, capacity) then Ok(Flat(d.value, |d.before|, 0)) else Limit
  {
    hide At, Flat, Valid, Render, Height, Count, ParseValue, Blank, SkipWs;
    var at := |d.before|;
    var end := at + |Render(d.value)|;
    AtSlice(s, 0, s);
    assert s[0..|s|] == s;
    AtConcat(s, 0, d.before, Render(d.value) + d.after);
    AtConcat(s, at, Render(d.value), d.after);
    StartsAt(s, at, d.value);
    SkipBlank(s, 0, d.before);
    AfterBlank(s, end, d.after);
    ValueComplete(s, 0, [], capacity, 0, d.value);
    assert [] + Flat(d.value, at, 0) == Flat(d.value, at, 0);
  }

  /** The parser answers OK exactly on the JSON texts of RFC 8259 whose nesting,
      value count and length are within its limits. */
  lemma ParserAcceptsExactly(s: string, capacity: nat)
    ensures Parse(s, capacity).Ok?
       <==> && 0 < capacity && |s| <= MAX_LENGTH
            && exists d: Document :: DocumentOf(d, s) && Fits(d.value, capacity)
  {
    hide DocumentOf, Fits;
    if Parse(s, capacity).Ok? {
      var d := ParseSound(s, capacity);
    } else if 0 < capacity && |s| <= MAX_LENGTH && exists d: Document :: DocumentOf(d, s) && Fits(d.value, capacity) {
      var d: Document :| DocumentOf(d, s) && Fits(d.value, capacity);
      ParseComplete(s, capacity, d);
    }
  }

  /** A JSON text is never reported as malformed: it parses or exceeds a limit. */
  lemma GrammaticalIsNeverInvalid(s: string, capacity: nat, d: Document)
    requires DocumentOf(d, s) && 0 < capacity && |s| <= MAX_LENGTH
    ensures !Parse(s, capacity).Invalid?
    ensures Parse(s, capacity).Limit? <==> !Fits(d.value, capacity)
  {
    ParseComplete(s, capacity, d);
  }
}
