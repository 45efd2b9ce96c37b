/** The JSON texts of RFC 8259, sections 2 to 7, as concrete syntax trees.

    A text is a string of bytes: a char whose code is below 256 stands for that
    byte. The grammar only ever accepts codes up to 0xF4, so nothing has to be
    assumed about larger ones.

    A tree keeps every byte of the text it stands for (insignificant white space,
    the raw spelling of strings and numbers), so a text is a JSON text exactly
    when it is the rendering of a valid tree.
  */
module JsonGrammar {

  datatype Value =
    | Null
    | True
    | False
    | Number(digits: string)
    | Str(body: string)
    | Array(pad: string, items: Items)
    | Object(pad: string, members: Members)

  datatype Items =
    | NoItems
    | Item(before: string, value: Value, after: string, rest: Items)

  datatype Members =
    | NoMembers
    | Member(before: string, key: string, colonBefore: string, valueBefore: string,
             value: Value, after: string, rest: Members)

  /** Section 2: JSON-text = ws value ws. */
  datatype Document = Document(before: string, value: Value, after: string)

  // ----- rendering

  function Render(v: Value): string {
    match v
    case Null => "null"
    case True => "true"
    case False => "false"
    case Number(d) => d
    case Str(b) => Quoted(b)
    case Array(pad, items) => "[" + (pad + (RenderItems(items) + "]"))
    case Object(pad, members) => "{" + (pad + (RenderMembers(members) + "}"))
  }

  function Quoted(body: string): string {
    "\"" + (body + "\"")
  }

  function RenderItems(items: Items): string {
    match items
    case NoItems => ""
    case Item(b, v, a, rest) => b + (Render(v) + (a + (Separator(rest.Item?) + RenderItems(rest))))
  }

  function RenderMembers(members: Members): string {
    match members
    case NoMembers => ""
    case Member(b, k, cb, vb, v, a, rest) =>
      b + (Quoted(k) + (cb + (":" + (vb + (Render(v) + (a + (Separator(rest.Member?) + RenderMembers(rest))))))))
  }

  function Separator(more: bool): string {
    if more then "," else ""
  }

  function RenderDocument(d: Document): string {
    d.before + (Render(d.value) + d.after)
  }

  // ----- validity

  predicate IsWs(c: char) {
    c == ' ' || c == '\t' || c == '\r' || c == '\n'
  }

  predicate Blank(s: string) {
    forall i | 0 <= i < |s| :: IsWs(s[i])
  }

  predicate IsDigit(c: char) {
    '0' <= c <= '9'
  }

  predicate Digits(s: string) {
    forall i | 0 <= i < |s| :: IsDigit(s[i])
  }

  predicate IsHex(c: char) {
    IsDigit(c) || 'a' <= c <= 'f' || 'A' <= c <= 'F'
  }

  /** Section 6: number = [ minus ] int [ frac ] [ exp ]. */
  datatype NumberParts = NumberParts(minus: string, whole: string, frac: string, exp: string)

  predicate ValidInt(s: string) {
    s == "0" || (|s| > 0 && '1' <= s[0] <= '9' && Digits(s))
  }

  predicate ValidFrac(s: string) {
    s == "" || (|s| >= 2 && s[0] == '.' && Digits(s[1..]))
  }

  predicate ValidExp(s: string) {
    || s == ""
    || (|s| >= 2 && (s[0] == 'e' || s[0] == 'E')
        && var unsigned := if s[1] == '-' || s[1] == '+' then s[2..] else s[1..];
           |unsigned| > 0 && Digits(unsigned))
  }

  predicate ValidParts(n: NumberParts) {
    && (n.minus == "" || n.minus == "-")
    && ValidInt(n.whole)
    && ValidFrac(n.frac)
    && ValidExp(n.exp)
  }

  function RenderParts(n: NumberParts): string {
    n.minus + (n.whole + (n.frac + n.exp))
  }

  ghost predicate IsNumber(s: string) {
    exists n: NumberParts :: ValidParts(n) && RenderParts(n) == s
  }

  /** Section 4 of RFC 3629, multi-byte rows of the UTF8-char table. */
  predicate Utf8Multi(u: string) {
    match |u|
    case 2 => InRange(u[0], 0xC2, 0xDF) && Tail(u[1])
    case 3 => Tail(u[2]) && Utf8ThreeLead(u[0], u[1])
    case 4 => Tail(u[2]) && Tail(u[3]) && Utf8FourLead(u[0], u[1])
    case _ => false
  }

  predicate Utf8ThreeLead(a: char, b: char) {
    || (a as int == 0xE0 && InRange(b, 0xA0, 0xBF))
    || (InRange(a, 0xE1, 0xEC) && Tail(b))
    || (a as int == 0xED && InRange(b, 0x80, 0x9F))
    || (InRange(a, 0xEE, 0xEF) && Tail(b))
  }

  predicate Utf8FourLead(a: char, b: char) {
    || (a as int == 0xF0 && InRange(b, 0x90, 0xBF))
    || (InRange(a, 0xF1, 0xF3) && Tail(b))
    || (a as int == 0xF4 && InRange(b, 0x80, 0x8F))
  }

  predicate InRange(c: char, lo: int, hi: int) {
    lo <= c as int <= hi
  }

  predicate Tail(c: char) {
    InRange(c, 0x80, 0xBF)
  }

  predicate SimpleEscape(c: char) {
    c == '"' || c == '\\' || c == '/' || c == 'b' || c == 'f' || c == 'n' || c == 'r' || c == 't'
  }

  /** Section 7: one char of a string body, spelled with 1 to 6 bytes. */
  predicate CharUnit(u: string) {
    || (|u| == 1 && 0x20 <= u[0] as int < 0x80 && u[0] != '"' && u[0] != '\\')
    || (|u| == 2 && u[0] == '\\' && SimpleEscape(u[1]))
    || (|u| == 6 && u[0] == '\\' && u[1] == 'u' && forall i | 2 <= i < 6 :: IsHex(u[i]))
    || Utf8Multi(u)
  }

  ghost predicate IsBody(s: string)
    decreases |s|
  {
    s == "" || exists n | 1 <= n <= |s| :: CharUnit(s[..n]) && IsBody(s[n..])
  }

  ghost predicate Valid(v: Value) {
    match v
    case Number(d) => IsNumber(d)
    case Str(b) => IsBody(b)
    case Array(pad, items) => Blank(pad) && (items.Item? ==> pad == "") && ValidItems(items)
    case Object(pad, members) => Blank(pad) && (members.Member? ==> pad == "") && ValidMembers(members)
    case _ => true
  }

  ghost predicate ValidItems(items: Items) {
    match items
    case NoItems => true
    case Item(b, v, a, rest) => Blank(b) && Valid(v) && Blank(a) && ValidItems(rest)
  }

  ghost predicate ValidMembers(members: Members) {
    match members
    case NoMembers => true
    case Member(b, k, cb, vb, v, a, rest) =>
      Blank(b) && IsBody(k) && Blank(cb) && Blank(vb) && Valid(v) && Blank(a) && ValidMembers(rest)
  }

  ghost predicate ValidDocument(d: Document) {
    Blank(d.before) && Valid(d.value) && Blank(d.after)
  }

  // ----- size measures

  /** Containers around the innermost value: a scalar or an empty container has height 0. */
  function Height(v: Value): nat {
    match v
    case Array(_, items) => ItemsHeight(items)
    case Object(_, members) => MembersHeight(members)
    case _ => 0
  }

  function ItemsHeight(items: Items): nat {
    match items
    case NoItems => 0
    case Item(_, v, _, rest) => Max(1 + Height(v), ItemsHeight(rest))
  }

  function MembersHeight(members: Members): nat {
    match members
    case NoMembers => 0
    case Member(_, _, _, _, v, _, rest) => Max(1 + Height(v), MembersHeight(rest))
  }

  function Max(a: nat, b: nat): nat {
    if a < b then b else a
  }

  /** Values in a tree; an object's keys are values as well. */
  function Count(v: Value): nat {
    match v
    case Array(_, items) => 1 + ItemsCount(items)
    case Object(_, members) => 1 + MembersCount(members)
    case _ => 1
  }

  function ItemsCount(items: Items): nat {
    match items
    case NoItems => 0
    case Item(_, v, _, rest) => Count(v) + ItemsCount(rest)
  }

  function MembersCount(members: Members): nat {
    match members
    case NoMembers => 0
    case Member(_, _, _, _, v, _, rest) => 1 + Count(v) + MembersCount(rest)
  }
}
