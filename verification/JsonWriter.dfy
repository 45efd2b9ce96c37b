/** firmware/src/json.c, lines 228 to 255: the bounded writer, and the round trips
    with the reader. */
module JsonWriter {
  import opened JsonGrammar
  import opened JsonParser
  import opened JsonParserProofs
  import opened JsonCompleteness
  import opened JsonTheorems
  import opened JsonReader

  function HexChar(n: nat): char
    requires n < 16
  {
    if n < 10 then ('0' as int + n) as char else ('a' as int + n - 10) as char
  }

  function EscapeByte(c: char): string {
    if c == '"' || c == '\\' then ['\\', c]
    else if c as int < 32 then ['\\', 'u', '0', '0', HexChar(c as int / 16), HexChar(c as int % 16)]
    else [c]
  }

  function Escape(text: string): string {
    if text == "" then "" else EscapeByte(text[0]) + Escape(text[1..])
  }

  function Decimal(n: nat): string {
    if n < 10 then [HexChar(n)] else Decimal(n / 10) + [HexChar(n % 10)]
  }

  function IntText(n: int): string {
    if n < 0 then "-" + Decimal(-n) else Decimal(n)
  }

  /** Overflow is sticky: once a write does not fit, nothing is written any more. */
  class Writer {
    const data: array<char>
    var length: nat
    var failed: bool

    predicate Valid()
      reads this
    {
      length <= data.Length && (!failed ==> length < data.Length)
    }

    function Contents(): string
      requires length <= data.Length
      reads this, data
    {
      data[..length]
    }

    constructor (buffer: array<char>)
      ensures Valid() && data == buffer && length == 0 && failed == (buffer.Length == 0)
    {
      data, length, failed := buffer, 0, buffer.Length == 0;
    }

    /** What appending text must do: all of it, or nothing but failing. */
    predicate Appended(ok: bool, was: string, hadFailed: bool, text: string)
      reads this, data
    {
      && Valid()
      && (ok <==> !hadFailed && |was| + |text| < data.Length)
      && (ok ==> Contents() == was + text)
      && (ok <==> !failed)
    }

    method Write(text: string) returns (ok: bool)
      requires Valid()
      modifies this`length, this`failed, data
      ensures Appended(ok, old(Contents()), old(failed), text)
      ensures !ok ==> Contents() == old(Contents())
    {
      if failed || |text| >= data.Length - length {
        failed := true;
        return false;
      }
      forall i | 0 <= i < |text| {
        data[length + i] := text[i];
      }
      length := length + |text|;
      ok := true;
    }

    method Quote(text: string) returns (ok: bool)
      requires Valid()
      modifies this`length, this`failed, data
      ensures Appended(ok, old(Contents()), old(failed), Quoted(Escape(text)))
    {
      hide Escape, EscapeByte;
      ghost var goal := old(Contents()) + Quoted(Escape(text));
      ok := Write("\"");
      if !ok { return; }
      var i := 0;
      Resume(old(Contents()), "\"", Escape(text) + "\"");
      assert text[0..] == text;
      while i < |text|
        invariant 0 <= i <= |text| && Valid() && !failed && !old(failed)
        invariant Contents() + (Escape(text[i..]) + "\"") == goal
      {
        ghost var before := Contents();
        EscapeNext(text, i);
        Resume(before, EscapeByte(text[i]), Escape(text[i + 1..]) + "\"");
        ok := QuoteByte(text[i]);
        if !ok { return; }
        i := i + 1;
      }
      NothingLeft(text[i..]);
      ok := Write("\"");
    }

    method QuoteByte(c: char) returns (ok: bool)
      requires Valid() && !failed
      modifies this`length, this`failed, data
      ensures Appended(ok, old(Contents()), false, EscapeByte(c))
    {
      if c == '"' || c == '\\' {
        ok := Write("\\");
        if ok { ok := Write([c]); }
      } else if c as int < 32 {
        ok := Write(EscapeByte(c));
      } else {
        ok := Write([c]);
      }
    }

    method WriteInteger(n: int) returns (ok: bool)
      requires Valid() && INT32_MIN <= n <= INT32_MAX
      modifies this`length, this`failed, data
      ensures Appended(ok, old(Contents()), old(failed), IntText(n))
      ensures !ok ==> Contents() == old(Contents())
    {
      ok := Write(IntText(n));
    }
  }

  lemma Resume(done: string, now: string, later: string)
    ensures done + (now + later) == (done + now) + later
  {
  }

  lemma EscapeNext(text: string, i: nat)
    requires i < |text|
    ensures Escape(text[i..]) + "\"" == EscapeByte(text[i]) + (Escape(text[i + 1..]) + "\"")
  {
    assert text[i..][1..] == text[i + 1..];
    Resume(EscapeByte(text[i]), Escape(text[i + 1..]), "\"");
  }

  lemma NothingLeft(text: string)
    requires text == ""
    ensures Escape(text) + "\"" == "\""
  {
  }
}
