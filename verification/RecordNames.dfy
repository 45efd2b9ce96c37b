/** The names of the journal records: a record number in twenty decimal digits
    (usb_update.rs, save_job and load_job). */
module RecordNames {
  import opened FlashImage
  import opened UpdateJournal

  function Digits(r: nat, width: nat): (name: string)
    ensures |name| == width
  {
    if width == 0 then "" else Digits(r / 10, width - 1) + [('0' as int + r % 10) as char]
  }

  /** format!("{:020}.json", r) without its extension. */
  function Name(r: Revision): (name: string)
    ensures |name| == 20
  {
    Digits(r, 20)
  }

  /** The order in which names of one length sort. */
  predicate Before(a: string, b: string)
    requires |a| == |b|
  {
    |a| > 0 && (a[0] < b[0] || (a[0] == b[0] && Before(a[1..], b[1..])))
  }

  function Pow10(n: nat): nat {
    if n == 0 then 1 else 10 * Pow10(n - 1)
  }

  lemma {:induction false} BeforeLast(a: string, b: string, c: char, d: char)
    requires |a| == |b|
    ensures Before(a + [c], b + [d]) <==> Before(a, b) || (a == b && c < d)
  {
    if a == [] {
      assert (a + [c])[1..] == [] && (b + [d])[1..] == [];
    } else {
      assert (a + [c])[1..] == a[1..] + [c] && (b + [d])[1..] == b[1..] + [d];
      BeforeLast(a[1..], b[1..], c, d);
      assert a == [a[0]] + a[1..] && b == [b[0]] + b[1..];
    }
  }

  lemma {:induction false} DigitsSort(r: nat, s: nat, width: nat)
    requires r < Pow10(width) && s < Pow10(width)
    ensures Before(Digits(r, width), Digits(s, width)) <==> r < s
    ensures Digits(r, width) == Digits(s, width) <==> r == s
  {
    if width > 0 {
      DigitsSort(r / 10, s / 10, width - 1);
      var a, b := Digits(r / 10, width - 1), Digits(s / 10, width - 1);
      var c, d := ('0' as int + r % 10) as char, ('0' as int + s % 10) as char;
      BeforeLast(a, b, c, d);
      assert (a + [c])[..width - 1] == a && (b + [d])[..width - 1] == b;
      assert (a + [c])[width - 1] == c && (b + [d])[width - 1] == d;
    }
  }

  /** Twenty digits hold every u64, so the newest record's name sorts last. */
  lemma NamesSortNumerically(r: Revision, s: Revision)
    ensures Before(Name(r), Name(s)) <==> r < s
    ensures Name(r) == Name(s) <==> r == s
  {
    assert REVISIONS <= Pow10(20) by {
      assert Pow10(4) == 10000;
      assert Pow10(8) == 1_0000_0000;
      assert Pow10(12) == 1_0000_0000_0000;
      assert Pow10(16) == 1_0000_0000_0000_0000;
    }
    DigitsSort(r, s, 20);
  }

  /** load_job: of all .json entries, in whatever order the directory lists them,
      the one whose name sorts last. Temporary files are not looked at. */
  method LoadJob(d: Disk) returns (newest: Option<Revision>)
    ensures newest.None? ==> d.journal.Keys == {}
    ensures newest.Some? ==> Newest(d, newest.value)
  {
    hide Name, Before;
    var entries := d.journal.Keys;
    newest := None;
    while entries != {}
      invariant entries <= d.journal.Keys
      invariant newest.None? ==> entries == d.journal.Keys
      invariant newest.Some? ==>
                  && newest.value in d.journal
                  && forall k | k in d.journal :: k in entries || k <= newest.value
      decreases |entries|
    {
      var k :| k in entries;
      if newest.Some? { NamesSortNumerically(newest.value, k); }
      if newest.None? || Before(Name(newest.value), Name(k)) { newest := Some(k); }
      entries := entries - {k};
    }
  }
}
