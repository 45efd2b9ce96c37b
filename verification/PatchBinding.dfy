/** firmware/src/config.c, lines 263 to 306: what bosun_config_put_binding makes
    of a patch, on syntax trees. */
module PatchBinding {
  import opened JsonGrammar
  import opened JsonParser
  import opened JsonTheorems
  import opened JsonReader
  import opened JsonWriter
  import opened JsonRoundTrip

  const BINDINGS: string := "bindings"
  const SWITCH: string := "switch"

  // ----- the rewritten tree

  /** The members other than bindings, without white space. */
  function Kept(m: Members): Members {
    match m
    case NoMembers => NoMembers
    case Member(_, k, _, _, v, _, rest) =>
      if Spells(k, BINDINGS) then Kept(rest) else Member("", k, "", "", v, "", Kept(rest))
  }

  function Append(m: Members, key: string, v: Value): Members {
    match m
    case NoMembers => Member("", key, "", "", v, "", NoMembers)
    case Member(b, k, cb, vb, w, a, rest) => Member(b, k, cb, vb, w, a, Append(rest, key, v))
  }

  /** The array without white space. */
  function Bare(items: Items): Items {
    match items
    case NoItems => NoItems
    case Item(_, v, _, rest) => Item("", v, "", Bare(rest))
  }

  /** A binding as it stands in its own text, white space included. */
  function Entry(binding: Document, rest: Items): Items {
    Item(binding.before, binding.value, binding.after, rest)
  }

  /** The first entry for the switch replaced, or the binding appended. */
  function Replace(items: Items, name: string, binding: Document): Items {
    match items
    case NoItems => Entry(binding, NoItems)
    case Item(_, v, _, rest) =>
      if IsFor(v, name) then Entry(binding, Bare(rest)) else Item("", v, "", Replace(rest, name, binding))
  }

  /** The value is a binding for the switch of this name. */
  predicate IsFor(v: Value, name: string) {
    v.Object? && match Lookup(v.members, SWITCH) case Some(Str(body)) => Spells(body, name) case _ => false
  }

  /** The items of the patch's bindings array; none when there is no such member. */
  function OldItems(m: Members): Items {
    match Lookup(m, BINDINGS)
    case Some(Array(_, items)) => items
    case _ => NoItems
  }

  function Rewritten(m: Members, name: string, binding: Document): Value {
    Object("", Append(Kept(m), BINDINGS, Array("", Replace(OldItems(m), name, binding))))
  }

  // ----- what it means

  function Values(items: Items): seq<Value> {
    match items
    case NoItems => []
    case Item(_, v, _, rest) => [v] + Values(rest)
  }

  lemma {:induction false} BareValues(items: Items)
    ensures Values(Bare(items)) == Values(items)
  {
    if items.Item? { BareValues(items.rest); }
  }

  /** The index of the first entry for the switch, or the length. */
  function FirstFor(values: seq<Value>, name: string): (i: nat)
    ensures i <= |values|
    ensures i < |values| ==> IsFor(values[i], name)
    ensures forall j | 0 <= j < i :: !IsFor(values[j], name)
  {
    if values == [] || IsFor(values[0], name) then 0 else 1 + FirstFor(values[1..], name)
  }

  /** The entries with the binding put in its place. */
  function Placed(was: seq<Value>, name: string, binding: Value): seq<Value> {
    var at := FirstFor(was, name);
    if at < |was| then was[at := binding] else was + [binding]
  }

  /** The new array is the old one with the first entry for the switch replaced,
      or the binding appended. */
  lemma {:induction false} ReplaceValues(items: Items, name: string, binding: Document)
    ensures Values(Replace(items, name, binding)) == Placed(Values(items), name, binding.value)
  {
    var was := Values(items);
    match items
    case NoItems =>
    case Item(_, v, _, rest) =>
      if IsFor(v, name) {
        BareValues(rest);
      } else {
        ReplaceValues(rest, name, binding);
        assert was[1..] == Values(rest);
      }
  }

  lemma {:induction false} AppendLookup(m: Members, key: string, v: Value, wanted: string)
    ensures Lookup(Append(m, key, v), wanted) == if Spells(key, wanted) then Some(v) else Lookup(m, wanted)
  {
    if m.Member? { AppendLookup(m.rest, key, v, wanted); }
  }

  lemma {:induction false} KeptLookup(m: Members, wanted: string)
    requires wanted != BINDINGS
    ensures Lookup(Kept(m), wanted) == Lookup(m, wanted)
  {
    if m.Member? { KeptLookup(m.rest, wanted); }
  }

  lemma SpellsItself()
    ensures IsBody(BINDINGS) && Spells(BINDINGS, BINDINGS)
    ensures forall wanted :: Spells(BINDINGS, wanted) ==> wanted == BINDINGS
  {
    RawRun(BINDINGS, 0, |BINDINGS|);
    PlainBody(BINDINGS);
  }

  lemma {:induction false} PlainBody(s: string)
    requires forall i | 0 <= i < |s| :: 0x20 <= s[i] as int < 0x80 && s[i] != '"' && s[i] != '\\'
    ensures IsBody(s)
    decreases |s|
  {
    if s != "" {
      PlainBody(s[1..]);
      assert CharUnit(s[..1]);
    }
  }

  /** Every other member keeps its last-wins value, and bindings is the new array. */
  lemma RewrittenLookup(m: Members, name: string, binding: Document, wanted: string)
    ensures Lookup(Rewritten(m, name, binding).members, wanted)
         == if wanted == BINDINGS then Some(Array("", Replace(OldItems(m), name, binding))) else Lookup(m, wanted)
  {
    SpellsItself();
    hide Spells, Lookup;
    AppendLookup(Kept(m), BINDINGS, Array("", Replace(OldItems(m), name, binding)), wanted);
    if wanted != BINDINGS { KeptLookup(m, wanted); }
  }

  // ----- entries per switch

  /** The switch a binding is for. */
  function SwitchOf(v: Value): Option<string> {
    if !v.Object? then None else
    match Lookup(v.members, SWITCH)
    case Some(Str(body)) => (match Decode(body) case Text(t) => Some(t) case Undecodable => None)
    case _ => None
  }

  lemma IsForSwitch(v: Value, name: string)
    ensures IsFor(v, name) <==> SwitchOf(v) == Some(name)
  {
  }

  /** No two entries are for the same switch. */
  ghost predicate OnePerSwitch(values: seq<Value>) {
    forall i, j | 0 <= i < j < |values| && SwitchOf(values[i]).Some? :: SwitchOf(values[i]) != SwitchOf(values[j])
  }

  lemma OnePerSwitchKept(was: seq<Value>, name: string, binding: Value)
    requires OnePerSwitch(was) && IsFor(binding, name)
    ensures OnePerSwitch(Placed(was, name, binding))
  {
    hide SwitchOf, IsFor;
    var at := FirstFor(was, name);
    var now := Placed(was, name, binding);
    forall i, j | 0 <= i < j < |now| && SwitchOf(now[i]).Some? ensures SwitchOf(now[i]) != SwitchOf(now[j]) {
      IsForSwitch(binding, name);
      if at < |was| { IsForSwitch(was[at], name); }
      if i < |was| { IsForSwitch(was[i], name); }
      if j < |was| { IsForSwitch(was[j], name); }
      if i != at && j != at { assert now[i] == was[i] && now[j] == was[j]; }
    }
  }

  // ----- the runtime's scan (firmware/src/runtime.c, lines 318 to 322)

  /** The index of the last entry for the switch. */
  function Scan(values: seq<Value>, name: string): Option<nat> {
    if values == [] then None
    else
      var last := |values| - 1;
      if IsFor(values[last], name) then Some(last) else Scan(values[..last], name)
  }

  lemma {:induction false} ScanIsLast(values: seq<Value>, name: string, i: nat)
    requires i < |values|
    ensures Scan(values, name) == Some(i) <==>
              IsFor(values[i], name) && forall j | i < j < |values| :: !IsFor(values[j], name)
  {
    var last := |values| - 1;
    if i < last && !IsFor(values[last], name) { ScanIsLast(values[..last], name, i); }
    ScanInside(values[..last], name);
  }

  lemma {:induction false} ScanInside(values: seq<Value>, name: string)
    ensures Scan(values, name).Some? ==> Scan(values, name).value < |values|
  {
    if values != [] { ScanInside(values[..|values| - 1], name); }
  }

  /** The runtime finds the new binding for its switch exactly when the old patch
      had at most one entry for that switch: with more, the scan takes the last
      one, but the first one is replaced. */
  lemma ScanFindsBinding(was: seq<Value>, name: string, binding: Value)
    requires IsFor(binding, name)
    ensures Scan(Placed(was, name, binding), name) == Some(FirstFor(was, name)) <==>
              forall i, j | 0 <= i < j < |was| :: !(IsFor(was[i], name) && IsFor(was[j], name))
  {
    hide IsFor;
    var at := FirstFor(was, name);
    var now := Placed(was, name, binding);
    ScanIsLast(now, name, at);
    if Scan(now, name) == Some(at) {
      forall i, j | 0 <= i < j < |was| && IsFor(was[i], name) ensures !IsFor(was[j], name) {
        assert at <= i;
        assert now[j] == was[j];
      }
    } else {
      var j :| at < j < |now| && IsFor(now[j], name);
      assert at < |was| && now[j] == was[j] && IsFor(was[at], name);
    }
  }

  /** A binding for the switch "1". */
  function ForOne(pad: string): Value {
    Object(pad, Member("", SWITCH, "", "", Str("1"), "", NoMembers))
  }

  /** With two entries for a switch the new binding takes the place of the first one,
      and the runtime goes on using the second one. */
  lemma ScanMissesBinding()
    ensures var was, binding := [ForOne(""), ForOne(" ")], ForOne("\n");
            && IsFor(binding, "1") && Placed(was, "1", binding) == [binding, ForOne(" ")]
            && Scan(Placed(was, "1", binding), "1") == Some(1)
  {
    var was, binding := [ForOne(""), ForOne(" ")], ForOne("\n");
    assert forall pad :: IsFor(ForOne(pad), "1") by {
      RawRun(SWITCH, 0, |SWITCH|);
      RawRun("1", 0, 1);
      forall pad ensures IsFor(ForOne(pad), "1") { OneIsFor(pad); }
    }
    hide IsFor, ForOne;
    var now := Placed(was, "1", binding);
    assert was[0 := binding] == [binding, ForOne(" ")];
    ScanIsLast(now, "1", 1);
  }

  lemma OneIsFor(pad: string)
    requires Spells(SWITCH, SWITCH) && Spells("1", "1")
    ensures IsFor(ForOne(pad), "1")
  {
    hide Decode, DecodeFrom;
  }
}
