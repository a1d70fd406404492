/**
 The helpers that custom output code uses to reach into the payload by dotted paths.
 */
module OutputSandboxHelpers {
  import opened Text
  import opened Numerals
  import opened OutputSandboxRun

  // ---------------------------------------------------------------------------
  // Paths
  // ---------------------------------------------------------------------------

  /** The value that one part of a path selects. */
  function Select(v: Value, part: string): Option<Value> {
    if part == "" then None
    else
      match v
      case MapOf(entries) => if part in entries then Some(entries[part]) else None
      case ListOf(items) =>
        if AllDigits(part) && ValueOfDigits(part) < |items| then Some(items[ValueOfDigits(part)]) else None
      case _ => None
  }

  function Walk(v: Value, parts: seq<string>): Option<Value> {
    if parts == [] then Some(v)
    else
      var next := Select(v, parts[0]);
      if next.None? then None else Walk(next.value, parts[1..])
  }

  /** The value at a path. */
  function ValueAt(v: Value, path: string): Option<Value> {
    Walk(v, StripAll(SplitOn('.', path)))
  }

  /** The value at a path, or the default; with a default, an empty value counts as absent. `None` is the missing marker. */
  method PathValue(source: Value, path: string, default: Option<Value>) returns (r: Option<Value>)
    ensures var found := ValueAt(source, path);
            r == if found.None? || (default.Some? && (found.value == Null || found.value == Str(""))) then default else found
  {
    var current := source;
    var rawParts := SplitOn('.', path);
    ghost var parts := StripAll(rawParts);
    StripAllAt(rawParts);
    for n := 0 to |rawParts|
      invariant Walk(current, parts[n..]) == Walk(source, parts)
    {
      var part := Strip(rawParts[n]);
      assert parts[n] == part && parts[n..][1..] == parts[n + 1..];
      if part == "" {
        return default;
      }
      match current
      case MapOf(entries) =>
        if part !in entries {
          return default;
        }
        current := entries[part];
      case ListOf(items) =>
        if !AllDigits(part) || ValueOfDigits(part) >= |items| {
          return default;
        }
        current := items[ValueOfDigits(part)];
      case _ => return default;
    }
    if (current == Null || current == Str("")) && default.Some? {
      return default;
    }
    return Some(current);
  }

  lemma {:induction false} StripAllAt(parts: seq<string>)
    ensures |StripAll(parts)| == |parts|
    ensures forall i :: 0 <= i < |parts| ==> StripAll(parts)[i] == Strip(parts[i])
  {
    if parts != [] {
      StripAllAt(parts[1..]);
    }
  }

  /** `pick`: the value at a path unless it is absent or empty. */
  method Pick(payload: Value, path: string, default: Value) returns (r: Value)
    ensures var found := ValueAt(payload, path);
            r == if found.None? || found.value == Null || found.value == Str("") then default else found.value
  {
    var v := PathValue(payload, path, Some(default));
    r := v.value;
  }

  /** `pick_first`: the first value at one of the paths that is neither absent nor empty. */
  method PickFirst(payload: Value, paths: seq<string>, default: Value) returns (r: Value)
    ensures (forall i :: 0 <= i < |paths| ==>
               ValueAt(payload, paths[i]) in {None, Some(Null), Some(Str(""))}) ==> r == default
    ensures forall i :: 0 <= i < |paths|
                        && ValueAt(payload, paths[i]) !in {None, Some(Null), Some(Str(""))}
                        && (forall j :: 0 <= j < i ==> ValueAt(payload, paths[j]) in {None, Some(Null), Some(Str(""))})
              ==> ValueAt(payload, paths[i]) == Some(r)
  {
    for n := 0 to |paths|
      invariant forall j :: 0 <= j < n ==> ValueAt(payload, paths[j]) in {None, Some(Null), Some(Str(""))}
    {
      var v := PathValue(payload, paths[n], None);
      if v.Some? && v.value != Null && v.value != Str("") {
        return v.value;
      }
    }
    return default;
  }

  /** `exists`: whether there is a value at a path, even an empty one. */
  method Exists(payload: Value, path: string) returns (r: bool)
    ensures r <==> ValueAt(payload, path).Some?
  {
    var v := PathValue(payload, path, None);
    r := v.Some?;
  }

  lemma {:induction false} SplitLast(mark: char, s: string, x: string)
    requires mark !in x
    ensures SplitOn(mark, s + ([mark] + x)) == SplitOn(mark, s) + [x]
  {
    if s == "" {
      assert s + ([mark] + x) == [mark] + x && ([mark] + x)[1..] == x;
      SplitOne(mark, x);
    } else {
      assert (s + ([mark] + x))[1..] == s[1..] + ([mark] + x);
      SplitLast(mark, s[1..], x);
    }
  }

  lemma {:induction false} StripAllLast(parts: seq<string>, x: string)
    ensures StripAll(parts + [x]) == StripAll(parts) + [Strip(x)]
  {
    if parts == [] {
      assert parts + [x] == [x] && [x][1..] == [];
    } else {
      assert (parts + [x])[1..] == parts[1..] + [x];
      StripAllLast(parts[1..], x);
    }
  }

  lemma {:induction false} WalkLast(v: Value, parts: seq<string>, part: string)
    ensures Walk(v, parts + [part])
            == if Walk(v, parts).None? then None else Select(Walk(v, parts).value, part)
  {
    if parts == [] {
      assert parts + [part] == [part] && [part][1..] == [];
    } else {
      assert (parts + [part])[1..] == parts[1..] + [part];
      if Select(v, parts[0]).Some? {
        WalkLast(Select(v, parts[0]).value, parts[1..], part);
      }
    }
  }

  /**
   A path leads to the entry that its last part, trimmed, names in the mapping that the rest of it leads to, or to
   the item of that number in a list, and nowhere else.
   */
  lemma PathTheorem(v: Value, path: string, part: string)
    requires '.' !in part
    ensures var at, key, found := ValueAt(v, path), Strip(part), ValueAt(v, path + ("." + part));
            if at.Some? && at.value.MapOf? && key != "" && key in at.value.entries then
              found == Some(at.value.entries[key])
            else if at.Some? && at.value.ListOf? && key != "" && (forall i :: 0 <= i < |key| ==> '0' <= key[i] <= '9')
                    && ValueOfDigits(key) < |at.value.items| then
              found == Some(at.value.items[ValueOfDigits(key)])
            else found == None
  {
    SplitLast('.', path, part);
    StripAllLast(SplitOn('.', path), part);
    WalkLast(v, StripAll(SplitOn('.', path)), Strip(part));
    DigitsCompare(Strip(part));
  }

  /** A path without a dot selects from the value itself. */
  lemma OnePartTheorem(v: Value, part: string)
    requires '.' !in part
    ensures var key, found := Strip(part), ValueAt(v, part);
            if v.MapOf? && key != "" && key in v.entries then found == Some(v.entries[key])
            else if v.ListOf? && key != "" && (forall i :: 0 <= i < |key| ==> '0' <= key[i] <= '9')
                    && ValueOfDigits(key) < |v.items| then
              found == Some(v.items[ValueOfDigits(key)])
            else found == None
  {
    SplitOne('.', part);
    assert StripAll([part]) == [Strip(part)] && [Strip(part)][1..] == [];
    WalkLast(v, [], Strip(part));
    assert [] + [Strip(part)] == [Strip(part)];
    DigitsCompare(Strip(part));
  }

  lemma DigitsCompare(s: string)
    ensures AllDigits(s) <==> s != "" && forall i :: 0 <= i < |s| ==> '0' <= s[i] <= '9'
  {
  }

  // ---------------------------------------------------------------------------
  // What can be addressed
  // ---------------------------------------------------------------------------

  datatype Step = Key(name: string) | Index(n: nat)

  /** The part of a value that a sequence of keys and indices leads to. */
  function Reach(v: Value, address: seq<Step>): Option<Value> {
    if address == [] then Some(v)
    else
      match (address[0], v)
      case (Key(name), MapOf(entries)) => if name in entries then Reach(entries[name], address[1..]) else None
      case (Index(n), ListOf(items)) => if n < |items| then Reach(items[n], address[1..]) else None
      case _ => None
  }

  /** A key that survives splitting and trimming. */
  predicate Addressable(step: Step) {
    step.Key? ==> step.name != "" && Trimmed(step.name) && '.' !in step.name
  }

  function PartText(step: Step): string {
    match step
    case Key(name) => name
    case Index(n) => Decimal(n)
  }

  function PathText(address: seq<Step>): string
    requires address != []
  {
    if |address| == 1 then PartText(address[0]) else PartText(address[0]) + (['.'] + PathText(address[1..]))
  }

  lemma PartIsPlain(step: Step)
    requires Addressable(step)
    ensures PartText(step) != "" && '.' !in PartText(step) && Strip(PartText(step)) == PartText(step)
  {
    if step.Index? {
      DecimalIsRead(step.n);
    }
    StripTrims(PartText(step));
  }

  lemma {:induction false} PathIsSplit(address: seq<Step>)
    requires address != [] && forall s :: s in address ==> Addressable(s)
    ensures var parts := StripAll(SplitOn('.', PathText(address)));
            |parts| == |address| && forall i :: 0 <= i < |parts| ==> parts[i] == PartText(address[i])
  {
    var first := PartText(address[0]);
    assert address[0] in address;
    PartIsPlain(address[0]);
    StripAllAt(SplitOn('.', PathText(address)));
    if |address| == 1 {
      SplitOne('.', first);
    } else {
      SplitFirst('.', first, PathText(address[1..]));
      StripAllAt(SplitOn('.', PathText(address[1..])));
      PathIsSplit(address[1..]);
    }
  }

  lemma {:induction false} WalkReaches(v: Value, address: seq<Step>, parts: seq<string>)
    requires |parts| == |address| && (forall s :: s in address ==> Addressable(s))
    requires forall i :: 0 <= i < |parts| ==> parts[i] == PartText(address[i])
    requires Reach(v, address).Some?
    ensures Walk(v, parts) == Reach(v, address)
  {
    if address != [] {
      var step := address[0];
      assert step in address;
      PartIsPlain(step);
      match step
      case Key(name) => WalkReaches(v.entries[name], address[1..], parts[1..]);
      case Index(n) =>
        DecimalIsRead(n);
        WalkReaches(v.items[n], address[1..], parts[1..]);
    }
  }

  /** Every part of a payload whose keys are trimmed, not empty and without dots is found under its path. */
  lemma AddressTheorem(payload: Value, address: seq<Step>)
    requires address != [] && (forall s :: s in address ==> Addressable(s)) && Reach(payload, address).Some?
    ensures ValueAt(payload, PathText(address)) == Reach(payload, address)
  {
    PathIsSplit(address);
    WalkReaches(payload, address, StripAll(SplitOn('.', PathText(address))));
  }
}
