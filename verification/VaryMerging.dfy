/**
 The merged Vary header: it names exactly what either value named, each once, and a second merge
 changes nothing.
 */
module VaryMerging {
  import opened Text
  import opened Responses

  /** What a Vary value can list: trimmed, not empty, no comma. */
  predicate Token(s: string) {
    s != "" && ',' !in s && Trimmed(s)
  }

  predicate AllTokens(items: seq<string>) {
    forall x :: x in items ==> Token(x)
  }

  // ---------------------------------------------------------------------------
  // Reading a value gives tokens
  // ---------------------------------------------------------------------------

  lemma {:induction false} StripHas(s: string)
    ensures forall c :: c in Strip(s) ==> c in s
  {
    StripLeftHas(s);
    StripRightHas(StripLeft(s));
  }

  lemma {:induction false} StripLeftHas(s: string)
    ensures forall c :: c in StripLeft(s) ==> c in s
  {
    if s != "" && IsBlank(s[0]) {
      StripLeftHas(s[1..]);
      assert s == [s[0]] + s[1..];
    }
  }

  lemma {:induction false} StripRightHas(s: string)
    ensures forall c :: c in StripRight(s) ==> c in s
    decreases |s|
  {
    if s != "" && IsBlank(s[|s| - 1]) {
      StripRightHas(s[..|s| - 1]);
      assert s == s[..|s| - 1] + [s[|s| - 1]];
    }
  }

  lemma {:induction false} PartsAreTokens(parts: seq<string>)
    requires forall p :: p in parts ==> ',' !in p
    ensures AllTokens(NonEmpty(StripAll(parts)))
  {
    if parts != [] {
      assert parts[0] in parts;
      StripHas(parts[0]);
      StripTrims(parts[0]);
      PartsAreTokens(parts[1..]);
      var rest := StripAll(parts[1..]);
      assert ([Strip(parts[0])] + rest)[1..] == rest;
    }
  }

  lemma ItemsAreTokens(value: string)
    ensures AllTokens(Items(value))
  {
    PartsAreTokens(SplitOn(',', value));
  }

  // ---------------------------------------------------------------------------
  // Joined tokens are read back
  // ---------------------------------------------------------------------------

  lemma StripSpace(x: string)
    requires Trimmed(x)
    ensures Strip(" " + x) == x
  {
    var s := " " + x;
    assert s[0] == ' ' && s[1..] == x;
    assert StripLeft(s) == StripLeft(x);
    StripTrims(x);
  }

  /** The parts of a joined list: every one but the first has a space in front. */
  lemma {:induction false} JoinedIsRead(items: seq<string>)
    requires AllTokens(items) && items != []
    ensures NonEmpty(StripAll(SplitOn(',', JoinComma(items)))) == items
    ensures NonEmpty(StripAll(SplitOn(',', " " + JoinComma(items)))) == items
  {
    var x, rest := items[0], items[1..];
    assert x in items;
    StripTrims(x);
    StripSpace(x);
    assert ',' !in " " + x;
    if rest == [] {
      SplitOne(',', x);
      SplitOne(',', " " + x);
      OneRead(x, x);
      OneRead(" " + x, x);
      assert items == [x];
    } else {
      var tail := " " + JoinComma(rest);
      JoinedIsRead(rest);
      assert JoinComma(items) == x + ([','] + tail) by {
        assert x + ", " + JoinComma(rest) == x + ([','] + tail);
      }
      assert " " + JoinComma(items) == (" " + x) + ([','] + tail);
      SplitFirst(',', x, tail);
      SplitFirst(',', " " + x, tail);
      MoreRead(x, x, SplitOn(',', tail));
      MoreRead(" " + x, x, SplitOn(',', tail));
      assert items == [x] + rest;
    }
  }

  lemma OneRead(part: string, x: string)
    requires Strip(part) == x && x != ""
    ensures NonEmpty(StripAll([part])) == [x]
  {
    MoreRead(part, x, []);
    assert [part] + [] == [part] && [x] + NonEmpty(StripAll([])) == [x];
  }

  lemma MoreRead(part: string, x: string, parts: seq<string>)
    requires Strip(part) == x && x != ""
    ensures NonEmpty(StripAll([part] + parts)) == [x] + NonEmpty(StripAll(parts))
  {
    assert ([part] + parts)[1..] == parts;
    assert ([x] + StripAll(parts))[1..] == StripAll(parts);
  }

  /** Reading the merged value gives the items of both values, first occurrences in order. */
  lemma VaryTheorem(current: string, added: string)
    ensures Items(MergeVary(current, added)) == Distinct(Items(current) + Items(added))
    ensures Unique(Items(MergeVary(current, added)))
    ensures forall x :: x in Items(MergeVary(current, added)) <==> x in Items(current) || x in Items(added)
    ensures MergeVary(MergeVary(current, added), added) == MergeVary(current, added)
  {
    var both := Items(current) + Items(added);
    var merged := Distinct(both);
    ItemsAreTokens(current);
    ItemsAreTokens(added);
    DistinctKeeps(both);
    if merged == [] {
      assert SplitOn(',', "") == [""] && StripAll([""]) == [""] && NonEmpty([""]) == [];
    } else {
      JoinedIsRead(merged);
    }
    AddingAgain(merged, Items(added));
  }

  /** What a value lists: its comma-separated parts, trimmed, without the blank ones. */
  lemma ItemsTheorem(value: string, parts: seq<string>, x: string)
    requires parts == SplitOn(',', value)
    ensures x in Items(value) <==> x != "" && exists i :: 0 <= i < |parts| && Strip(parts[i]) == x
  {
    NonEmptyParts(parts, x);
  }

  lemma {:induction false} NonEmptyParts(parts: seq<string>, x: string)
    ensures x in NonEmpty(StripAll(parts)) <==> x != "" && exists i :: 0 <= i < |parts| && Strip(parts[i]) == x
  {
    if parts != [] {
      NonEmptyParts(parts[1..], x);
      assert forall i :: 0 < i < |parts| ==> parts[i] == parts[1..][i - 1];
      assert forall i :: 0 <= i < |parts| - 1 ==> parts[1..][i] == parts[i + 1];
      assert ([Strip(parts[0])] + StripAll(parts[1..]))[1..] == StripAll(parts[1..]);
    }
  }

  /** Two different tokens are written with a comma and a space between them, and one only once. */
  lemma TwoTokens(a: string, b: string)
    requires Token(a) && Token(b)
    ensures MergeVary(a, b) == if a == b then a else a + ", " + b
  {
    SplitOne(',', a);
    SplitOne(',', b);
    StripTrims(a);
    StripTrims(b);
    OneRead(a, a);
    OneRead(b, b);
    var both := Items(a) + Items(b);
    assert both == [a, b] && both[..1] == [a] && [a][..0] == [];
    assert Distinct([a]) == [a];
    assert Distinct(both) == if a == b then [a] else [a] + [b];
    assert JoinComma([b]) == b && JoinComma([a]) == a;
    var pair := [a] + [b];
    assert pair[1..] == [b] && |pair| == 2 && pair[0] == a;
    assert JoinComma(pair) == a + ", " + JoinComma(pair[1..]);
    if a == b {
      assert MergeVary(a, b) == JoinComma([a]);
    } else {
      assert MergeVary(a, b) == JoinComma(pair);
    }
  }

  /** Items that are there already add nothing. */
  lemma {:induction false} AddingAgain(items: seq<string>, more: seq<string>)
    requires Unique(items) && forall x :: x in more ==> x in items
    ensures Distinct(items + more) == items
  {
    if more == [] {
      assert items + more == items;
      DistinctKeeps(items);
    } else {
      var n := |more| - 1;
      assert more == more[..n] + [more[n]];
      AddingAgain(items, more[..n]);
      assert (items + more)[..|items + more| - 1] == items + more[..n];
    }
  }
}
