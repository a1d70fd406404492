/** Options, the few string operations the gateway applies to names and keys, and lists without repetitions. */
module Text {

  datatype Option<+T> = None | Some(value: T)

  function LowerChar(c: char): char {
    if 'A' <= c <= 'Z' then (c as int + 32) as char else c
  }

  /** Python's str.lower() on ASCII text. */
  function Lower(s: string): (r: string)
    ensures |r| == |s|
  {
    seq(|s|, i requires 0 <= i < |s| => LowerChar(s[i]))
  }

  lemma LowerIsIdempotent(s: string)
    ensures Lower(Lower(s)) == Lower(s)
  {
  }

  predicate IsBlank(c: char) {
    c == ' ' || 9 <= c as int <= 13 || 28 <= c as int <= 31
  }

  // ---------------------------------------------------------------------------
  // Python's str.strip()
  // ---------------------------------------------------------------------------

  function StripLeft(s: string): string {
    if s != "" && IsBlank(s[0]) then StripLeft(s[1..]) else s
  }

  function StripRight(s: string): string {
    if s != "" && IsBlank(s[|s| - 1]) then StripRight(s[..|s| - 1]) else s
  }

  function Strip(s: string): string {
    StripRight(StripLeft(s))
  }

  predicate Trimmed(s: string) {
    s == "" || (!IsBlank(s[0]) && !IsBlank(s[|s| - 1]))
  }

  lemma {:induction false} StripLeftTrims(s: string)
    ensures StripLeft(s) == "" || !IsBlank(StripLeft(s)[0])
  {
    if s != "" && IsBlank(s[0]) {
      StripLeftTrims(s[1..]);
    }
  }

  lemma {:induction false} StripRightTrims(s: string)
    requires s == "" || !IsBlank(s[0])
    ensures Trimmed(StripRight(s))
    decreases |s|
  {
    if s != "" && IsBlank(s[|s| - 1]) {
      StripRightTrims(s[..|s| - 1]);
    }
  }

  lemma StripTrims(s: string)
    ensures Trimmed(Strip(s))
    ensures Strip(s) == s <==> Trimmed(s)
  {
    StripLeftTrims(s);
    StripRightTrims(StripLeft(s));
  }

  /** What stripping removes is blank, at both ends. */
  lemma {:induction false} StripTheorem(s: string) returns (left: nat, right: nat)
    ensures left <= right <= |s| && Strip(s) == s[left..right]
    ensures forall i :: 0 <= i < left || right <= i < |s| ==> IsBlank(s[i])
  {
    left := StripLeftAt(s);
    var inner := s[left..];
    var end := StripRightAt(inner);
    right := left + end;
    assert forall i :: right <= i < |s| ==> s[i] == inner[i - left];
    assert inner[..end] == s[left..right];
  }

  lemma {:induction false} StripLeftAt(s: string) returns (left: nat)
    ensures left <= |s| && StripLeft(s) == s[left..]
    ensures forall i :: 0 <= i < left ==> IsBlank(s[i])
  {
    left := 0;
    if s != "" && IsBlank(s[0]) {
      var rest := StripLeftAt(s[1..]);
      left := rest + 1;
      assert forall i :: 1 <= i < left ==> s[i] == s[1..][i - 1];
      assert s[1..][rest..] == s[left..];
    }
  }

  lemma {:induction false} StripRightAt(s: string) returns (end: nat)
    ensures end <= |s| && StripRight(s) == s[..end]
    ensures forall i :: end <= i < |s| ==> IsBlank(s[i])
    decreases |s|
  {
    end := |s|;
    assert s[..end] == s;
    if s != "" && IsBlank(s[|s| - 1]) {
      end := StripRightAt(s[..|s| - 1]);
      assert s[..|s| - 1][..end] == s[..end];
    }
  }

  // ---------------------------------------------------------------------------
  // Python's str.split() on one character
  // ---------------------------------------------------------------------------

  function SplitOn(mark: char, s: string): (parts: seq<string>)
    ensures |parts| > 0
    ensures forall p :: p in parts ==> mark !in p
  {
    if s == "" then [""]
    else
      var rest := SplitOn(mark, s[1..]);
      if s[0] == mark then [""] + rest else [[s[0]] + rest[0]] + rest[1..]
  }

  lemma {:induction false} SplitOne(mark: char, x: string)
    requires mark !in x
    ensures SplitOn(mark, x) == [x]
  {
    if x != "" {
      assert x[0] in x && x == [x[0]] + x[1..];
      SplitOne(mark, x[1..]);
    }
  }

  lemma {:induction false} SplitFirst(mark: char, x: string, y: string)
    requires mark !in x
    ensures SplitOn(mark, x + ([mark] + y)) == [x] + SplitOn(mark, y)
  {
    var s := x + ([mark] + y);
    if x == "" {
      assert s == [mark] + y && s[1..] == y;
    } else {
      assert x[0] in x && s[0] == x[0] && s[1..] == x[1..] + ([mark] + y);
      SplitFirst(mark, x[1..], y);
      assert [x[0]] + x[1..] == x;
    }
  }

  function StripAll(parts: seq<string>): seq<string> {
    if parts == [] then [] else [Strip(parts[0])] + StripAll(parts[1..])
  }

  // ---------------------------------------------------------------------------
  // Lists without repetitions
  // ---------------------------------------------------------------------------

  /** Keeps the first occurrence of each item: Python's dict.fromkeys. */
  function Distinct(items: seq<string>): seq<string> {
    if items == [] then []
    else
      var front := Distinct(items[..|items| - 1]);
      var last := items[|items| - 1];
      if last in front then front else front + [last]
  }

  predicate Unique(s: seq<string>) {
    s == [] || (s[|s| - 1] !in s[..|s| - 1] && Unique(s[..|s| - 1]))
  }

  lemma {:induction false} DistinctKeeps(s: seq<string>)
    ensures forall x :: x in Distinct(s) <==> x in s
    ensures Unique(Distinct(s))
    ensures Unique(s) ==> Distinct(s) == s
  {
    if s != [] {
      var n := |s| - 1;
      assert s == s[..n] + [s[n]];
      DistinctKeeps(s[..n]);
      var front := Distinct(s[..n]);
      assert (front + [s[n]])[..|front|] == front;
    }
  }
}
