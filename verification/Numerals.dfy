// Decimal numerals and dot-separated identifiers.
module Numerals {

  predicate IsDigit(c: char) {
    '0' <= c <= '9'
  }

  predicate AllDigits(s: string) {
    forall i | 0 <= i < |s| :: IsDigit(s[i])
  }

  predicate Numeric(s: string) {
    s != "" && AllDigits(s)
  }

  // The numeral `0`, or one that does not start with it.
  predicate Canonical(s: string) {
    Numeric(s) && (|s| == 1 || s[0] != '0')
  }

  function Digit(n: nat): char
    requires n < 10
  {
    '0' + n as char
  }

  function Print(n: nat): (s: string)
    ensures Canonical(s) && (s[0] == '0' <==> n == 0)
  {
    if n < 10 then [Digit(n)] else Print(n / 10) + [Digit(n % 10)]
  }

  function Value(s: string): nat
    requires AllDigits(s)
  {
    if s == "" then 0 else 10 * Value(s[..|s| - 1]) + (s[|s| - 1] as int - '0' as int)
  }

  lemma {:induction false} PrintValue(n: nat)
    ensures Value(Print(n)) == n
  {
    if n >= 10 {
      PrintValue(n / 10);
      assert Print(n)[..|Print(n)| - 1] == Print(n / 10);
    }
  }

  lemma {:induction false} ValuePositive(s: string)
    requires Canonical(s)
    ensures s[0] != '0' ==> Value(s) > 0
    ensures |s| > 1 ==> Value(s) >= 10
  {
    if |s| > 1 {
      ValuePositive(s[..|s| - 1]);
    }
  }

  // Canonical numerals are exactly the printed numbers.
  lemma {:induction false} ValuePrint(s: string)
    requires Canonical(s)
    ensures Print(Value(s)) == s
  {
    var init, last := s[..|s| - 1], s[|s| - 1] as int - '0' as int;
    assert Digit(last) == s[|s| - 1];
    if |s| == 1 {
      assert Value(init) == 0;
    } else {
      ValuePositive(s);
      ValuePrint(init);
      assert Value(s) == 10 * Value(init) + last;
      assert Value(s) / 10 == Value(init) && Value(s) % 10 == last;
    }
  }

  // ----- splitting at a character --------------------------------------------------------

  // The index of the first c, or the length.
  function FirstOf(s: string, c: char): (i: nat)
    ensures i <= |s| && (forall k | 0 <= k < i :: s[k] != c) && (i < |s| ==> s[i] == c)
  {
    if s == "" || s[0] == c then 0 else FirstOf(s[1..], c) + 1
  }

  // A part without c, the character c, and the rest: `partition(c)` finds exactly that.
  lemma {:induction false} FirstOfAfter(part: string, c: char, rest: string)
    requires c !in part
    ensures FirstOf(part, c) == |part|
    ensures FirstOf(part + [c] + rest, c) == |part|
  {
    var s := part + [c] + rest;
    assert s[|part|] == c;
    assert forall k | 0 <= k < |part| :: s[k] == part[k];
  }

  // `s.split(c)`.
  function Split(s: string, c: char): (parts: seq<string>)
    ensures parts != [] && forall p | p in parts :: c !in p
    decreases |s|
  {
    var i := FirstOf(s, c);
    if i == |s| then [s] else [s[..i]] + Split(s[i + 1..], c)
  }

  function Join(parts: seq<string>, c: char): string
    requires parts != []
  {
    if |parts| == 1 then parts[0] else parts[0] + [c] + Join(parts[1..], c)
  }

  lemma {:induction false} SplitJoin(s: string, c: char)
    ensures Join(Split(s, c), c) == s
    decreases |s|
  {
    hide Join;
    var i := FirstOf(s, c);
    if i < |s| {
      SplitJoin(s[i + 1..], c);
      JoinFirst(s[..i], Split(s[i + 1..], c), c);
      CutAround(s, i, c);
    } else {
      JoinOne(s, c);
    }
  }

  lemma {:induction false} JoinOne(s: string, c: char)
    ensures Join([s], c) == s
  {
  }

  lemma {:induction false} JoinFirst(part: string, rest: seq<string>, c: char)
    requires rest != []
    ensures Join([part] + rest, c) == part + [c] + Join(rest, c)
  {
    assert ([part] + rest)[1..] == rest;
  }

  lemma {:induction false} CutAround(s: string, i: nat, c: char)
    requires i < |s| && s[i] == c
    ensures s == s[..i] + [c] + s[i + 1..]
  {
  }

  lemma {:induction false} JoinSplit(parts: seq<string>, c: char)
    requires parts != [] && forall p | p in parts :: c !in p
    ensures Split(Join(parts, c), c) == parts
  {
    hide Split;
    if |parts| == 1 {
      assert parts == [parts[0]];
      SplitOne(parts[0], c);
    } else {
      JoinSplit(parts[1..], c);
      SplitFirst(parts[0], Join(parts[1..], c), c);
      assert parts == [parts[0]] + parts[1..];
    }
  }

  lemma {:induction false} SplitOne(s: string, c: char)
    requires c !in s
    ensures Split(s, c) == [s]
  {
    FirstOfAfter(s, c, "");
  }

  lemma {:induction false} SplitFirst(part: string, rest: string, c: char)
    requires c !in part
    ensures Split(part + [c] + rest, c) == [part] + Split(rest, c)
  {
    var s := part + [c] + rest;
    FirstOfAfter(part, c, rest);
    assert s[..|part|] == part && s[|part| + 1..] == rest;
  }
}
