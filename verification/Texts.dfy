// Python string operations the record format relies on.
module Texts {

  // The characters `str.strip` removes.
  predicate IsSpace(c: char) {
    || '\U{0009}' <= c <= '\U{000D}' || '\U{001C}' <= c <= '\U{0020}'
    || c == '\U{0085}' || c == '\U{00A0}' || c == '\U{1680}' || '\U{2000}' <= c <= '\U{200A}'
    || c == '\U{2028}' || c == '\U{2029}' || c == '\U{202F}' || c == '\U{205F}' || c == '\U{3000}'
  }

  function StripLeft(s: string): string {
    if s != "" && IsSpace(s[0]) then StripLeft(s[1..]) else s
  }

  function StripRight(s: string): string {
    if s != "" && IsSpace(s[|s| - 1]) then StripRight(s[..|s| - 1]) else s
  }

  function Strip(s: string): string {
    StripRight(StripLeft(s))
  }

  predicate Trim(s: string) {
    s == "" || (!IsSpace(s[0]) && !IsSpace(s[|s| - 1]))
  }

  lemma {:induction false} StripRightTrim(s: string)
    requires s == "" || !IsSpace(s[0])
    ensures Trim(StripRight(s))
  {
    if s != "" && IsSpace(s[|s| - 1]) {
      StripRightTrim(s[..|s| - 1]);
    }
  }

  lemma {:induction false} StripLeftTrim(s: string)
    ensures StripLeft(s) == "" || !IsSpace(StripLeft(s)[0])
  {
    if s != "" && IsSpace(s[0]) {
      StripLeftTrim(s[1..]);
    }
  }

  // Stripping leaves no outer space, and leaves alone what has none.
  lemma {:induction false} StripTrims(s: string)
    ensures Trim(Strip(s))
    ensures Trim(s) <==> Strip(s) == s
    ensures Strip(Strip(s)) == Strip(s)
  {
    StripLeftTrim(s);
    StripRightTrim(StripLeft(s));
  }

  ghost predicate Blank(s: string) {
    forall i | 0 <= i < |s| :: IsSpace(s[i])
  }

  lemma {:induction false} LeftBlank(s: string) returns (a: string)
    ensures s == a + StripLeft(s) && Blank(a)
  {
    a := "";
    if s != "" && IsSpace(s[0]) {
      var rest := LeftBlank(s[1..]);
      a := [s[0]] + rest;
    }
  }

  lemma {:induction false} RightBlank(s: string) returns (b: string)
    ensures s == StripRight(s) + b && Blank(b)
  {
    b := "";
    if s != "" && IsSpace(s[|s| - 1]) {
      var rest := RightBlank(s[..|s| - 1]);
      b := rest + [s[|s| - 1]];
    }
  }

  // And nothing but outer space is taken away.
  lemma {:induction false} StripKeeps(s: string) returns (a: string, b: string)
    ensures s == a + Strip(s) + b && Blank(a) && Blank(b)
  {
    a := LeftBlank(s);
    b := RightBlank(StripLeft(s));
  }
}
