// Precedence of versions, section 11 of Semantic Versioning 2.0.0.
module Precedence {
  import opened Base
  import opened Numerals
  import opened Versions

  // Lexicographic order over `less`, a proper prefix first.
  predicate Lex<T(==)>(a: seq<T>, b: seq<T>, less: (T, T) -> bool) {
    if b == [] then false
    else if a == [] then true
    else if a[0] != b[0] then less(a[0], b[0])
    else Lex(a[1..], b[1..], less)
  }

  predicate CharLess(c: char, d: char) {
    c < d
  }

  // Numbers by value and below words; words by their characters.
  predicate IdentifierLess(a: string, b: string) {
    if Numeric(a) then Numeric(b) ==> Value(a) < Value(b)
    else !Numeric(b) && Lex(a, b, CharLess)
  }

  predicate PreLess(a: string, b: string) {
    Lex(Split(a, '.'), Split(b, '.'), IdentifierLess)
  }

  predicate CoreLess(v: Version, w: Version) {
    || v.major < w.major
    || (v.major == w.major && v.minor < w.minor)
    || (v.major == w.major && v.minor == w.minor && v.patch < w.patch)
  }

  predicate SameCore(v: Version, w: Version) {
    v.major == w.major && v.minor == w.minor && v.patch == w.patch
  }

  // Section 11: the core decides; then a prerelease precedes its release; then the identifiers.
  predicate Precedes(v: Version, w: Version) {
    || CoreLess(v, w)
    || (SameCore(v, w) && v.pre.Some? && (w.pre.None? || PreLess(v.pre.value, w.pre.value)))
  }

  ghost predicate Strict<T(!new)>(less: (T, T) -> bool) {
    && (forall x :: !less(x, x))
    && (forall x, y, z :: less(x, y) && less(y, z) ==> less(x, z))
  }

  lemma {:induction false} LexIrreflexive<T>(a: seq<T>, less: (T, T) -> bool)
    ensures !Lex(a, a, less)
  {
    if a != [] {
      LexIrreflexive(a[1..], less);
    }
  }

  lemma {:induction false} LexTransitive<T(!new)>(a: seq<T>, b: seq<T>, c: seq<T>, less: (T, T) -> bool)
    requires Strict(less) && Lex(a, b, less) && Lex(b, c, less)
    ensures Lex(a, c, less)
  {
    if a != [] && a[0] == b[0] == c[0] {
      LexTransitive(a[1..], b[1..], c[1..], less);
    }
  }

  // Different sequences are ordered when different elements are.
  lemma {:induction false} LexTotal<T>(a: seq<T>, b: seq<T>, less: (T, T) -> bool)
    requires forall x, y | x in a && y in b && x != y :: less(x, y) || less(y, x)
    requires a != b
    ensures Lex(a, b, less) || Lex(b, a, less)
  {
    if a != [] && b != [] {
      assert a[0] in a && b[0] in b;
      if a[0] == b[0] {
        assert a == [a[0]] + a[1..] && b == [b[0]] + b[1..];
        assert forall x | x in a[1..] :: x in a;
        assert forall y | y in b[1..] :: y in b;
        LexTotal(a[1..], b[1..], less);
      }
    }
  }

  lemma {:induction false} IdentifiersStrict()
    ensures Strict(IdentifierLess)
  {
    forall a: string
      ensures !IdentifierLess(a, a)
    {
      LexIrreflexive(a, CharLess);
    }
    forall a: string, b: string, c: string | IdentifierLess(a, b) && IdentifierLess(b, c)
      ensures IdentifierLess(a, c)
    {
      if !Numeric(a) {
        LexTransitive(a, b, c, CharLess);
      }
    }
  }

  lemma {:induction false} IdentifiersTotal(a: string, b: string)
    requires a != b && (Numeric(a) ==> Canonical(a)) && (Numeric(b) ==> Canonical(b))
    ensures IdentifierLess(a, b) || IdentifierLess(b, a)
  {
    if Numeric(a) && Numeric(b) {
      ValuePrint(a);
      ValuePrint(b);
    } else if !Numeric(a) && !Numeric(b) {
      LexTotal(a, b, CharLess);
    }
  }

  lemma {:induction false} PrecedesTransitive(u: Version, v: Version, w: Version)
    requires Precedes(u, v) && Precedes(v, w)
    ensures Precedes(u, w)
  {
    if u.pre.Some? && v.pre.Some? && w.pre.Some?
       && PreLess(u.pre.value, v.pre.value) && PreLess(v.pre.value, w.pre.value) {
      IdentifiersStrict();
      LexTransitive(Split(u.pre.value, '.'), Split(v.pre.value, '.'), Split(w.pre.value, '.'), IdentifierLess);
    }
  }

  // A strict order in which only build metadata is ignored: neither precedes the other exactly
  // when they agree on everything else.
  lemma {:induction false} PrecedesTies(v: Version, w: Version)
    requires WellFormed(v) && WellFormed(w)
    ensures !Precedes(v, w) && !Precedes(w, v) <==> SameCore(v, w) && v.pre == w.pre
  {
    if v.pre.Some? && w.pre.Some? {
      var a, b := Split(v.pre.value, '.'), Split(w.pre.value, '.');
      if v.pre == w.pre {
        LexIrreflexive(a, IdentifierLess);
      } else {
        SplitJoin(v.pre.value, '.');
        SplitJoin(w.pre.value, '.');
        forall x, y | x in a && y in b && x != y
          ensures IdentifierLess(x, y) || IdentifierLess(y, x)
        {
          IdentifiersTotal(x, y);
        }
        LexTotal(a, b, IdentifierLess);
      }
    }
  }
}
