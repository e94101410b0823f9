// The version parser, its two printers, and the bump and promotion steps of a version unit.
module Versions {
  import opened Base
  import opened Numerals

  datatype Version = Version(major: nat, minor: nat, patch: nat, pre: Option<string>, build: Option<string>)

  datatype Error =
    | Invalid | EmptyIdentifier | LeadingZero
    | UnsupportedPrerelease | BuildUnsupported
    | BadDate | DateOutOfRange
    | RcNeedsStable | UnsupportedChannel | NothingToPromote

  // ----- the grammar ---------------------------------------------------------------------

  predicate IsLetter(c: char) {
    'a' <= c <= 'z' || 'A' <= c <= 'Z'
  }

  // The regular expression's [0-9A-Za-z.-]+.
  predicate Characters(s: string) {
    s != "" && forall i | 0 <= i < |s| :: IsDigit(s[i]) || IsLetter(s[i]) || s[i] == '.' || s[i] == '-'
  }

  predicate NoEmptyIdentifier(s: string) {
    "" !in Split(s, '.')
  }

  predicate NoLeadingZero(s: string) {
    forall p | p in Split(s, '.') :: Numeric(p) ==> Canonical(p)
  }

  // Sections 2, 9 and 10 of Semantic Versioning 2.0.0.
  predicate WellFormed(v: Version) {
    && (v.pre.Some? ==> Characters(v.pre.value) && NoEmptyIdentifier(v.pre.value) && NoLeadingZero(v.pre.value))
    && (v.build.Some? ==> Characters(v.build.value) && NoEmptyIdentifier(v.build.value))
  }

  // The text before the first c, and the text after it if c occurs.
  function Cut(s: string, c: char): (string, Option<string>) {
    var i := FirstOf(s, c);
    (s[..i], if i < |s| then Some(s[i + 1..]) else None)
  }

  function Parse(s: string): Result<Version, Error> {
    var (main, build) := Cut(s, '+');
    var (core, pre) := Cut(main, '-');
    var parts := Split(core, '.');
    if |parts| != 3 || !(forall i | 0 <= i < |parts| :: Canonical(parts[i]))
       || (pre.Some? && !Characters(pre.value)) || (build.Some? && !Characters(build.value)) then
      Err(Invalid)
    else if (pre.Some? && !NoEmptyIdentifier(pre.value)) || (build.Some? && !NoEmptyIdentifier(build.value)) then
      Err(EmptyIdentifier)
    else if pre.Some? && !NoLeadingZero(pre.value) then
      Err(LeadingZero)
    else
      Ok(Version(Value(parts[0]), Value(parts[1]), Value(parts[2]), pre, build))
  }

  function CoreParts(v: Version): (parts: seq<string>)
    ensures |parts| == 3 && forall i | 0 <= i < |parts| :: Canonical(parts[i])
  {
    [Print(v.major), Print(v.minor), Print(v.patch)]
  }

  function Core(v: Version): string {
    Join(CoreParts(v), '.')
  }

  // An absent or an empty suffix prints nothing.
  function Suffix(c: char, s: Option<string>): string {
    if s.Some? && s.value != "" then [c] + s.value else ""
  }

  function Serialize(v: Version): string {
    Core(v) + Suffix('-', v.pre) + Suffix('+', v.build)
  }

  // ----- parsing and printing are inverse -------------------------------------------------

  lemma {:induction false} CutSuffix(s: string, c: char, rest: Option<string>)
    requires c !in s && (rest.Some? ==> rest.value != "")
    ensures Cut(s + Suffix(c, rest), c) == (s, rest)
  {
    hide Cut;
    if rest.Some? {
      CutAt(s, c, rest.value);
      assert s + Suffix(c, rest) == s + [c] + rest.value;
    } else {
      CutNowhere(s, c);
      assert s + Suffix(c, rest) == s;
    }
  }

  lemma {:induction false} CutNowhere(s: string, c: char)
    requires c !in s
    ensures Cut(s, c) == (s, None)
  {
    assert FirstOf(s, c) == |s| && s[..|s|] == s;
  }

  lemma {:induction false} CutAt(s: string, c: char, rest: string)
    requires c !in s
    ensures Cut(s + [c] + rest, c) == (s, Some(rest))
  {
    FirstOfAfter(s, c, rest);
    var whole := s + [c] + rest;
    assert whole[..|s|] == s && whole[|s| + 1..] == rest;
  }

  lemma {:induction false} CutBack(s: string, c: char)
    requires Cut(s, c).1 != Some("")
    ensures s == Cut(s, c).0 + Suffix(c, Cut(s, c).1) && c !in Cut(s, c).0
  {
  }

  // A core is digits and dots.
  predicate DigitsAndDots(s: string) {
    forall i | 0 <= i < |s| :: IsDigit(s[i]) || s[i] == '.'
  }

  lemma {:induction false} JoinDigits(parts: seq<string>)
    requires parts != [] && forall p | p in parts :: AllDigits(p)
    ensures DigitsAndDots(Join(parts, '.'))
  {
    assert parts[0] in parts;
    if |parts| > 1 {
      JoinDigits(parts[1..]);
    }
  }

  lemma {:induction false} CoreSplits(v: Version)
    ensures Split(Core(v), '.') == CoreParts(v) && DigitsAndDots(Core(v))
  {
    JoinSplit(CoreParts(v), '.');
    JoinDigits(CoreParts(v));
  }

  lemma {:induction false} CoreValues(v: Version)
    ensures Value(CoreParts(v)[0]) == v.major && Value(CoreParts(v)[1]) == v.minor && Value(CoreParts(v)[2]) == v.patch
  {
    PrintValue(v.major);
    PrintValue(v.minor);
    PrintValue(v.patch);
  }

  lemma {:induction false} ParsePrinted(v: Version)
    requires WellFormed(v)
    ensures Parse(Serialize(v)) == Ok(v)
  {
    var main := Core(v) + Suffix('-', v.pre);
    CoreSplits(v);
    CoreValues(v);
    assert '+' !in main && '-' !in Core(v);
    CutSuffix(main, '+', v.build);
    CutSuffix(Core(v), '-', v.pre);
    assert forall p | p in CoreParts(v) :: Canonical(p);
  }

  // What an accepted text was cut into.
  lemma {:induction false} ParsedParts(s: string)
    requires Parse(s).Ok?
    ensures var (main, build) := Cut(s, '+');
            var (core, pre) := Cut(main, '-');
            Core(Parse(s).value) == core && Parse(s).value.pre == pre && Parse(s).value.build == build
  {
    var v := Parse(s).value;
    var core := Cut(Cut(s, '+').0, '-').0;
    var parts := Split(core, '.');
    ValuePrint(parts[0]);
    ValuePrint(parts[1]);
    ValuePrint(parts[2]);
    assert CoreParts(v) == parts;
    SplitJoin(core, '.');
  }

  lemma {:induction false} PrintParsed(s: string)
    requires Parse(s).Ok?
    ensures WellFormed(Parse(s).value) && Serialize(Parse(s).value) == s
  {
    hide Core;
    ParsedParts(s);
    CutBack(s, '+');
    CutBack(Cut(s, '+').0, '-');
  }

  // The accepted texts are exactly the printed well-formed versions, one text for each.
  lemma {:induction false} ParseExact(s: string, v: Version)
    ensures Parse(s) == Ok(v) <==> WellFormed(v) && s == Serialize(v)
  {
    if WellFormed(v) {
      ParsePrinted(v);
    }
    if Parse(s).Ok? {
      PrintParsed(s);
    }
  }

  // ----- the form of Python packages (PEP 440) --------------------------------------------

  datatype Channel = Alpha | Beta | Rc

  function Word(c: Channel): (w: string)
    ensures w != "" && '.' !in w && '-' !in w && '+' !in w
  {
    match c
    case Alpha => "alpha"
    case Beta => "beta"
    case Rc => "rc"
  }

  function Tag(c: Channel): (t: string)
    ensures t != "" && !IsDigit(t[0]) && t[0] != '.'
  {
    match c
    case Alpha => "a"
    case Beta => "b"
    case Rc => "rc"
  }

  // `(alpha|beta|rc).N`.
  predicate Numbered(pre: string, c: Channel, number: string) {
    pre == Word(c) + "." + number && Numeric(number)
  }

  function NumberedChannel(pre: string): (r: Option<(Channel, string)>)
    ensures r.Some? ==> Numbered(pre, r.value.0, r.value.1)
  {
    var (word, number) := Cut(pre, '.');
    if number.None? || !Numeric(number.value) then None
    else if word == "alpha" then Some((Alpha, number.value))
    else if word == "beta" then Some((Beta, number.value))
    else if word == "rc" then Some((Rc, number.value))
    else None
  }

  lemma {:induction false} NumberedFound(pre: string, c: Channel, number: string)
    requires Numbered(pre, c, number)
    ensures NumberedChannel(pre) == Some((c, number))
  {
    CutSuffix(Word(c), '.', Some(number));
    assert pre == Word(c) + Suffix('.', Some(number));
  }

  function SerializePep(v: Version): Result<string, Error> {
    if v.pre.Some? && v.pre.value != "" && NumberedChannel(v.pre.value).None? then
      Err(UnsupportedPrerelease)
    else if v.build.Some? && v.build.value != "" then
      Err(BuildUnsupported)
    else if v.pre.Some? && v.pre.value != "" then
      var (c, number) := NumberedChannel(v.pre.value).value;
      Ok(Core(v) + Tag(c) + number)
    else
      Ok(Core(v))
  }

  // Where the run of digits and dots that starts the text ends.
  function CoreEnd(s: string): (i: nat)
    ensures i <= |s| && DigitsAndDots(s[..i]) && (i < |s| ==> !IsDigit(s[i]) && s[i] != '.')
  {
    if s == "" || (!IsDigit(s[0]) && s[0] != '.') then 0
    else
      var i := CoreEnd(s[1..]) + 1;
      assert s[..i] == [s[0]] + s[1..][..i - 1];
      i
  }

  lemma {:induction false} CoreEndAt(core: string, rest: string)
    requires DigitsAndDots(core) && (rest == "" || (!IsDigit(rest[0]) && rest[0] != '.'))
    ensures CoreEnd(core + rest) == |core|
  {
    var s := core + rest;
    if core == "" {
      assert s == rest;
    } else {
      assert s[1..] == core[1..] + rest;
      CoreEndAt(core[1..], rest);
    }
  }

  function TagOf(rest: string): (c: Option<Channel>)
    ensures c.Some? ==> Tag(c.value) <= rest
  {
    if "a" <= rest then Some(Alpha)
    else if "b" <= rest then Some(Beta)
    else if "rc" <= rest then Some(Rc)
    else None
  }

  // The three groups of `N.N.N(a|b|rc)N`.
  datatype Short = Short(core: string, channel: Channel, number: string)

  function Text(f: Short): string {
    f.core + (Tag(f.channel) + f.number)
  }

  predicate ThreeNumbers(core: string) {
    var parts := Split(core, '.');
    |parts| == 3 && Numeric(parts[0]) && Numeric(parts[1]) && Numeric(parts[2])
  }

  function ReadShort(s: string): (r: Option<Short>)
    ensures r.Some? ==> Text(r.value) == s && DigitsAndDots(r.value.core) && Numeric(r.value.number)
  {
    var core, rest := s[..CoreEnd(s)], s[CoreEnd(s)..];
    var tag := TagOf(rest);
    if tag.Some? && ThreeNumbers(core) && Numeric(rest[|Tag(tag.value)|..]) then
      Some(Short(core, tag.value, rest[|Tag(tag.value)|..]))
    else
      None
  }

  function LongPre(f: Short): string {
    Word(f.channel) + "." + f.number
  }

  // The text, with the short form rewritten to the long one.
  function Expand(s: string): string {
    match ReadShort(s)
    case Some(f) => f.core + Suffix('-', Some(LongPre(f)))
    case None => s
  }

  function ParsePep(s: string): Result<Version, Error> {
    Parse(Expand(s))
  }

  lemma {:induction false} ShortIsRead(f: Short)
    requires DigitsAndDots(f.core) && ThreeNumbers(f.core) && Numeric(f.number)
    ensures ReadShort(Text(f)) == Some(f)
  {
    hide ThreeNumbers, CoreEnd, TagOf, Tag, DigitsAndDots, Numeric;
    var rest := Tag(f.channel) + f.number;
    CoreEndAt(f.core, rest);
    Halves(f.core, rest);
    TagFound(f.channel, f.number);
  }

  lemma {:induction false} Halves(a: string, b: string)
    ensures (a + b)[..|a|] == a && (a + b)[|a|..] == b
  {
  }

  lemma {:induction false} TagFound(c: Channel, number: string)
    requires Numeric(number)
    ensures TagOf(Tag(c) + number) == Some(c) && (Tag(c) + number)[|Tag(c)|..] == number
  {
    Halves(Tag(c), number);
  }

  // What follows the core of a long form is no tag.
  lemma {:induction false} LongIsKept(v: Version)
    ensures ReadShort(Serialize(v)) == None
  {
    hide ThreeNumbers, CoreEnd, Core, DigitsAndDots, Numeric, Suffix, TagOf, Tag;
    var rest := Suffix('-', v.pre) + Suffix('+', v.build);
    CoreSplits(v);
    NoTag(v.pre, v.build);
    CoreEndAt(Core(v), rest);
    Halves(Core(v), rest);
    assert Serialize(v) == Core(v) + rest;
  }

  lemma {:induction false} NoTag(pre: Option<string>, build: Option<string>)
    ensures var rest := Suffix('-', pre) + Suffix('+', build);
            TagOf(rest) == None && (rest == "" || (!IsDigit(rest[0]) && rest[0] != '.'))
  {
    var rest := Suffix('-', pre) + Suffix('+', build);
    assert rest == "" || rest[0] == '-' || rest[0] == '+';
  }

  lemma {:induction false} ShortParsed(f: Short, v: Version)
    requires DigitsAndDots(f.core) && Numeric(f.number)
    requires Parse(f.core + Suffix('-', Some(LongPre(f)))) == Ok(v)
    ensures SerializePep(v) == Ok(Text(f))
  {
    hide Parse, SerializePep, Text, LongPre, Core, Numeric;
    LongParsed(f, v);
    ShortForm(f, v);
  }

  // The parts of a long form that was read.
  lemma {:induction false} LongParsed(f: Short, v: Version)
    requires DigitsAndDots(f.core) && Numeric(f.number)
    requires Parse(f.core + Suffix('-', Some(LongPre(f)))) == Ok(v)
    ensures Core(v) == f.core && v.pre == Some(LongPre(f)) && v.build == None
  {
    hide Parse, Core, LongPre, Cut, Suffix, DigitsAndDots;
    LongPreClean(f);
    CutLong(f.core, LongPre(f));
    ParsedParts(f.core + Suffix('-', Some(LongPre(f))));
  }

  lemma {:induction false} LongPreClean(f: Short)
    requires Numeric(f.number)
    ensures LongPre(f) != "" && '+' !in LongPre(f)
  {
    hide Word;
  }

  lemma {:induction false} ShortForm(f: Short, v: Version)
    requires Numeric(f.number) && Core(v) == f.core && v.pre == Some(LongPre(f)) && v.build == None
    ensures SerializePep(v) == Ok(Text(f))
  {
    hide Core, Word, Tag, NumberedChannel, Numeric;
    NumberedFound(LongPre(f), f.channel, f.number);
    assert f.core + Tag(f.channel) + f.number == Text(f);
  }

  lemma {:induction false} ShortRead(s: string, v: Version)
    requires WellFormed(v) && SerializePep(v) == Ok(s)
    ensures Expand(s) == Serialize(v)
  {
    hide Core, ReadShort, Word, Tag, NumberedChannel, ThreeNumbers, NoLeadingZero, NoEmptyIdentifier;
    if v.pre.Some? {
      var (c, number) := NumberedChannel(v.pre.value).value;
      var f := Short(Core(v), c, number);
      CoreIsThree(v);
      ShortIsRead(f);
      assert Core(v) + Tag(c) + number == Text(f);
    } else {
      LongIsKept(v);
      assert s == Serialize(v);
    }
  }

  lemma {:induction false} CoreIsThree(v: Version)
    ensures DigitsAndDots(Core(v)) && ThreeNumbers(Core(v))
  {
    CoreSplits(v);
  }

  lemma {:induction false} CutLong(core: string, pre: string)
    requires DigitsAndDots(core) && pre != "" && '+' !in pre
    ensures var long := core + Suffix('-', Some(pre));
            Cut(long, '+') == (long, None) && Cut(long, '-') == (core, Some(pre))
  {
    var long := core + Suffix('-', Some(pre));
    CutSuffix(long, '+', None);
    assert long + Suffix('+', None) == long;
    CutSuffix(core, '-', Some(pre));
  }

  // The accepted texts are exactly the long and the short forms of well-formed versions.
  lemma {:induction false} ParsePepExact(s: string, v: Version)
    ensures ParsePep(s) == Ok(v) <==> WellFormed(v) && (s == Serialize(v) || SerializePep(v) == Ok(s))
  {
    hide Parse, ReadShort, SerializePep, Serialize, WellFormed;
    ParseExact(Expand(s), v);
    if ParsePep(s) == Ok(v) && ReadShort(s).Some? {
      ShortParsed(ReadShort(s).value, v);
    }
    if WellFormed(v) {
      LongIsKept(v);
      if SerializePep(v) == Ok(s) {
        ShortRead(s, v);
      }
    }
  }
}
