// What versions look like, how they compare and what a step makes of them, written out.
module VersionRules {
  import opened Base
  import opened Numerals
  import opened Precedence
  import opened Versions
  import opened VersionRuns

  // ----- the grammar ---------------------------------------------------------------------------

  ghost predicate Decimal(s: string) {
    s != "" && forall i | 0 <= i < |s| :: '0' <= s[i] <= '9'
  }

  ghost predicate Identifier(s: string) {
    s != "" && forall i | 0 <= i < |s| ::
      '0' <= s[i] <= '9' || 'a' <= s[i] <= 'z' || 'A' <= s[i] <= 'Z' || s[i] == '-'
  }

  // Dotted identifiers.
  ghost predicate Dotted(s: string, parts: seq<string>) {
    parts != [] && s == Join(parts, '.') && forall p | p in parts :: Identifier(p)
  }

  lemma {:induction false} JoinCharacters(parts: seq<string>)
    requires parts != [] && forall p | p in parts :: p != ""
    ensures Join(parts, '.') != "" && (Characters(Join(parts, '.')) <==> forall p | p in parts :: Characters(p))
  {
    hide Characters;
    assert parts[0] in parts && parts == [parts[0]] + parts[1..];
    if |parts| > 1 {
      assert forall p | p in parts[1..] :: p in parts;
      JoinCharacters(parts[1..]);
      CharactersBoth(parts[0], Join(parts[1..], '.'));
    }
  }

  lemma {:induction false} CharactersBoth(a: string, b: string)
    requires a != "" && b != ""
    ensures Characters(a + "." + b) <==> Characters(a) && Characters(b)
  {
    var s := a + "." + b;
    assert s[..|a|] == a && s[|a| + 1..] == b;
    if Characters(s) {
      assert forall i | 0 <= i < |a| :: a[i] == s[i];
      assert forall i | 0 <= i < |b| :: b[i] == s[|a| + 1 + i];
    }
  }

  lemma {:induction false} IdentifierExactly(s: string)
    ensures Identifier(s) <==> s != "" && Characters(s) && '.' !in s
  {
  }

  lemma {:induction false} DottedExactly(s: string)
    ensures Characters(s) && NoEmptyIdentifier(s) <==> exists parts :: Dotted(s, parts)
    ensures forall parts | Dotted(s, parts) :: parts == Split(s, '.')
  {
    hide Identifier, Characters, Split;
    var split := Split(s, '.');
    SplitJoin(s, '.');
    forall p: string
      ensures Identifier(p) <==> p != "" && Characters(p) && '.' !in p
    {
      IdentifierExactly(p);
    }
    if "" !in split {
      JoinCharacters(split);
      assert Characters(s) ==> Dotted(s, split);
    }
    forall parts | Dotted(s, parts)
      ensures parts == split && Characters(s) && NoEmptyIdentifier(s)
    {
      JoinSplit(parts, '.');
      JoinCharacters(parts);
    }
  }

  // Dotted identifiers after the core; a number among those of the prerelease has no leading zero.
  lemma {:induction false} WellFormedExactly(v: Version)
    ensures WellFormed(v) <==>
              && (v.pre.Some? ==>
                    exists parts :: Dotted(v.pre.value, parts)
                                    && forall p | p in parts && Decimal(p) :: p == "0" || p[0] != '0')
              && (v.build.Some? ==> exists parts :: Dotted(v.build.value, parts))
  {
    hide Dotted, Characters, Split, NoEmptyIdentifier;
    if v.pre.Some? {
      DottedExactly(v.pre.value);
    }
    if v.build.Some? {
      DottedExactly(v.build.value);
    }
  }

  // ----- precedence ------------------------------------------------------------------------------

  // Where the two part, the first has ended or has the lesser element.
  lemma {:induction false} LexExactly<T>(a: seq<T>, b: seq<T>, less: (T, T) -> bool)
    ensures Lex(a, b, less) <==>
              exists k: nat :: k <= |a| && k < |b| && a[..k] == b[..k]
                               && (k == |a| || (a[k] != b[k] && less(a[k], b[k])))
  {
    if b != [] && a != [] && a[0] == b[0] {
      LexExactly(a[1..], b[1..], less);
      forall k: nat | k <= |a[1..]| && k < |b[1..]|
        ensures a[1..][..k] == b[1..][..k] <==> a[..k + 1] == b[..k + 1]
      {
        assert a[..k + 1] == [a[0]] + a[1..][..k] && b[..k + 1] == [b[0]] + b[1..][..k];
      }
      if k: nat :| k <= |a[1..]| && k < |b[1..]| && a[1..][..k] == b[1..][..k]
                   && (k == |a[1..]| || (a[1..][k] != b[1..][k] && less(a[1..][k], b[1..][k])))
      {
        assert k + 1 <= |a| && k + 1 < |b| && a[..k + 1] == b[..k + 1];
      }
      if k: nat :| k <= |a| && k < |b| && a[..k] == b[..k] && (k == |a| || (a[k] != b[k] && less(a[k], b[k]))) {
        assert k > 0;
        assert a[1..][..k - 1] == b[1..][..k - 1];
      }
    } else if a == [] && b != [] {
      assert a[..0] == b[..0];
    } else if a != [] && b != [] {
      assert a[..0] == b[..0];
      forall k: nat | 0 < k <= |a| && k < |b|
        ensures a[..k] != b[..k]
      {
        assert a[..k][0] != b[..k][0];
      }
    }
  }

  ghost predicate Lower(p: string, q: string) {
    if Decimal(p) && Decimal(q) then Value(p) < Value(q)
    else if Decimal(p) || Decimal(q) then Decimal(p)
    else
      exists k: nat :: k <= |p| && k < |q| && p[..k] == q[..k] && (k == |p| || p[k] < q[k])
  }

  lemma {:induction false} LowerExactly(p: string, q: string)
    ensures IdentifierLess(p, q) <==> Lower(p, q)
    ensures !Lower(p, p)
  {
    LexIrreflexive(p, CharLess);
    if !Numeric(p) && !Numeric(q) {
      LexExactly(p, q, CharLess);
    }
    if !Numeric(p) {
      LexExactly(p, p, CharLess);
    }
  }

  // The prereleases part at their k-th identifiers, and there the first has ended or is lower.
  ghost predicate PartsAt(v: string, w: string, a: seq<string>, b: seq<string>, k: nat) {
    && Dotted(v, a) && Dotted(w, b) && k <= |a| && k < |b| && a[..k] == b[..k]
    && (k == |a| || Lower(a[k], b[k]))
  }

  lemma {:induction false} PreLessExactly(v: string, w: string)
    requires Characters(v) && NoEmptyIdentifier(v) && Characters(w) && NoEmptyIdentifier(w)
    ensures PreLess(v, w) <==> exists a, b, k: nat :: PartsAt(v, w, a, b, k)
  {
    hide Characters, NoEmptyIdentifier, Dotted, Split, Lower, IdentifierLess, Lex;
    DottedExactly(v);
    DottedExactly(w);
    var a, b := Split(v, '.'), Split(w, '.');
    LexExactly(a, b, IdentifierLess);
    forall p, q
      ensures IdentifierLess(p, q) <==> Lower(p, q)
      ensures !Lower(p, p)
    {
      LowerExactly(p, q);
    }
    if k: nat :| k <= |a| && k < |b| && a[..k] == b[..k] && (k == |a| || (a[k] != b[k] && IdentifierLess(a[k], b[k]))) {
      assert PartsAt(v, w, a, b, k);
    }
    if c, d, k: nat :| PartsAt(v, w, c, d, k) {
      assert c == a && d == b;
    }
  }

  // The core decides; a prerelease precedes its release; and of two prereleases the one whose
  // identifiers end first, or are lower where they part: numbers by value and below words.
  lemma {:induction false} PrecedesExactly(v: Version, w: Version)
    requires WellFormed(v) && WellFormed(w)
    ensures Precedes(v, w) <==>
              || v.major < w.major || (v.major == w.major && v.minor < w.minor)
              || (v.major == w.major && v.minor == w.minor && v.patch < w.patch)
              || (v.major == w.major && v.minor == w.minor && v.patch == w.patch && v.pre.Some?
                  && (w.pre.None? || exists a, b, k: nat :: PartsAt(v.pre.value, w.pre.value, a, b, k)))
  {
    hide PreLess, PartsAt, Characters, NoEmptyIdentifier, NoLeadingZero;
    if v.pre.Some? && w.pre.Some? {
      PreLessExactly(v.pre.value, w.pre.value);
    }
  }

  // ----- channels and dates ------------------------------------------------------------------------

  // A word, alone or with a number.
  ghost predicate ChannelOf(pre: string, word: string) {
    && Identifier(word) && ('a' <= word[0] <= 'z' || 'A' <= word[0] <= 'Z')
    && (pre == word || exists n :: Decimal(n) && pre == word + "." + n)
  }

  lemma {:induction false} ChannelExactly(pre: string, word: string)
    ensures IsChannel(pre) && Split(pre, '.')[0] == word <==> ChannelOf(pre, word)
  {
    hide Split, Join;
    SplitJoin(pre, '.');
    if ChannelOf(pre, word) {
      if pre == word {
        SplitOne(word, '.');
      } else {
        var n :| Decimal(n) && pre == word + "." + n;
        SplitFirst(word, n, '.');
        SplitOne(n, '.');
        assert ([word] + [n]) == [word, n];
      }
    }
    if IsChannel(pre) && Split(pre, '.')[0] == word {
      var p := Split(pre, '.');
      if |p| == 1 {
        assert p == [word];
        JoinOne(word, '.');
      } else {
        assert p == [word] + [p[1]];
        JoinFirst(word, [p[1]], '.');
        JoinOne(p[1], '.');
        assert Decimal(p[1]) && pre == word + "." + p[1];
      }
    }
  }

  // Four digits, then one or two, then one or two.
  ghost predicate Dated(pre: string, y: string, m: string, d: string) {
    && Decimal(y) && Decimal(m) && Decimal(d) && |y| == 4 && |m| <= 2 && |d| <= 2
    && pre == y + "." + m + "." + d
  }

  lemma {:induction false} DatedSplits(pre: string, y: string, m: string, d: string)
    requires Dated(pre, y, m, d)
    ensures Split(pre, '.') == [y, m, d]
  {
    hide Split, Join;
    assert pre == y + ['.'] + (m + ['.'] + d);
    SplitFirst(y, m + ['.'] + d, '.');
    SplitFirst(m, d, '.');
    SplitOne(d, '.');
    assert [y] + ([m] + [d]) == [y, m, d];
  }

  lemma {:induction false} DatedExactly(pre: string)
    ensures DateShaped(pre) <==> exists y, m, d :: Dated(pre, y, m, d)
    ensures forall y, m, d | Dated(pre, y, m, d) :: Split(pre, '.') == [y, m, d]
  {
    hide Split, Join, Decimal;
    forall y, m, d | Dated(pre, y, m, d)
      ensures Split(pre, '.') == [y, m, d] && DateShaped(pre)
    {
      DatedSplits(pre, y, m, d);
      DecimalExactly(y);
      DecimalExactly(m);
      DecimalExactly(d);
    }
    if DateShaped(pre) {
      var p := Split(pre, '.');
      SplitJoin(pre, '.');
      assert p == [p[0]] + ([p[1]] + [p[2]]);
      JoinFirst(p[0], [p[1]] + [p[2]], '.');
      JoinFirst(p[1], [p[2]], '.');
      JoinOne(p[2], '.');
      assert pre == p[0] + "." + p[1] + "." + p[2];
      DecimalExactly(p[0]);
      DecimalExactly(p[1]);
      DecimalExactly(p[2]);
      assert Dated(pre, p[0], p[1], p[2]);
    }
  }

  lemma {:induction false} DecimalExactly(s: string)
    ensures Decimal(s) <==> s != "" && AllDigits(s)
  {
  }

  lemma {:induction false} CalendarExactly(d: Date)
    ensures OnCalendar(d) <==>
              && 1 <= d.year <= 9999 && 1 <= d.day
              && (d.month in {1, 3, 5, 7, 8, 10, 12} ==> d.day <= 31) && (d.month in {4, 6, 9, 11} ==> d.day <= 30)
              && (d.month == 2 ==>
                    d.day <= 28 || (d.day == 29 && d.year % 4 == 0 && (d.year % 100 == 0 ==> d.year % 400 == 0)))
              && 1 <= d.month <= 12
  {
  }

  ghost predicate DatedAs(pre: Option<string>, e: Date) {
    pre.Some? && exists y, m, d :: Dated(pre.value, y, m, d) && e == Date(Value(y), Value(m), Value(d))
  }

  ghost predicate Follows(d: Date, e: Date) {
    d.year > e.year || (d.year == e.year && (d.month > e.month || (d.month == e.month && d.day > e.day)))
  }

  lemma {:induction false} FollowsExactly(d: Date, e: Date)
    ensures NoLater(d, e) <==> !Follows(d, e)
  {
  }

  lemma {:induction false} DatePreExactly(pre: Option<string>)
    ensures DatePre(pre) == Ok(None) <==> forall e :: !DatedAs(pre, e)
    ensures forall e :: DatePre(pre) == Ok(Some(e)) <==> DatedAs(pre, e) && OnCalendar(e)
    ensures DatePre(pre).Err? ==> DatePre(pre) == Err(BadDate) && exists e :: DatedAs(pre, e) && !OnCalendar(e)
    ensures forall e, f | DatedAs(pre, e) && DatedAs(pre, f) :: e == f
  {
    hide Dated, DateShaped, Split, OnCalendar, Value;
    if pre.Some? {
      DatedExactly(pre.value);
      if DateShaped(pre.value) {
        var y, m, d :| Dated(pre.value, y, m, d);
        DatedDigits(pre.value, y, m, d);
        assert DatedAs(pre, Date(Value(y), Value(m), Value(d)));
      }
    }
  }

  lemma {:induction false} DatedDigits(pre: string, y: string, m: string, d: string)
    requires Dated(pre, y, m, d)
    ensures AllDigits(y) && AllDigits(m) && AllDigits(d)
  {
  }

  // ----- the steps -----------------------------------------------------------------------------------

  // The version after a bump: a breaking change raises the major number, except that before 1.0.0 it
  // counts as a feature, which raises the minor number; anything else raises the patch number, and
  // the numbers below start again.  A date channel gets the date, a release candidate is started when
  // asked for, and any other channel starts again at 1.
  ghost predicate Bumped(v: Version, level: Level, date: Date, startRc: bool, w: Version) {
    && (w.major, w.minor, w.patch)
       == (if level == 3 && v.major > 0 then (v.major + 1, 0, 0)
           else if level >= 2 then (v.major, v.minor + 1, 0)
           else (v.major, v.minor, v.patch + 1))
    && w.build == None
    && if exists e :: DatedAs(v.pre, e) then
         w.pre == Some(Print(date.year) + "." + Print(date.month) + "." + Print(date.day))
       else if startRc then w.pre == Some("rc.1")
       else if v.pre.None? || v.pre.value == "" then w.pre == v.pre
       else exists word :: ChannelOf(v.pre.value, word) && w.pre == Some(word + ".1")
  }

  lemma {:induction false} DateTextIs(d: Date)
    ensures DateText(d) == Print(d.year) + "." + Print(d.month) + "." + Print(d.day)
  {
    hide Print, Join;
    var y, m, n := Print(d.year), Print(d.month), Print(d.day);
    assert [y, m, n] == [y] + ([m] + [n]);
    JoinFirst(y, [m] + [n], '.');
    JoinFirst(m, [n], '.');
    JoinOne(n, '.');
  }

  lemma {:induction false} NextPreExactly(pre: Option<string>, date: Date, startRc: bool)
    requires DatePre(pre).Ok?
    ensures var next := NextPre(pre, date, startRc);
            if exists e :: DatedAs(pre, e) then
              next == Ok(Some(Print(date.year) + "." + Print(date.month) + "." + Print(date.day)))
            else if startRc then next == Ok(Some("rc.1"))
            else if pre.None? || pre.value == "" then next == Ok(pre)
            else if word :| ChannelOf(pre.value, word) then next == Ok(Some(word + ".1"))
            else next == Err(UnsupportedChannel)
  {
    hide DatePre, DatedAs, ChannelOf, IsChannel, DateText, Print, Split;
    DatePreExactly(pre);
    DateTextIs(date);
    if pre.Some? {
      forall word
        ensures IsChannel(pre.value) && Split(pre.value, '.')[0] == word <==> ChannelOf(pre.value, word)
      {
        ChannelExactly(pre.value, word);
      }
      assert IsChannel(pre.value) ==> ChannelOf(pre.value, Split(pre.value, '.')[0]);
    }
  }

  ghost predicate TooLate(v: Version, date: Date, today: Date) {
    Follows(date, today) || exists e :: DatedAs(v.pre, e) && Follows(e, date)
  }

  // When a bump is refused, and what it gives otherwise.
  lemma {:induction false} BumpExactly(v: Version, level: Level, date: Date, startRc: bool, today: Date)
    ensures var r := Evaluate(v, Bump(level, date, startRc), today);
            if exists e :: DatedAs(v.pre, e) && !OnCalendar(e) then r == Err(BadDate)
            else if TooLate(v, date, today) then r == Err(DateOutOfRange)
            else if startRc && v.pre.Some? && v.pre.value != "" then r == Err(RcNeedsStable)
            else if !(exists e :: DatedAs(v.pre, e)) && v.pre.Some? && v.pre.value != ""
                    && !(exists word :: ChannelOf(v.pre.value, word)) then r == Err(UnsupportedChannel)
            else r.Ok? && Bumped(v, level, date, startRc, r.value)
  {
    hide DatePre, DatedAs, ChannelOf, NextPre, OnCalendar, Print, NoLater, Follows;
    DatePreExactly(v.pre);
    FollowsExactly(date, today);
    if DatePre(v.pre).Ok? {
      NextPreExactly(v.pre, date, startRc);
      if DatePre(v.pre).value.Some? {
        FollowsExactly(DatePre(v.pre).value.value, date);
      }
    }
  }

  // A promotion drops the prerelease and the build metadata of a version that has a prerelease.
  lemma {:induction false} PromoteExactly(v: Version, today: Date)
    ensures Evaluate(v, Promote, today)
            == if v.pre.Some? && v.pre.value != "" then Ok(Version(v.major, v.minor, v.patch, None, None))
               else Err(NothingToPromote)
  {
  }

  // ----- the printed forms ------------------------------------------------------------------------------

  // The three numbers, then the prerelease after a hyphen and the build metadata after a plus sign.
  lemma {:induction false} PrintedForm(v: Version)
    requires WellFormed(v)
    ensures Serialize(v)
            == Print(v.major) + "." + Print(v.minor) + "." + Print(v.patch)
               + (if v.pre.Some? then "-" + v.pre.value else "") + (if v.build.Some? then "+" + v.build.value else "")
  {
    hide Print, Join, Characters, NoEmptyIdentifier, NoLeadingZero;
    NothingEmpty(v);
    var x, y, z := Print(v.major), Print(v.minor), Print(v.patch);
    assert CoreParts(v) == [x] + ([y] + [z]);
    JoinFirst(x, [y] + [z], '.');
    JoinFirst(y, [z], '.');
    JoinOne(z, '.');
    assert Core(v) == x + "." + y + "." + z;
  }

  lemma {:induction false} NothingEmpty(v: Version)
    requires WellFormed(v)
    ensures v.pre != Some("") && v.build != Some("")
  {
  }

  lemma {:induction false} PepExactly(v: Version, n: string)
    requires WellFormed(v) && v.build.None?
    ensures v.pre.None? ==> SerializePep(v) == Ok(Serialize(v))
    ensures Decimal(n) && v.pre == Some("alpha." + n) ==> SerializePep(v) == Ok(Core(v) + "a" + n)
    ensures Decimal(n) && v.pre == Some("beta." + n) ==> SerializePep(v) == Ok(Core(v) + "b" + n)
    ensures Decimal(n) && v.pre == Some("rc." + n) ==> SerializePep(v) == Ok(Core(v) + "rc" + n)
    ensures SerializePep(v).Ok? <==>
              v.pre.None? || exists n :: Decimal(n) && v.pre.value in {"alpha." + n, "beta." + n, "rc." + n}
  {
    hide Core, NumberedChannel;
    if v.pre.Some? {
      forall n | Decimal(n)
        ensures v.pre.value == "alpha." + n ==> NumberedChannel(v.pre.value) == Some((Alpha, n))
        ensures v.pre.value == "beta." + n ==> NumberedChannel(v.pre.value) == Some((Beta, n))
        ensures v.pre.value == "rc." + n ==> NumberedChannel(v.pre.value) == Some((Rc, n))
      {
        PepChannels(v.pre.value, n);
      }
      if NumberedChannel(v.pre.value).Some? {
        var (c, number) := NumberedChannel(v.pre.value).value;
        PepWords(v.pre.value, c, number);
      }
    }
    assert Core(v) + "" + "" == Core(v);
  }

  lemma {:induction false} PepWords(pre: string, c: Channel, number: string)
    requires Numbered(pre, c, number)
    ensures Decimal(number) && pre in {"alpha." + number, "beta." + number, "rc." + number}
  {
    assert Word(Alpha) + "." == "alpha." && Word(Beta) + "." == "beta." && Word(Rc) + "." == "rc.";
  }

  lemma {:induction false} PepChannels(pre: string, n: string)
    requires Decimal(n)
    ensures pre == "alpha." + n ==> NumberedChannel(pre) == Some((Alpha, n))
    ensures pre == "beta." + n ==> NumberedChannel(pre) == Some((Beta, n))
    ensures pre == "rc." + n ==> NumberedChannel(pre) == Some((Rc, n))
  {
    hide NumberedChannel;
    assert Word(Alpha) + "." == "alpha." && Word(Beta) + "." == "beta." && Word(Rc) + "." == "rc.";
    if pre == "alpha." + n {
      NumberedFound(pre, Alpha, n);
    }
    if pre == "beta." + n {
      NumberedFound(pre, Beta, n);
    }
    if pre == "rc." + n {
      NumberedFound(pre, Rc, n);
    }
  }
}
