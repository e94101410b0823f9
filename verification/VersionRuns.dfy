// Bumps, rc starts and promotions: every run keeps versions well formed and moves strictly
// upwards in precedence.
module VersionRuns {
  import opened Base
  import opened Numerals
  import opened Precedence
  import opened Versions

  // ----- how large an increment ------------------------------------------------------------

  type Level = n: int | 1 <= n <= 3 witness 1

  // What the two patterns see in the title and body, or in one commit message.
  datatype Message = Message(breaking: bool, feature: bool)

  method Intent(messages: seq<Message>) returns (level: Level)
    ensures level == 3 <==> exists i | 0 <= i < |messages| :: messages[i].breaking
    ensures level >= 2 <==> exists i | 0 <= i < |messages| :: messages[i].breaking || messages[i].feature
  {
    level := 1;
    for i := 0 to |messages|
      invariant level == 3 <==> exists j | 0 <= j < i :: messages[j].breaking
      invariant level >= 2 <==> exists j | 0 <= j < i :: messages[j].breaking || messages[j].feature
    {
      if messages[i].breaking {
        level := 3;
      } else if messages[i].feature {
        level := if level < 2 then 2 else level;
      }
    }
  }

  // ----- the date channel ------------------------------------------------------------------

  datatype Date = Date(year: nat, month: nat, day: nat)

  function DaysIn(year: nat, month: nat): nat {
    if month == 2 then (if year % 4 == 0 && (year % 100 != 0 || year % 400 == 0) then 29 else 28)
    else if month in {4, 6, 9, 11} then 30
    else 31
  }

  predicate OnCalendar(d: Date) {
    1 <= d.year <= 9999 && 1 <= d.month <= 12 && 1 <= d.day <= DaysIn(d.year, d.month)
  }

  predicate NoLater(d: Date, e: Date) {
    d.year < e.year || (d.year == e.year && (d.month < e.month || (d.month == e.month && d.day <= e.day)))
  }

  // `\d{4}\.\d{1,2}\.\d{1,2}`
  predicate DateShaped(pre: string) {
    var p := Split(pre, '.');
    && |p| == 3 && AllDigits(p[0]) && AllDigits(p[1]) && AllDigits(p[2])
    && |p[0]| == 4 && 1 <= |p[1]| <= 2 && 1 <= |p[2]| <= 2
  }

  function DatePre(pre: Option<string>): Result<Option<Date>, Error> {
    if pre.Some? && DateShaped(pre.value) then
      var p := Split(pre.value, '.');
      var d := Date(Value(p[0]), Value(p[1]), Value(p[2]));
      if OnCalendar(d) then Ok(Some(d)) else Err(BadDate)
    else
      Ok(None)
  }

  function DateText(d: Date): string {
    Join([Print(d.year), Print(d.month), Print(d.day)], '.')
  }

  // ----- the steps -------------------------------------------------------------------------

  // `[A-Za-z][A-Za-z0-9-]*`
  predicate ChannelWord(w: string) {
    w != "" && IsLetter(w[0]) && forall i | 0 <= i < |w| :: IsDigit(w[i]) || IsLetter(w[i]) || w[i] == '-'
  }

  predicate IsChannel(pre: string) {
    var p := Split(pre, '.');
    ChannelWord(p[0]) && (|p| == 1 || (|p| == 2 && Numeric(p[1])))
  }

  function NextPre(pre: Option<string>, date: Date, startRc: bool): Result<Option<string>, Error> {
    match DatePre(pre)
    case Err(e) => Err(e)
    case Ok(Some(_)) => Ok(Some(DateText(date)))
    case Ok(None) =>
      if startRc then Ok(Some("rc.1"))
      else if pre.None? || pre.value == "" then Ok(pre)
      else if !IsChannel(pre.value) then Err(UnsupportedChannel)
      else Ok(Some(Split(pre.value, '.')[0] + ".1"))
  }

  function NextCore(v: Version, level: Level): (w: Version)
    ensures CoreLess(v, w)
    ensures level == 3 && v.major == 0 ==> w.major == 0
  {
    var l := if level == 3 && v.major == 0 then 2 else level;
    if l == 3 then v.(major := v.major + 1, minor := 0, patch := 0)
    else if l == 2 then v.(minor := v.minor + 1, patch := 0)
    else v.(patch := v.patch + 1)
  }

  function Advance(v: Version, level: Level, date: Date, startRc: bool): Result<Version, Error> {
    if startRc && v.pre.Some? && v.pre.value != "" then Err(RcNeedsStable)
    else
      match NextPre(v.pre, date, startRc)
      case Err(e) => Err(e)
      case Ok(pre) => Ok(NextCore(v, level).(pre := pre, build := None))
  }

  datatype Step = Bump(level: Level, date: Date, startRc: bool) | Promote

  function Evaluate(v: Version, step: Step, today: Date): Result<Version, Error> {
    match step
    case Promote =>
      if v.pre.None? || v.pre.value == "" then Err(NothingToPromote) else Ok(v.(pre := None, build := None))
    case Bump(level, date, startRc) =>
      match DatePre(v.pre)
      case Err(e) => Err(e)
      case Ok(before) =>
        if !NoLater(date, today) || (before.Some? && !NoLater(before.value, date)) then Err(DateOutOfRange)
        else Advance(v, level, date, startRc)
  }

  // The versions a unit goes through; a refused step leaves the files alone.
  function History(v: Version, steps: seq<(Step, Date)>): (h: seq<Version>)
    ensures h != [] && h[0] == v
    decreases |steps|
  {
    if steps == [] then [v]
    else
      match Evaluate(v, steps[0].0, steps[0].1)
      case Ok(w) => [v] + History(w, steps[1..])
      case Err(_) => History(v, steps[1..])
  }

  // ----- what a step keeps -----------------------------------------------------------------

  predicate GoodPre(s: string) {
    Characters(s) && NoEmptyIdentifier(s) && NoLeadingZero(s)
  }

  // A word of a channel, then `.1`.
  lemma {:induction false} FirstOfChannel(w: string)
    requires ChannelWord(w)
    ensures Split(w + ".1", '.') == [w, "1"] && GoodPre(w + ".1")
  {
    assert Join([w, "1"], '.') == w + ".1" by {
      assert [w, "1"][1..] == ["1"];
    }
    JoinSplit([w, "1"], '.');
    assert !Numeric(w) by {
      assert !IsDigit(w[0]);
    }
  }

  lemma {:induction false} DateSplits(d: Date)
    ensures Split(DateText(d), '.') == [Print(d.year), Print(d.month), Print(d.day)] && GoodPre(DateText(d))
  {
    var p := [Print(d.year), Print(d.month), Print(d.day)];
    JoinSplit(p, '.');
    JoinDigits(p);
    assert DateText(d) != "";
  }

  lemma {:induction false} PrintLength(n: nat)
    ensures 1 <= n <= 99 ==> |Print(n)| <= 2
    ensures |Print(n)| == 4 <==> 1000 <= n <= 9999
  {
    assert |Print(n / 1000)| == if n / 1000 < 10 then 1 else |Print(n / 1000 / 10)| + 1;
    assert |Print(n / 10)| == if n / 10 < 10 then 1 else |Print(n / 100)| + 1 by {
      assert n / 10 / 10 == n / 100;
    }
    assert |Print(n / 100)| == if n / 100 < 10 then 1 else |Print(n / 1000)| + 1 by {
      assert n / 100 / 10 == n / 1000;
    }
  }

  lemma {:induction false} FourDigits(s: string)
    requires Canonical(s) && |s| == 4
    ensures 1000 <= Value(s) <= 9999
  {
    ValuePrint(s);
    PrintLength(Value(s));
  }

  lemma {:induction false} DateBack(d: Date)
    requires OnCalendar(d) && 1000 <= d.year
    ensures DatePre(Some(DateText(d))) == Ok(Some(d))
  {
    hide DateText, GoodPre, Split, Print;
    DateSplits(d);
    var p := [Print(d.year), Print(d.month), Print(d.day)];
    assert Split(DateText(d), '.') == p && |p| == 3;
    PrintLength(d.year);
    PrintLength(d.month);
    PrintLength(d.day);
    PrintValue(d.year);
    PrintValue(d.month);
    PrintValue(d.day);
    assert DateShaped(DateText(d));
  }

  lemma {:induction false} FourDigitYear(v: Version)
    requires WellFormed(v) && DatePre(v.pre).Ok? && DatePre(v.pre).value.Some?
    ensures 1000 <= DatePre(v.pre).value.value.year
  {
    hide Split, OnCalendar;
    var p := Split(v.pre.value, '.');
    assert p[0] in p;
    FourDigits(p[0]);
  }

  // A date channel is kept, with the chosen date in it.
  lemma {:induction false} DateKept(v: Version, step: Step, today: Date)
    requires WellFormed(v) && step.Bump? && OnCalendar(step.date)
    requires DatePre(v.pre).Ok? && DatePre(v.pre).value.Some? && Evaluate(v, step, today).Ok?
    ensures DatePre(Evaluate(v, step, today).value.pre) == Ok(Some(step.date))
  {
    hide WellFormed, DateShaped, DateText, Split, OnCalendar, DatePre;
    FourDigitYear(v);
    DateBack(step.date);
  }

  lemma {:induction false} NextPreGood(pre: Option<string>, date: Date, startRc: bool)
    requires pre.Some? ==> GoodPre(pre.value)
    requires NextPre(pre, date, startRc).Ok?
    ensures var next := NextPre(pre, date, startRc).value; next.Some? ==> GoodPre(next.value)
  {
    hide GoodPre, DateShaped;
    DateSplits(date);
    assert "rc.1" == "rc" + ".1";
    FirstOfChannel("rc");
    if pre.Some? && IsChannel(pre.value) {
      FirstOfChannel(Split(pre.value, '.')[0]);
    }
  }

  // Every accepted step gives a well-formed version of strictly higher precedence.
  lemma {:induction false} StepRaises(v: Version, step: Step, today: Date)
    requires WellFormed(v) && Evaluate(v, step, today).Ok?
    ensures WellFormed(Evaluate(v, step, today).value) && Precedes(v, Evaluate(v, step, today).value)
  {
    if step.Bump? {
      NextPreGood(v.pre, step.date, step.startRc);
    }
  }

  predicate PepReady(v: Version) {
    SerializePep(v).Ok?
  }

  // A version that Python packages can carry stays one.
  lemma {:induction false} StepKeepsPep(v: Version, step: Step, today: Date)
    requires WellFormed(v) && PepReady(v) && Evaluate(v, step, today).Ok?
    ensures PepReady(Evaluate(v, step, today).value)
  {
    hide DateText, Core, NoLater, NoEmptyIdentifier, NoLeadingZero;
    if step.Bump? {
      NextPreNumbered(v.pre, step.date, step.startRc);
    }
  }

  lemma {:induction false} NextPreNumbered(pre: Option<string>, date: Date, startRc: bool)
    requires pre.Some? ==> pre.value != "" && NumberedChannel(pre.value).Some?
    requires NextPre(pre, date, startRc).Ok?
    ensures var next := NextPre(pre, date, startRc).value;
            next.Some? ==> next.value != "" && NumberedChannel(next.value).Some?
  {
    hide DateText, NumberedChannel;
    NumberedFound("rc.1", Rc, "1") by {
      assert "rc.1" == Word(Rc) + "." + "1";
    }
    if pre.Some? {
      var (c, number) := NumberedChannel(pre.value).value;
      NumberedSplits(pre.value, c, number);
      NumberedFound(Word(c) + ".1", c, "1");
    }
  }

  lemma {:induction false} NumberedSplits(pre: string, c: Channel, number: string)
    requires Numbered(pre, c, number)
    ensures Split(pre, '.') == [Word(c), number]
  {
    assert [Word(c), number][1..] == [number];
    JoinSplit([Word(c), number], '.');
  }

  // ----- whole runs ------------------------------------------------------------------------

  // Every version of every run prints and parses back, in the Python form too if it has one; and it
  // has one whenever the run starts from a version that has one.
  lemma {:induction false} RunsRoundTrip(v: Version, steps: seq<(Step, Date)>, i: nat)
    requires WellFormed(v) && i < |History(v, steps)|
    ensures var w := History(v, steps)[i];
            && Parse(Serialize(w)) == Ok(w)
            && (PepReady(w) ==> ParsePep(SerializePep(w).value) == Ok(w))
            && (PepReady(v) ==> PepReady(w))
            && (i > 0 ==> Precedes(v, w))
    decreases |steps|
  {
    hide WellFormed, Precedes, SerializePep, Serialize, Parse, ParsePep, Evaluate;
    if i == 0 {
      ParseExact(Serialize(v), v);
      if PepReady(v) {
        ParsePepExact(SerializePep(v).value, v);
      }
    } else {
      var next := Evaluate(v, steps[0].0, steps[0].1);
      if next.Ok? {
        StepRaises(v, steps[0].0, steps[0].1);
        if PepReady(v) {
          StepKeepsPep(v, steps[0].0, steps[0].1);
        }
        RunsRoundTrip(next.value, steps[1..], i - 1);
        if i > 1 {
          PrecedesTransitive(v, next.value, History(v, steps)[i]);
        }
      } else {
        RunsRoundTrip(v, steps[1..], i);
      }
    }
  }

  // A run's later part is a run from its i-th version.
  lemma {:induction false} HistorySuffix(v: Version, steps: seq<(Step, Date)>, i: nat) returns (rest: seq<(Step, Date)>)
    requires WellFormed(v) && i < |History(v, steps)|
    ensures WellFormed(History(v, steps)[i]) && History(History(v, steps)[i], rest) == History(v, steps)[i..]
    decreases |steps|
  {
    hide WellFormed, Evaluate;
    rest := steps;
    if i > 0 {
      var next := Evaluate(v, steps[0].0, steps[0].1);
      if next.Ok? {
        StepRaises(v, steps[0].0, steps[0].1);
        rest := HistorySuffix(next.value, steps[1..], i - 1);
      } else {
        rest := HistorySuffix(v, steps[1..], i);
      }
    }
  }

  // No run ever repeats a version or goes back.
  lemma {:induction false} RunsIncrease(v: Version, steps: seq<(Step, Date)>, i: nat, j: nat)
    requires WellFormed(v) && i < j < |History(v, steps)|
    ensures Precedes(History(v, steps)[i], History(v, steps)[j])
  {
    hide WellFormed, Precedes, SerializePep, Serialize, Parse, ParsePep, Evaluate, History;
    var rest := HistorySuffix(v, steps, i);
    RunsRoundTrip(History(v, steps)[i], rest, j - i);
  }
}
