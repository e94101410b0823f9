// The rule check of a stored plan: planning again from the texts at hand must give the very plan.
module Rules {
  import opened Base
  import opened Duplicates
  import opened Plans
  import opened Quotient
  import opened Records
  import opened Trees

  // ----- what is planned again ---------------------------------------------------------------

  // The texts the plan was made from, put together from those at hand.
  function Original(texts: map<Path, string>, plan: Plan, after: bool): map<Path, string> {
    if after then Apply(texts, plan.Backward()) else texts
  }

  // The files of the first n operations that are put back, in the order of the operations.
  function PutBack(names: set<Path>, operations: seq<Operation>, n: nat): seq<Path>
    requires n <= |operations|
  {
    if n == 0 then [] else
    var rest := PutBack(names, operations, n - 1);
    if operations[n - 1].path in names || operations[n - 1].path in rest then rest else rest + [operations[n - 1].path]
  }

  // A dictionary keeps the scanned order and gets what is put back at its end.
  function Rescanned(reader: Reader, texts: map<Path, string>, plan: Plan, after: bool): seq<Path> {
    reader.scan(texts.Keys) + if after then PutBack(texts.Keys, plan.operations, |plan.operations|) else []
  }

  // `_verify_rules` lets the plan pass.
  ghost predicate Accepts(reader: Reader, plan: Plan, texts: map<Path, string>, after: bool) {
    var original, order := Original(texts, plan, after), Rescanned(reader, texts, plan, after);
    && Returns(reader, order, original, plan.scope, plan.canonical, plan)
    && forall other: Plan | Returns(reader, order, original, plan.scope, plan.canonical, other) :: other == plan
  }

  // A plan as the planner makes it and the operator may apply it.
  ghost predicate Reviewed(reader: Reader, plan: Plan) {
    && Returns(reader, reader.scan(plan.before.Keys), plan.before, plan.scope, plan.canonical, plan)
    && plan.blockers == {} && plan.operations != []
  }

  ghost predicate BareNames(reader: Reader, texts: map<Path, string>) {
    forall p | p in texts && reader.Parse(texts[p]).Some? :: Bare(reader.Parse(texts[p]).value.record.fm.id)
  }

  // ----- the order of the files --------------------------------------------------------------

  // The two orders pass over the given files alike.
  ghost predicate Alike(a: seq<Path>, b: seq<Path>, files: set<Path>) {
    forall part | part <= files :: Kept(a, part) == Kept(b, part)
  }

  lemma {:induction false} KeptAppend(a: seq<Path>, b: seq<Path>, files: set<Path>)
    ensures Kept(a + b, files) == Kept(a, files) + Kept(b, files)
  {
    if a == [] {
      assert a + b == b;
    } else {
      KeptAppend(a[1..], b, files);
      FirstOfBoth(a, b);
    }
  }

  lemma {:induction false} FirstOfBoth(a: seq<Path>, b: seq<Path>)
    requires a != []
    ensures a + b != [] && (a + b)[0] == a[0] && (a + b)[1..] == a[1..] + b
  {
  }

  lemma {:induction false} KeptNone(order: seq<Path>, files: set<Path>)
    requires forall p | p in order :: p !in files
    ensures Kept(order, files) == []
  {
    if order != [] {
      KeptNone(order[1..], files);
    }
  }

  lemma {:induction false} PutBackLists(names: set<Path>, operations: seq<Operation>, n: nat)
    requires n <= |operations|
    ensures forall p :: p in PutBack(names, operations, n) <==>
              p !in names && exists i :: 0 <= i < n && operations[i].path == p
    ensures NoDuplicates(PutBack(names, operations, n))
  {
    if n > 0 {
      PutBackLists(names, operations, n - 1);
      var rest, added := PutBack(names, operations, n - 1), PutBack(names, operations, n);
      assert added == rest || (operations[n - 1].path !in rest && added == rest + [operations[n - 1].path]);
      assert forall i | 0 <= i < |rest| :: rest[i] in rest;
    }
  }

  lemma {:induction false} BackwardNames(texts: map<Path, string>, plan: Plan, n: nat)
    requires n <= |plan.operations|
    ensures forall p :: p in ApplyTo(texts, plan.Backward(), n) <==>
              p in texts || exists i :: 0 <= i < n && plan.operations[i].path == p
  {
    if n > 0 {
      BackwardNames(texts, plan, n - 1);
      assert plan.Backward()[n - 1] == Write(plan.operations[n - 1].path, Some(plan.operations[n - 1].before));
    }
  }

  // Each file to plan from is read once.
  lemma {:induction false} RescannedLists(reader: Reader, texts: map<Path, string>, plan: Plan, after: bool)
    requires Scans(reader)
    ensures Lists(Rescanned(reader, texts, plan, after), Original(texts, plan, after).Keys)
  {
    assert Lists(reader.scan(texts.Keys), texts.Keys);
    if after {
      PutBackLists(texts.Keys, plan.operations, |plan.operations|);
      BackwardNames(texts, plan, |plan.operations|);
      ListsBoth(reader.scan(texts.Keys), PutBack(texts.Keys, plan.operations, |plan.operations|), texts.Keys,
                Original(texts, plan, true).Keys);
    }
  }

  lemma {:induction false} ListsBoth(a: seq<Path>, b: seq<Path>, files: set<Path>, all: set<Path>)
    requires Lists(a, files) && NoDuplicates(b)
    requires forall p :: p in b ==> p !in files
    requires forall p :: p in all <==> p in files || p in b
    ensures Lists(a + b, all)
  {
    forall i, j | 0 <= i < j < |a + b|
      ensures (a + b)[i] != (a + b)[j]
    {
      assert i < |a| ==> (a + b)[i] in a;
      assert j >= |a| ==> (a + b)[j] in b;
    }
  }

  // And the files that were not put back are read in the order they always were.
  lemma {:induction false} RescannedAlike(reader: Reader, texts: map<Path, string>, plan: Plan, all: set<Path>)
    requires Scans(reader) && texts.Keys <= all
    ensures Alike(reader.scan(all), Rescanned(reader, texts, plan, true), texts.Keys)
  {
    var added := PutBack(texts.Keys, plan.operations, |plan.operations|);
    PutBackLists(texts.Keys, plan.operations, |plan.operations|);
    forall part | part <= texts.Keys
      ensures Kept(reader.scan(all), part) == Kept(reader.scan(texts.Keys) + added, part)
    {
      KeptAppend(reader.scan(texts.Keys), added, part);
      KeptNone(added, part);
      assert Kept(reader.scan(all), part) == reader.scan(part) == Kept(reader.scan(texts.Keys), part);
    }
  }

  // ----- the plan is found again -----------------------------------------------------------------

  lemma {:induction false} SurvivorsStored(reader: Reader, c: Setup, plan: Plan)
    requires Sorts(reader) && IsPlan(reader, c, plan.before, plan)
    ensures c.AfterRepo().Keys <= plan.after.Keys <= plan.before.Keys
  {
    hide IsPlan, Sorts, Setup.After, Setup.KeepOf, Rewritten;
    RepoIsParsed(reader, c, plan.before, plan);
    forall p
      ensures p in c.AfterRepo() ==> p in plan.after
      ensures p in plan.after ==> p in plan.before
    {
      StoredAfter(reader, c, plan.before, plan, p);
      assert p in plan.after <==> Get(plan.after, p).Some?;
    }
  }

  lemma {:induction false} ReviewedIsClear(reader: Reader, c: Setup, plan: Plan)
    requires IsPlan(reader, c, plan.before, plan) && plan.blockers == {}
    ensures c.Clear()
  {
    hide Setup.Blocked, DanglesIn, Operated, TouchedFiles;
  }

  // The setup that the other order leads to is the same one.
  lemma {:induction false} SameSetupElsewhere(
      reader: Reader, order: seq<Path>, order': seq<Path>, c: Setup, d: Setup, plan: Plan)
    requires Sorts(reader) && IsPlan(reader, c, plan.before, plan) && c.Clear() && BareNames(reader, plan.before)
    requires SetupOf(reader, order, plan.before, plan.scope, plan.canonical, c)
    requires SetupOf(reader, order', plan.before, plan.scope, plan.canonical, d)
    requires Lists(order, plan.before.Keys) && Lists(order', plan.before.Keys) && Alike(order, order', plan.after.Keys)
    ensures c == d
  {
    hide IsPlan, Sorts, Setup.Clear, Setup.AfterRepo, Setup.KeepOf, Locate, Setup.Redirected;
    SurvivorsStored(reader, c, plan);
    ClearIsDistinct(c);
    SameSetup(reader, order, order', plan.before, c, d);
  }

  lemma {:induction false} RedirectKept(c: Setup, d: Setup, id: string) returns (p: Path)
    requires SameChoice(c, d) && c.redirects == d.redirects && c.Redirected() && id in c.redirects
    ensures p in d.repo && d.Removed(p) && d.KeepOf(p).value in d.repo
    ensures d.Id(p) == id && d.redirects[id] == d.Id(d.KeepOf(p).value)
  {
    hide Setup.KeepOf;
    p := RedirectsOf(c, id);
    ChoiceDecides(c, d, p);
    KeptSurvives(d, p);
  }

  lemma {:induction false} RemovedAlike(c: Setup, d: Setup, p: Path)
    requires SameChoice(c, d)
    ensures c.Removed(p) == d.Removed(p)
  {
    hide Setup.KeepOf;
    ChoiceDecides(c, d, p);
  }

  lemma {:induction false} RedirectedBySame(c: Setup, d: Setup)
    requires SameChoice(c, d) && c.redirects == d.redirects && c.Redirected()
    ensures d.Redirected()
  {
    hide Setup.KeepOf, Setup.Removed;
    forall p | p in d.repo && d.Removed(p)
      ensures d.Id(p) in d.redirects
    {
      RemovedAlike(c, d, p);
    }
    forall id | id in d.redirects
      ensures exists p | p in d.repo ::
                d.KeepOf(p).Some? && d.KeepOf(p).value in d.repo
                && d.Removed(p) && d.Id(p) == id && d.redirects[id] == d.Id(d.KeepOf(p).value)
    {
      var p := RedirectKept(c, d, id);
      RemovedHasKept(d, p);
    }
  }

  lemma {:induction false} RemovedHasKept(c: Setup, p: Path)
    requires c.Removed(p)
    ensures c.KeepOf(p).Some?
  {
  }

  // Some setup belongs to the other order as well.
  lemma {:induction false} SetupElsewhere(
      reader: Reader, order: seq<Path>, order': seq<Path>, texts: map<Path, string>, c: Setup) returns (d: Setup)
    requires SetupOf(reader, order, texts, c.scope, c.canonical, c)
    ensures SetupOf(reader, order', texts, c.scope, c.canonical, d)
  {
    hide Setup.Redirected, Locate, Setup.AfterRepo;
    d := SetupFor(reader, order', texts, c.scope, c.canonical, c.redirects);
    RedirectedBySame(c, d);
    SetupForIs(reader, order', texts, c.scope, c.canonical, c.redirects);
  }

  // Planning in the other order can return the plan, and nothing else.
  lemma {:induction false} OnlyThisPlan(reader: Reader, order: seq<Path>, order': seq<Path>, plan: Plan)
    requires Sorts(reader) && BareNames(reader, plan.before) && plan.blockers == {}
    requires Returns(reader, order, plan.before, plan.scope, plan.canonical, plan)
    requires Lists(order, plan.before.Keys) && Lists(order', plan.before.Keys) && Alike(order, order', plan.after.Keys)
    ensures Returns(reader, order', plan.before, plan.scope, plan.canonical, plan)
    ensures forall other: Plan | Returns(reader, order', plan.before, plan.scope, plan.canonical, other) ::
              other == plan
  {
    hide IsPlan, Sorts, SetupOf, BareNames, Alike, Lists, NotesFail, Setup.Clear;
    var c: Setup :| SetupOf(reader, order, plan.before, plan.scope, plan.canonical, c)
                    && IsPlan(reader, c, plan.before, plan) && !NotesFail(c);
    ReviewedIsClear(reader, c, plan);
    SetupNames(reader, order, plan.before, plan.scope, plan.canonical, c);
    var d := SetupElsewhere(reader, order, order', plan.before, c);
    SameSetupElsewhere(reader, order, order', c, d, plan);
    forall other: Plan | Returns(reader, order', plan.before, plan.scope, plan.canonical, other)
      ensures other == plan
    {
      var e: Setup :| SetupOf(reader, order', plan.before, plan.scope, plan.canonical, e)
                      && IsPlan(reader, e, plan.before, other) && !NotesFail(e);
      SameSetupElsewhere(reader, order, order', c, e, plan);
      PlanDetermined(reader, c, plan.before, plan, other);
    }
  }

  lemma {:induction false} SetupNames(
      reader: Reader, order: seq<Path>, texts: map<Path, string>, scope: string, canonical: map<string, Path>, c: Setup)
    requires SetupOf(reader, order, texts, scope, canonical, c)
    ensures c.scope == scope && c.canonical == canonical
  {
    hide Setup.Redirected, Locate, Setup.AfterRepo;
  }

  lemma {:induction false} AlikeRefl(order: seq<Path>, files: set<Path>)
    ensures Alike(order, order, files)
  {
  }

  // A reviewed plan passes its own rules, on the texts it was made from and on the texts it leads
  // to; so a run of the migration is refused for its rules in neither direction.
  lemma {:induction false} ReviewedPasses(reader: Reader, plan: Plan)
    requires Sorts(reader) && Scans(reader) && Reviewed(reader, plan) && BareNames(reader, plan.before)
    ensures Accepts(reader, plan, plan.before, false)
    ensures Accepts(reader, plan, plan.after, true)
  {
    hide IsPlan, Sorts, SetupOf, BareNames, Alike, Lists, NotesFail, Scans, PutBack, Apply;
    var order := reader.scan(plan.before.Keys);
    RescannedLists(reader, plan.before, plan, false);
    assert Rescanned(reader, plan.before, plan, false) == order;
    AlikeRefl(order, plan.after.Keys);
    OnlyThisPlan(reader, order, order, plan);
    var c: Setup :| SetupOf(reader, order, plan.before, plan.scope, plan.canonical, c)
                    && IsPlan(reader, c, plan.before, plan) && !NotesFail(c);
    ApplyThenRollBack(reader, c, plan.before, plan);
    SurvivorsStored(reader, c, plan);
    RescannedLists(reader, plan.after, plan, true);
    RescannedAlike(reader, plan.after, plan, plan.before.Keys);
    OnlyThisPlan(reader, order, Rescanned(reader, plan.after, plan, true), plan);
  }
}
