// Migration plans over stored texts: what a plan holds, undoing it, and rebuilding it.
module Plans {
  import opened Base
  import opened Collapse
  import opened Duplicates
  import Markdown
  import opened Quotient
  import opened Records
  import opened Texts
  import opened Trees

  // What the frontmatter block of a text says: the typed fields and the validation context.
  datatype Header = Header(fm: Frontmatter, validation: Option<string>)

  // YAML, digests and sorting, as the planner uses them.
  datatype Reader = Reader(
    load: string -> Option<Header>,             // the text between the delimiters
    dump: (Record, string) -> string,           // the rewritten frontmatter as YAML
    audit: (map<Path, string>, map<string, Path>) -> string,
    sort: set<Path> -> seq<Path>,               // names
    scan: set<Path> -> seq<Path>)               // paths
  {
    // Explicit frontmatter that loads, and the exact body after it.
    function Parse(text: string): Option<Entry> {
      if !Delimited(text) || |Markdown.Split(text)| != 3 then None else
      var parts := Markdown.Split(text);
      match load(parts[1])
      case None => None
      case Some(h) => Some(Entry(Record(h.fm, Strip(parts[2])), parts[2], h.validation))
    }
  }

  predicate Delimited(text: string) {
    "---\n" <= text || "---\r\n" <= text
  }

  // A text parses exactly if it starts with a line of three hyphens, has a second delimiter, and what
  // lies between them loads; and then to that header, with everything after it as its body.
  lemma {:induction false} ParsedExactly(reader: Reader, text: string, e: Entry)
    ensures reader.Parse(text) == Some(e) <==>
              && ("---\n" <= text || "---\r\n" <= text)
              && exists header, body ::
                   && text == "---" + header + "---" + body && !Markdown.HasDashes(header + "--")
                   && reader.load(header).Some?
                   && e == Entry(Record(reader.load(header).value.fm, Strip(body)), body,
                                 reader.load(header).value.validation)
  {
    hide Markdown.HasDashes, Markdown.Split;
    if Delimited(text) {
      Markdown.HeaderExactly(text);
    }
  }

  // Nothing but references and migration notes differs, and notes are not dropped.
  ghost predicate Edited(fm: Frontmatter, fm': Frontmatter) {
    && fm'.metadata.extra - {NOTES} == fm.metadata.extra - {NOTES}
    && (NOTES in fm.metadata.extra ==> NOTES in fm'.metadata.extra)
    && fm' == fm.(parentId := fm'.parentId, intentRef := fm'.intentRef, supersededBy := fm'.supersededBy,
                  supersedesId := fm'.supersedesId, relationships := fm'.relationships,
                  metadata := fm.metadata.(extra := fm'.metadata.extra))
  }

  // The YAML printer writes complete lines.
  ghost predicate DumpsLines(reader: Reader) {
    forall r: Record, t: string {:trigger reader.dump(r, t)} :: Markdown.Lines(reader.dump(r, t))
  }

  // And the reader inverts it: what was loaded from a text and edited is loaded again from the
  // dump, unless the dump holds a delimiter.
  ghost predicate LoadsBack(reader: Reader) {
    && DumpsLines(reader)
    && forall r: Record, t: string {:trigger reader.dump(r, t)} |
         && reader.Parse(t).Some? && Edited(reader.Parse(t).value.record.fm, r.fm)
         && !Markdown.HasDashes(reader.dump(r, t)) ::
         reader.load("\n" + reader.dump(r, t)) == Some(Header(r.fm, reader.Parse(t).value.validation))
  }

  ghost predicate Lists(order: seq<Path>, files: set<Path>) {
    && (forall p :: p in order <==> p in files)
    && (forall i, j | 0 <= i < j < |order| :: order[i] != order[j])
  }

  ghost predicate Sorts(reader: Reader) {
    forall files {:trigger reader.sort(files)} :: Lists(reader.sort(files), files)
  }

  // Scanning follows one order of paths: leaving files out does not reorder the others.
  ghost predicate Scans(reader: Reader) {
    && (forall files {:trigger reader.scan(files)} :: Lists(reader.scan(files), files))
    && forall files, part {:trigger Kept(reader.scan(files), part)} | part <= files ::
         Kept(reader.scan(files), part) == reader.scan(part)
  }

  datatype Operation = Operation(path: Path, before: string, after: Option<string>)

  type Dangling = (Path, Field, string, string)

  // Snapshots stand for their hashes.
  datatype Plan = Plan(
    scope: string,
    canonical: map<string, Path>,
    before: map<Path, string>,
    after: map<Path, string>,
    unparseable: set<Path>,
    blockers: set<Blocker>,
    redirects: map<string, string>,
    unresolvedBefore: set<Dangling>,
    unresolvedAfter: set<Dangling>,
    operations: seq<Operation>)
  {
    function Forward(): seq<Write<Path, string>> {
      seq(|operations|, i requires 0 <= i < |operations| => Write(operations[i].path, operations[i].after))
    }

    function Backward(): seq<Write<Path, string>> {
      seq(|operations|, i requires 0 <= i < |operations| => Write(operations[i].path, Some(operations[i].before)))
    }
  }

  function Parsed(reader: Reader, texts: map<Path, string>): Repo {
    map p | p in texts && reader.Parse(texts[p]).Some? :: reader.Parse(texts[p]).value
  }

  function Unparseable(reader: Reader, texts: map<Path, string>): set<Path> {
    set p | p in texts && reader.Parse(texts[p]).None?
  }

  // New frontmatter before the untouched body.
  function Rewritten(reader: Reader, record: Record, original: string): string {
    if |Markdown.Split(original)| == 3 then Markdown.Rewrite(reader.dump(record, original), original) else original
  }

  function Operated(reader: Reader, c: Setup, texts: map<Path, string>, p: Path): Operation
    requires p in texts && p in c.repo
  {
    Operation(p, texts[p], if c.Removed(p) then None else Some(Rewritten(reader, c.After(p).record, texts[p])))
  }

  function TouchedFiles(c: Setup): set<Path> {
    set p | p in c.repo && (c.Changed(p) || c.Removed(p))
  }

  // Every reference of a changed file that names nothing.
  ghost predicate DanglesIn(c: Setup, files: Repo, at: map<string, Path>, e: Dangling) {
    && c.Changed(e.0) && e.0 in files
    && exists k | 0 <= k < |Slots(files[e.0].record.fm)| ::
         c.Dangles(files[e.0].record.fm, k, at) && EdgeOf(Slots(files[e.0].record.fm)[k]) == (e.1, e.2, e.3)
  }

  // What `build_plan` returns for a scan of the texts.
  ghost predicate IsPlan(reader: Reader, c: Setup, texts: map<Path, string>, plan: Plan) {
    && c.repo == Parsed(reader, texts)
    && plan.scope == c.scope && plan.canonical == c.canonical && plan.redirects == c.redirects
    && plan.before == texts && plan.after == Apply(texts, plan.Forward())
    && plan.unparseable == Unparseable(reader, texts)
    && (forall b :: b in plan.blockers <==> c.Blocked(b))
    && (forall e :: e in plan.unresolvedBefore <==> DanglesIn(c, c.repo, c.before, e))
    && (forall e :: e in plan.unresolvedAfter <==> DanglesIn(c, c.AfterRepo(), c.later, e))
    && |plan.operations| == |reader.sort(TouchedFiles(c))|
    && forall i | 0 <= i < |plan.operations| ::
         var p := reader.sort(TouchedFiles(c))[i];
         p in texts && p in c.repo && plan.operations[i] == Operated(reader, c, texts, p)
  }

  // The planner's setup for a scan in some order.
  ghost predicate SetupOf(
      reader: Reader, order: seq<Path>, texts: map<Path, string>, scope: string, canonical: map<string, Path>,
      c: Setup)
  {
    && c.repo == Parsed(reader, texts) && c.scope == scope && c.canonical == canonical
    && c.audit == reader.audit(texts, canonical)
    && c.before == Locate(order, c.repo) && c.later == Locate(order, c.AfterRepo()) && c.Redirected()
  }

  function Unindexed(reader: Reader, texts: map<Path, string>, scope: string, canonical: map<string, Path>,
                     redirects: map<string, string>): Setup {
    Setup(Parsed(reader, texts), map[], map[], scope, canonical, reader.audit(texts, canonical), redirects)
  }

  // The setup a plan with these redirects was made from.
  function SetupFor(
      reader: Reader, order: seq<Path>, texts: map<Path, string>, scope: string, canonical: map<string, Path>,
      redirects: map<string, string>): Setup {
    var c := Unindexed(reader, texts, scope, canonical, redirects);
    c.(before := Locate(order, c.repo), later := Locate(order, c.AfterRepo()))
  }

  lemma {:induction false} SetupForIs(reader: Reader, order: seq<Path>, texts: map<Path, string>, scope: string,
                                      canonical: map<string, Path>, redirects: map<string, string>)
    requires SetupFor(reader, order, texts, scope, canonical, redirects).Redirected()
    ensures SetupOf(reader, order, texts, scope, canonical, SetupFor(reader, order, texts, scope, canonical, redirects))
  {
    hide Setup.AfterRepo, Setup.Redirected, Locate;
    IndexesDoNotDecide(Unindexed(reader, texts, scope, canonical, redirects),
                       SetupFor(reader, order, texts, scope, canonical, redirects));
  }

  // Earlier migration notes that are not a list: appending to them raises.
  predicate BadNotes(fm: Frontmatter) {
    NOTES in fm.metadata.extra && !fm.metadata.extra[NOTES].List?
  }

  predicate NotesFail(c: Setup) {
    exists p | p in c.repo :: c.Kept(p) && BadNotes(c.Fm(p))
  }

  // `build_plan`, reading these texts in this order, may return this plan.
  ghost predicate Returns(
      reader: Reader, order: seq<Path>, texts: map<Path, string>, scope: string, canonical: map<string, Path>,
      plan: Plan)
  {
    exists c :: SetupOf(reader, order, texts, scope, canonical, c) && IsPlan(reader, c, texts, plan) && !NotesFail(c)
  }

  // ----- undoing a plan ---------------------------------------------------------------------

  // Applying a plan and then its before images is the identity on the stored texts.
  lemma {:induction false} ApplyThenRollBack(reader: Reader, c: Setup, texts: map<Path, string>, plan: Plan)
    requires Sorts(reader) && IsPlan(reader, c, texts, plan)
    ensures plan.after == Apply(texts, plan.Forward())
    ensures Apply(plan.after, plan.Backward()) == texts
  {
    var ws := plan.Forward();
    forall i | 0 <= i < |plan.operations|
      ensures Write(plan.operations[i].path, Some(plan.operations[i].before)) == Before(texts, ws)[i]
    {
      var p := reader.sort(TouchedFiles(c))[i];
      assert plan.operations[i] == Operated(reader, c, texts, p);
      assert Get(texts, p) == Some(texts[p]);
    }
    assert plan.Backward() == Before(texts, ws);
    ApplyOutside(texts, ws, |ws|);
    Restore(texts, plan.after, ws);
  }

  // A rewritten file keeps the exact bytes of its body, and so its hash, exactly when the dumped
  // frontmatter holds no delimiter.
  lemma {:induction false} BodiesKept(reader: Reader, c: Setup, texts: map<Path, string>, plan: Plan, i: nat)
    requires DumpsLines(reader) && IsPlan(reader, c, texts, plan) && i < |plan.operations|
    requires plan.operations[i].after.Some?
    ensures var op := plan.operations[i];
            && op.path in c.repo && |Markdown.Split(op.before)| == |Markdown.Split(op.after.value)| == 3
            && Markdown.Split(op.before)[2] == c.repo[op.path].body
            && (Markdown.Split(op.after.value)[2] == Markdown.Split(op.before)[2]
                <==> !Markdown.HasDashes(reader.dump(c.After(op.path).record, op.before)))
  {
    hide Markdown.Split, Markdown.Rewrite, Markdown.HasDashes, Setup.After, Setup.KeepOf;
    var p := reader.sort(TouchedFiles(c))[i];
    assert plan.operations[i] == Operated(reader, c, texts, p);
    assert reader.Parse(texts[p]).Some?;
    var dumped := reader.dump(c.After(p).record, texts[p]);
    if Markdown.HasDashes(dumped) {
      Markdown.DelimiterInFrontmatterLeaks(dumped, texts[p]);
    } else {
      Markdown.RewriteKeepsBody(dumped, texts[p]);
    }
  }

  // No changed file's dump holds a delimiter.
  ghost predicate DumpsClean(reader: Reader, c: Setup, texts: map<Path, string>) {
    forall p | p in texts && c.Changed(p) :: !Markdown.HasDashes(reader.dump(c.After(p).record, texts[p]))
  }

  lemma {:induction false} AfterEdits(c: Setup, p: Path)
    requires p in c.repo
    ensures Edited(c.Fm(p), c.After(p).record.fm)
    ensures c.After(p) == c.repo[p].(record := c.repo[p].record.(fm := c.After(p).record.fm))
  {
    hide Setup.KeepOf, Setup.Note, Setup.NewTarget;
  }

  // So each changed file reads back as the planner's record, body included.
  lemma {:induction false} WritesBack(reader: Reader, c: Setup, texts: map<Path, string>, p: Path)
    requires LoadsBack(reader) && c.repo == Parsed(reader, texts) && p in texts && p in c.repo
    requires !Markdown.HasDashes(reader.dump(c.After(p).record, texts[p]))
    ensures reader.Parse(Rewritten(reader, c.After(p).record, texts[p])) == Some(c.After(p))
  {
    hide Setup.After, Markdown.Split, Markdown.HasDashes, Edited;
    AfterEdits(c, p);
    var parts, dumped := Markdown.Split(texts[p]), reader.dump(c.After(p).record, texts[p]);
    Markdown.SplitFramed(dumped, parts[2]);
    assert "---\n" <= "---\n" + dumped + "---" + parts[2];
  }

  lemma {:induction false} ForwardAt(reader: Reader, c: Setup, texts: map<Path, string>, plan: Plan, i: nat)
    requires IsPlan(reader, c, texts, plan) && i < |plan.operations|
    ensures |reader.sort(TouchedFiles(c))| == |plan.operations|
    ensures var p := reader.sort(TouchedFiles(c))[i];
            p in texts && p in c.repo && plan.Forward()[i] == Write(p, Operated(reader, c, texts, p).after)
  {
    hide TouchedFiles, Rewritten, Setup.Blocked, DanglesIn;
    var p := reader.sort(TouchedFiles(c))[i];
    assert plan.operations[i] == Operated(reader, c, texts, p);
  }

  lemma {:induction false} StoredAfter(reader: Reader, c: Setup, texts: map<Path, string>, plan: Plan, p: Path)
    requires Sorts(reader) && IsPlan(reader, c, texts, plan)
    ensures Get(plan.after, p) ==
            if p in texts && p in TouchedFiles(c) then Operated(reader, c, texts, p).after else Get(texts, p)
  {
    hide Operated, TouchedFiles, IsPlan, Sorts;
    var ws, names := plan.Forward(), reader.sort(TouchedFiles(c));
    SortedTouched(reader, c);
    AfterApplied(reader, c, texts, plan);
    forall i | 0 <= i < |ws|
      ensures |names| == |ws| && names[i] in texts && names[i] in c.repo
      ensures ws[i] == Write(names[i], Operated(reader, c, texts, names[i]).after)
    {
      ForwardAt(reader, c, texts, plan, i);
    }
    WrittenAt(texts, ws, p);
  }

  lemma {:induction false} SortedTouched(reader: Reader, c: Setup)
    requires Sorts(reader)
    ensures Lists(reader.sort(TouchedFiles(c)), TouchedFiles(c))
  {
  }

  lemma {:induction false} AfterApplied(reader: Reader, c: Setup, texts: map<Path, string>, plan: Plan)
    requires IsPlan(reader, c, texts, plan)
    ensures plan.after == Apply(texts, plan.Forward()) && |plan.operations| == |reader.sort(TouchedFiles(c))|
  {
    hide TouchedFiles, Rewritten, Setup.Blocked, DanglesIn;
  }

  // Distinct writes each decide their own file.
  lemma {:induction false} WrittenAt(texts: map<Path, string>, ws: seq<Write<Path, string>>, p: Path)
    requires DistinctKeys(ws)
    ensures forall i | 0 <= i < |ws| && ws[i].key == p :: Get(Apply(texts, ws), p) == ws[i].value
    ensures (forall i | 0 <= i < |ws| :: ws[i].key != p) ==> Get(Apply(texts, ws), p) == Get(texts, p)
  {
    ApplyAt(texts, ws, |ws|, p);
    LastKey(ws, |ws|, p);
    forall i | 0 <= i < |ws| && ws[i].key == p
      ensures Get(Apply(texts, ws), p) == ws[i].value
    {
      LastDistinct(ws, |ws|, i);
    }
  }

  // What the planner reasoned about is what the migrated texts hold.
  lemma {:induction false} AfterTextsParse(reader: Reader, c: Setup, texts: map<Path, string>, plan: Plan)
    requires Sorts(reader) && IsPlan(reader, c, texts, plan) && LoadsBack(reader) && DumpsClean(reader, c, texts)
    ensures Parsed(reader, plan.after) == c.AfterRepo()
  {
    hide IsPlan, Setup.After, Setup.KeepOf, Setup.Changed, LoadsBack, DumpsClean, Sorts;
    assert c.repo == Parsed(reader, texts) by {
      RepoIsParsed(reader, c, texts, plan);
    }
    forall p
      ensures Get(Parsed(reader, plan.after), p) == Get(c.AfterRepo(), p)
    {
      StoredAfter(reader, c, texts, plan, p);
      ParsedAt(reader, c, texts, p);
    }
    SameTree(Parsed(reader, plan.after), c.AfterRepo());
  }

  lemma {:induction false} RepoIsParsed(reader: Reader, c: Setup, texts: map<Path, string>, plan: Plan)
    requires IsPlan(reader, c, texts, plan)
    ensures c.repo == Parsed(reader, texts)
  {
  }

  lemma {:induction false} ParsedAt(reader: Reader, c: Setup, texts: map<Path, string>, p: Path)
    requires c.repo == Parsed(reader, texts) && LoadsBack(reader) && DumpsClean(reader, c, texts)
    ensures var stored :=
              if p in texts && p in TouchedFiles(c) then Operated(reader, c, texts, p).after else Get(texts, p);
            Get(c.AfterRepo(), p) == if stored.Some? then reader.Parse(stored.value) else None
  {
    hide Setup.After, Setup.KeepOf, Rewritten, LoadsBack, Reader.Parse;
    if c.Changed(p) {
      WritesBack(reader, c, texts, p);
    } else if c.Survives(p) {
      UntouchedSame(c, p);
    }
  }

  // ----- rebuilding it --------------------------------------------------------------------

  function Kept(order: seq<Path>, files: set<Path>): seq<Path> {
    if order == [] then []
    else (if order[0] in files then [order[0]] else []) + Kept(order[1..], files)
  }

  lemma {:induction false} KeptLast(order: seq<Path>, n: nat, files: set<Path>)
    requires n < |order|
    ensures Kept(order[..n + 1], files) == Kept(order[..n], files) + if order[n] in files then [order[n]] else []
  {
    if n == 0 {
      assert order[..1][1..] == [] && order[..0] == [];
    } else {
      KeptLast(order[1..], n - 1, files);
      assert order[..n + 1][1..] == order[1..][..n];
      assert order[..n][1..] == order[1..][..n - 1];
    }
  }

  lemma {:induction false} EntersKept(order: seq<Path>, n: nat, repo: Repo)
    requires n <= |order|
    ensures EnterFiles(order, n, repo) == EnterFiles(Kept(order[..n], repo.Keys), |Kept(order[..n], repo.Keys)|, repo)
  {
    if n > 0 {
      EntersKept(order, n - 1, repo);
      KeptLast(order, n - 1, repo.Keys);
      var rest, all := Kept(order[..n - 1], repo.Keys), Kept(order[..n], repo.Keys);
      if order[n - 1] in repo {
        EnterSame(all, rest, |rest|, repo);
      } else {
        assert all == rest;
      }
    }
  }

  lemma {:induction false} EnterSame(a: seq<Path>, b: seq<Path>, n: nat, repo: Repo)
    requires n <= |a| && n <= |b| && forall i | 0 <= i < n :: a[i] == b[i]
    ensures EnterFiles(a, n, repo) == EnterFiles(b, n, repo)
  {
    if n > 0 {
      EnterSame(a, b, n - 1, repo);
    }
  }

  // Only the order of the files that remain matters to the index.
  lemma {:induction false} LocateKept(order: seq<Path>, order': seq<Path>, repo: Repo)
    requires Kept(order, repo.Keys) == Kept(order', repo.Keys)
    ensures Locate(order, repo) == Locate(order', repo)
  {
    EntersKept(order, |order|, repo);
    EntersKept(order', |order'|, repo);
    assert order[..|order|] == order && order'[..|order'|] == order';
  }

  lemma {:induction false} RedirectCarried(c: Setup, d: Setup, id: string)
    requires SameChoice(c, d) && Distinct(c) && c.Redirected() && d.Redirected() && id in c.redirects
    ensures id in d.redirects && d.redirects[id] == c.redirects[id]
  {
    var p := RedirectsOf(c, id);
    hide Setup.KeepOf, Distinct;
    ChoiceDecides(c, d, p);
    assert d.Removed(p);
    var q := RedirectsOf(d, id);
    SameRemoved(c, p, d, q);
  }

  lemma {:induction false} SameRemoved(c: Setup, p: Path, d: Setup, q: Path)
    requires SameChoice(c, d) && Distinct(c) && p in c.repo && q in c.repo && c.Removed(p) && c.Id(p) == c.Id(q)
    ensures p == q
  {
    assert c.Unique(c.Id(p));
  }

  lemma {:induction false} SameRedirects(c: Setup, d: Setup)
    requires SameChoice(c, d) && Distinct(c) && Distinct(d) && c.Redirected() && d.Redirected()
    ensures c.redirects == d.redirects
  {
    hide Setup.KeepOf, Distinct, Setup.Redirected;
    forall id | id in c.redirects
      ensures id in d.redirects && d.redirects[id] == c.redirects[id]
    {
      RedirectCarried(c, d, id);
    }
    forall id | id in d.redirects
      ensures id in c.redirects
    {
      RedirectCarried(d, c, id);
    }
  }

  lemma {:induction false} DistinctByChoice(c: Setup, d: Setup)
    requires SameChoice(c, d) && Distinct(c)
    ensures Distinct(d)
  {
    hide Setup.KeepOf;
    forall p | p in d.repo && d.KeepOf(p).Some?
      ensures d.Unique(d.Id(p))
    {
      ChoiceDecides(c, d, p);
      assert c.Unique(c.Id(p));
    }
  }

  // The files a plan removes may move in the scan; those that stay may not pass each other.
  lemma {:induction false} SameSetup(
      reader: Reader, order: seq<Path>, order': seq<Path>, texts: map<Path, string>, c: Setup, d: Setup)
    requires SetupOf(reader, order, texts, c.scope, c.canonical, c)
             && SetupOf(reader, order', texts, c.scope, c.canonical, d)
    requires Lists(order, texts.Keys) && Lists(order', texts.Keys) && Distinct(c)
    requires forall p | p in c.repo :: Bare(c.Id(p))
    requires Kept(order, c.AfterRepo().Keys) == Kept(order', c.AfterRepo().Keys)
    ensures c == d
  {
    hide Setup.AfterRepo, Locate, Setup.KeepOf;
    DistinctByChoice(c, d);
    SameRedirects(c, d);
    IndexesDoNotDecide(c, d);
    LocateKept(order, order', c.AfterRepo());
    assert c.later == d.later;
    assert c.Indexed(order) && d.Indexed(order');
    forall key
      ensures Get(c.before, key) == Get(d.before, key)
    {
      SameFinding(c, d, key);
    }
    SameTree(c.before, d.before);
  }

  lemma {:induction false} SameFinding(c: Setup, d: Setup, key: string)
    requires c.Sane() && d.Sane() && Distinct(c) && SameChoice(c, d) && c.later == d.later
    ensures Get(c.before, key) == Get(d.before, key)
  {
    hide Setup.AfterRepo, Locate, Setup.KeepOf, Setup.Indexed;
    forall p
      ensures c.KeepOf(p) == d.KeepOf(p)
    {
      ChoiceDecides(c, d, p);
    }
    DistinctByChoice(c, d);
    assert RemovedKey(c, key) <==> RemovedKey(d, key);
    if RemovedKey(c, key) {
      var p :| p in c.repo && c.Removed(p) && KeyOf(c, p, key);
      BothKeysFind(c, p);
      BothKeysFind(d, p);
    } else {
      IndexAfter(c, key);
      IndexAfter(d, key);
    }
  }

  lemma {:induction false} PlanDetermined(reader: Reader, c: Setup, texts: map<Path, string>, plan: Plan, plan': Plan)
    requires IsPlan(reader, c, texts, plan) && IsPlan(reader, c, texts, plan')
    ensures plan == plan'
  {
    assert forall i | 0 <= i < |plan.operations| :: plan.operations[i] == plan'.operations[i];
    assert plan.operations == plan'.operations;
    assert plan.blockers == plan'.blockers;
    assert plan.unresolvedBefore == plan'.unresolvedBefore;
    assert plan.unresolvedAfter == plan'.unresolvedAfter;
    assert plan.Forward() == plan'.Forward();
  }

  // Putting the before images back into the migrated texts and planning again, with the removed
  // files scanned at whatever places, gives the same plan.
  lemma {:induction false} RebuiltPlanIsSame(
      reader: Reader, order: seq<Path>, order': seq<Path>, c: Setup, d: Setup, plan: Plan, plan': Plan)
    requires Sorts(reader) && IsPlan(reader, c, plan.before, plan) && c.Clear()
    requires var restored := Apply(plan.after, plan.Backward());
             && IsPlan(reader, d, restored, plan')
             && Lists(order, plan.before.Keys) && Lists(order', restored.Keys)
             && SetupOf(reader, order, plan.before, c.scope, c.canonical, c)
             && SetupOf(reader, order', restored, c.scope, c.canonical, d)
    requires forall p | p in c.repo :: Bare(c.Id(p))
    requires Kept(order, c.AfterRepo().Keys) == Kept(order', c.AfterRepo().Keys)
    ensures plan' == plan
  {
    hide IsPlan, Setup.Clear, SetupOf, Setup.AfterRepo;
    ApplyThenRollBack(reader, c, plan.before, plan);
    ClearIsDistinct(c);
    SameSetup(reader, order, order', plan.before, c, d);
    PlanDetermined(reader, c, plan.before, plan, plan');
  }
}
