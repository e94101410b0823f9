// The plan that collapses groups of equal-bodied records onto a chosen one: who is removed, which
// references are redirected, and what blocks the plan.
module Duplicates {
  import opened Base
  import G = Graphs
  import opened Records

  // A parsed thought file: its exact body, and its validation context unless that is empty.
  datatype Entry = Entry(record: Record, body: string, validation: Option<string>)

  type Repo = map<Path, Entry>

  // ----- the index, by file ------------------------------------------------------------

  datatype Found = Found(at: map<string, Path>, twice: set<string>)

  function EnterFile(s: Found, p: Path, repo: Repo): Found {
    if p !in repo then s else
    var id := repo[p].record.fm.id;
    var at := s.at[Qualified(p.scope, id) := p];
    Found(at[id := p], if id in at then s.twice + {id} else s.twice)
  }

  function EnterFiles(order: seq<Path>, n: nat, repo: Repo): Found
    requires n <= |order|
  {
    if n == 0 then Found(map[], {}) else EnterFile(EnterFiles(order, n - 1, repo), order[n - 1], repo)
  }

  // Which file each identifier names, qualified or, where unambiguous, bare.
  function Locate(order: seq<Path>, repo: Repo): map<string, Path> {
    var s := EnterFiles(order, |order|, repo);
    s.at - s.twice
  }

  function Files(order: seq<Path>, n: nat, repo: Repo): seq<Item>
    requires n <= |order|
  {
    if n == 0 then []
    else if order[n - 1] !in repo then Files(order, n - 1, repo)
    else Files(order, n - 1, repo) + [Item(order[n - 1], repo[order[n - 1]].record)]
  }

  predicate SameIndex(index: map<string, Record>, at: map<string, Path>, repo: Repo) {
    && index.Keys == at.Keys
    && forall k | k in at :: at[k] in repo && index[k] == repo[at[k]].record
  }

  lemma {:induction false} LocateFollows(order: seq<Path>, n: nat, repo: Repo)
    requires n <= |order|
    ensures var items := Files(order, n, repo);
            var s, t := EnterAll(items, |items|), EnterFiles(order, n, repo);
            SameIndex(s.index, t.at, repo) && s.duplicates == t.twice
  {
    if n > 0 {
      LocateFollows(order, n - 1, repo);
      if order[n - 1] in repo {
        var items := Files(order, n, repo);
        EnterPrefix(Files(order, n - 1, repo), items, |items| - 1);
      }
    }
  }

  lemma {:induction false} EnterPrefix(a: seq<Item>, b: seq<Item>, n: nat)
    requires n <= |a| && n <= |b| && a[..n] == b[..n]
    ensures EnterAll(a, n) == EnterAll(b, n)
  {
    if n > 0 {
      assert a[..n - 1] == a[..n][..n - 1] == b[..n][..n - 1] == b[..n - 1];
      assert a[n - 1] == a[..n][n - 1] == b[..n][n - 1] == b[n - 1];
      EnterPrefix(a, b, n - 1);
    }
  }

  // It answers with the file of the record that `record_index` answers with.
  lemma {:induction false} LocateIsIndex(order: seq<Path>, repo: Repo)
    ensures SameIndex(Index(Files(order, |order|, repo)), Locate(order, repo), repo)
  {
    LocateFollows(order, |order|, repo);
  }

  // ----- references ----------------------------------------------------------------------

  datatype Field = Parent | Intent | SupersededBy | Supersedes | Rel(kind: string)

  datatype Slot = Slot(field: Field, target: Option<string>, scope: Option<string>)
  {
    predicate Live() {
      target.Some? && (field.Rel? || target.value != "")
    }
  }

  function ParentScope(fm: Frontmatter): Option<string> {
    if fm.parentId == fm.supersedesId then fm.supersedesScope else None
  }

  // Every place a record can name another one; the live ones are its references.
  function Slots(fm: Frontmatter): (s: seq<Slot>)
    ensures |s| == 4 + |fm.relationships|
  {
    [Slot(Parent, fm.parentId, ParentScope(fm)),
     Slot(Intent, fm.intentRef, None),
     Slot(SupersededBy, fm.supersededBy, fm.supersededScope),
     Slot(Supersedes, fm.supersedesId, fm.supersedesScope)]
    + seq(|fm.relationships|,
          i requires 0 <= i < |fm.relationships| =>
            Slot(Rel(fm.relationships[i].kind), Some(fm.relationships[i].target), None))
  }

  // The key a reference is looked up under.
  function Key(scope: Option<string>, target: string): string {
    if Truthy(scope) then Qualified(scope.value, target) else target
  }

  function Resolve(at: map<string, Path>, scope: Option<string>, target: string): Option<Path> {
    Get(at, Key(scope, target))
  }

  // ----- selection -----------------------------------------------------------------------

  datatype Setup = Setup(
    repo: Repo,                      // the files that parse
    before: map<string, Path>,       // which of them each key finds
    later: map<string, Path>,        // and which of those that remain
    scope: string,
    canonical: map<string, Path>,    // body to the file that is kept
    audit: string,
    redirects: map<string, string>)
  {
    function Id(p: Path): string
      requires p in repo
    {
      repo[p].record.fm.id
    }

    function Fm(p: Path): Frontmatter
      requires p in repo
    {
      repo[p].record.fm
    }

    function Members(body: string): set<Path> {
      set p | p in repo && p.scope == scope && repo[p].body == body
    }

    // A valid selection: a group of at least two, and the kept file in it.
    predicate Selected(body: string) {
      && body in canonical && canonical[body] in Members(body)
      && exists p | p in Members(body) :: p != canonical[body]
    }

    function KeepOf(p: Path): Option<Path> {
      if p in repo && p.scope == scope && Selected(repo[p].body) then Some(canonical[repo[p].body]) else None
    }

    predicate Removed(p: Path) {
      KeepOf(p).Some? && KeepOf(p).value != p
    }

    predicate Kept(p: Path) {
      KeepOf(p) == Some(p)
    }

    predicate Survives(p: Path) {
      p in repo && !Removed(p)
    }

    // Where a reference to a file leads once the group is collapsed.
    function Image(p: Option<Path>): Option<Path> {
      if p.Some? && KeepOf(p.value).Some? then KeepOf(p.value) else p
    }

    predicate Unique(id: string) {
      forall p, q | p in repo && q in repo && Id(p) == id && Id(q) == id :: p == q
    }

    // ----- redirection ---------------------------------------------------------------------

    predicate Redirects(target: Option<string>, under: Option<string>) {
      target.Some? && target.value in redirects && (under.None? || under.value == scope)
    }

    function NewTarget(target: Option<string>, under: Option<string>): Option<string> {
      if Redirects(target, under) then Some(redirects[target.value]) else target
    }

    function Redirect(fm: Frontmatter): Frontmatter {
      fm.(parentId := NewTarget(fm.parentId, ParentScope(fm)),
          intentRef := NewTarget(fm.intentRef, None),
          supersededBy := NewTarget(fm.supersededBy, fm.supersededScope),
          supersedesId := NewTarget(fm.supersedesId, fm.supersedesScope),
          relationships := seq(|fm.relationships|, i requires 0 <= i < |fm.relationships| =>
            fm.relationships[i].(target := NewTarget(Some(fm.relationships[i].target), None).value)))
    }

    predicate Touched(fm: Frontmatter) {
      exists k | 0 <= k < |Slots(fm)| :: Redirects(Slots(fm)[k].target, Slots(fm)[k].scope)
    }

    predicate Changed(p: Path) {
      Survives(p) && (Kept(p) || Touched(Fm(p)))
    }

    // The migration note added to a kept record.
    function Note(p: Path): Json
      requires p in repo
    {
      Object(map[
        "body_sha256" := Text(repo[p].body),
        "retained_id" := Text(Id(p)),
        "removed_count" := Number((|Members(repo[p].body)| - 1) as real),
        "operator_audit" := Text(audit)])
    }

    function Stamped(p: Path): Frontmatter
      requires p in repo
    {
      if Kept(p) then
        Fm(p).(metadata := Fm(p).metadata.(extra := Fm(p).metadata.extra[NOTES := List(PriorNotes(Fm(p)) + [Note(p)])]))
      else
        Fm(p)
    }

    function After(p: Path): Entry
      requires p in repo
    {
      repo[p].(record := repo[p].record.(fm := Redirect(Stamped(p))))
    }

    function AfterRepo(): Repo {
      map p | p in repo && !Removed(p) :: After(p)
    }

    // ----- what is visible -------------------------------------------------------------------

    predicate Approved(p: Path) {
      p in repo && Fm(p).status.Approved?
    }

    predicate Visible(p: Path) {
      Approved(p) && !Retired(SuccessorKey(repo[p].record), before)
    }

    predicate VisibleAfter(p: Path) {
      Survives(p) && Approved(p) && !Retired(SuccessorKey(After(p).record), later)
    }

    // The key names an approved record.
    predicate Retired(key: string, at: map<string, Path>) {
      key in at && Approved(at[key])
    }

    // ----- chains ------------------------------------------------------------------------------

    function Link(fm: Frontmatter, field: Field): Option<string> {
      match field
      case Parent => fm.parentId
      case SupersededBy => fm.supersededBy
      case Supersedes => fm.supersedesId
      case _ => None
    }

    // The links of one field among the given files whose identifiers were unique.
    function Links(files: Repo, field: Field): map<string, string>
      requires files.Keys <= repo.Keys && forall p | p in files :: files[p].record.fm.id == Id(p)
    {
      map p | p in files && Unique(Id(p)) && Link(files[p].record.fm, field).Some? ::
        Id(p) := Link(files[p].record.fm, field).value
    }

    // ----- what blocks the plan ------------------------------------------------------------------

    predicate GroupApproved(keep: Path) {
      exists p | p in repo :: KeepOf(p) == Some(keep) && Approved(p)
    }

    // The first n references as the outbound comparison sees them.
    function Edges(fm: Frontmatter, n: nat): seq<(Field, string, Option<string>)>
      requires n <= |Slots(fm)|
    {
      if n == 0 then []
      else if !Slots(fm)[n - 1].Live() then Edges(fm, n - 1)
      else Edges(fm, n - 1) + [Edge(Slots(fm)[n - 1])]
    }

    function Edge(s: Slot): (Field, string, Option<string>)
      requires s.Live()
    {
      (s.field, if s.target.value in redirects then redirects[s.target.value] else s.target.value, s.scope)
    }

    // The sorted lists are the same.
    predicate SameOutbound(fm: Frontmatter, fm': Frontmatter) {
      multiset(Edges(fm, |Slots(fm)|)) == multiset(Edges(fm', |Slots(fm')|))
    }

    // The k-th reference names nothing.
    predicate Dangles(fm: Frontmatter, k: nat, at: map<string, Path>)
      requires k < |Slots(fm)|
    {
      Slots(fm)[k].Live() && Resolve(at, Slots(fm)[k].scope, Slots(fm)[k].target.value).None?
    }

    // It dangled before the redirection too, under the same field, target and scope.
    predicate DangledBefore(fm: Frontmatter, edge: (Field, string, string)) {
      exists j | 0 <= j < |Slots(fm)| :: Dangles(fm, j, before) && EdgeOf(Slots(fm)[j]) == edge
    }

    predicate Blocked(b: Blocker) {
      match b
      case InvalidSelection(body) => body in canonical && !Selected(body)
      case NotCurrentTruth(p) => Kept(p) && GroupApproved(p) && !Visible(p)
      case MixedLifecycle(p) =>
        Kept(p) && !GroupApproved(p) && exists q | q in repo :: KeepOf(q) == Some(p) && Fm(q).status != Fm(p).status
      case AmbiguousIdentity(p) => KeepOf(p).Some? && !Unique(Id(p))
      case ConflictingLifecycle(p) => KeepOf(p).Some? && Fm(p).status !in {Status.Approved, Draft, Proposed}
      case ExistingSupersession(p) => KeepOf(p).Some? && (Truthy(Fm(p).supersededBy) || Truthy(Fm(p).supersedesId))
      case SourceConflict(p) =>
        KeepOf(p).Some? && (Fm(p).sourceType != Fm(KeepOf(p).value).sourceType
                            || Fm(p).confidence != Fm(KeepOf(p).value).confidence)
      case ValidationConflict(p) =>
        KeepOf(p).Some? && repo[p].validation.Some? && repo[p].validation != repo[KeepOf(p).value].validation
      case OutboundConflict(p) => KeepOf(p).Some? && !SameOutbound(Fm(p), Fm(KeepOf(p).value))
      case SelfLink(p, field) =>
        Changed(p) && exists k | 0 <= k < |Slots(After(p).record.fm)| :: LinksItself(p, field, k)
      case CyclicChain(p, field) => Chained(field) && Circles(p, field)
      case NewlyUnresolved(p, field) =>
        Changed(p) && exists k | 0 <= k < |Slots(After(p).record.fm)| :: NewlyDangles(p, field, k)
    }

    predicate Chained(field: Field) {
      field.Parent? || field.SupersededBy? || field.Supersedes?
    }

    predicate Circles(p: Path, field: Field) {
      Changed(p) && G.Chase(Links(AfterRepo(), field), Id(p), {})
    }

    predicate LinksItself(p: Path, field: Field, k: nat)
      requires p in repo && k < |Slots(After(p).record.fm)|
    {
      var s := Slots(After(p).record.fm)[k];
      s.Live() && s.field == field && s.target == Some(Id(p))
    }

    predicate NewlyDangles(p: Path, field: Field, k: nat)
      requires p in repo && k < |Slots(After(p).record.fm)|
    {
      var fm := After(p).record.fm;
      Slots(fm)[k].field == field && Dangles(fm, k, later) && !DangledBefore(Fm(p), EdgeOf(Slots(fm)[k]))
    }

    // ----- what a run of the planner may rely on ---------------------------------------------------

    // Both indexes come from one scan that lists each file once.
    ghost predicate Indexed(order: seq<Path>) {
      && (forall p | p in repo :: p in order)
      && (forall i, j | 0 <= i < j < |order| :: order[i] != order[j])
      && before == Locate(order, repo)
      && later == Locate(order, AfterRepo())
    }

    // And identifiers have no colon.
    ghost predicate Sane() {
      && (forall p | p in repo :: Bare(Id(p)))
      && exists order :: Indexed(order)
    }

    // Each removed identifier is redirected to the identifier kept for one of its removed files.
    ghost predicate Redirected() {
      && (forall p | p in repo && Removed(p) :: Id(p) in redirects)
      && (forall id | id in redirects ::
            exists p | p in repo :: Removed(p) && Id(p) == id && redirects[id] == Id(KeepOf(p).value))
    }

    ghost predicate Clear() {
      forall b: Blocker :: !Blocked(b)
    }
  }

  const NOTES := "duplicate_migrations"

  function PriorNotes(fm: Frontmatter): seq<Json> {
    if NOTES in fm.metadata.extra && fm.metadata.extra[NOTES].List? then fm.metadata.extra[NOTES].items else []
  }

  function EdgeOf(s: Slot): (Field, string, string)
    requires s.Live()
  {
    (s.field, s.target.value, if s.scope.Some? then s.scope.value else "")
  }

  // ----- blockers ------------------------------------------------------------------------------

  datatype Blocker =
    | InvalidSelection(body: string)
    | NotCurrentTruth(path: Path)
    | MixedLifecycle(path: Path)
    | AmbiguousIdentity(path: Path)
    | ConflictingLifecycle(path: Path)
    | ExistingSupersession(path: Path)
    | SourceConflict(path: Path)
    | ValidationConflict(path: Path)
    | OutboundConflict(path: Path)
    | SelfLink(path: Path, field: Field)
    | CyclicChain(path: Path, field: Field)
    | NewlyUnresolved(path: Path, field: Field)

  // ----- what selection and redirection depend on ---------------------------------------------

  predicate SameChoice(c: Setup, d: Setup) {
    c.repo == d.repo && c.scope == d.scope && c.canonical == d.canonical
  }

  lemma {:induction false} ChoiceDecides(c: Setup, d: Setup, p: Path)
    requires SameChoice(c, d)
    ensures c.KeepOf(p) == d.KeepOf(p)
    ensures p in c.repo ==> c.Members(c.repo[p].body) == d.Members(c.repo[p].body)
  {
    forall body
      ensures c.Members(body) == d.Members(body)
    {
      assert forall q :: q in c.Members(body) <==> q in d.Members(body);
    }
    if p in c.repo {
      assert c.Selected(c.repo[p].body) <==> d.Selected(c.repo[p].body);
    }
  }

  lemma {:induction false} RedirectsDecide(c: Setup, d: Setup, fm: Frontmatter)
    requires c.scope == d.scope && c.redirects == d.redirects
    ensures c.Redirect(fm) == d.Redirect(fm)
  {
    assert c.Redirect(fm).relationships == d.Redirect(fm).relationships;
  }

  lemma {:induction false} StampDecided(c: Setup, d: Setup, p: Path)
    requires SameChoice(c, d) && c.audit == d.audit && p in c.repo
    ensures c.Stamped(p) == d.Stamped(p)
  {
    hide Setup.KeepOf, Setup.Members;
    ChoiceDecides(c, d, p);
  }

  // The indexes have no part in what a file becomes.
  lemma {:induction false} IndexesDoNotDecide(c: Setup, d: Setup)
    requires SameChoice(c, d) && c.audit == d.audit && c.redirects == d.redirects
    ensures c.AfterRepo() == d.AfterRepo()
  {
    hide Setup.KeepOf, Setup.Stamped, Setup.Redirect;
    forall p | p in c.repo
      ensures c.Removed(p) == d.Removed(p) && c.After(p) == d.After(p)
    {
      ChoiceDecides(c, d, p);
      StampDecided(c, d, p);
      RedirectsDecide(c, d, c.Stamped(p));
    }
  }
}
