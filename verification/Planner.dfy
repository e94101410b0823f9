// Building a migration plan, step by step, against the setup's specification.
module Planner {
  import opened Base
  import opened Duplicates
  import G = Graphs
  import opened PlannedRecords
  import opened Plans
  import opened Quotient
  import opened Records
  import opened Rules
  import opened Trees

  // ----- reading ---------------------------------------------------------------------------

  method ReadFiles(reader: Reader, order: seq<Path>, texts: map<Path, string>)
    returns (repo: Repo, unparseable: set<Path>)
    requires Lists(order, texts.Keys)
    ensures repo == Parsed(reader, texts) && unparseable == Unparseable(reader, texts)
  {
    hide Reader.Parse;
    repo, unparseable := map[], {};
    ghost var read: set<Path> := {};
    for i := 0 to |order|
      invariant read <= texts.Keys && forall j | 0 <= j < i :: order[j] in read
      invariant forall p :: p in repo <==> p in read && reader.Parse(texts[p]).Some?
      invariant forall p | p in repo :: repo[p] == reader.Parse(texts[p]).value
      invariant forall p :: p in unparseable <==> p in read && reader.Parse(texts[p]).None?
    {
      read := read + {order[i]};
      match reader.Parse(texts[order[i]]) {
        case None => unparseable := unparseable + {order[i]};
        case Some(entry) => repo := repo[order[i] := entry];
      }
    }
    assert read == texts.Keys;
  }

  // The loop of `record_index`, by file.
  method LocateFiles(order: seq<Path>, repo: Repo) returns (at: map<string, Path>)
    ensures at == Locate(order, repo)
  {
    at := map[];
    var twice := {};
    for i := 0 to |order|
      invariant Found(at, twice) == EnterFiles(order, i, repo)
    {
      var p := order[i];
      if p in repo {
        var id := repo[p].record.fm.id;
        at := at[Qualified(p.scope, id) := p];
        if id in at {
          twice := twice + {id};
        }
        at := at[id := p];
      }
    }
    at := at - twice;
  }

  // ----- selection -------------------------------------------------------------------------

  // Blockers found while going through the selected groups.
  predicate OfMember(b: Blocker) {
    b.AmbiguousIdentity? || b.ConflictingLifecycle? || b.ExistingSupersession? || b.SourceConflict?
      || b.ValidationConflict?
  }

  predicate OfGroup(b: Blocker) {
    b.NotCurrentTruth? || b.MixedLifecycle?
  }

  method CheckMember(c: Setup, keep: Path, p: Path) returns (blockers: set<Blocker>)
    requires p in c.repo && c.KeepOf(p) == Some(keep)
    ensures forall b :: b in blockers <==> OfMember(b) && b.path == p && c.Blocked(b)
  {
    hide Setup.Unique, Setup.Blocked;
    KeptSurvives(c, p);
    blockers := {};
    var fm, selected := c.Fm(p), c.Fm(keep);
    if !c.Unique(c.Id(p)) {
      blockers := blockers + {AmbiguousIdentity(p)};
    }
    if fm.status !in {Status.Approved, Draft, Proposed} {
      blockers := blockers + {ConflictingLifecycle(p)};
    }
    if Truthy(fm.supersededBy) || Truthy(fm.supersedesId) {
      blockers := blockers + {ExistingSupersession(p)};
    }
    if fm.sourceType != selected.sourceType || fm.confidence != selected.confidence {
      blockers := blockers + {SourceConflict(p)};
    }
    if c.repo[p].validation.Some? && c.repo[p].validation != c.repo[keep].validation {
      blockers := blockers + {ValidationConflict(p)};
    }
    MemberBlocked(c, keep, p);
  }

  lemma {:induction false} MemberBlocked(c: Setup, keep: Path, p: Path)
    requires p in c.repo && keep in c.repo && c.KeepOf(p) == Some(keep)
    ensures var fm, selected := c.Fm(p), c.Fm(keep);
            && c.Blocked(AmbiguousIdentity(p)) == !c.Unique(c.Id(p))
            && c.Blocked(ConflictingLifecycle(p)) == (fm.status !in {Status.Approved, Draft, Proposed})
            && c.Blocked(ExistingSupersession(p)) == (Truthy(fm.supersededBy) || Truthy(fm.supersedesId))
            && c.Blocked(SourceConflict(p))
               == (fm.sourceType != selected.sourceType || fm.confidence != selected.confidence)
            && c.Blocked(ValidationConflict(p))
               == (c.repo[p].validation.Some? && c.repo[p].validation != c.repo[keep].validation)
  {
    hide Setup.Unique, Setup.Changed, Setup.GroupApproved, Setup.Visible, Setup.SameOutbound, Setup.Circles,
      Setup.After;
  }

  method CheckGroup(c: Setup, keep: Path) returns (blockers: set<Blocker>)
    requires keep in c.repo && c.Kept(keep)
    ensures forall b :: b in blockers <==> OfGroup(b) && b.path == keep && c.Blocked(b)
  {
    blockers := {};
    if c.GroupApproved(keep) {
      if !c.Visible(keep) {
        blockers := {NotCurrentTruth(keep)};
      }
    } else if exists q | q in c.repo :: c.KeepOf(q) == Some(keep) && c.Fm(q).status != c.Fm(keep).status {
      blockers := {MixedLifecycle(keep)};
    }
  }

  // The tables filled so far describe exactly the files among `done`.
  ghost predicate Selecting(c: Setup, done: set<Path>, redirects: map<string, string>, removed: map<Path, Path>) {
    && (forall p :: p in removed <==> p in done && c.Removed(p))
    && (forall p | p in removed :: p in c.repo && removed[p] in c.repo && c.KeepOf(p) == Some(removed[p]))
    && (forall p | p in removed :: c.Id(p) in redirects)
    && (forall id | id in redirects ::
          exists p | p in c.repo :: p in removed && c.Id(p) == id && redirects[id] == c.Id(removed[p]))
  }

  lemma {:induction false} SelectedMore(
      c: Setup, done: set<Path>, redirects: map<string, string>, removed: map<Path, Path>, p: Path)
    requires Selecting(c, done, redirects, removed) && p in c.repo && c.Removed(p)
    ensures Selecting(c, done + {p}, redirects[c.Id(p) := c.Id(c.KeepOf(p).value)], removed[p := c.KeepOf(p).value])
  {
    hide Setup.KeepOf;
    KeptSurvives(c, p);
    var redirects', removed' := redirects[c.Id(p) := c.Id(c.KeepOf(p).value)], removed[p := c.KeepOf(p).value];
    forall id | id in redirects'
      ensures exists q | q in c.repo :: q in removed' && c.Id(q) == id && redirects'[id] == c.Id(removed'[q])
    {
      if id == c.Id(p) {
        assert p in removed' && redirects'[id] == c.Id(removed'[p]);
      } else {
        var q :| q in c.repo && q in removed && c.Id(q) == id && redirects[id] == c.Id(removed[q]);
        assert q in removed' && redirects'[id] == c.Id(removed'[q]);
      }
    }
  }

  lemma {:induction false} SelectedKept(
      c: Setup, done: set<Path>, redirects: map<string, string>, removed: map<Path, Path>, p: Path)
    requires Selecting(c, done, redirects, removed) && !c.Removed(p)
    ensures Selecting(c, done + {p}, redirects, removed)
  {
  }

  predicate OfSelection(b: Blocker) {
    OfMember(b) || OfGroup(b) || b.InvalidSelection?
  }

  // The group a blocker of this stage belongs to.
  predicate Concerns(c: Setup, b: Blocker, body: string) {
    if b.InvalidSelection? then b.body == body
    else OfSelection(b) && b.path in c.repo && c.repo[b.path].body == body
  }

  method SelectGroup(c: Setup, order: seq<Path>, body: string, ghost done: set<Path>,
                     redirects0: map<string, string>, removed0: map<Path, Path>)
    returns (redirects: map<string, string>, removed: map<Path, Path>, blockers: set<Blocker>)
    requires c.Selected(body) && forall p | p in c.repo :: p in order
    requires Selecting(c, done, redirects0, removed0)
    ensures Selecting(c, done + c.Members(body), redirects, removed)
    ensures forall b :: b in blockers <==> Concerns(c, b, body) && c.Blocked(b)
  {
    hide Selecting, Setup.Blocked;
    redirects, removed := redirects0, removed0;
    var keep := c.canonical[body];
    blockers := CheckGroup(c, keep);
    assert done + Scanned(c, order, 0, body) == done;
    for i := 0 to |order|
      invariant Selecting(c, done + Scanned(c, order, i, body), redirects, removed)
      invariant forall b :: b in blockers <==>
                  && c.Blocked(b)
                  && ((OfGroup(b) && b.path == keep) || (OfMember(b) && b.path in Scanned(c, order, i, body)))
    {
      var p := order[i];
      ScannedOne(c, order, i, body);
      if p in c.repo && p.scope == c.scope && c.repo[p].body == body {
        var found := CheckMember(c, keep, p);
        blockers := blockers + found;
        if p != keep {
          SelectedMore(c, done + Scanned(c, order, i, body), redirects, removed, p);
          redirects := redirects[c.Id(p) := c.Id(keep)];
          removed := removed[p := keep];
        } else {
          SelectedKept(c, done + Scanned(c, order, i, body), redirects, removed, p);
        }
        assert done + Scanned(c, order, i + 1, body) == done + Scanned(c, order, i, body) + {p};
      } else {
        assert Scanned(c, order, i + 1, body) == Scanned(c, order, i, body);
      }
    }
    ScannedAll(c, order, body);
    OnlyGroupBlocks(c, body);
  }

  function Scanned(c: Setup, order: seq<Path>, n: nat, body: string): set<Path>
    requires n <= |order|
  {
    set p | p in c.Members(body) && p in order[..n]
  }

  lemma {:induction false} ScannedOne(c: Setup, order: seq<Path>, i: nat, body: string)
    requires i < |order|
    ensures Scanned(c, order, 0, body) == {}
    ensures Scanned(c, order, i + 1, body)
            == Scanned(c, order, i, body) + if order[i] in c.Members(body) then {order[i]} else {}
  {
    assert order[..i + 1] == order[..i] + [order[i]];
  }

  lemma {:induction false} ScannedAll(c: Setup, order: seq<Path>, body: string)
    requires forall p | p in c.repo :: p in order
    ensures Scanned(c, order, |order|, body) == c.Members(body)
  {
    assert order[..|order|] == order;
  }

  lemma {:induction false} OnlyGroupBlocks(c: Setup, body: string)
    requires c.Selected(body)
    ensures forall b | c.Blocked(b) ::
              Concerns(c, b, body)
              <==> (OfGroup(b) && b.path == c.canonical[body]) || (OfMember(b) && b.path in c.Members(body))
  {
    hide Setup.Unique, Setup.Changed, Setup.GroupApproved, Setup.Visible, Setup.SameOutbound, Setup.Circles,
      Setup.After;
  }

  function Grouped(c: Setup, bodies: set<string>): set<Path> {
    set p | p in c.repo && p.scope == c.scope && c.repo[p].body in bodies && c.Selected(c.repo[p].body)
  }

  method SelectGroups(c: Setup, order: seq<Path>)
    returns (redirects: map<string, string>, removed: map<Path, Path>, blockers: set<Blocker>)
    requires forall p | p in c.repo :: p in order
    ensures Selecting(c, Grouped(c, c.canonical.Keys), redirects, removed)
    ensures forall b :: b in blockers <==> OfSelection(b) && c.Blocked(b)
  {
    hide Selecting, Setup.Blocked, Concerns;
    redirects, removed, blockers := map[], map[], {};
    NothingSelected(c);
    var todo := c.canonical.Keys;
    while todo != {}
      invariant todo <= c.canonical.Keys
      invariant Selecting(c, Grouped(c, c.canonical.Keys - todo), redirects, removed)
      invariant forall b :: b in blockers <==>
                  c.Blocked(b) && exists body | body in c.canonical.Keys - todo :: Concerns(c, b, body)
      decreases todo
    {
      var body :| body in todo;
      GroupedOne(c, c.canonical.Keys - todo, body);
      if c.Selected(body) {
        var found;
        redirects, removed, found :=
          SelectGroup(c, order, body, Grouped(c, c.canonical.Keys - todo), redirects, removed);
        blockers := blockers + found;
      } else {
        InvalidSelectionOf(c, body);
        assert Grouped(c, c.canonical.Keys - todo) + {} == Grouped(c, c.canonical.Keys - todo);
        blockers := blockers + {InvalidSelection(body)};
      }
      assert c.canonical.Keys - (todo - {body}) == (c.canonical.Keys - todo) + {body};
      todo := todo - {body};
    }
    assert c.canonical.Keys - {} == c.canonical.Keys;
    EveryBlockerConcerns(c);
  }

  lemma {:induction false} NothingSelected(c: Setup)
    ensures Grouped(c, c.canonical.Keys - c.canonical.Keys) == {} && Selecting(c, {}, map[], map[])
  {
  }

  lemma {:induction false} GroupedOne(c: Setup, done: set<string>, body: string)
    ensures Grouped(c, done + {body}) == Grouped(c, done) + if c.Selected(body) then c.Members(body) else {}
  {
  }

  // A body without a valid selection blocks by itself, and nothing else concerns it.
  lemma {:induction false} InvalidSelectionOf(c: Setup, body: string)
    requires body in c.canonical && !c.Selected(body)
    ensures forall b :: c.Blocked(b) && Concerns(c, b, body) <==> b == InvalidSelection(body)
  {
    hide Setup.Unique, Setup.Changed, Setup.GroupApproved, Setup.Visible, Setup.SameOutbound, Setup.Circles,
      Setup.After;
  }

  lemma {:induction false} EveryBlockerConcerns(c: Setup)
    ensures forall b | c.Blocked(b) ::
              OfSelection(b) <==> exists body | body in c.canonical.Keys :: Concerns(c, b, body)
  {
    hide Setup.Unique, Setup.Changed, Setup.GroupApproved, Setup.Visible, Setup.SameOutbound, Setup.Circles,
      Setup.After;
    forall b | c.Blocked(b) && OfSelection(b)
      ensures exists body | body in c.canonical.Keys :: Concerns(c, b, body)
    {
      assert Concerns(c, b, if b.InvalidSelection? then b.body else c.repo[b.path].body);
    }
  }

  // ----- outbound references ----------------------------------------------------------------

  method CompareOutbound(c: Setup, order: seq<Path>) returns (blockers: set<Blocker>)
    requires forall p | p in c.repo :: p in order
    ensures forall b :: b in blockers <==> b.OutboundConflict? && c.Blocked(b)
  {
    hide Setup.Blocked, Setup.SameOutbound;
    OutboundBlocked(c);
    blockers := {};
    for i := 0 to |order|
      invariant forall b :: b in blockers <==> b.OutboundConflict? && b.path in order[..i] && c.Blocked(b)
    {
      var p := order[i];
      if c.KeepOf(p).Some? && !c.SameOutbound(c.Fm(p), c.Fm(c.KeepOf(p).value)) {
        blockers := blockers + {OutboundConflict(p)};
      }
      assert order[..i + 1] == order[..i] + [order[i]];
    }
    assert order[..|order|] == order;
  }

  lemma {:induction false} OutboundBlocked(c: Setup)
    ensures forall p :: c.KeepOf(p).Some? ==> p in c.repo && c.KeepOf(p).value in c.repo
    ensures forall p | c.Blocked(OutboundConflict(p)) :: c.KeepOf(p).Some?
    ensures forall p | c.KeepOf(p).Some? ::
              c.Blocked(OutboundConflict(p)) <==> !c.SameOutbound(c.Fm(p), c.Fm(c.KeepOf(p).value))
  {
    hide Setup.SameOutbound;
  }

  // ----- redirection -------------------------------------------------------------------------

  // Assigns the redirected fields one after the other.
  method RedirectFrontmatter(c: Setup, fm0: Frontmatter) returns (fm: Frontmatter, touched: bool)
    ensures fm == c.Redirect(fm0) && touched == c.Touched(fm0)
  {
    hide Slots;
    fm, touched := fm0, false;
    var scope := ParentScope(fm);
    if c.Redirects(fm.parentId, scope) {
      fm, touched := fm.(parentId := Some(c.redirects[fm.parentId.value])), true;
    }
    if c.Redirects(fm.intentRef, None) {
      fm, touched := fm.(intentRef := Some(c.redirects[fm.intentRef.value])), true;
    }
    if c.Redirects(fm.supersededBy, fm.supersededScope) {
      fm, touched := fm.(supersededBy := Some(c.redirects[fm.supersededBy.value])), true;
    }
    if c.Redirects(fm.supersedesId, fm.supersedesScope) {
      fm, touched := fm.(supersedesId := Some(c.redirects[fm.supersedesId.value])), true;
    }
    FieldsTouched(c, fm0);
    var rels := fm.relationships;
    for i := 0 to |rels|
      invariant |rels| == |fm0.relationships|
      invariant forall j | 0 <= j < i :: rels[j] == c.Redirect(fm0).relationships[j]
      invariant forall j | i <= j < |rels| :: rels[j] == fm0.relationships[j]
      invariant touched == TouchedUpTo(c, fm0, 4 + i)
    {
      TouchedNext(c, fm0, i);
      if rels[i].target in c.redirects {
        rels, touched := rels[i := rels[i].(target := c.redirects[rels[i].target])], true;
      }
    }
    fm := fm.(relationships := rels);
    assert rels == c.Redirect(fm0).relationships;
  }

  predicate TouchedUpTo(c: Setup, fm: Frontmatter, n: nat)
    requires n <= |Slots(fm)|
  {
    exists k | 0 <= k < n :: c.Redirects(Slots(fm)[k].target, Slots(fm)[k].scope)
  }

  lemma {:induction false} TouchedNext(c: Setup, fm: Frontmatter, i: nat)
    requires i < |fm.relationships|
    ensures TouchedUpTo(c, fm, 4 + i + 1) <==> TouchedUpTo(c, fm, 4 + i) || fm.relationships[i].target in c.redirects
  {
    assert Slots(fm)[4 + i] == Slot(Rel(fm.relationships[i].kind), Some(fm.relationships[i].target), None);
  }

  lemma {:induction false} FieldsTouched(c: Setup, fm: Frontmatter)
    ensures TouchedUpTo(c, fm, 4) <==>
              c.Redirects(fm.parentId, ParentScope(fm)) || c.Redirects(fm.intentRef, None)
              || c.Redirects(fm.supersededBy, fm.supersededScope) || c.Redirects(fm.supersedesId, fm.supersedesScope)
  {
    assert Slots(fm)[0] == Slot(Parent, fm.parentId, ParentScope(fm));
    assert Slots(fm)[1] == Slot(Intent, fm.intentRef, None);
    assert Slots(fm)[2] == Slot(SupersededBy, fm.supersededBy, fm.supersededScope);
    assert Slots(fm)[3] == Slot(Supersedes, fm.supersedesId, fm.supersedesScope);
  }

  // One of the first n references of the redirected record names the record itself.
  predicate SelfLinked(c: Setup, p: Path, field: Field, n: nat)
    requires p in c.repo && n <= |Slots(c.After(p).record.fm)|
  {
    exists k | 0 <= k < n :: c.LinksItself(p, field, k)
  }

  method FindSelfLinks(c: Setup, p: Path) returns (blockers: set<Blocker>)
    requires p in c.repo && c.Changed(p)
    ensures forall b :: b in blockers <==> b.SelfLink? && b.path == p && c.Blocked(b)
  {
    hide Slots, Setup.Changed, Setup.After, Setup.KeepOf;
    blockers := {};
    var slots := Slots(c.After(p).record.fm);
    for k := 0 to |slots|
      invariant forall b :: b in blockers <==> b.SelfLink? && b.path == p && SelfLinked(c, p, b.field, k)
    {
      assert forall field ::
               SelfLinked(c, p, field, k + 1) <==> SelfLinked(c, p, field, k) || c.LinksItself(p, field, k);
      if slots[k].Live() && slots[k].target == Some(c.Id(p)) {
        blockers := blockers + {SelfLink(p, slots[k].field)};
      }
    }
  }

  method RedirectFiles(c: Setup, order: seq<Path>) returns (after: Repo, changed: set<Path>, blockers: set<Blocker>)
    requires forall p | p in c.repo :: p in order
    ensures after == c.AfterRepo()
    ensures forall p :: p in changed <==> c.Changed(p)
    ensures forall b :: b in blockers <==> b.SelfLink? && c.Blocked(b)
  {
    hide Setup.KeepOf, Setup.Redirect, Setup.Touched, Setup.Blocked, Setup.Note;
    after, changed, blockers := map[], {}, {};
    for i := 0 to |order|
      invariant forall p :: p in after <==> p in order[..i] && c.Survives(p)
      invariant forall p | p in after :: after[p] == c.After(p)
      invariant forall p :: p in changed <==> p in order[..i] && c.Changed(p)
      invariant forall b :: b in blockers <==> b.SelfLink? && b.path in order[..i] && c.Blocked(b)
    {
      var p := order[i];
      OnlyChangedLink(c, p);
      if c.Survives(p) {
        var fm, touched := RedirectFrontmatter(c, c.Stamped(p));
        StampTouches(c, p);
        after := after[p := c.repo[p].(record := c.repo[p].record.(fm := fm))];
        if touched || c.Kept(p) {
          changed := changed + {p};
          var found := FindSelfLinks(c, p);
          blockers := blockers + found;
        }
      }
      assert order[..i + 1] == order[..i] + [order[i]];
    }
    assert order[..|order|] == order;
    OnlyOrderedLink(c, order);
  }

  lemma {:induction false} StampTouches(c: Setup, p: Path)
    requires p in c.repo
    ensures c.Touched(c.Stamped(p)) == c.Touched(c.Fm(p))
  {
    hide Setup.KeepOf, Setup.Note;
    var a, b := c.Stamped(p), c.Fm(p);
    assert Slots(a) == Slots(b);
  }

  lemma {:induction false} OnlyChangedLink(c: Setup, p: Path)
    ensures forall b: Blocker | b.SelfLink? && b.path == p && c.Blocked(b) :: c.Changed(p)
  {
  }

  lemma {:induction false} OnlyOrderedLink(c: Setup, order: seq<Path>)
    requires forall p | p in c.repo :: p in order
    ensures forall b: Blocker | b.SelfLink? && c.Blocked(b) :: b.path in order
  {
  }

  // ----- chains --------------------------------------------------------------------------------

  method WalkChains(c: Setup, changed: set<Path>) returns (blockers: set<Blocker>)
    requires forall p :: p in changed <==> c.Changed(p)
    ensures forall b :: b in blockers <==> b.CyclicChain? && c.Blocked(b)
  {
    hide Setup.Changed, Setup.AfterRepo, Setup.Links, G.Chase;
    blockers := {};
    SameIdsOf(c);
    var fields := [Parent, SupersededBy, Supersedes];
    var todo := changed;
    while todo != {}
      invariant todo <= changed
      invariant forall b :: b in blockers <==> b.CyclicChain? && b.path in changed - todo && c.Blocked(b)
      decreases todo
    {
      var p :| p in todo;
      for i := 0 to 3
        invariant forall b :: b in blockers <==>
                    && b.CyclicChain? && c.Blocked(b)
                    && (b.path in changed - todo || (b.path == p && b.field in fields[..i]))
      {
        var found := G.FindsLoop(c.Links(c.AfterRepo(), fields[i]), c.Id(p));
        if found {
          blockers := blockers + {CyclicChain(p, fields[i])};
        }
        assert fields[..i + 1] == fields[..i] + [fields[i]];
      }
      assert fields[..3] == fields;
      todo := todo - {p};
    }
  }

  lemma {:induction false} SameIdsOf(c: Setup)
    ensures c.AfterRepo().Keys <= c.repo.Keys
    ensures forall p | c.Changed(p) :: p in c.repo
    ensures forall p | p in c.AfterRepo() :: c.AfterRepo()[p].record.fm.id == c.Id(p)
  {
  }

  // ----- unresolved references -------------------------------------------------------------------

  method FindDangling(c: Setup, changed: set<Path>, files: Repo, at: map<string, Path>) returns (edges: set<Dangling>)
    requires forall p :: p in changed <==> c.Changed(p)
    ensures forall e :: e in edges <==> DanglesIn(c, files, at, e)
  {
    hide Setup.Changed, Slots;
    edges := {};
    var todo := changed;
    while todo != {}
      invariant todo <= changed
      invariant forall e :: e in edges <==> e.0 in changed - todo && DanglesIn(c, files, at, e)
      decreases todo
    {
      var p :| p in todo;
      if p in files {
        var found := FindDanglingIn(c, p, files, at);
        edges := edges + found;
      }
      todo := todo - {p};
    }
  }

  predicate DanglesBelow(c: Setup, fm: Frontmatter, n: nat, at: map<string, Path>, edge: (Field, string, string))
    requires n <= |Slots(fm)|
  {
    exists k | 0 <= k < n :: c.Dangles(fm, k, at) && EdgeOf(Slots(fm)[k]) == edge
  }

  lemma {:induction false} DanglesNext(c: Setup, fm: Frontmatter, n: nat, at: map<string, Path>)
    requires n < |Slots(fm)|
    ensures forall edge ::
              (DanglesBelow(c, fm, n + 1, at, edge)
               <==> DanglesBelow(c, fm, n, at, edge) || (c.Dangles(fm, n, at) && EdgeOf(Slots(fm)[n]) == edge))
  {
    hide Slots, EdgeOf, Resolve;
    forall edge | DanglesBelow(c, fm, n + 1, at, edge) && !DanglesBelow(c, fm, n, at, edge)
      ensures c.Dangles(fm, n, at) && EdgeOf(Slots(fm)[n]) == edge
    {
      var k :| 0 <= k < n + 1 && c.Dangles(fm, k, at) && EdgeOf(Slots(fm)[k]) == edge;
    }
  }

  method FindDanglingIn(c: Setup, p: Path, files: Repo, at: map<string, Path>) returns (edges: set<Dangling>)
    requires c.Changed(p) && p in files
    ensures forall e :: e in edges <==> e.0 == p && DanglesIn(c, files, at, e)
  {
    hide Setup.Changed, Slots, EdgeOf;
    edges := {};
    var fm := files[p].record.fm;
    var slots := Slots(fm);
    for k := 0 to |slots|
      invariant forall e :: e in edges <==> e.0 == p && DanglesBelow(c, fm, k, at, (e.1, e.2, e.3))
    {
      DanglesNext(c, fm, k, at);
      if c.Dangles(fm, k, at) {
        var edge := EdgeOf(slots[k]);
        edges := edges + {(p, edge.0, edge.1, edge.2)};
      }
    }
  }

  method CompareDangling(c: Setup, before: set<Dangling>, after: set<Dangling>) returns (blockers: set<Blocker>)
    requires forall e :: e in before <==> DanglesIn(c, c.repo, c.before, e)
    requires forall e :: e in after <==> DanglesIn(c, c.AfterRepo(), c.later, e)
    ensures forall b :: b in blockers <==> b.NewlyUnresolved? && c.Blocked(b)
  {
    hide DanglesIn, Setup.Blocked, Setup.AfterRepo;
    blockers := {};
    var todo := after - before;
    while todo != {}
      invariant todo <= after - before
      invariant blockers == Fresh(after - before - todo)
      decreases todo
    {
      var e :| e in todo;
      blockers := blockers + {NewlyUnresolved(e.0, e.1)};
      assert after - before - (todo - {e}) == after - before - todo + {e};
      FreshOne(after - before - todo, e);
      todo := todo - {e};
    }
    assert after - before - {} == after - before;
    forall b: Blocker | b.NewlyUnresolved?
      ensures b in blockers <==> c.Blocked(b)
    {
      FreshBlocks(c, before, after, b.path, b.field);
    }
  }

  function Fresh(edges: set<Dangling>): set<Blocker> {
    set e | e in edges :: NewlyUnresolved(e.0, e.1)
  }

  lemma {:induction false} FreshOne(edges: set<Dangling>, e: Dangling)
    ensures Fresh(edges + {e}) == Fresh(edges) + {NewlyUnresolved(e.0, e.1)}
  {
  }

  lemma {:induction false} FreshBlocks(c: Setup, before: set<Dangling>, after: set<Dangling>, p: Path, field: Field)
    requires forall e :: e in before <==> DanglesIn(c, c.repo, c.before, e)
    requires forall e :: e in after <==> DanglesIn(c, c.AfterRepo(), c.later, e)
    ensures NewlyUnresolved(p, field) in Fresh(after - before) <==> c.Blocked(NewlyUnresolved(p, field))
  {
    hide Slots, Setup.After, Setup.KeepOf, Setup.Changed, EdgeOf, Resolve;
    AfterAt(c, p);
    if c.Blocked(NewlyUnresolved(p, field)) {
      var fm := c.After(p).record.fm;
      var k :| 0 <= k < |Slots(fm)| && c.NewlyDangles(p, field, k);
      var edge := EdgeOf(Slots(fm)[k]);
      EdgeField(Slots(fm)[k]);
      var e := (p, edge.0, edge.1, edge.2);
      assert e in after - before;
    }
    if NewlyUnresolved(p, field) in Fresh(after - before) {
      var e :| e in after - before && e.0 == p && e.1 == field;
      var fm := c.AfterRepo()[p].record.fm;
      var k :| 0 <= k < |Slots(fm)| && c.Dangles(fm, k, c.later) && EdgeOf(Slots(fm)[k]) == (e.1, e.2, e.3);
      EdgeField(Slots(fm)[k]);
      assert !DanglesIn(c, c.repo, c.before, e);
      assert c.NewlyDangles(p, field, k);
    }
  }

  lemma {:induction false} EdgeField(s: Slot)
    requires s.Live()
    ensures EdgeOf(s).0 == s.field
  {
  }

  lemma {:induction false} AfterAt(c: Setup, p: Path)
    ensures c.Changed(p) ==> p in c.repo && p in c.AfterRepo() && c.AfterRepo()[p] == c.After(p)
  {
    hide Setup.After, Setup.KeepOf;
  }

  // ----- operations ------------------------------------------------------------------------------

  // One operation for each of the first names.
  ghost predicate OperatesOn(
      reader: Reader, c: Setup, texts: map<Path, string>, names: seq<Path>, operations: seq<Operation>)
  {
    && |operations| <= |names|
    && forall i | 0 <= i < |operations| ::
         names[i] in texts && names[i] in c.repo && operations[i] == Operated(reader, c, texts, names[i])
  }

  method WriteOperations(reader: Reader, c: Setup, texts: map<Path, string>, touched: set<Path>)
    returns (operations: seq<Operation>, after: map<Path, string>)
    requires Sorts(reader) && touched == TouchedFiles(c) && c.repo.Keys <= texts.Keys
    ensures |operations| == |reader.sort(touched)| && OperatesOn(reader, c, texts, reader.sort(touched), operations)
    ensures after == Apply(texts, Writes(operations))
  {
    hide Operated, Setup.Changed, Setup.KeepOf, OperatesOn, ApplyTo, Writes, Lists;
    var names := reader.sort(touched);
    SortedFiles(reader, c, touched);
    operations, after := [], texts;
    NothingWritten(reader, c, texts, names);
    for i := 0 to |names|
      invariant |operations| == i && OperatesOn(reader, c, texts, names, operations)
      invariant after == ApplyTo(texts, Writes(operations), |operations|)
    {
      var op := Operated(reader, c, texts, names[i]);
      OneMoreWritten(reader, c, texts, names, operations);
      operations := operations + [op];
      after := Put(after, Write(op.path, op.after));
    }
    WholeApplied(texts, operations);
  }

  lemma {:induction false} SortedFiles(reader: Reader, c: Setup, touched: set<Path>)
    requires Sorts(reader) && touched == TouchedFiles(c)
    ensures forall i | 0 <= i < |reader.sort(touched)| :: reader.sort(touched)[i] in c.repo
  {
    hide Setup.Changed, Setup.KeepOf;
    assert Lists(reader.sort(touched), touched);
    assert forall i | 0 <= i < |reader.sort(touched)| :: reader.sort(touched)[i] in touched;
  }

  lemma {:induction false} NothingWritten(reader: Reader, c: Setup, texts: map<Path, string>, names: seq<Path>)
    ensures OperatesOn(reader, c, texts, names, []) && ApplyTo(texts, Writes([]), 0) == texts
  {
  }

  lemma {:induction false} OneMoreWritten(
      reader: Reader, c: Setup, texts: map<Path, string>, names: seq<Path>, operations: seq<Operation>)
    requires OperatesOn(reader, c, texts, names, operations) && |operations| < |names|
    requires names[|operations|] in texts && names[|operations|] in c.repo
    ensures var op := Operated(reader, c, texts, names[|operations|]);
            && OperatesOn(reader, c, texts, names, operations + [op])
            && ApplyTo(texts, Writes(operations + [op]), |operations| + 1)
               == Put(ApplyTo(texts, Writes(operations), |operations|), Write(op.path, op.after))
  {
    hide Operated, Setup.Changed, Setup.KeepOf;
    WritesPrefix(texts, operations, operations + [Operated(reader, c, texts, names[|operations|])], |operations|);
  }

  function Writes(operations: seq<Operation>): (ws: seq<Write<Path, string>>)
    ensures |ws| == |operations|
  {
    seq(|operations|, i requires 0 <= i < |operations| => Write(operations[i].path, operations[i].after))
  }

  lemma {:induction false} WholeApplied(texts: map<Path, string>, operations: seq<Operation>)
    ensures Apply(texts, Writes(operations)) == ApplyTo(texts, Writes(operations), |operations|)
  {
  }

  lemma {:induction false} WritesPrefix(texts: map<Path, string>, a: seq<Operation>, b: seq<Operation>, n: nat)
    requires n <= |a| && n <= |b| && a[..n] == b[..n]
    ensures ApplyTo(texts, Writes(a), n) == ApplyTo(texts, Writes(b), n)
  {
    if n > 0 {
      assert a[..n - 1] == a[..n][..n - 1] == b[..n][..n - 1] == b[..n - 1];
      assert a[n - 1] == a[..n][n - 1] == b[..n][n - 1] == b[n - 1];
      WritesPrefix(texts, a, b, n - 1);
    }
  }

  // ----- the whole plan ------------------------------------------------------------------------------

  datatype PlanError = MalformedNotes

  lemma {:induction false} SelectionDecided(c: Setup, d: Setup)
    requires SameChoice(c, d) && c.before == d.before
    ensures forall b | OfSelection(b) :: c.Blocked(b) == d.Blocked(b)
  {
    hide Setup.Members, Setup.KeepOf;
    forall p
      ensures c.KeepOf(p) == d.KeepOf(p)
    {
      ChoiceDecides(c, d, p);
    }
    forall b | OfSelection(b)
      ensures c.Blocked(b) == d.Blocked(b)
    {
      SelectionBlocksAlike(c, d, b);
    }
  }

  lemma {:induction false} SelectionBlocksAlike(c: Setup, d: Setup, b: Blocker)
    requires SameChoice(c, d) && c.before == d.before && OfSelection(b)
    requires forall p :: c.KeepOf(p) == d.KeepOf(p)
    ensures c.Blocked(b) == d.Blocked(b)
  {
    hide Setup.KeepOf, Setup.Changed, Setup.SameOutbound, Setup.Circles, Setup.After;
    if b.InvalidSelection? {
      assert c.Members(b.body) == d.Members(b.body);
    }
  }

  lemma {:induction false} RedirectionDecided(c: Setup, d: Setup)
    requires SameChoice(c, d) && c.audit == d.audit && c.redirects == d.redirects
    ensures c.AfterRepo() == d.AfterRepo()
    ensures forall p :: c.Changed(p) == d.Changed(p)
    ensures forall b: Blocker | b.SelfLink? :: c.Blocked(b) == d.Blocked(b)
  {
    hide Setup.KeepOf, Setup.After, Slots;
    IndexesDoNotDecide(c, d);
    forall p
      ensures c.Changed(p) == d.Changed(p) && (p in c.repo ==> c.KeepOf(p) == d.KeepOf(p))
    {
      ChoiceDecides(c, d, p);
    }
    forall p | c.Changed(p)
      ensures c.After(p) == d.After(p)
    {
      AfterAt(c, p);
      AfterAt(d, p);
    }
    forall b: Blocker | b.SelfLink?
      ensures c.Blocked(b) == d.Blocked(b)
    {
      LinkBlocksAlike(c, d, b.path, b.field);
    }
  }

  lemma {:induction false} LinkBlocksAlike(c: Setup, d: Setup, p: Path, field: Field)
    requires c.repo == d.repo && c.Changed(p) == d.Changed(p)
    requires c.Changed(p) ==> p in c.repo && c.After(p) == d.After(p)
    ensures c.Blocked(SelfLink(p, field)) == d.Blocked(SelfLink(p, field))
  {
    hide Setup.Changed, Setup.After, Slots;
    if c.Changed(p) {
      assert forall k | 0 <= k < |Slots(c.After(p).record.fm)| ::
               c.LinksItself(p, field, k) == d.LinksItself(p, field, k);
    }
  }

  lemma {:induction false} AllSelected(c: Setup, redirects: map<string, string>, removed: map<Path, Path>, d: Setup)
    requires Selecting(c, Grouped(c, c.canonical.Keys), redirects, removed)
    requires SameChoice(c, d) && d.redirects == redirects
    ensures d.Redirected()
  {
    hide Setup.KeepOf, Grouped, Selecting;
    forall p
      ensures c.KeepOf(p) == d.KeepOf(p) && (p in removed <==> c.Removed(p))
    {
      ChoiceDecides(c, d, p);
      RemovedSelected(c, redirects, removed, p);
    }
    AllRedirected(c, redirects, removed, d);
  }

  lemma {:induction false} RemovedSelected(c: Setup, redirects: map<string, string>, removed: map<Path, Path>, p: Path)
    requires Selecting(c, Grouped(c, c.canonical.Keys), redirects, removed)
    ensures p in removed <==> c.Removed(p)
  {
  }

  lemma {:induction false} OneRedirected(
      c: Setup, redirects: map<string, string>, removed: map<Path, Path>, id: string) returns (p: Path)
    requires Selecting(c, Grouped(c, c.canonical.Keys), redirects, removed) && id in redirects
    ensures p in c.repo && c.Removed(p) && c.Id(p) == id && redirects[id] == c.Id(c.KeepOf(p).value)
  {
    hide Setup.Selected, Setup.Members, Grouped;
    p :| p in c.repo && p in removed && c.Id(p) == id && redirects[id] == c.Id(removed[p]);
  }

  lemma {:induction false} EachRedirected(c: Setup, redirects: map<string, string>, removed: map<Path, Path>)
    requires Selecting(c, Grouped(c, c.canonical.Keys), redirects, removed)
    requires forall p :: p in removed <==> c.Removed(p)
    ensures forall p | p in c.repo && c.Removed(p) :: c.Id(p) in redirects
  {
    hide Setup.KeepOf, Grouped;
  }

  lemma {:induction false} AllRedirected(c: Setup, redirects: map<string, string>, removed: map<Path, Path>, d: Setup)
    requires Selecting(c, Grouped(c, c.canonical.Keys), redirects, removed)
    requires SameChoice(c, d) && d.redirects == redirects
    requires forall p :: c.KeepOf(p) == d.KeepOf(p) && (p in removed <==> c.Removed(p))
    ensures d.Redirected()
  {
    hide Setup.KeepOf, Grouped, Selecting;
    EachRedirected(c, redirects, removed);
    forall p | p in d.repo && d.KeepOf(p).Some?
      ensures d.KeepOf(p).value in d.repo
    {
      KeptSurvives(d, p);
    }
    forall id | id in d.redirects
      ensures exists p | p in d.repo :: d.Removed(p) && d.Id(p) == id && d.redirects[id] == d.Id(d.KeepOf(p).value)
    {
      var p := OneRedirected(c, redirects, removed, id);
      assert d.Removed(p);
    }
  }

  // Every blocker belongs to one of the five stages.
  lemma {:induction false} Stages(b: Blocker)
    ensures OfSelection(b) || b.OutboundConflict? || b.SelfLink? || b.CyclicChain? || b.NewlyUnresolved?
  {
  }

  method BuildPlan(
      reader: Reader, order: seq<Path>, texts: map<Path, string>, scope: string, canonical: map<string, Path>)
    returns (r: Result<Plan, PlanError>)
    requires Sorts(reader) && Lists(order, texts.Keys)
    ensures r.Err? <==> NotesFail(Unindexed(reader, texts, scope, canonical, map[]))
    ensures r.Ok? ==>
              var c := SetupFor(reader, order, texts, scope, canonical, r.value.redirects);
              SetupOf(reader, order, texts, scope, canonical, c) && IsPlan(reader, c, texts, r.value)
    ensures r.Ok? ==> Returns(reader, order, texts, scope, canonical, r.value)
    ensures r.Ok? ==>
              (r.value.blockers == {}
               <==> Faultless(SetupFor(reader, order, texts, scope, canonical, r.value.redirects)))
  {
    hide Faultless, Setup.Blocked, Setup.Changed, Setup.KeepOf, Setup.AfterRepo, Setup.Redirected, Locate, Grouped,
      Selecting, Slots, DanglesIn, Operated, NotesFail, OfSelection, SetupOf, Returns, IsPlan, OperatesOn;
    var repo, unparseable := ReadFiles(reader, order, texts);
    var before := LocateFiles(order, repo);
    var start := Setup(repo, before, map[], scope, canonical, reader.audit(texts, canonical), map[]);
    var redirects, removed, ofSelection := SelectGroups(start, order);
    var redirecting := start.(redirects := redirects);
    var after, changed, ofLinks := RedirectFiles(redirecting, order);
    var later := LocateFiles(order, after);
    var setup := redirecting.(later := later);
    RedirectionDecided(redirecting, setup);
    SelectionDecided(start, setup);
    AllSelected(start, redirects, removed, setup);
    NotesDecided(setup, Unindexed(reader, texts, scope, canonical, map[]));
    if NotesFail(setup) {
      return Err(MalformedNotes);
    }
    var ofOutbound := CompareOutbound(setup, order);
    var ofChains := WalkChains(setup, changed);
    var unresolvedBefore := FindDangling(setup, changed, repo, before);
    var unresolvedAfter := FindDangling(setup, changed, after, later);
    var ofDangling := CompareDangling(setup, unresolvedBefore, unresolvedAfter);
    var operations, afterTexts := WriteOperations(reader, setup, texts, TouchedFiles(setup));
    var blockers := ofSelection + ofOutbound + ofLinks + ofChains + ofDangling;
    r := Ok(Plan(scope, canonical, texts, afterTexts, unparseable, blockers, redirects,
                 unresolvedBefore, unresolvedAfter, operations));
    forall b
      ensures b in blockers <==> setup.Blocked(b)
    {
      Stages(b);
    }
    Assembled(reader, setup, texts, r.value);
    IndexesDoNotDecide(redirecting, Unindexed(reader, texts, scope, canonical, redirects));
    assert setup == SetupFor(reader, order, texts, scope, canonical, redirects);
    SetupForIs(reader, order, texts, scope, canonical, redirects);
    ReturnsWith(reader, order, texts, scope, canonical, setup, r.value);
    NoBlockersExactly(reader, setup, texts, r.value);
  }

  lemma {:induction false} NoBlockersExactly(reader: Reader, c: Setup, texts: map<Path, string>, plan: Plan)
    requires IsPlan(reader, c, texts, plan)
    ensures plan.blockers == {} <==> Faultless(c)
  {
    hide Faultless, Setup.Blocked, DanglesIn, Operated;
    ClearExactly(c);
    assert plan.blockers == {} <==> forall b :: b !in plan.blockers;
  }

  lemma {:induction false} Assembled(reader: Reader, c: Setup, texts: map<Path, string>, plan: Plan)
    requires c.repo == Parsed(reader, texts) && plan.unparseable == Unparseable(reader, texts)
    requires plan.scope == c.scope && plan.canonical == c.canonical && plan.redirects == c.redirects
    requires plan.before == texts && plan.after == Apply(texts, Writes(plan.operations))
    requires forall b :: b in plan.blockers <==> c.Blocked(b)
    requires forall e :: e in plan.unresolvedBefore <==> DanglesIn(c, c.repo, c.before, e)
    requires forall e :: e in plan.unresolvedAfter <==> DanglesIn(c, c.AfterRepo(), c.later, e)
    requires var names := reader.sort(TouchedFiles(c));
             |plan.operations| == |names| && OperatesOn(reader, c, texts, names, plan.operations)
    ensures IsPlan(reader, c, texts, plan)
  {
    hide Setup.Blocked, Setup.AfterRepo, DanglesIn, Operated, TouchedFiles, Apply;
    assert plan.Forward() == Writes(plan.operations);
  }

  lemma {:induction false} ReturnsWith(
      reader: Reader, order: seq<Path>, texts: map<Path, string>, scope: string, canonical: map<string, Path>,
      c: Setup, plan: Plan)
    requires SetupOf(reader, order, texts, scope, canonical, c) && IsPlan(reader, c, texts, plan) && !NotesFail(c)
    ensures Returns(reader, order, texts, scope, canonical, plan)
  {
  }

  // The before images, put back where the plan was applied; and the order a dictionary then has.
  method PutTextsBack(reader: Reader, plan: Plan, texts: map<Path, string>)
    returns (original: map<Path, string>, order: seq<Path>)
    ensures original == Original(texts, plan, true) && order == Rescanned(reader, texts, plan, true)
  {
    hide ApplyTo, PutBack, Plan.Backward;
    original, order := texts, reader.scan(texts.Keys);
    NothingPutBack(texts, plan);
    for i := 0 to |plan.operations|
      invariant original == ApplyTo(texts, plan.Backward(), i)
      invariant order == reader.scan(texts.Keys) + PutBack(texts.Keys, plan.operations, i)
    {
      var operation := plan.operations[i];
      OneMorePutBack(texts, plan, i);
      if operation.path !in original {
        order := order + [operation.path];
      }
      original := original[operation.path := operation.before];
    }
  }

  lemma {:induction false} NothingPutBack(texts: map<Path, string>, plan: Plan)
    ensures |plan.Backward()| == |plan.operations|
    ensures ApplyTo(texts, plan.Backward(), 0) == texts && PutBack(texts.Keys, plan.operations, 0) == []
  {
  }

  lemma {:induction false} OneMorePutBack(texts: map<Path, string>, plan: Plan, i: nat)
    requires i < |plan.operations| == |plan.Backward()|
    ensures var op, before := plan.operations[i], ApplyTo(texts, plan.Backward(), i);
            && ApplyTo(texts, plan.Backward(), i + 1) == before[op.path := op.before]
            && PutBack(texts.Keys, plan.operations, i + 1)
               == PutBack(texts.Keys, plan.operations, i) + (if op.path in before then [] else [op.path])
  {
    PutBackLists(texts.Keys, plan.operations, i);
    BackwardNames(texts, plan, i);
  }

  // `_verify_rules`: put the texts back, plan again, compare.
  method VerifyRules(reader: Reader, plan: Plan, texts: map<Path, string>, after: bool) returns (passes: bool)
    requires Sorts(reader) && Scans(reader)
    ensures Accepts(reader, plan, texts, after) ==> passes
    ensures passes ==> Returns(reader, Rescanned(reader, texts, plan, after), Original(texts, plan, after),
                               plan.scope, plan.canonical, plan)
  {
    hide IsPlan, SetupOf, Scans, Sorts, NotesFail, Lists, PutBack, ApplyTo;
    var original, order := texts, reader.scan(texts.Keys);
    if after {
      original, order := PutTextsBack(reader, plan, texts);
    }
    assert order == Rescanned(reader, texts, plan, after);
    RescannedLists(reader, texts, plan, after);
    var built := BuildPlan(reader, order, original, plan.scope, plan.canonical);
    if built.Err? {
      NeverReturns(reader, order, original, plan.scope, plan.canonical, plan);
    }
    passes := built == Ok(plan);
  }

  // Where the planner raises, no plan is returned.
  lemma {:induction false} NeverReturns(
      reader: Reader, order: seq<Path>, texts: map<Path, string>, scope: string, canonical: map<string, Path>,
      plan: Plan)
    requires NotesFail(Unindexed(reader, texts, scope, canonical, map[]))
    ensures !Returns(reader, order, texts, scope, canonical, plan)
  {
    hide NotesFail, IsPlan, Locate, Setup.Redirected, Setup.AfterRepo;
    forall c | SetupOf(reader, order, texts, scope, canonical, c)
      ensures NotesFail(c)
    {
      NotesDecided(c, Unindexed(reader, texts, scope, canonical, map[]));
    }
  }

  lemma {:induction false} NotesDecided(c: Setup, d: Setup)
    requires SameChoice(c, d)
    ensures NotesFail(c) == NotesFail(d)
  {
    hide Setup.Members, Setup.KeepOf;
    forall p
      ensures c.KeepOf(p) == d.KeepOf(p)
    {
      ChoiceDecides(c, d, p);
    }
  }
}
