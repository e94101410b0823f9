// What a plan does to records, and what blocks it, in the fields of the records themselves.
module PlannedRecords {
  import opened Base
  import opened Duplicates
  import opened Quotient
  import opened Records

  // ----- groups ------------------------------------------------------------------------------

  // Files of the scope with one body, the selected one among them and not alone.
  ghost predicate Collapses(c: Setup, p: Path, k: Path) {
    && p in c.repo && k in c.repo && p.scope == k.scope == c.scope && c.repo[p].body == c.repo[k].body
    && c.repo[k].body in c.canonical && c.canonical[c.repo[k].body] == k
    && exists q | q in c.repo :: q != k && q.scope == c.scope && c.repo[q].body == c.repo[k].body
  }

  lemma {:induction false} CollapsesWithin(c: Setup)
    ensures forall p, k | Collapses(c, p, k) :: p in c.repo && k in c.repo
  {
  }

  lemma {:induction false} KeepExactly(c: Setup, p: Path, k: Path)
    ensures c.KeepOf(p) == Some(k) <==> Collapses(c, p, k)
  {
    if c.KeepOf(p) == Some(k) {
      var q :| q in c.Members(c.repo[p].body) && q != k;
      assert q in c.repo && q.scope == c.scope && c.repo[q].body == c.repo[k].body;
    }
    if Collapses(c, p, k) {
      var q :| q in c.repo && q != k && q.scope == c.scope && c.repo[q].body == c.repo[k].body;
      assert q in c.Members(c.repo[p].body) && k in c.Members(c.repo[p].body);
    }
  }

  // A body has a valid selection exactly when its selected file is collapsed onto itself.
  lemma {:induction false} SelectionExactly(c: Setup, body: string)
    requires body in c.canonical
    ensures c.Selected(body) <==>
              var k := c.canonical[body];
              Collapses(c, k, k) && c.repo[k].body == body
  {
    var k := c.canonical[body];
    if c.Selected(body) {
      var q :| q in c.Members(body) && q != k;
      assert q in c.repo && q.scope == c.scope && c.repo[q].body == c.repo[k].body;
    }
    if Collapses(c, k, k) && c.repo[k].body == body {
      var q :| q in c.repo && q != k && q.scope == c.scope && c.repo[q].body == c.repo[k].body;
      assert q in c.Members(body) && k in c.Members(body);
    }
  }

  // ----- references ----------------------------------------------------------------------------

  // The record names this target in this field, to be looked up in this scope.
  ghost predicate Refers(fm: Frontmatter, field: Field, target: string, scope: Option<string>) {
    match field
    case Parent =>
      target != "" && fm.parentId == Some(target)
      && scope == if fm.parentId == fm.supersedesId then fm.supersedesScope else None
    case Intent => target != "" && fm.intentRef == Some(target) && scope == None
    case SupersededBy => target != "" && fm.supersededBy == Some(target) && scope == fm.supersededScope
    case Supersedes => target != "" && fm.supersedesId == Some(target) && scope == fm.supersedesScope
    case Rel(kind) =>
      scope == None && exists i | 0 <= i < |fm.relationships| :: fm.relationships[i] == Relationship(kind, target)
  }

  lemma {:induction false} SlotsRefer(fm: Frontmatter, field: Field, target: string, scope: Option<string>)
    ensures Refers(fm, field, target, scope) <==>
              exists k | 0 <= k < |Slots(fm)| :: Slots(fm)[k].Live() && Slots(fm)[k] == Slot(field, Some(target), scope)
  {
    if Refers(fm, field, target, scope) {
      var k := match field
        case Parent => 0
        case Intent => 1
        case SupersededBy => 2
        case Supersedes => 3
        case Rel(kind) =>
          var i :| 0 <= i < |fm.relationships| && fm.relationships[i] == Relationship(kind, target);
          4 + i;
      assert Slots(fm)[k].Live() && Slots(fm)[k] == Slot(field, Some(target), scope);
    }
    if k :| 0 <= k < |Slots(fm)| && Slots(fm)[k].Live() && Slots(fm)[k] == Slot(field, Some(target), scope) {
      if k >= 4 {
        assert fm.relationships[k - 4] == Relationship(field.kind, target);
      }
    }
  }

  // The file a reference finds.
  ghost function Find(at: map<string, Path>, scope: Option<string>, target: string): Option<Path> {
    Get(at, if scope.Some? && scope.value != "" then scope.value + ":" + target else target)
  }

  lemma {:induction false} FindIsResolve(at: map<string, Path>, scope: Option<string>, target: string)
    ensures Find(at, scope, target) == Resolve(at, scope, target)
  {
    if scope.Some? {
      assert scope.value + ":" + target == Qualified(scope.value, target);
    }
  }

  // ----- self links ----------------------------------------------------------------------------

  // The field would name the record itself.
  ghost predicate NamesItself(c: Setup, p: Path, field: Field)
    requires p in c.repo
  {
    exists scope :: Refers(c.After(p).record.fm, field, c.Id(p), scope)
  }

  lemma {:induction false} SelfLinksExactly(c: Setup, p: Path, field: Field)
    ensures c.Blocked(SelfLink(p, field)) <==> c.Changed(p) && NamesItself(c, p, field)
  {
    hide Slots, Setup.Changed, Setup.After, Refers;
    if c.Changed(p) {
      AfterOf(c, p);
      var fm := c.After(p).record.fm;
      forall scope
        ensures Refers(fm, field, c.Id(p), scope) <==>
                  exists k | 0 <= k < |Slots(fm)| ::
                    Slots(fm)[k].Live() && Slots(fm)[k] == Slot(field, Some(c.Id(p)), scope)
      {
        SlotsRefer(fm, field, c.Id(p), scope);
      }
      if k :| 0 <= k < |Slots(fm)| && c.LinksItself(p, field, k) {
        assert Refers(fm, field, c.Id(p), Slots(fm)[k].scope);
      }
      if scope :| Refers(fm, field, c.Id(p), scope) {
        var k :| 0 <= k < |Slots(fm)| && Slots(fm)[k].Live() && Slots(fm)[k] == Slot(field, Some(c.Id(p)), scope);
        assert c.LinksItself(p, field, k);
      }
    }
  }

  lemma {:induction false} AfterOf(c: Setup, p: Path)
    requires c.Changed(p)
    ensures p in c.repo
  {
    hide Setup.After;
  }

  // A plan without blockers makes no record name itself.
  lemma {:induction false} NoSelfLinks(c: Setup, p: Path)
    requires c.Clear() && c.Changed(p)
    ensures p in c.repo
    ensures var fm, id := c.After(p).record.fm, c.Id(p);
            && (id != "" ==>
                  && fm.parentId != Some(id) && fm.intentRef != Some(id)
                  && fm.supersededBy != Some(id) && fm.supersedesId != Some(id))
            && forall i | 0 <= i < |fm.relationships| :: fm.relationships[i].target != id
  {
    hide Setup.Changed, Setup.After, Setup.Blocked;
    AfterOf(c, p);
    var fm, id := c.After(p).record.fm, c.Id(p);
    forall field, scope
      ensures !Refers(fm, field, id, scope)
    {
      SelfLinksExactly(c, p, field);
      assert !c.Blocked(SelfLink(p, field));
    }
    assert !Refers(fm, Parent, id, if fm.parentId == fm.supersedesId then fm.supersedesScope else None);
    assert !Refers(fm, Intent, id, None) && !Refers(fm, SupersededBy, id, fm.supersededScope);
    assert !Refers(fm, Supersedes, id, fm.supersedesScope);
    forall i | 0 <= i < |fm.relationships|
      ensures fm.relationships[i].target != id
    {
      assert !Refers(fm, Rel(fm.relationships[i].kind), id, None);
    }
  }

  // ----- unresolved references -------------------------------------------------------------------

  function Spelled(scope: Option<string>): string {
    if scope.Some? then scope.value else ""
  }

  // The file did not find this target before either, in the same field and the same spelling of its
  // scope.
  ghost predicate WasMissing(c: Setup, p: Path, field: Field, target: string, scope: Option<string>)
    requires p in c.repo
  {
    exists scope' :: Refers(c.Fm(p), field, target, scope') && Spelled(scope') == Spelled(scope)
                     && Find(c.before, scope', target).None?
  }

  ghost predicate GoesMissing(c: Setup, p: Path, field: Field, target: string, scope: Option<string>)
    requires p in c.repo
  {
    && Refers(c.After(p).record.fm, field, target, scope) && Find(c.later, scope, target).None?
    && !WasMissing(c, p, field, target, scope)
  }

  lemma {:induction false} SlotMissing(
      c: Setup, fm: Frontmatter, at: map<string, Path>, field: Field, target: string, scope: Option<string>)
    ensures Refers(fm, field, target, scope) && Find(at, scope, target).None? <==>
              exists k | 0 <= k < |Slots(fm)| ::
                c.Dangles(fm, k, at) && Slots(fm)[k] == Slot(field, Some(target), scope)
  {
    hide Slots, Refers, Find, Resolve;
    SlotsRefer(fm, field, target, scope);
    FindIsResolve(at, scope, target);
  }

  lemma {:induction false} WasMissingExactly(c: Setup, p: Path, s: Slot)
    requires p in c.repo && s.Live()
    ensures c.DangledBefore(c.Fm(p), EdgeOf(s)) <==> WasMissing(c, p, s.field, s.target.value, s.scope)
  {
    hide Slots, Refers, Find, Resolve;
    var fm := c.Fm(p);
    if j :| 0 <= j < |Slots(fm)| && c.Dangles(fm, j, c.before) && EdgeOf(Slots(fm)[j]) == EdgeOf(s) {
      var t := Slots(fm)[j];
      SlotMissing(c, fm, c.before, t.field, s.target.value, t.scope);
      assert t == Slot(t.field, Some(s.target.value), t.scope) && Spelled(t.scope) == Spelled(s.scope);
    }
    if scope' :| Refers(fm, s.field, s.target.value, scope') && Spelled(scope') == Spelled(s.scope)
                 && Find(c.before, scope', s.target.value).None?
    {
      SlotMissing(c, fm, c.before, s.field, s.target.value, scope');
      var j :| 0 <= j < |Slots(fm)| && c.Dangles(fm, j, c.before)
               && Slots(fm)[j] == Slot(s.field, Some(s.target.value), scope');
      assert EdgeOf(Slots(fm)[j]) == EdgeOf(s);
    }
  }

  // A reference blocks as newly unresolved exactly when a changed record finds nothing under it
  // and did not fail to find the same target before.
  lemma {:induction false} UnresolvedExactly(c: Setup, p: Path, field: Field)
    ensures c.Blocked(NewlyUnresolved(p, field)) <==>
              c.Changed(p) && exists target, scope :: GoesMissing(c, p, field, target, scope)
  {
    hide Slots, Setup.Changed, Setup.After, Refers, Find, Resolve, Setup.DangledBefore, WasMissing;
    if c.Changed(p) {
      AfterOf(c, p);
      var fm := c.After(p).record.fm;
      if k :| 0 <= k < |Slots(fm)| && c.NewlyDangles(p, field, k) {
        var s := Slots(fm)[k];
        SlotMissing(c, fm, c.later, field, s.target.value, s.scope);
        WasMissingExactly(c, p, s);
        assert GoesMissing(c, p, field, s.target.value, s.scope);
      }
      if target, scope :| GoesMissing(c, p, field, target, scope) {
        SlotMissing(c, fm, c.later, field, target, scope);
        var k :| 0 <= k < |Slots(fm)| && c.Dangles(fm, k, c.later) && Slots(fm)[k] == Slot(field, Some(target), scope);
        WasMissingExactly(c, p, Slots(fm)[k]);
        assert c.NewlyDangles(p, field, k);
      }
    }
  }

  // ----- what changes ------------------------------------------------------------------------------

  // Rewritten are the kept records, which get a note, and those with a redirected reference: the
  // remaining ones that come out different.
  lemma {:induction false} ChangedExactly(c: Setup, p: Path)
    requires c.Redirected() && Distinct(c) && p in c.repo
    ensures c.Changed(p) <==> c.Survives(p) && c.After(p) != c.repo[p]
  {
    hide Setup.KeepOf, Setup.Redirect, Slots, Distinct, Setup.Redirected;
    if c.Survives(p) {
      if c.Kept(p) {
        NoteIsNew(c, p);
      } else if c.Touched(c.Fm(p)) {
        TouchedDiffers(c, c.Fm(p));
      } else {
        UntouchedStays(c, c.Fm(p));
      }
    }
  }

  lemma {:induction false} NoteIsNew(c: Setup, p: Path)
    requires p in c.repo && c.Kept(p)
    ensures c.After(p) != c.repo[p]
  {
    hide Setup.KeepOf, Setup.Note;
    assert c.After(p).record.fm.metadata.extra[NOTES] == List(PriorNotes(c.Fm(p)) + [c.Note(p)]);
  }

  lemma {:induction false} RedirectsElsewhere(c: Setup, id: string)
    requires c.Redirected() && Distinct(c) && id in c.redirects
    ensures c.redirects[id] != id
  {
    var p := RedirectsOf(c, id);
    KeptSurvives(c, p);
    assert c.Unique(c.Id(p));
  }

  lemma {:induction false} TouchedDiffers(c: Setup, fm: Frontmatter)
    requires c.Redirected() && Distinct(c) && c.Touched(fm)
    ensures c.Redirect(fm) != fm
  {
    hide Setup.KeepOf, Distinct, Setup.Redirected;
    var k :| 0 <= k < |Slots(fm)| && c.Redirects(Slots(fm)[k].target, Slots(fm)[k].scope);
    RedirectsElsewhere(c, Slots(fm)[k].target.value);
    if k >= 4 {
      assert c.Redirect(fm).relationships[k - 4] != fm.relationships[k - 4];
    }
  }

  lemma {:induction false} UntouchedStays(c: Setup, fm: Frontmatter)
    requires !c.Touched(fm)
    ensures c.Redirect(fm) == fm
  {
    assert forall k | 0 <= k < |Slots(fm)| :: !c.Redirects(Slots(fm)[k].target, Slots(fm)[k].scope);
    assert !c.Redirects(Slots(fm)[0].target, Slots(fm)[0].scope);
    assert !c.Redirects(Slots(fm)[1].target, Slots(fm)[1].scope);
    assert !c.Redirects(Slots(fm)[2].target, Slots(fm)[2].scope);
    assert !c.Redirects(Slots(fm)[3].target, Slots(fm)[3].scope);
    forall i | 0 <= i < |fm.relationships|
      ensures c.Redirect(fm).relationships[i] == fm.relationships[i]
    {
      assert !c.Redirects(Slots(fm)[4 + i].target, Slots(fm)[4 + i].scope);
    }
    assert c.Redirect(fm).relationships == fm.relationships;
  }

  // ----- the note on a kept record -----------------------------------------------------------------

  ghost function Gone(c: Setup, k: Path): set<Path> {
    set p | p in c.repo && p != k && Collapses(c, p, k)
  }

  // Its notes are those it had and one that names it, its body, how many records it stands for, and
  // the selection; the rest of its extra metadata, its content and its status stay.
  lemma {:induction false} NoteTells(c: Setup, k: Path)
    requires Collapses(c, k, k)
    ensures var e, e' := c.repo[k], c.After(k);
            && "duplicate_migrations" in e'.record.fm.metadata.extra
            && (forall key | key != "duplicate_migrations" ::
                  Get(e'.record.fm.metadata.extra, key) == Get(e.record.fm.metadata.extra, key))
            && e'.record.fm.metadata.extra["duplicate_migrations"].List?
            && var notes := e'.record.fm.metadata.extra["duplicate_migrations"].items;
               && notes != []
               && notes[..|notes| - 1]
                  == (if "duplicate_migrations" in e.record.fm.metadata.extra
                         && e.record.fm.metadata.extra["duplicate_migrations"].List?
                      then e.record.fm.metadata.extra["duplicate_migrations"].items else [])
               && notes[|notes| - 1].Object?
               && var note := notes[|notes| - 1].fields;
                  && note.Keys == {"body_sha256", "retained_id", "removed_count", "operator_audit"}
                  && note["body_sha256"] == Text(e.body) && note["retained_id"] == Text(e.record.fm.id)
                  && note["removed_count"] == Number(|Gone(c, k)| as real)
                  && note["operator_audit"] == Text(c.audit)
  {
    hide Collapses;
    KeepExactly(c, k, k);
    GoneCount(c, k);
    assert "body_sha256"[0] == 'b' && "retained_id"[2] == 't' && "removed_count"[2] == 'm';
    assert "operator_audit"[0] == 'o';
  }

  lemma {:induction false} GoneCount(c: Setup, k: Path)
    requires k in c.repo && c.Kept(k)
    ensures |c.Members(c.repo[k].body)| - 1 == |Gone(c, k)|
  {
    hide Setup.Members;
    forall p
      ensures p in c.Members(c.repo[k].body) <==> p in c.repo && Collapses(c, p, k)
    {
      KeepExactly(c, p, k);
      KeepExactly(c, k, k);
      MembersOf(c, p, c.repo[k].body);
    }
    assert c.Members(c.repo[k].body) == Gone(c, k) + {k};
  }

  lemma {:induction false} MembersOf(c: Setup, p: Path, body: string)
    ensures p in c.Members(body) <==> p in c.repo && p.scope == c.scope && c.repo[p].body == body
  {
  }

  // ----- chains --------------------------------------------------------------------------------------

  ghost predicate Follows(fm: Frontmatter, field: Field, y: string) {
    match field
    case Parent => fm.parentId == Some(y)
    case SupersededBy => fm.supersededBy == Some(y)
    case Supersedes => fm.supersedesId == Some(y)
    case _ => false
  }

  // The record alone carries the identifier.
  ghost predicate Alone(c: Setup, p: Path, x: string) {
    p in c.repo && forall q | q in c.repo :: c.Id(q) == x <==> q == p
  }

  lemma {:induction false} AloneExactly(c: Setup, p: Path, x: string)
    requires p in c.repo
    ensures Alone(c, p, x) <==> c.Id(p) == x && c.Unique(x)
  {
  }

  lemma {:induction false} Remaining(c: Setup, p: Path)
    ensures p in c.AfterRepo() <==> p in c.repo && c.Survives(p)
    ensures p in c.AfterRepo() ==> c.AfterRepo()[p] == c.After(p) && c.After(p).record.fm.id == c.Id(p)
  {
    hide Setup.KeepOf;
  }

  lemma {:induction false} LinkFollows(c: Setup, fm: Frontmatter, field: Field, y: string)
    ensures c.Link(fm, field) == Some(y) <==> Follows(fm, field, y)
  {
  }

  // The chain of a field links the remaining records whose identifier was unique.
  lemma {:induction false} LinksExactly(c: Setup, field: Field, x: string, y: string)
    ensures c.AfterRepo().Keys <= c.repo.Keys
    ensures forall p | p in c.AfterRepo() :: c.AfterRepo()[p].record.fm.id == c.Id(p)
    ensures Get(c.Links(c.AfterRepo(), field), x) == Some(y) <==>
              exists p | p in c.repo ::
                c.Survives(p) && Follows(c.After(p).record.fm, field, y) && Alone(c, p, x)
  {
    hide Setup.Survives, Setup.AfterRepo, Setup.After, Setup.Link, Setup.Links, Follows, Alone;
    forall p
      ensures p in c.AfterRepo() <==> p in c.repo && c.Survives(p)
      ensures p in c.AfterRepo() ==> c.AfterRepo()[p] == c.After(p) && c.After(p).record.fm.id == c.Id(p)
      ensures p in c.repo ==> (c.Link(c.After(p).record.fm, field) == Some(y)
                               <==> Follows(c.After(p).record.fm, field, y))
    {
      Remaining(c, p);
      if p in c.repo {
        LinkFollows(c, c.After(p).record.fm, field, y);
      }
    }
    LinksOf(c, c.AfterRepo(), field, x, y);
  }

  lemma {:induction false} LinksOf(c: Setup, files: Repo, field: Field, x: string, y: string)
    requires files.Keys <= c.repo.Keys && forall p | p in files :: files[p].record.fm.id == c.Id(p)
    ensures Get(c.Links(files, field), x) == Some(y) <==>
              exists p | p in files :: c.Link(files[p].record.fm, field) == Some(y) && Alone(c, p, x)
  {
    hide Setup.Link, Setup.Unique, Alone;
    var links := c.Links(files, field);
    if x in links && links[x] == y {
      var p :| p in files && c.Unique(c.Id(p)) && c.Link(files[p].record.fm, field) == Some(y) && c.Id(p) == x;
      AloneExactly(c, p, x);
    }
    if p :| p in files && c.Link(files[p].record.fm, field) == Some(y) && Alone(c, p, x) {
      AloneExactly(c, p, x);
      assert c.Id(p) in links;
      var q :| q in files && c.Unique(c.Id(q)) && c.Link(files[q].record.fm, field).Some? && c.Id(q) == x
               && links[x] == c.Link(files[q].record.fm, field).value;
      AloneExactly(c, q, x);
      TwiceAlone(c, p, q, x);
    }
  }

  lemma {:induction false} TwiceAlone(c: Setup, p: Path, q: Path, x: string)
    requires Alone(c, p, x) && Alone(c, q, x)
    ensures p == q
  {
  }

  // ----- what a record refers to --------------------------------------------------------------------------

  // A live reference of this field and scope, to the target or to what is redirected to it.
  ghost predicate Points(c: Setup, s: Slot, field: Field, target: string, scope: Option<string>) {
    && s.Live() && s.field == field && s.scope == scope
    && ((s.target == Some(target) && target !in c.redirects)
        || (s.target.value in c.redirects && c.redirects[s.target.value] == target))
  }

  ghost function Pointing(
      c: Setup, slots: seq<Slot>, field: Field, target: string, scope: Option<string>): set<nat>
  {
    set k: nat | k < |slots| && Points(c, slots[k], field, target, scope)
  }

  lemma {:induction false} PointsEdge(c: Setup, s: Slot, field: Field, target: string, scope: Option<string>)
    ensures Points(c, s, field, target, scope) <==> s.Live() && c.Edge(s) == (field, target, scope)
  {
  }

  lemma {:induction false} PointingMore(
      c: Setup, slots: seq<Slot>, s: Slot, field: Field, target: string, scope: Option<string>)
    ensures |Pointing(c, slots + [s], field, target, scope)|
            == |Pointing(c, slots, field, target, scope)| + if Points(c, s, field, target, scope) then 1 else 0
  {
    hide Points;
    assert forall k: nat | k < |slots| :: (slots + [s])[k] == slots[k];
    OneMore(Pointing(c, slots + [s], field, target, scope), Pointing(c, slots, field, target, scope), |slots|,
            Points(c, s, field, target, scope));
  }

  lemma {:induction false} OneMore(more: set<nat>, before: set<nat>, n: nat, hit: bool)
    requires n !in before && forall k: nat :: k in more <==> k in before || (hit && k == n)
    ensures |more| == |before| + if hit then 1 else 0
  {
    assert more == before + if hit then {n} else {};
  }

  lemma {:induction false} EdgesCount(
      c: Setup, fm: Frontmatter, n: nat, field: Field, target: string, scope: Option<string>)
    requires n <= |Slots(fm)|
    ensures multiset(c.Edges(fm, n))[(field, target, scope)] == |Pointing(c, Slots(fm)[..n], field, target, scope)|
  {
    hide Slots, Points, Setup.Edge, Slot.Live;
    if n == 0 {
      assert Pointing(c, Slots(fm)[..n], field, target, scope) == {};
    } else {
      hide Pointing;
      EdgesCount(c, fm, n - 1, field, target, scope);
      PointingMore(c, Slots(fm)[..n - 1], Slots(fm)[n - 1], field, target, scope);
      PointsEdge(c, Slots(fm)[n - 1], field, target, scope);
      assert Slots(fm)[..n] == Slots(fm)[..n - 1] + [Slots(fm)[n - 1]];
    }
  }

  // Both refer to the same, counted once for each reference.
  ghost predicate ReferAlike(c: Setup, fm: Frontmatter, fm': Frontmatter) {
    forall field, target, scope ::
      |Pointing(c, Slots(fm), field, target, scope)| == |Pointing(c, Slots(fm'), field, target, scope)|
  }

  lemma {:induction false} OutboundExactly(c: Setup, fm: Frontmatter, fm': Frontmatter)
    ensures c.SameOutbound(fm, fm') <==> ReferAlike(c, fm, fm')
  {
    hide Slots, Pointing, Setup.Edges;
    var a, b := multiset(c.Edges(fm, |Slots(fm)|)), multiset(c.Edges(fm', |Slots(fm')|));
    forall field, target, scope
      ensures a[(field, target, scope)] == |Pointing(c, Slots(fm), field, target, scope)|
      ensures b[(field, target, scope)] == |Pointing(c, Slots(fm'), field, target, scope)|
    {
      EdgesCount(c, fm, |Slots(fm)|, field, target, scope);
      EdgesCount(c, fm', |Slots(fm')|, field, target, scope);
      assert Slots(fm)[..|Slots(fm)|] == Slots(fm) && Slots(fm')[..|Slots(fm')|] == Slots(fm');
    }
    if ReferAlike(c, fm, fm') {
      forall e: (Field, string, Option<string>)
        ensures a[e] == b[e]
      {
        assert a[(e.0, e.1, e.2)] == b[(e.0, e.1, e.2)];
      }
    }
  }

  // ----- a plan without blockers ------------------------------------------------------------------------

  // A member may be collapsed onto the kept record: nobody else has its identifier, it is still in
  // its lifecycle and in no lineage, and says the same as the kept record.
  ghost predicate MayCollapse(c: Setup, p: Path, k: Path)
    requires p in c.repo && k in c.repo
  {
    && (forall q | q in c.repo && c.Id(q) == c.Id(p) :: q == p)
    && c.Fm(p).status in {Status.Approved, Draft, Proposed}
    && c.Fm(p).supersededBy in {None, Some("")} && c.Fm(p).supersedesId in {None, Some("")}
    && c.Fm(p).sourceType == c.Fm(k).sourceType && c.Fm(p).confidence == c.Fm(k).confidence
    && (c.repo[p].validation == None || c.repo[p].validation == c.repo[k].validation)
    && ReferAlike(c, c.Fm(p), c.Fm(k))
  }

  // The kept record speaks for its group: it is approved and current if any member is approved, and
  // of their common status otherwise.
  ghost predicate SpeaksForAll(c: Setup, k: Path)
    requires k in c.repo
  {
    if exists p | p in c.repo :: Collapses(c, p, k) && c.Fm(p).status == Status.Approved then
      && c.Fm(k).status == Status.Approved
      && var key := SuccessorKey(c.repo[k].record);
         !(key in c.before && c.before[key] in c.repo && c.Fm(c.before[key]).status == Status.Approved)
    else
      forall p | p in c.repo && Collapses(c, p, k) :: c.Fm(p).status == c.Fm(k).status
  }

  // In this field a rewritten record names neither itself nor, newly, nothing, and a chain of
  // ancestors or successors comes to an end.
  ghost predicate WellChanged(c: Setup, p: Path, field: Field)
    requires p in c.repo
  {
    && !NamesItself(c, p, field)
    && (forall target, scope :: !GoesMissing(c, p, field, target, scope))
    && (field == Parent || field == SupersededBy || field == Supersedes ==> !c.Circles(p, field))
  }

  ghost predicate Faultless(c: Setup) {
    && (forall body | body in c.canonical ::
          Collapses(c, c.canonical[body], c.canonical[body]) && c.repo[c.canonical[body]].body == body)
    && (forall p, k | Collapses(c, p, k) :: MayCollapse(c, p, k))
    && (forall k | Collapses(c, k, k) :: SpeaksForAll(c, k))
    && forall p, field | p in c.repo && c.Changed(p) :: WellChanged(c, p, field)
  }

  lemma {:induction false} MemberFaultless(c: Setup, p: Path, k: Path)
    requires Collapses(c, p, k)
    ensures MayCollapse(c, p, k) <==>
              && !c.Blocked(AmbiguousIdentity(p)) && !c.Blocked(ConflictingLifecycle(p))
              && !c.Blocked(ExistingSupersession(p)) && !c.Blocked(SourceConflict(p))
              && !c.Blocked(ValidationConflict(p)) && !c.Blocked(OutboundConflict(p))
  {
    hide Setup.KeepOf, Setup.Blocked, Setup.SameOutbound, ReferAlike;
    KeepExactly(c, p, k);
    MemberBlocks(c, p, k);
    OutboundExactly(c, c.Fm(p), c.Fm(k));
  }

  lemma {:induction false} MemberBlocks(c: Setup, p: Path, k: Path)
    requires p in c.repo && k in c.repo && c.KeepOf(p) == Some(k)
    ensures c.Blocked(AmbiguousIdentity(p)) <==> !c.Unique(c.Id(p))
    ensures c.Blocked(ConflictingLifecycle(p)) <==> c.Fm(p).status !in {Status.Approved, Draft, Proposed}
    ensures c.Blocked(ExistingSupersession(p)) <==> Truthy(c.Fm(p).supersededBy) || Truthy(c.Fm(p).supersedesId)
    ensures c.Blocked(SourceConflict(p)) <==>
              c.Fm(p).sourceType != c.Fm(k).sourceType || c.Fm(p).confidence != c.Fm(k).confidence
    ensures c.Blocked(ValidationConflict(p)) <==>
              c.repo[p].validation.Some? && c.repo[p].validation != c.repo[k].validation
    ensures c.Blocked(OutboundConflict(p)) <==> !c.SameOutbound(c.Fm(p), c.Fm(k))
  {
    hide Setup.Unique, Setup.Changed, Setup.GroupApproved, Setup.Visible, Setup.SameOutbound, Setup.Circles,
      Setup.After, Setup.KeepOf;
  }

  lemma {:induction false} KeptFaultless(c: Setup, k: Path)
    requires Collapses(c, k, k)
    ensures SpeaksForAll(c, k) <==> !c.Blocked(NotCurrentTruth(k)) && !c.Blocked(MixedLifecycle(k))
  {
    hide Setup.KeepOf, Collapses, SuccessorKey;
    forall p
      ensures c.KeepOf(p) == Some(k) <==> Collapses(c, p, k)
    {
      KeepExactly(c, p, k);
    }
    CollapsesWithin(c);
    if p :| p in c.repo && Collapses(c, p, k) && c.Fm(p).status == Status.Approved {
      assert c.KeepOf(p) == Some(k) && c.Approved(p);
    } else {
      assert !c.GroupApproved(k);
    }
  }

  lemma {:induction false} ChangedFaultless(c: Setup, p: Path, field: Field)
    requires p in c.repo && c.Changed(p)
    ensures WellChanged(c, p, field) <==>
              && !c.Blocked(SelfLink(p, field)) && !c.Blocked(NewlyUnresolved(p, field))
              && !c.Blocked(CyclicChain(p, field))
  {
    hide Setup.Changed, Setup.Circles, NamesItself, GoesMissing;
    SelfLinksExactly(c, p, field);
    UnresolvedExactly(c, p, field);
  }

  // Who a blocker can be about.
  lemma {:induction false} BlockersAbout(c: Setup, b: Blocker)
    requires c.Blocked(b)
    ensures match b
            case InvalidSelection(body) => body in c.canonical
            case NotCurrentTruth(k) => Collapses(c, k, k)
            case MixedLifecycle(k) => Collapses(c, k, k)
            case SelfLink(p, _) => p in c.repo && c.Changed(p)
            case CyclicChain(p, _) => p in c.repo && c.Changed(p)
            case NewlyUnresolved(p, _) => p in c.repo && c.Changed(p)
            case _ => exists k :: Collapses(c, b.path, k)
  {
    hide Setup.KeepOf, Setup.Changed, Slots, Collapses;
    match b {
      case InvalidSelection(_) =>
      case NotCurrentTruth(k) => KeepExactly(c, k, k);
      case MixedLifecycle(k) => KeepExactly(c, k, k);
      case SelfLink(p, _) => AfterOf(c, p);
      case CyclicChain(p, _) => AfterOf(c, p);
      case NewlyUnresolved(p, _) => AfterOf(c, p);
      case _ => KeepExactly(c, b.path, c.KeepOf(b.path).value);
    }
  }

  lemma {:induction false} InvalidExactly(c: Setup, body: string)
    requires body in c.canonical
    ensures c.Blocked(InvalidSelection(body)) <==>
              !(Collapses(c, c.canonical[body], c.canonical[body]) && c.repo[c.canonical[body]].body == body)
  {
    hide Setup.Selected, Collapses;
    SelectionExactly(c, body);
  }

  // A plan has no blockers exactly when every selection is of a group, every member may be collapsed
  // onto the kept record, which speaks for all of them, and every rewritten record is well changed.
  lemma {:induction false} ClearExactly(c: Setup)
    ensures c.Clear() <==> Faultless(c)
  {
    hide Setup.Blocked, Setup.Changed, MayCollapse, SpeaksForAll, WellChanged, Collapses;
    CollapsesWithin(c);
    if c.Clear() {
      ClearFaultless(c);
    }
    if Faultless(c) {
      forall b: Blocker
        ensures !c.Blocked(b)
      {
        if c.Blocked(b) {
          BlockersAbout(c, b);
          match b {
            case InvalidSelection(body) => InvalidExactly(c, body);
            case NotCurrentTruth(k) => KeptFaultless(c, k);
            case MixedLifecycle(k) => KeptFaultless(c, k);
            case SelfLink(p, field) => ChangedFaultless(c, p, field);
            case CyclicChain(p, field) => ChangedFaultless(c, p, field);
            case NewlyUnresolved(p, field) => ChangedFaultless(c, p, field);
            case _ =>
              var k :| Collapses(c, b.path, k);
              MemberFaultless(c, b.path, k);
          }
        }
      }
    }
  }

  lemma {:induction false} ClearFaultless(c: Setup)
    requires c.Clear()
    ensures Faultless(c)
  {
    hide Setup.Blocked, Setup.Changed, MayCollapse, SpeaksForAll, WellChanged, Collapses;
    CollapsesWithin(c);
    forall body | body in c.canonical
      ensures Collapses(c, c.canonical[body], c.canonical[body]) && c.repo[c.canonical[body]].body == body
    {
      InvalidExactly(c, body);
    }
    forall p, k | Collapses(c, p, k)
      ensures MayCollapse(c, p, k)
    {
      MemberFaultless(c, p, k);
    }
    forall k | Collapses(c, k, k)
      ensures SpeaksForAll(c, k)
    {
      KeptFaultless(c, k);
    }
    forall p, field | p in c.repo && c.Changed(p)
      ensures WellChanged(c, p, field)
    {
      ChangedFaultless(c, p, field);
    }
  }

  // ----- where references lead ---------------------------------------------------------------------------

  // What is found now is what was found then, or the record it was collapsed onto.
  ghost predicate Carried(c: Setup, was: Option<Path>, now: Option<Path>) {
    match was
    case None => now == None
    case Some(q) =>
      now.Some? && (Collapses(c, q, now.value) || (now.value == q && forall k :: !Collapses(c, q, k)))
  }

  lemma {:induction false} ImageCarries(c: Setup, was: Option<Path>)
    ensures Carried(c, was, c.Image(was))
  {
    hide Setup.KeepOf, Collapses;
    if was.Some? {
      forall k
        ensures c.KeepOf(was.value) == Some(k) <==> Collapses(c, was.value, k)
      {
        KeepExactly(c, was.value, k);
      }
    }
  }

  // A field that named a target still names one, and leads to where it should.
  ghost predicate FieldCarried(
      c: Setup, was: Option<string>, scope: Option<string>, now: Option<string>, scope': Option<string>)
  {
    && (was.Some? && was.value != "" <==> now.Some? && now.value != "")
    && (was.Some? && was.value != "" && now.Some? ==>
          Carried(c, Find(c.before, scope, was.value), Find(c.later, scope', now.value)))
  }

  lemma {:induction false} SlotCarried(c: Setup, p: Path, k: nat)
    requires p in c.repo && k < |Slots(c.Fm(p))| && LeadsToImage(c, p, k)
    ensures var s, t := Was(c, p, k), Becomes(c, p, k);
            && (s.Live() <==> t.Live())
            && (s.Live() && t.Live() ==>
                  Carried(c, Find(c.before, s.scope, s.target.value), Find(c.later, t.scope, t.target.value)))
  {
    hide Was, Becomes, Slots, Carried, Find, Resolve;
    var s, t := Was(c, p, k), Becomes(c, p, k);
    if s.Live() && t.Live() {
      FindIsResolve(c.before, s.scope, s.target.value);
      FindIsResolve(c.later, t.scope, t.target.value);
      ImageCarries(c, Resolve(c.before, s.scope, s.target.value));
    }
  }

  // The five kinds of references of a remaining record lead where they led, or to the kept record
  // of its group; what else it says stays.
  lemma {:induction false} FieldsCarried(c: Setup, p: Path)
    requires c.Sane() && c.Redirected() && c.Clear() && c.Survives(p) && !Stray(c, p)
    ensures var fm, fm' := c.Fm(p), c.After(p).record.fm;
            && FieldCarried(c, fm.parentId, if fm.parentId == fm.supersedesId then fm.supersedesScope else None,
                            fm'.parentId, if fm'.parentId == fm'.supersedesId then fm'.supersedesScope else None)
            && FieldCarried(c, fm.intentRef, None, fm'.intentRef, None)
            && FieldCarried(c, fm.supersededBy, fm.supersededScope, fm'.supersededBy, fm'.supersededScope)
            && FieldCarried(c, fm.supersedesId, fm.supersedesScope, fm'.supersedesId, fm'.supersedesScope)
            && |fm'.relationships| == |fm.relationships|
            && (forall i | 0 <= i < |fm.relationships| ::
                  && fm'.relationships[i].kind == fm.relationships[i].kind
                  && Carried(c, Find(c.before, None, fm.relationships[i].target),
                             Find(c.later, None, fm'.relationships[i].target)))
            && fm' == fm.(parentId := fm'.parentId, intentRef := fm'.intentRef, supersededBy := fm'.supersededBy,
                          supersedesId := fm'.supersedesId, relationships := fm'.relationships,
                          metadata := fm'.metadata)
            && (!c.Kept(p) ==> fm'.metadata == fm.metadata)
            && c.After(p).record.content == c.repo[p].record.content && c.After(p).body == c.repo[p].body
            && c.After(p).validation == c.repo[p].validation
  {
    hide Setup.Sane, Setup.Redirected, Setup.Clear, Setup.KeepOf, Stray, LeadsToImage, Carried, Find, Setup.NewTarget,
      Setup.Note;
    ReferencesPreserved(c, p);
    SameSlots(c, p);
    forall k | 0 <= k < |Slots(c.Fm(p))|
      ensures var s, t := Was(c, p, k), Becomes(c, p, k);
              && (s.Live() <==> t.Live())
              && (s.Live() && t.Live() ==>
                    Carried(c, Find(c.before, s.scope, s.target.value), Find(c.later, t.scope, t.target.value)))
    {
      assert LeadsToImage(c, p, k);
      SlotCarried(c, p, k);
    }
    var fm, fm' := c.Fm(p), c.After(p).record.fm;
    assert Was(c, p, 0) == Slots(fm)[0] && Becomes(c, p, 0) == Slots(fm')[0];
    assert Was(c, p, 1) == Slots(fm)[1] && Becomes(c, p, 1) == Slots(fm')[1];
    assert Was(c, p, 2) == Slots(fm)[2] && Becomes(c, p, 2) == Slots(fm')[2];
    assert Was(c, p, 3) == Slots(fm)[3] && Becomes(c, p, 3) == Slots(fm')[3];
    forall i | 0 <= i < |fm.relationships|
      ensures && fm'.relationships[i].kind == fm.relationships[i].kind
              && Carried(c, Find(c.before, None, fm.relationships[i].target),
                         Find(c.later, None, fm'.relationships[i].target))
    {
      assert Was(c, p, 4 + i) == Slots(fm)[4 + i] && Becomes(c, p, 4 + i) == Slots(fm')[4 + i];
    }
  }
}
