// What collapsing the groups keeps: outbound edges, acyclic chains and governed truth.
module Collapse {
  import opened Base
  import opened Duplicates
  import G = Graphs
  import opened Quotient
  import opened Records

  // ----- outbound edges ----------------------------------------------------------------------

  // Field, file led to, and scope of each reference, as the migration should leave them.
  function Led(c: Setup, fm: Frontmatter, n: nat): seq<(Field, Option<Path>, Option<string>)>
    requires n <= |Slots(fm)|
  {
    if n == 0 then []
    else if !Slots(fm)[n - 1].Live() then Led(c, fm, n - 1)
    else Led(c, fm, n - 1) + [LedBy(c, Slots(fm)[n - 1].field, Slots(fm)[n - 1].target.value, Slots(fm)[n - 1].scope)]
  }

  function LedBy(c: Setup, field: Field, target: string, scope: Option<string>): (Field, Option<Path>, Option<string>) {
    (field, c.Image(Resolve(c.before, scope, target)), scope)
  }

  // And as it does leave them.
  function Leads(c: Setup, fm: Frontmatter, n: nat): seq<(Field, Option<Path>, Option<string>)>
    requires n <= |Slots(fm)|
  {
    if n == 0 then []
    else if !Slots(fm)[n - 1].Live() then Leads(c, fm, n - 1)
    else
      var s := Slots(fm)[n - 1];
      Leads(c, fm, n - 1) + [(s.field, Resolve(c.later, s.scope, s.target.value), s.scope)]
  }

  function LedAll(c: Setup, edges: seq<(Field, string, Option<string>)>): seq<(Field, Option<Path>, Option<string>)> {
    Map((e: (Field, string, Option<string>)) => LedBy(c, e.0, e.1, e.2), edges)
  }

  function Map<A, B>(f: A -> B, s: seq<A>): seq<B> {
    seq(|s|, i requires 0 <= i < |s| => f(s[i]))
  }

  lemma {:induction false} Without<A>(s: seq<A>, i: nat)
    requires i < |s|
    ensures multiset(s) == multiset(s[..i] + s[i + 1..]) + multiset{s[i]}
  {
    assert s == s[..i] + ([s[i]] + s[i + 1..]);
  }

  lemma {:induction false} MapCut<A, B>(f: A -> B, s: seq<A>, i: nat)
    requires i < |s|
    ensures Map(f, s[..i] + s[i + 1..]) == Map(f, s)[..i] + Map(f, s)[i + 1..]
  {
  }

  lemma {:induction false} MapWithout<A, B>(f: A -> B, s: seq<A>, i: nat)
    requires i < |s|
    ensures multiset(s) == multiset(s[..i] + s[i + 1..]) + multiset{s[i]}
    ensures multiset(Map(f, s)) == multiset(Map(f, s[..i] + s[i + 1..])) + multiset{f(s[i])}
  {
    Without(s, i);
    Without(Map(f, s), i);
    MapCut(f, s, i);
  }

  lemma {:induction false} MapPermuted<A, B>(f: A -> B, a: seq<A>, b: seq<A>)
    requires multiset(a) == multiset(b)
    ensures multiset(Map(f, a)) == multiset(Map(f, b))
  {
    hide Map;
    if a == [] {
      assert |multiset(a)| == |multiset(b)|;
      assert b == [];
    } else {
      assert a[0] in multiset(a);
      var i := Occurs(b, a[0]);
      MapWithout(f, a, 0);
      MapWithout(f, b, i);
      Cancel(multiset(a[..0] + a[1..]), multiset(b[..i] + b[i + 1..]), a[0]);
      assert a[..0] + a[1..] == a[1..];
      MapPermuted(f, a[1..], b[..i] + b[i + 1..]);
    }
  }

  lemma {:induction false} Occurs<A>(s: seq<A>, x: A) returns (i: nat)
    requires x in multiset(s)
    ensures i < |s| && s[i] == x
  {
    i :| i < |s| && s[i] == x;
  }

  // The comparison rewrites every removed identifier, whatever its scope; no lookup can tell.
  lemma {:induction false} EdgeLed(c: Setup, s: Slot)
    requires c.Sane() && c.Redirected() && Distinct(c) && s.Live()
    ensures LedBy(c, s.field, s.target.value, s.scope) == LedBy(c, c.Edge(s).0, c.Edge(s).1, c.Edge(s).2)
  {
    hide Setup.KeepOf;
    var t := s.target.value;
    if t in c.redirects {
      var p := RedirectsOf(c, t);
      KeptSurvives(c, p);
      UniqueFound(c, p, s.scope);
      UniqueFound(c, c.KeepOf(p).value, s.scope);
    }
  }

  lemma {:induction false} LedEdges(c: Setup, fm: Frontmatter, n: nat)
    requires c.Sane() && c.Redirected() && Distinct(c) && n <= |Slots(fm)|
    ensures Led(c, fm, n) == LedAll(c, c.Edges(fm, n))
  {
    hide LedBy, Slots, Setup.Edge;
    if n > 0 {
      LedEdges(c, fm, n - 1);
      if Slots(fm)[n - 1].Live() {
        EdgeLed(c, Slots(fm)[n - 1]);
      }
    }
  }

  // A kept file has no ancestor of its own, so its references keep their scopes.
  lemma {:induction false} KeptScopes(c: Setup, k: Path, i: nat)
    requires c.Sane() && c.Redirected() && c.Clear() && c.Kept(k) && k in c.repo && i < |Slots(c.Fm(k))|
    ensures Becomes(c, k, i).scope == Was(c, k, i).scope
  {
    hide Slots, Was, Becomes, Setup.Clear, Setup.KeepOf;
    SlotRedirected(c, k, i);
    NoEmptyRedirect(c);
    NoLineage(c, k);
  }

  lemma {:induction false} NoLineage(c: Setup, p: Path)
    requires c.Clear() && p in c.repo && c.KeepOf(p).Some?
    ensures !Truthy(c.Fm(p).supersededBy) && !Truthy(c.Fm(p).supersedesId)
  {
    assert !c.Blocked(ExistingSupersession(p));
  }

  lemma {:induction false} NoEmptyRedirect(c: Setup)
    requires c.Sane() && c.Redirected()
    ensures "" !in c.redirects && forall t | t in c.redirects :: c.redirects[t] != ""
  {
    hide Setup.KeepOf;
    forall t | t in c.redirects
      ensures t != "" && c.redirects[t] != ""
    {
      var p := RedirectsOf(c, t);
      KeptSurvives(c, p);
    }
  }

  lemma {:induction false} KeptLeads(c: Setup, k: Path, n: nat)
    requires c.Sane() && c.Redirected() && c.Clear() && k in c.repo && c.Kept(k) && n <= |Slots(c.Fm(k))|
    ensures |Slots(c.After(k).record.fm)| == |Slots(c.Fm(k))|
    ensures Leads(c, c.After(k).record.fm, n) == Led(c, c.Fm(k), n)
  {
    hide Slots, Setup.Clear, Setup.After, Setup.KeepOf, StrayAt;
    SameSlots(c, k);
    if n > 0 {
      KeptLeads(c, k, n - 1);
      KeptScopes(c, k, n - 1);
      SlotPreserved(c, k, n - 1);
    }
  }

  // Every reference of a removed duplicate is carried by its kept file, with the same field and
  // scope, leading to the image of the file it led to; and the kept file gains no other.
  lemma {:induction false} OutboundCarried(c: Setup, p: Path)
    requires c.Sane() && c.Redirected() && c.Clear() && p in c.repo && c.KeepOf(p).Some?
    ensures var k := c.KeepOf(p).value;
            && k in c.repo
            && multiset(Leads(c, c.After(k).record.fm, |Slots(c.After(k).record.fm)|))
               == multiset(Led(c, c.Fm(p), |Slots(c.Fm(p))|))
  {
    hide Slots, Setup.Clear, Setup.After, Setup.Edges, Led, Leads, LedAll, Setup.KeepOf;
    var k := c.KeepOf(p).value;
    KeptSurvives(c, p);
    ClearIsDistinct(c);
    KeptLeads(c, k, |Slots(c.Fm(k))|);
    LedEdges(c, c.Fm(p), |Slots(c.Fm(p))|);
    LedEdges(c, c.Fm(k), |Slots(c.Fm(k))|);
    SameEdges(c, p);
  }

  lemma {:induction false} SameEdges(c: Setup, p: Path)
    requires c.Clear() && p in c.repo && c.KeepOf(p).Some?
    ensures var k := c.KeepOf(p).value;
            && k in c.repo
            && multiset(LedAll(c, c.Edges(c.Fm(p), |Slots(c.Fm(p))|)))
               == multiset(LedAll(c, c.Edges(c.Fm(k), |Slots(c.Fm(k))|)))
  {
    hide LedBy, Slots;
    var k := c.KeepOf(p).value;
    assert !c.Blocked(OutboundConflict(p));
    MapPermuted((e: (Field, string, Option<string>)) => LedBy(c, e.0, e.1, e.2),
                c.Edges(c.Fm(p), |Slots(c.Fm(p))|), c.Edges(c.Fm(k), |Slots(c.Fm(k))|));
  }

  // ----- what a removed record may differ in ---------------------------------------------------

  predicate Standing(s: Status) {
    s == Status.Approved || s == Draft || s == Proposed
  }

  // Removing a duplicate loses no body, source, confidence or validation decision, and no status
  // but an unapproved one in favour of the approved current truth.
  lemma {:induction false} RemovalLosesNothing(c: Setup, p: Path)
    requires c.Clear() && p in c.repo && c.KeepOf(p).Some?
    ensures var k := c.KeepOf(p).value;
            && k in c.repo && c.repo[k].body == c.repo[p].body && k.scope == p.scope
            && c.Fm(k).sourceType == c.Fm(p).sourceType && c.Fm(k).confidence == c.Fm(p).confidence
            && (c.repo[p].validation.Some? ==> c.repo[k].validation == c.repo[p].validation)
            && Standing(c.Fm(p).status)
            && (c.Fm(p).status == c.Fm(k).status || (c.Approved(k) && c.Visible(k)))
  {
    hide Setup.Unique, Setup.Changed, Setup.SameOutbound, Setup.Circles, Setup.After, Setup.Retired;
    var k := c.KeepOf(p).value;
    KeptSurvives(c, p);
    assert !c.Blocked(SourceConflict(p));
    assert !c.Blocked(ValidationConflict(p));
    assert !c.Blocked(ConflictingLifecycle(p));
    assert !c.Blocked(NotCurrentTruth(k));
    assert !c.Blocked(MixedLifecycle(k));
  }

  // ----- chains --------------------------------------------------------------------------------

  lemma {:induction false} UntouchedSame(c: Setup, p: Path)
    requires c.Survives(p) && !c.Changed(p)
    ensures c.After(p) == c.repo[p]
  {
    hide Setup.KeepOf, Setup.Touched, Setup.Redirect, Slots;
    RedirectsNothing(c, c.Fm(p));
  }

  lemma {:induction false} RedirectsNothing(c: Setup, fm: Frontmatter)
    requires !c.Touched(fm)
    ensures c.Redirect(fm) == fm
  {
    hide Setup.Redirects, Slots;
    SlotList(fm);
    assert forall k | 0 <= k < |Slots(fm)| :: !c.Redirects(Slots(fm)[k].target, Slots(fm)[k].scope);
    forall i | 0 <= i < |fm.relationships|
      ensures !c.Redirects(Some(fm.relationships[i].target), None)
    {
      assert !c.Redirects(Slots(fm)[4 + i].target, Slots(fm)[4 + i].scope);
    }
    assert c.Redirect(fm).relationships == fm.relationships;
  }

  lemma {:induction false} SlotList(fm: Frontmatter)
    ensures Slots(fm)[0] == Slot(Parent, fm.parentId, ParentScope(fm))
    ensures Slots(fm)[1] == Slot(Intent, fm.intentRef, None)
    ensures Slots(fm)[2] == Slot(SupersededBy, fm.supersededBy, fm.supersededScope)
    ensures Slots(fm)[3] == Slot(Supersedes, fm.supersedesId, fm.supersedesScope)
    ensures forall i | 0 <= i < |fm.relationships| ::
              Slots(fm)[4 + i] == Slot(Rel(fm.relationships[i].kind), Some(fm.relationships[i].target), None)
  {
  }

  ghost function ChangedIds(c: Setup): set<string> {
    set p | p in c.repo && c.Changed(p) :: c.Id(p)
  }

  lemma {:induction false} SameIds(c: Setup)
    ensures c.AfterRepo().Keys <= c.repo.Keys
    ensures forall p | c.Changed(p) :: p in c.repo
    ensures forall p | p in c.AfterRepo() :: c.AfterRepo()[p].record.fm.id == c.Id(p)
    ensures forall p | p in c.AfterRepo() && !c.Changed(p) :: c.AfterRepo()[p] == c.repo[p]
  {
    forall p | p in c.AfterRepo()
      ensures c.AfterRepo()[p].record.fm.id == c.Id(p)
      ensures !c.Changed(p) ==> c.AfterRepo()[p] == c.repo[p]
    {
      if !c.Changed(p) {
        UntouchedSame(c, p);
      }
    }
  }

  // An unchanged file links where it linked.
  lemma {:induction false} LinkKept(c: Setup, field: Field, x: string)
    requires c.AfterRepo().Keys <= c.repo.Keys
    requires forall p | p in c.AfterRepo() :: c.AfterRepo()[p].record.fm.id == c.Id(p)
    requires forall p | p in c.AfterRepo() && !c.Changed(p) :: c.AfterRepo()[p] == c.repo[p]
    requires x in c.Links(c.AfterRepo(), field) && x !in ChangedIds(c)
    ensures x in c.Links(c.repo, field) && c.Links(c.repo, field)[x] == c.Links(c.AfterRepo(), field)[x]
  {
    hide Setup.AfterRepo, Setup.Changed;
    var p :| p in c.AfterRepo() && c.Id(p) == x && c.Unique(x) && c.Link(c.AfterRepo()[p].record.fm, field).Some?
             && c.Links(c.AfterRepo(), field)[x] == c.Link(c.AfterRepo()[p].record.fm, field).value;
    assert !c.Changed(p);
  }

  lemma {:induction false} CircleFound(c: Setup, field: Field)
    requires forall p | c.Changed(p) :: p in c.repo
    ensures (exists p :: c.Circles(p, field))
            <==> c.AfterRepo().Keys <= c.repo.Keys
                 && (forall p | p in c.AfterRepo() :: c.AfterRepo()[p].record.fm.id == c.Id(p))
                 && exists x | x in ChangedIds(c) :: G.Chase(c.Links(c.AfterRepo(), field), x, {})
  {
    hide Setup.AfterRepo, Setup.Changed, Setup.Links, G.Chase;
    SameIds(c);
    forall p | c.Circles(p, field)
      ensures c.Id(p) in ChangedIds(c)
    {
    }
    forall x | x in ChangedIds(c) && G.Chase(c.Links(c.AfterRepo(), field), x, {})
      ensures exists p :: c.Circles(p, field)
    {
      var p :| p in c.repo && c.Changed(p) && c.Id(p) == x;
      assert c.Circles(p, field);
    }
  }

  // An acyclic chain field stays acyclic exactly when the walks from the changed files find no
  // cycle, although the chains of unchanged files are never walked.
  lemma {:induction false} ChainsStayAcyclic(c: Setup, field: Field)
    requires G.Acyclic(c.Links(c.repo, field))
    ensures c.AfterRepo().Keys <= c.repo.Keys
    ensures forall p | p in c.AfterRepo() :: c.AfterRepo()[p].record.fm.id == c.Id(p)
    ensures G.Acyclic(c.Links(c.AfterRepo(), field)) <==> forall p :: !c.Circles(p, field)
  {
    hide Setup.AfterRepo, Setup.Changed, Setup.Links, Setup.Circles, G.Acyclic, G.Chase, G.Loops;
    SameIds(c);
    forall x | x in c.Links(c.AfterRepo(), field) && x !in ChangedIds(c)
      ensures x in c.Links(c.repo, field) && c.Links(c.repo, field)[x] == c.Links(c.AfterRepo(), field)[x]
    {
      LinkKept(c, field, x);
    }
    G.ChangedWalksSuffice(c.Links(c.repo, field), c.Links(c.AfterRepo(), field), ChangedIds(c));
    CircleFound(c, field);
  }

  // So a plan without blockers keeps every acyclic chain field acyclic.
  lemma {:induction false} ClearKeepsAcyclic(c: Setup, field: Field)
    requires c.Clear() && c.Chained(field) && G.Acyclic(c.Links(c.repo, field))
    ensures c.AfterRepo().Keys <= c.repo.Keys
    ensures forall p | p in c.AfterRepo() :: c.AfterRepo()[p].record.fm.id == c.Id(p)
    ensures G.Acyclic(c.Links(c.AfterRepo(), field))
  {
    hide Setup.Clear, Setup.Links, Setup.Circles, G.Acyclic, Setup.AfterRepo;
    ChainsStayAcyclic(c, field);
    NoCircles(c, field);
  }

  lemma {:induction false} NoCircles(c: Setup, field: Field)
    requires c.Clear() && c.Chained(field)
    ensures forall p :: !c.Circles(p, field)
  {
    hide Setup.Links, Setup.Circles, Setup.AfterRepo, Setup.Changed, Setup.KeepOf, Setup.Visible;
    forall p
      ensures !c.Circles(p, field)
    {
      assert !c.Blocked(CyclicChain(p, field));
    }
  }
}
