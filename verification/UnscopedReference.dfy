// A plan without blockers that changes who is visible: an empty scope is no scope to the lookup,
// but not to the redirection.
module UnscopedReference {
  import opened Base
  import opened Collapse
  import opened Duplicates
  import G = Graphs
  import opened GovernedTruth
  import opened Quotient
  import opened Records

  const SCOPE := "s"
  const KEPT := Path(SCOPE, "observations", "k")
  const GONE := Path(SCOPE, "observations", "r")
  const HELD := Path(SCOPE, "observations", "e")

  function Plain(id: string, backlink: Option<string>, scope: Option<string>, body: string): Entry {
    Entry(
      Record(
        Frontmatter(id, None, backlink, scope, None, None, "agent", 0.5, Observation, Status.Approved, None,
                    "2026-01-01", [], Metadata(None, None, [], map[])),
        body),
      body, None)
  }

  // Two duplicates, and a record whose backlink names the removed one under an empty scope.
  function Unindexed(): Setup {
    Setup(
      map[KEPT := Plain("k", None, None, "b"), GONE := Plain("r", None, None, "b"),
          HELD := Plain("e", Some("r"), Some(""), "x")],
      map[], map[], SCOPE, map["b" := KEPT], "audit", map["r" := "k"])
  }

  const SCAN := [KEPT, GONE, HELD]

  function EmptyScopeSetup(): Setup {
    Unindexed().(before := Locate(SCAN, Unindexed().repo), later := Locate(SCAN, Unindexed().AfterRepo()))
  }

  // That setup, with its indexes.
  ghost predicate Leaky(c: Setup) {
    c.(before := map[], later := map[]) == Unindexed() && c.before == Locate(SCAN, c.repo)
      && c.later == Locate(SCAN, c.AfterRepo())
  }

  lemma {:induction false} SetupIsLeaky()
    ensures Leaky(EmptyScopeSetup())
  {
    hide Setup.AfterRepo, Locate;
    IndexesDoNotDecide(EmptyScopeSetup(), Unindexed());
  }

  lemma {:induction false} EmptyScopeGroups(c: Setup)
    requires Leaky(c)
    ensures c.Selected("b") && c.KeepOf(KEPT) == c.KeepOf(GONE) == Some(KEPT) && c.KeepOf(HELD) == None
    ensures c.repo.Keys == {KEPT, GONE, HELD} && c.Id(KEPT) == "k" && c.Id(GONE) == "r" && c.Id(HELD) == "e"
  {
    hide Locate, Setup.AfterRepo;
    assert GONE.file != KEPT.file && HELD.file[0] == 'e';
    assert KEPT in c.Members("b") && GONE in c.Members("b");
    assert "x" !in c.canonical;
  }

  lemma {:induction false} ThreeFiles(c: Setup)
    requires Leaky(c)
    ensures KEPT != GONE && KEPT != HELD && GONE != HELD
    ensures c.Id(KEPT) != c.Id(GONE) && c.Id(KEPT) != c.Id(HELD) && c.Id(GONE) != c.Id(HELD)
    ensures Bare(c.Id(KEPT)) && Bare(c.Id(GONE)) && Bare(c.Id(HELD))
  {
    hide Locate, Setup.AfterRepo;
    EmptyScopeGroups(c);
    assert KEPT.file[0] == 'k' && GONE.file[0] == 'r' && HELD.file[0] == 'e';
    assert c.Id(KEPT)[0] == 'k' && c.Id(GONE)[0] == 'r' && c.Id(HELD)[0] == 'e';
  }

  lemma {:induction false} ScannedOnce(c: Setup)
    requires Leaky(c)
    ensures c.Indexed(SCAN)
  {
    hide Locate, Setup.AfterRepo, Setup.KeepOf;
    ThreeFiles(c);
    EmptyScopeGroups(c);
    assert SCAN[0] == KEPT && SCAN[1] == GONE && SCAN[2] == HELD;
  }

  lemma {:induction false} LeakySane(c: Setup)
    requires Leaky(c)
    ensures c.Sane()
  {
    hide Leaky, Bare, Setup.KeepOf, Setup.Indexed, Setup.Selected;
    EmptyScopeGroups(c);
    ThreeFiles(c);
    ScannedOnce(c);
  }

  lemma {:induction false} AllUnique(c: Setup)
    requires Leaky(c)
    ensures c.Sane() && forall p | p in c.repo :: c.Unique(c.Id(p))
  {
    hide Leaky, Bare, Setup.KeepOf, Setup.Sane, Setup.Selected;
    EmptyScopeGroups(c);
    ThreeFiles(c);
    LeakySane(c);
  }

  lemma {:induction false} OneRedirect(c: Setup)
    requires Leaky(c)
    ensures c.redirects == map["r" := "k"]
  {
  }

  lemma {:induction false} RightRedirects(c: Setup)
    requires Leaky(c)
    ensures c.Redirected()
  {
    hide Leaky, Locate, Setup.AfterRepo, Setup.KeepOf, Setup.Selected;
    EmptyScopeGroups(c);
    ThreeFiles(c);
    OneRedirect(c);
    assert c.Removed(GONE) && c.redirects["r"] == c.Id(c.KeepOf(GONE).value);
  }

  lemma {:induction false} OnlyKeptChanges(c: Setup)
    requires Leaky(c)
    ensures forall p :: c.Changed(p) <==> p == KEPT
    ensures c.Redirect(c.Stamped(KEPT)) == c.Stamped(KEPT)
  {
    hide Leaky, Setup.KeepOf, Setup.Touched, Setup.Redirect, Setup.Stamped;
    EmptyScopeGroups(c);
    ThreeFiles(c);
    HeldUntouched(c);
    KeptUnredirected(c);
  }

  lemma {:induction false} HeldUntouched(c: Setup)
    requires Leaky(c) && HELD in c.repo
    ensures !c.Touched(c.Fm(HELD))
  {
    hide Locate, Setup.AfterRepo, Setup.KeepOf;
    assert Slots(c.Fm(HELD))
           == [Slot(Parent, None, None), Slot(Intent, None, None), Slot(SupersededBy, Some("r"), Some("")),
               Slot(Supersedes, None, None)];
  }

  lemma {:induction false} KeptUnredirected(c: Setup)
    requires Leaky(c) && KEPT in c.repo
    ensures c.Redirect(c.Stamped(KEPT)) == c.Stamped(KEPT)
  {
    hide Locate, Setup.AfterRepo, Setup.KeepOf, Setup.Note;
    assert c.Redirect(c.Stamped(KEPT)).relationships == [];
  }

  lemma {:induction false} NoReferences(c: Setup, fm: Frontmatter)
    requires fm.parentId == fm.intentRef == fm.supersededBy == fm.supersedesId == None && fm.relationships == []
    ensures forall k | 0 <= k < |Slots(fm)| :: !Slots(fm)[k].Live()
    ensures c.Edges(fm, |Slots(fm)|) == []
  {
    NoEdges(c, fm, |Slots(fm)|);
  }

  lemma {:induction false} NoEdges(c: Setup, fm: Frontmatter, n: nat)
    requires n <= |Slots(fm)| && forall k | 0 <= k < n :: !Slots(fm)[k].Live()
    ensures c.Edges(fm, n) == []
  {
    if n > 0 {
      NoEdges(c, fm, n - 1);
    }
  }

  lemma {:induction false} NothingUnderEmptyKey(c: Setup)
    requires c.Sane()
    ensures "" !in c.before
  {
    LocatedUnder(c, "");
    assert forall p | p in c.repo :: |Qualified(p.scope, c.Id(p))| > 0;
  }

  // The kept file ends with no reference and no link.
  lemma {:induction false} KeptIsQuiet(c: Setup)
    requires Leaky(c)
    ensures forall k | 0 <= k < |Slots(c.After(KEPT).record.fm)| :: !Slots(c.After(KEPT).record.fm)[k].Live()
    ensures forall field :: c.Link(c.After(KEPT).record.fm, field) == None
  {
    OnlyKeptChanges(c);
    EmptyScopeGroups(c);
    hide Setup.Redirect, Slots, Setup.KeepOf;
    NoReferences(c, c.After(KEPT).record.fm);
  }

  lemma {:induction false} KeptIsOnNoCycle(c: Setup, field: Field)
    requires Leaky(c)
    ensures !c.Circles(KEPT, field)
  {
    hide Leaky, Setup.After, Setup.AfterRepo, Slots, Setup.Changed, EmptyScopeSetup, Setup.Sane;
    KeptIsQuiet(c);
    AllUnique(c);
    Collapsed(c);
    assert c.Id(KEPT) !in c.Links(c.AfterRepo(), field) by {
      assert forall p | p in c.AfterRepo() && c.Id(p) == c.Id(KEPT) :: p == KEPT;
    }
  }

  lemma {:induction false} Collapsed(c: Setup)
    requires Leaky(c)
    ensures KEPT in c.AfterRepo() && c.AfterRepo()[KEPT] == c.After(KEPT)
    ensures c.AfterRepo().Keys <= c.repo.Keys
    ensures forall p | p in c.AfterRepo() :: c.AfterRepo()[p].record.fm.id == c.Id(p)
  {
    hide Leaky, Setup.AfterRepo, Setup.KeepOf, Setup.After;
    EmptyScopeGroups(c);
    SameId(c, KEPT);
    SameIds(c);
  }

  lemma {:induction false} TwoMembers(c: Setup, p: Path)
    requires Leaky(c)
    ensures c.KeepOf(p).Some? ==> c.KeepOf(p) == Some(KEPT) && (p == KEPT || p == GONE)
    ensures c.Kept(p) ==> p == KEPT
    ensures forall body | body in c.canonical :: c.Selected(body)
  {
    hide Locate, Setup.AfterRepo;
    EmptyScopeGroups(c);
    ThreeFiles(c);
  }

  lemma {:induction false} MembersAgree(c: Setup, p: Path)
    requires Leaky(c) && (p == KEPT || p == GONE)
    ensures KEPT in c.repo && p in c.repo && c.repo[p].validation == None && c.Fm(p).status == Status.Approved
    ensures c.Fm(p).supersededBy == c.Fm(p).supersedesId == None
    ensures c.Fm(p).sourceType == c.Fm(KEPT).sourceType && c.Fm(p).confidence == c.Fm(KEPT).confidence
    ensures c.SameOutbound(c.Fm(p), c.Fm(KEPT))
  {
    hide Setup.Edges, Slots;
    NoReferences(c, c.Fm(KEPT));
    NoReferences(c, c.Fm(p));
  }

  lemma {:induction false} KeptHasNoKey(c: Setup)
    requires Leaky(c)
    ensures c.Approved(KEPT) && SuccessorKey(c.repo[KEPT].record) == ""
  {
    hide Locate, Setup.AfterRepo;
  }

  lemma {:induction false} KeptIsVisible(c: Setup)
    requires Leaky(c)
    ensures c.Visible(KEPT)
  {
    hide Leaky, Setup.Unique, Setup.Sane, SuccessorKey;
    AllUnique(c);
    KeptHasNoKey(c);
    NothingUnderEmptyKey(c);
  }

  lemma {:induction false} NothingBlocks(c: Setup)
    requires Leaky(c)
    ensures c.Clear()
  {
    hide Leaky, Slots, Setup.Changed, Setup.After, Setup.Circles, Setup.SameOutbound,
      Setup.KeepOf, Setup.Visible, Setup.Unique, Setup.Selected, Setup.LinksItself, Setup.NewlyDangles;
    forall b: Blocker
      ensures !c.Blocked(b)
    {
      if b.SelfLink? || b.CyclicChain? || b.NewlyUnresolved? {
        ChangesDoNotBlock(c, b);
      } else if !b.InvalidSelection? {
        MembersDoNotBlock(c, b);
      } else {
        TwoMembers(c, KEPT);
      }
    }
  }

  lemma {:induction false} ChangesDoNotBlock(c: Setup, b: Blocker)
    requires Leaky(c) && (b.SelfLink? || b.CyclicChain? || b.NewlyUnresolved?)
    ensures !c.Blocked(b)
  {
    hide Leaky, Slots, Setup.Changed, Setup.After, Setup.AfterRepo, Setup.Links, G.Chase, Setup.KeepOf;
    OnlyKeptChanges(c);
    KeptIsQuiet(c);
    KeptIsOnNoCycle(c, b.field);
  }

  lemma {:induction false} MembersDoNotBlock(c: Setup, b: Blocker)
    requires Leaky(c) && !b.InvalidSelection? && !b.SelfLink? && !b.CyclicChain? && !b.NewlyUnresolved?
    ensures !c.Blocked(b)
  {
    hide Leaky, Setup.KeepOf, Setup.Visible, Setup.Unique, Setup.SameOutbound;
    var p := b.path;
    TwoMembers(c, p);
    AllUnique(c);
    KeptIsVisible(c);
    if c.KeepOf(p).Some? {
      MembersAgree(c, p);
      forall q | q in c.repo && c.KeepOf(q) == Some(p)
        ensures c.Fm(q).status == Status.Approved
      {
        TwoMembers(c, q);
        MembersAgree(c, q);
      }
    }
  }

  lemma {:induction false} HeldStrays(c: Setup)
    requires Leaky(c)
    ensures c.Survives(HELD) && Stray(c, HELD) && Shifts(c, HELD) && c.Approved(HELD)
  {
    hide Leaky, Setup.Changed, Setup.KeepOf, Slots, Setup.Redirects;
    HeldBacklink(c);
    EmptyScopeGroups(c);
    ThreeFiles(c);
    OnlyKeptChanges(c);
    assert KeyOf(c, GONE, "r");
    assert StrayAt(c, HELD, 2);
  }

  lemma {:induction false} HeldBacklink(c: Setup)
    requires Leaky(c)
    ensures HELD in c.repo && GONE in c.repo && c.Approved(HELD) && c.Approved(GONE) && c.Removed(GONE)
    ensures c.Survives(HELD) && |Slots(c.Fm(HELD))| > 2
    ensures Was(c, HELD, 2) == Slot(SupersededBy, Some("r"), Some("")) && c.Fm(HELD).supersededBy == Some("r")
    ensures c.Fm(HELD).supersededScope == Some("") && !c.Redirects(Some("r"), Some(""))
    ensures SuccessorKey(c.repo[HELD].record) == "r" && Get(c.before, "r") == Some(GONE)
  {
    hide Leaky, Setup.KeepOf, Setup.Selected, Slots, Was, SuccessorKey, Setup.Redirects, Setup.Sane;
    EmptyScopeGroups(c);
    ThreeFiles(c);
    HeldFields(c);
    AllUnique(c);
    UniqueFound(c, GONE, None);
  }

  lemma {:induction false} HeldFields(c: Setup)
    requires Leaky(c)
    ensures HELD in c.repo && GONE in c.repo && c.Approved(HELD) && c.Approved(GONE) && |Slots(c.Fm(HELD))| > 2
    ensures Was(c, HELD, 2) == Slot(SupersededBy, Some("r"), Some("")) && c.Fm(HELD).supersededBy == Some("r")
    ensures c.Fm(HELD).supersededScope == Some("") && !c.Redirects(Some("r"), Some(""))
    ensures SuccessorKey(c.repo[HELD].record) == "r"
  {
    hide Locate, Setup.AfterRepo;
    assert SCOPE != "";
  }

  // The untouched record's backlink dangles afterwards, and the record it retired is current truth
  // again: the plan had no blocker.
  lemma {:induction false} EmptyScopeReference()
    ensures var c := EmptyScopeSetup();
            && c.Sane() && c.Redirected() && c.Clear() && c.Survives(HELD)
            && Stray(c, HELD) && !Preserved(c, HELD)
            && c.Approved(HELD) && c.VisibleAfter(HELD) != c.Visible(HELD)
  {
    hide Leaky, Setup.Clear, Setup.KeepOf, Preserved, Stray, Shifts, Setup.Visible, Setup.VisibleAfter,
      Setup.Sane, Setup.Redirected;
    var c := EmptyScopeSetup();
    SetupIsLeaky();
    EmptyScopeGroups(c);
    AllUnique(c);
    RightRedirects(c);
    NothingBlocks(c);
    HeldStrays(c);
    ReferencesPreserved(c, HELD);
    OutsideKeepsVisibility(c, HELD);
  }
}
