// What a governed reader sees before and after the groups are collapsed.
module GovernedTruth {
  import opened Base
  import opened Collapse
  import opened Duplicates
  import opened Quotient
  import opened Records

  // ----- the planner's view is the reader's -----------------------------------------------

  lemma {:induction false} RetiredIsSuperseded(c: Setup, order: seq<Path>, repo: Repo, record: Record)
    requires repo.Keys <= c.repo.Keys && forall p | p in repo :: repo[p].record.fm.status == c.Fm(p).status
    ensures c.Retired(SuccessorKey(record), Locate(order, repo))
            <==> EffectivelySuperseded(record, Index(Files(order, |order|, repo)))
  {
    hide Locate, Files, Index, SuccessorKey;
    LocateIsIndex(order, repo);
  }

  lemma {:induction false} VisibleIsAllowed(c: Setup, order: seq<Path>, p: Path)
    requires c.Indexed(order) && p in c.repo
    ensures c.Visible(p) <==> DEFAULT_VIEW.Allows(c.repo[p].record, Index(Files(order, |order|, c.repo)))
    ensures c.VisibleAfter(p) <==>
              c.Survives(p) && DEFAULT_VIEW.Allows(c.After(p).record, Index(Files(order, |order|, c.AfterRepo())))
  {
    hide Locate, Files, Index, SuccessorKey, EffectivelySuperseded, Setup.After, Setup.AfterRepo, Setup.Survives,
      Setup.Retired;
    RetiredIsSuperseded(c, order, c.repo, c.repo[p].record);
    SameStatuses(c);
    RetiredIsSuperseded(c, order, c.AfterRepo(), c.After(p).record);
  }

  lemma {:induction false} SameStatuses(c: Setup)
    ensures c.AfterRepo().Keys <= c.repo.Keys
    ensures forall p | p in c.AfterRepo() :: c.AfterRepo()[p].record.fm.status == c.Fm(p).status
    ensures forall p | p in c.repo :: c.After(p).record.fm.status == c.Fm(p).status
  {
  }

  // ----- records outside the groups ---------------------------------------------------------

  // The backlink's lookup moves between approved and not: it found a removed file, and either
  // the kept one differs in standing, or the reference was not redirected and now finds nothing.
  predicate Shifts(c: Setup, p: Path)
    requires p in c.repo
  {
    var key, fm := SuccessorKey(c.repo[p].record), c.Fm(p);
    && key in c.before && c.Removed(c.before[key])
    && if c.Redirects(fm.supersededBy, fm.supersededScope) then
         c.Approved(c.before[key]) != c.Approved(c.KeepOf(c.before[key]).value)
       else
         c.Approved(c.before[key])
  }

  lemma {:induction false} BacklinkAfter(c: Setup, p: Path)
    requires p in c.repo
    ensures c.After(p).record.fm.supersededScope == c.Fm(p).supersededScope
    ensures c.After(p).record.fm.supersededBy == c.NewTarget(c.Fm(p).supersededBy, c.Fm(p).supersededScope)
  {
  }

  lemma {:induction false} RetiredAfter(c: Setup, p: Path)
    requires c.Sane() && c.Redirected() && Distinct(c) && p in c.repo
    ensures c.Retired(SuccessorKey(c.After(p).record), c.later) == c.Retired(SuccessorKey(c.repo[p].record), c.before)
            <==> !Shifts(c, p)
  {
    hide Setup.After, Setup.KeepOf, RemovedKey;
    BacklinkAfter(c, p);
    var fm := c.Fm(p);
    var key := SuccessorKey(c.repo[p].record);
    if c.Redirects(fm.supersededBy, fm.supersededScope) {
      RedirectedLookup(c, fm.supersededBy.value, fm.supersededScope);
    } else {
      assert SuccessorKey(c.After(p).record) == key;
      IndexAfter(c, key);
      RemovedFound(c, key);
    }
  }

  // A record outside the groups is visible as before, exactly unless it is approved and its
  // backlink's lookup shifts.
  lemma {:induction false} OutsideKeepsVisibility(c: Setup, p: Path)
    requires c.Sane() && c.Redirected() && c.Clear() && p in c.repo && c.KeepOf(p).None?
    ensures c.VisibleAfter(p) == c.Visible(p) <==> !(c.Approved(p) && Shifts(c, p))
  {
    hide Setup.Clear, Setup.After, Setup.Retired, Shifts;
    ClearIsDistinct(c);
    RetiredAfter(c, p);
  }

  // Its backlink names an approved record or nothing, and nothing through a stray reference.
  predicate Settled(c: Setup, p: Path)
    requires p in c.repo
  {
    var key, fm := SuccessorKey(c.repo[p].record), c.Fm(p);
    key in c.before ==>
      && c.Approved(c.before[key])
      && (c.Removed(c.before[key]) ==> c.Redirects(fm.supersededBy, fm.supersededScope))
  }

  lemma {:induction false} SettledDoesNotShift(c: Setup, p: Path)
    requires c.Clear() && p in c.repo && Settled(c, p)
    ensures !Shifts(c, p)
  {
    var key := SuccessorKey(c.repo[p].record);
    if key in c.before && c.Removed(c.before[key]) {
      KeptIsCurrent(c, c.before[key]);
    }
  }

  // A group with an approved member keeps one that is approved and visible.
  lemma {:induction false} KeptIsCurrent(c: Setup, q: Path)
    requires c.Clear() && q in c.repo && c.KeepOf(q).Some? && c.Approved(q)
    ensures c.Visible(c.KeepOf(q).value) && c.Approved(c.KeepOf(q).value)
  {
    KeptSurvives(c, q);
    assert c.GroupApproved(c.KeepOf(q).value);
    assert !c.Blocked(NotCurrentTruth(c.KeepOf(q).value));
  }

  lemma {:induction false} SettledKeepsVisibility(c: Setup, p: Path)
    requires c.Sane() && c.Redirected() && c.Clear() && p in c.repo && c.KeepOf(p).None? && Settled(c, p)
    ensures c.VisibleAfter(p) == c.Visible(p)
  {
    hide Setup.Clear, Shifts, Settled, Setup.VisibleAfter, Setup.Visible;
    SettledDoesNotShift(c, p);
    OutsideKeepsVisibility(c, p);
  }

  // ----- records of a group --------------------------------------------------------------------

  // No redirected backlink: a kept file's lookup can only lose what it found.
  lemma {:induction false} KeptStaysCurrent(c: Setup, k: Path)
    requires c.Sane() && c.Redirected() && c.Clear() && k in c.repo && c.Kept(k) && c.Visible(k)
    ensures c.VisibleAfter(k)
  {
    hide Setup.Clear, Setup.After, RemovedKey;
    ClearIsDistinct(c);
    NoLineage(c, k);
    NoEmptyRedirect(c);
    BacklinkAfter(c, k);
    IndexAfter(c, SuccessorKey(c.repo[k].record));
  }

  // Of each collapsed group a governed reader sees exactly the kept record if any member was
  // approved, and nothing if none was.
  lemma {:induction false} OneVisiblePerGroup(c: Setup, k: Path, p: Path)
    requires c.Sane() && c.Redirected() && c.Clear() && k in c.repo && c.Kept(k)
    requires p in c.repo && c.KeepOf(p) == Some(k)
    ensures c.VisibleAfter(p) <==> p == k && c.GroupApproved(k)
  {
    hide Setup.Clear, Setup.After, Setup.Retired;
    if c.GroupApproved(k) {
      var q :| q in c.repo && c.KeepOf(q) == Some(k) && c.Approved(q);
      KeptIsCurrent(c, q);
      KeptStaysCurrent(c, k);
    }
  }
}
