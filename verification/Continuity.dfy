// What collapsing duplicates does to the lineage of the records, and what readers may rely on
// across it.
//
// A migration is no step of the lifecycle: approved duplicates disappear.  But nothing in a
// collapsed group has a predecessor or a successor, so every chain of replacements stays as it
// was, and the repository it leaves is one the lifecycle can go on from.
module Continuity {
  import opened Base
  import C = Collapse
  import opened Duplicates
  import G = GovernedTruth
  import L = Lifecycle
  import opened Lineage
  import Plans
  import opened Promotion
  import Q = Quotient
  import opened Records
  import Rules
  import Steps
  import opened Texts

  // The records the planner reads are those of the view.
  ghost predicate Reads(c: Setup, v: View) {
    c.repo.Keys == v.Keys && forall p | p in v :: c.repo[p].record == v[p]
  }

  function ViewAfter(c: Setup): View {
    map p | p in c.AfterRepo() :: c.AfterRepo()[p].record
  }

  predicate KeptId(c: Setup, id: string) {
    exists p | p in c.repo :: c.Kept(p) && c.Id(p) == id
  }

  // Kept records replace nothing, so they may count as the oldest of all.
  function Redated(c: Setup, born: Births): Births {
    map id | id in born :: if KeptId(c, id) then 0 else born[id] + 1
  }

  // ----- what a record keeps ------------------------------------------------------------------

  lemma {:induction false} RecordAfter(c: Setup, v: View, p: Path)
    requires Reads(c, v)
    ensures p in ViewAfter(c) <==> c.Survives(p)
    ensures c.Survives(p) ==>
              var r, s := v[p], ViewAfter(c)[p];
              && s.content == r.content && s.fm.id == r.fm.id && s.fm.status == r.fm.status
              && s.fm.supersededScope == r.fm.supersededScope && s.fm.supersedesScope == r.fm.supersedesScope
              && s.fm.supersededBy == c.NewTarget(r.fm.supersededBy, r.fm.supersededScope)
              && s.fm.supersedesId == c.NewTarget(r.fm.supersedesId, r.fm.supersedesScope)
  {
    hide Setup.KeepOf, Setup.Note, Setup.NewTarget;
  }

  // A record with a predecessor or a successor belongs to no group.
  lemma {:induction false} LinkedIsOutside(c: Setup, p: Path)
    requires c.Clear() && p in c.repo && (Truthy(c.Fm(p).supersededBy) || Truthy(c.Fm(p).supersedesId))
    ensures c.KeepOf(p).None? && c.Survives(p) && !c.Kept(p)
  {
    hide Setup.Clear;
    if c.KeepOf(p).Some? {
      C.NoLineage(c, p);
    }
  }

  // And nothing that names it is redirected.
  lemma {:induction false} OutsideUnredirected(c: Setup, v: View, born: Births, p: Path)
    requires WellNamed(v, born) && Reads(c, v) && c.Redirected() && p in v && c.KeepOf(p).None?
    ensures p.file !in c.redirects && !KeptId(c, p.file)
  {
    hide Setup.KeepOf;
    forall q | q in c.repo && (c.Removed(q) || c.Kept(q))
      ensures c.Id(q) != p.file
    {
      assert c.Id(q) == q.file;
    }
    if p.file in c.redirects {
      var q := Q.RedirectsOf(c, p.file);
    }
  }

  lemma {:induction false} PairKept(c: Setup, v: View, born: Births, p: Path, q: Path)
    requires WellNamed(v, born) && Reads(c, v) && c.Clear() && c.Redirected()
    requires p in v && q in v && Replaced(v, p, q)
    ensures var w := ViewAfter(c); p in w && q in w && Replaced(w, p, q)
  {
    hide Setup.KeepOf, Setup.Clear, Setup.Redirected, ViewAfter;
    assert Bare(p.file) && Bare(q.file);
    LinkedIsOutside(c, p);
    LinkedIsOutside(c, q);
    OutsideUnredirected(c, v, born, p);
    OutsideUnredirected(c, v, born, q);
    RecordAfter(c, v, p);
    RecordAfter(c, v, q);
  }

  // ----- the invariant ---------------------------------------------------------------------------

  lemma {:induction false} NamesKept(c: Setup, v: View, born: Births)
    requires WellNamed(v, born) && ScopeNeedsBacklink(v) && Trimmed(v) && Reads(c, v)
    ensures var w := ViewAfter(c);
            WellNamed(w, Redated(c, born)) && ScopeNeedsBacklink(w) && Trimmed(w)
  {
    hide Setup.Survives, ViewAfter, KeptId, Trim, Bare;
    forall p
      ensures p in ViewAfter(c) ==> p in v
    {
      RecordAfter(c, v, p);
      SurvivorRead(c, p);
    }
    forall p | p in ViewAfter(c)
      ensures ViewAfter(c)[p].fm.id == v[p].fm.id && ViewAfter(c)[p].content == v[p].content
      ensures ViewAfter(c)[p].fm.supersededScope == v[p].fm.supersededScope
      ensures ViewAfter(c)[p].fm.supersededBy.None? ==> v[p].fm.supersededBy.None?
    {
      RecordAfter(c, v, p);
    }
  }

  lemma {:induction false} SurvivorRead(c: Setup, p: Path)
    ensures c.Survives(p) ==> p in c.repo
  {
  }

  lemma {:induction false} PairsKept(c: Setup, v: View, born: Births)
    requires WellNamed(v, born) && BacklinksApproved(v) && ApprovedMarked(v)
    requires Reads(c, v) && c.Clear() && c.Redirected()
    ensures BacklinksApproved(ViewAfter(c)) && ApprovedMarked(ViewAfter(c))
  {
    hide Setup.Clear, Setup.Redirected, Setup.Survives, ViewAfter, WellNamed, Replaced, Setup.NewTarget;
    var w := ViewAfter(c);
    forall p | p in w && w[p].fm.supersededBy.Some?
      ensures exists q :: q in w && w[q].fm.status.Approved? && Replaced(w, p, q)
    {
      FromBefore(c, v, p);
      var q :| q in v && v[q].fm.status.Approved? && Replaced(v, p, q);
      PairKept(c, v, born, p, q);
      RecordAfter(c, v, q);
    }
    forall q | q in w && w[q].fm.status.Approved? && w[q].fm.supersedesId.Some?
      ensures exists p :: p in w && Replaced(w, p, q)
    {
      FromBefore(c, v, q);
      var p :| p in v && Replaced(v, p, q);
      PairKept(c, v, born, p, q);
    }
  }

  lemma {:induction false} FromBefore(c: Setup, v: View, p: Path)
    requires Reads(c, v) && p in ViewAfter(c)
    ensures p in v && c.Survives(p) && ViewAfter(c)[p].fm.status == v[p].fm.status
    ensures ViewAfter(c)[p].fm.supersededBy.Some? <==> v[p].fm.supersededBy.Some?
    ensures ViewAfter(c)[p].fm.supersedesId.Some? <==> v[p].fm.supersedesId.Some?
  {
    hide ViewAfter, Setup.KeepOf;
    RecordAfter(c, v, p);
  }

  // The predecessor a surviving record names afterwards, if it was redirected.
  ghost predicate Rejuvenated(c: Setup, v: View, born: Births, p: Path)
    requires p in v
  {
    var fm := v[p].fm;
    c.Survives(p) && c.Redirects(fm.supersedesId, fm.supersedesScope) && p.file in born
    && var k := c.redirects[fm.supersedesId.value]; k in born ==> born[k] >= born[p.file]
  }

  // What order there is between a record and the predecessor it names.
  lemma {:induction false} NamesOlder(c: Setup, v: View, born: Births, p: Path)
    requires WellNamed(v, born) && Ordered(v, born) && Reads(c, v) && c.Clear() && c.Redirected()
    requires p in ViewAfter(c) && ViewAfter(c)[p].fm.supersedesId.Some?
    ensures p in v && !KeptId(c, p.file) && p.file in born
    ensures var x := ViewAfter(c)[p].fm.supersedesId.value;
            && x in born && Bare(x) && Truthy(ViewAfter(c)[p].fm.supersedesScope)
            && (KeptId(c, x) || born[x] < born[p.file])
            && (born[x] < born[p.file] <==> !Rejuvenated(c, v, born, p))
  {
    hide Setup.Clear, ViewAfter, Setup.KeepOf;
    FromBefore(c, v, p);
    RecordAfter(c, v, p);
    LinkedIsOutside(c, p);
    OutsideUnredirected(c, v, born, p);
    var fm := v[p].fm;
    if c.Redirects(fm.supersedesId, fm.supersedesScope) {
      var q := Q.RedirectsOf(c, fm.supersedesId.value);
      Q.KeptSurvives(c, q);
      var k := c.KeepOf(q).value;
      assert k in v && c.Kept(k) && c.Id(k) == k.file;
    }
  }

  lemma {:induction false} OrderRedated(c: Setup, v: View, born: Births)
    requires WellNamed(v, born) && Ordered(v, born) && Reads(c, v) && c.Clear() && c.Redirected()
    ensures Ordered(ViewAfter(c), Redated(c, born))
  {
    hide Setup.Clear, Setup.Redirected, ViewAfter, KeptId, WellNamed, Rejuvenated;
    forall p | p in ViewAfter(c) && ViewAfter(c)[p].fm.supersedesId.Some?
      ensures var x, dated := ViewAfter(c)[p].fm.supersedesId.value, Redated(c, born);
              && p.file in dated && x in dated && dated[x] < dated[p.file]
              && Bare(x) && Truthy(ViewAfter(c)[p].fm.supersedesScope)
    {
      NamesOlder(c, v, born, p);
    }
  }

  // The births as they were fit exactly unless a redirected predecessor is not older.
  lemma {:induction false} OrderKeptExactly(c: Setup, v: View, born: Births)
    requires WellNamed(v, born) && Ordered(v, born) && Reads(c, v) && c.Clear() && c.Redirected()
    ensures Ordered(ViewAfter(c), born) <==> forall p | p in v :: !Rejuvenated(c, v, born, p)
  {
    hide Setup.Clear, Setup.Redirected, ViewAfter, KeptId, WellNamed, Rejuvenated, Ordered;
    forall p | p in ViewAfter(c) && ViewAfter(c)[p].fm.supersedesId.Some?
      ensures p in v && p.file in born
      ensures var x := ViewAfter(c)[p].fm.supersedesId.value;
              && x in born && Bare(x) && Truthy(ViewAfter(c)[p].fm.supersedesScope)
              && (born[x] < born[p.file] <==> !Rejuvenated(c, v, born, p))
    {
      NamesOlder(c, v, born, p);
    }
    forall p | p in v && Rejuvenated(c, v, born, p)
      ensures p in ViewAfter(c) && ViewAfter(c)[p].fm.supersedesId.Some?
    {
      RejuvenatedSurvives(c, v, born, p);
    }
    OrderedAt(ViewAfter(c), born);
  }

  lemma {:induction false} RejuvenatedSurvives(c: Setup, v: View, born: Births, p: Path)
    requires Reads(c, v) && p in v && Rejuvenated(c, v, born, p)
    ensures p in ViewAfter(c) && ViewAfter(c)[p].fm.supersedesId.Some?
  {
    hide ViewAfter, Setup.KeepOf;
    RecordAfter(c, v, p);
  }

  lemma {:induction false} OrderedAt(w: View, born: Births)
    requires forall p | p in w && w[p].fm.supersedesId.Some? ::
               p.file in born && w[p].fm.supersedesId.value in born
               && Bare(w[p].fm.supersedesId.value) && Truthy(w[p].fm.supersedesScope)
    ensures Ordered(w, born) <==>
              forall p | p in w && w[p].fm.supersedesId.Some? :: born[w[p].fm.supersedesId.value] < born[p.file]
  {
    hide Bare;
  }

  // A plan without blockers leaves a repository that keeps the whole lineage invariant, with the
  // kept records counted as the oldest.
  lemma {:induction false} MigrationKeeps(c: Setup, v: View, born: Births)
    requires ViewOk(v, born) && Reads(c, v) && c.Clear() && c.Redirected()
    ensures ViewOk(ViewAfter(c), Redated(c, born)) && Redated(c, born).Keys == born.Keys
  {
    hide WellNamed, Ordered, BacklinksApproved, ScopeNeedsBacklink, ApprovedMarked, Trimmed, ViewAfter, KeptId, Reads,
      Setup.Clear, Setup.Redirected;
    NamesKept(c, v, born);
    PairsKept(c, v, born);
    OrderRedated(c, v, born);
  }

  // ----- across the migration -----------------------------------------------------------------------

  function ViewOf(reader: Plans.Reader, texts: map<Path, string>): View {
    map p | p in Plans.Parsed(reader, texts) :: Plans.Parsed(reader, texts)[p].record
  }

  // The repository before the plan is the lifecycle's, and the plan is one that may be applied.
  ghost predicate Migrates(reader: Plans.Reader, c: Setup, plan: Plans.Plan, w: L.World) {
    && Plans.Sorts(reader) && Plans.LoadsBack(reader)
    && Plans.IsPlan(reader, c, plan.before, plan) && c.Redirected() && plan.blockers == {}
    && Plans.DumpsClean(reader, c, plan.before)
    && w.views != [] && ViewOf(reader, plan.before) == w.Now()
  }

  // What the lifecycle starts from afterwards.
  function Restarted(reader: Plans.Reader, c: Setup, plan: Plans.Plan, w: L.World): L.World {
    L.World([ViewOf(reader, plan.after)], Redated(c, w.born), map[], [])
  }

  lemma {:induction false} PlanReads(reader: Plans.Reader, c: Setup, plan: Plans.Plan, w: L.World)
    requires Migrates(reader, c, plan, w)
    ensures c.Clear() && Reads(c, w.Now()) && ViewOf(reader, plan.after) == ViewAfter(c)
  {
    hide Plans.IsPlan, Plans.Sorts, Plans.LoadsBack, Plans.DumpsClean, Setup.Clear, Setup.Redirected, Setup.AfterRepo,
      Plans.Parsed;
    Rules.ReviewedIsClear(reader, c, plan);
    Plans.RepoIsParsed(reader, c, plan.before, plan);
    Plans.AfterTextsParse(reader, c, plan.before, plan);
  }

  lemma {:induction false} NowOk(ws: seq<L.World>, es: seq<L.Event>, i: nat)
    requires L.Run(ws, es) && i < |ws|
    ensures ws[i].views != [] && ViewOk(ws[i].Now(), ws[i].born)
  {
    hide L.Next, ViewOk, L.Traced, L.Justified, L.Prepared;
    L.RunKeeps(ws, es, i);
  }

  // The lifecycle can go on from the migrated texts.
  lemma {:induction false} MigrationRestarts(
      reader: Plans.Reader, c: Setup, plan: Plans.Plan, ws: seq<L.World>, es: seq<L.Event>, i: nat)
    requires L.Run(ws, es) && i < |ws| && Migrates(reader, c, plan, ws[i])
    ensures L.Init(Restarted(reader, c, plan, ws[i]))
  {
    hide L.Next, ViewOk, Migrates, Setup.Redirected, Setup.Clear, Reads, ViewAfter, ViewOf, Redated;
    NowOk(ws, es, i);
    PlanReads(reader, c, plan, ws[i]);
    MayRedirect(reader, c, plan, ws[i]);
    MigrationKeeps(c, ws[i].Now(), ws[i].born);
  }

  lemma {:induction false} MayRedirect(reader: Plans.Reader, c: Setup, plan: Plans.Plan, w: L.World)
    requires Migrates(reader, c, plan, w)
    ensures c.Redirected()
  {
  }

  // The approved record a group collapses onto is approved.
  lemma {:induction false} ImageApproved(c: Setup, v: View, p: Path)
    requires Reads(c, v) && c.Clear() && p in v && v[p].fm.status.Approved?
    ensures var image := c.Image(Some(p)).value;
            image in ViewAfter(c) && ViewAfter(c)[image].fm.status.Approved?
    ensures c.repo[c.Image(Some(p)).value].body == c.repo[p].body || c.KeepOf(p).None?
  {
    hide Setup.Clear, Setup.Visible, ViewAfter, Setup.AfterRepo;
    var image := c.Image(Some(p)).value;
    if c.KeepOf(p).Some? {
      G.KeptIsCurrent(c, p);
      Q.KeptSurvives(c, p);
    }
    RecordAfter(c, v, image);
  }

  // Unique current truth across a migration: a record that was ever approved before it, or the
  // record it was collapsed onto, shows default readers exactly one record in every view after it.
  lemma {:induction false} TruthAcross(
      reader: Plans.Reader, c: Setup, plan: Plans.Plan, ws: seq<L.World>, es: seq<L.Event>, i: nat, j: nat, p: Path,
      ws': seq<L.World>, es': seq<L.Event>, i': nat, k: nat, items: seq<Item>) returns (chain: seq<Path>)
    requires L.Run(ws, es) && i < |ws| && Migrates(reader, c, plan, ws[i])
    requires j < |ws[i].views| && p in ws[i].views[j] && ws[i].views[j][p].fm.status.Approved?
    requires L.Run(ws', es') && ws'[0] == Restarted(reader, c, plan, ws[i])
    requires i' < |ws'| && k < |ws'[i'].views| && Lists(items, ws'[i'].views[k])
    ensures L.Lane(ws'[i'].views[k], items, chain) && chain[0] == c.Image(Some(p)).value
  {
    hide L.Run, L.Lane, Lists, Migrates, Setup.KeepOf, ViewOf, Redated;
    ImageRestarted(reader, c, plan, ws, es, i, j, p);
    FirstView(ws', es', i');
    chain := L.UniqueCurrentTruth(ws', es', i', 0, k, c.Image(Some(p)).value, items);
  }

  lemma {:induction false} ImageRestarted(
      reader: Plans.Reader, c: Setup, plan: Plans.Plan, ws: seq<L.World>, es: seq<L.Event>, i: nat, j: nat, p: Path)
    requires L.Run(ws, es) && i < |ws| && Migrates(reader, c, plan, ws[i])
    requires j < |ws[i].views| && p in ws[i].views[j] && ws[i].views[j][p].fm.status.Approved?
    ensures var image, v := c.Image(Some(p)).value, ViewOf(reader, plan.after);
            image in v && v[image].fm.status.Approved?
  {
    hide L.Run, Migrates, ViewAfter, Reads, Setup.Clear, Setup.KeepOf, ViewOf;
    L.ApprovedForever(ws, es, i, j, |ws[i].views| - 1, p);
    PlanReads(reader, c, plan, ws[i]);
    ImageApproved(c, ws[i].Now(), p);
  }

  // A run never forgets its first view.
  lemma {:induction false} FirstView(ws: seq<L.World>, es: seq<L.Event>, i: nat)
    requires L.Run(ws, es) && i < |ws|
    ensures ws[i].views != [] && ws[i].views[0] == ws[0].views[0]
  {
    hide L.Mints, Propose, Commit;
    if i > 0 {
      FirstView(ws, es, i - 1);
      assert L.Next(ws[i - 1], es[i - 1], ws[i]);
    }
  }

  // A promotion prepared before the migration and published after it keeps the invariant: what it
  // compares is still as it read it.
  lemma {:induction false} PublishedAcross(
      ws: seq<L.World>, es: seq<L.Event>, i: nat, pid: nat, ws': seq<L.World>, es': seq<L.Event>, i': nat)
    requires L.Run(ws, es) && i < |ws| && L.Run(ws', es') && i' < |ws'|
    requires pid in ws[i].procs && ws[i].procs[pid].Holding?
    requires ws'[i'].views != []
    ensures var d := Propose(ws[i].procs[pid].q, ws[i].procs[pid].items);
            && d.Transaction?
            && (Commit(ws'[i'].Now(), d).Ok? ==>
                  && ViewOk(Commit(ws'[i'].Now(), d).value, ws'[i'].born)
                  && Stable(ws'[i'].Now(), Commit(ws'[i'].Now(), d).value))
  {
    hide L.Next, Propose, ViewOk, Stable, Lists, Steps.WellRead;
    NowOk(ws', es', i');
    L.RunKeeps(ws, es, i);
    var held := ws[i].procs[pid];
    assert L.Prepared(ws[i], held);
    if Expected(Propose(held.q, held.items).expected, ws'[i'].Now()) {
      Steps.CommitKeeps(ws[i].views[held.at], ws'[i'].Now(), ws[i].born, ws'[i'].born, held.q, held.items);
    }
  }
}
