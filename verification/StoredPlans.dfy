// A duplicate plan over files is a migration over the repository's tree.
module StoredPlans {
  import opened Base
  import Duplicates
  import Journal
  import Migration
  import Plans
  import Quotient
  import R = Records
  import Rules
  import opened Trees

  ghost function Named(name: R.Path -> Journal.Name, texts: map<R.Path, string>): Journal.Tree
    requires Injective(name)
  {
    map p | p in texts :: name(p) := texts[p]
  }

  function NamedWrites(name: R.Path -> Journal.Name, ws: seq<Write<R.Path, string>>): Journal.Images {
    seq(|ws|, i requires 0 <= i < |ws| => Write(name(ws[i].key), ws[i].value))
  }

  lemma {:induction false} NamedAt(name: R.Path -> Journal.Name, texts: map<R.Path, string>, p: R.Path)
    requires Injective(name)
    ensures Get(Named(name, texts), name(p)) == Get(texts, p)
  {
    assert name(p) in Named(name, texts) ==> exists q :: q in texts && name(q) == name(p);
  }

  lemma {:induction false} NamedPut(name: R.Path -> Journal.Name, texts: map<R.Path, string>, w: Write<R.Path, string>)
    requires Injective(name)
    ensures Named(name, Put(texts, w)) == Put(Named(name, texts), Write(name(w.key), w.value))
  {
    var left, right := Named(name, Put(texts, w)), Put(Named(name, texts), Write(name(w.key), w.value));
    forall n
      ensures Get(left, n) == Get(right, n)
    {
      if p: R.Path :| name(p) == n {
        NamedAt(name, texts, p);
        NamedAt(name, Put(texts, w), p);
        assert n == name(w.key) ==> p == w.key;
      }
    }
    SameTree(left, right);
  }

  lemma {:induction false} NamedApply(
      name: R.Path -> Journal.Name, texts: map<R.Path, string>, ws: seq<Write<R.Path, string>>, n: nat)
    requires Injective(name) && n <= |ws|
    ensures Named(name, ApplyTo(texts, ws, n)) == ApplyTo(Named(name, texts), NamedWrites(name, ws), n)
  {
    hide Named, Injective, Put;
    if n > 0 {
      NamedApply(name, texts, ws, n - 1);
      NamedPut(name, ApplyTo(texts, ws, n - 1), ws[n - 1]);
    }
  }

  // A plan that touches anything removes something.
  lemma {:induction false} SomethingRemoved(c: Duplicates.Setup) returns (p: R.Path)
    requires c.Redirected() && Plans.TouchedFiles(c) != {}
    ensures p in c.repo && c.Removed(p)
  {
    hide Duplicates.Setup.KeepOf, Duplicates.Setup.Redirected, Duplicates.Setup.Touched;
    var q :| q in Plans.TouchedFiles(c);
    if c.Removed(q) {
      p := q;
    } else if c.Kept(q) {
      p := AnotherMember(c, q);
    } else {
      p := SomeTarget(c, q);
    }
  }

  lemma {:induction false} AnotherMember(c: Duplicates.Setup, q: R.Path) returns (p: R.Path)
    requires q in c.repo && c.Kept(q)
    ensures p in c.repo && c.Removed(p)
  {
    p :| p in c.Members(c.repo[q].body) && p != q;
  }

  lemma {:induction false} SomeTarget(c: Duplicates.Setup, q: R.Path) returns (p: R.Path)
    requires c.Redirected() && q in c.repo && c.Touched(c.Fm(q))
    ensures p in c.repo && c.Removed(p)
  {
    hide Duplicates.Setup.KeepOf, Duplicates.Slots;
    var slots := Duplicates.Slots(c.Fm(q));
    var k :| 0 <= k < |slots| && c.Redirects(slots[k].target, slots[k].scope);
    p := Quotient.RedirectsOf(c, slots[k].target.value);
  }

  lemma {:induction false} PlanMoves(reader: Plans.Reader, c: Duplicates.Setup, plan: Plans.Plan)
    requires Plans.Sorts(reader) && Plans.IsPlan(reader, c, plan.before, plan) && c.Redirected()
             && plan.operations != []
    ensures plan.before != plan.after
  {
    hide Duplicates.Setup.KeepOf, Duplicates.Setup.Changed, Plans.IsPlan, Plans.Sorts, Plans.TouchedFiles;
    Plans.SortedTouched(reader, c);
    Plans.AfterApplied(reader, c, plan.before, plan);
    assert reader.sort(Plans.TouchedFiles(c))[0] in Plans.TouchedFiles(c);
    var p := SomethingRemoved(c);
    RemovedIsGone(reader, c, plan, p);
  }

  lemma {:induction false} RemovedIsGone(reader: Plans.Reader, c: Duplicates.Setup, plan: Plans.Plan, p: R.Path)
    requires Plans.Sorts(reader) && Plans.IsPlan(reader, c, plan.before, plan) && p in c.repo && c.Removed(p)
    ensures p in plan.before && p !in plan.after
  {
    hide Duplicates.Setup.KeepOf, Plans.IsPlan, Plans.Sorts;
    Plans.RepoIsParsed(reader, c, plan.before, plan);
    Plans.StoredAfter(reader, c, plan.before, plan, p);
    assert p in plan.after <==> Get(plan.after, p).Some?;
  }

  // ----- the migration of a reviewed plan ------------------------------------------------------

  // The rule check on a named tree.
  ghost predicate RulesHold(
      reader: Plans.Reader, plan: Plans.Plan, name: R.Path -> Journal.Name, tree: Journal.Tree, after: bool)
    requires Injective(name)
  {
    exists texts: map<R.Path, string> :: Named(name, texts) == tree && Rules.Accepts(reader, plan, texts, after)
  }

  ghost function MigrationOf(
      reader: Plans.Reader, plan: Plans.Plan, name: R.Path -> Journal.Name, digest: string): Migration.Plan
    requires Injective(name)
  {
    Migration.Plan(Named(name, plan.before), Named(name, plan.after), NamedWrites(name, plan.Forward()),
                   NamedWrites(name, plan.Backward()), digest,
                   (tree, after) => RulesHold(reader, plan, name, tree, after))
  }

  // A plan the planner made, without blockers, is one the migration can run and undo: its writes
  // lead from each snapshot to the other, and planning again accepts both.
  lemma {:induction false} ReviewedPlanIsSound(
      reader: Plans.Reader, plan: Plans.Plan, name: R.Path -> Journal.Name, digest: string)
    requires Plans.Sorts(reader) && Plans.Scans(reader) && Rules.Reviewed(reader, plan)
    requires Rules.BareNames(reader, plan.before) && Injective(name)
    ensures MigrationOf(reader, plan, name, digest).Sound()
  {
    hide Plans.IsPlan, Plans.Sorts, Plans.Scans, Duplicates.Setup.Redirected, Named, Injective, Plans.NotesFail,
      Rules.Accepts, Rules.BareNames;
    hide Migration.Plan.Leads;
    Rules.ReviewedPasses(reader, plan);
    assert RulesHold(reader, plan, name, Named(name, plan.before), false);
    assert RulesHold(reader, plan, name, Named(name, plan.after), true);
    ReviewedPlanLeads(reader, plan, name, digest);
  }

  lemma {:induction false} ReviewedPlanLeads(
      reader: Plans.Reader, plan: Plans.Plan, name: R.Path -> Journal.Name, digest: string)
    requires Plans.Sorts(reader) && Rules.Reviewed(reader, plan) && Injective(name)
    ensures MigrationOf(reader, plan, name, digest).Leads()
  {
    hide Plans.IsPlan, Plans.Sorts, Plans.Scans, Duplicates.Setup.Redirected, Named, Injective, Plans.NotesFail,
      Rules.Accepts, Rules.Reviewed;
    ReviewedHasOperations(reader, plan);
    var c := SetupBehind(reader, plan);
    Plans.ApplyThenRollBack(reader, c, plan.before, plan);
    PlanMoves(reader, c, plan);
    NamedApply(name, plan.before, plan.Forward(), |plan.Forward()|);
    NamedApply(name, plan.after, plan.Backward(), |plan.Backward()|);
    DifferentNamed(name, plan.before, plan.after);
  }

  lemma {:induction false} ReviewedHasOperations(reader: Plans.Reader, plan: Plans.Plan)
    requires Rules.Reviewed(reader, plan)
    ensures plan.operations != []
  {
    hide Plans.IsPlan, Plans.NotesFail;
  }

  // An edited plan is never applied: readers see its migration only if planning again on the texts
  // it starts from gives this very plan, and its rollback only if that accepts the texts after.
  lemma {:induction false} OnlyAcceptedRuns(
      reader: Plans.Reader, plan: Plans.Plan, name: R.Path -> Journal.Name, digest: string,
      f: Journal.Schedule, s: Journal.Store<Migration.Receipts>, d: Migration.Direction)
    requires Injective(name) && Journal.Valid(s)
    ensures var (t, a) := Migration.ApplyPlan(f, s, MigrationOf(reader, plan, name, digest), d);
            t.views != s.views || a.Applied? ==>
              if d.Migrate? then Rules.Accepts(reader, plan, plan.before, false)
              else Rules.Accepts(reader, plan, plan.after, true)
  {
    hide Migration.ApplyPlan, Rules.Accepts, Named, Injective, Journal.Valid;
    var p := MigrationOf(reader, plan, name, digest);
    Migration.RulesGate(f, s, p, d);
    var from, after := if d.Migrate? then plan.before else plan.after, d.Undo?;
    if RulesHold(reader, plan, name, Named(name, from), after) {
      var texts :| Named(name, texts) == Named(name, from) && Rules.Accepts(reader, plan, texts, after);
      if texts != from {
        DifferentNamed(name, texts, from);
      }
    }
  }

  lemma {:induction false} SetupBehind(reader: Plans.Reader, plan: Plans.Plan) returns (c: Duplicates.Setup)
    requires Rules.Reviewed(reader, plan)
    ensures Plans.IsPlan(reader, c, plan.before, plan) && c.Redirected()
  {
    hide Plans.IsPlan, Duplicates.Setup.Redirected, Plans.NotesFail;
    c :| Plans.SetupOf(reader, reader.scan(plan.before.Keys), plan.before, plan.scope, plan.canonical, c)
         && Plans.IsPlan(reader, c, plan.before, plan) && !Plans.NotesFail(c);
  }

  // A repository that holds the texts the plan was made from, and no receipt of it.
  ghost predicate Untouched(s: Journal.Store<Migration.Receipts>, before: Journal.Tree) {
    && Journal.Valid(s) && s.journal.None? && s.disk == before && s.views == [before]
    && s.notes == Migration.Receipts(None, None)
  }

  lemma {:induction false} UntouchedIsInv(s: Journal.Store<Migration.Receipts>, p: Migration.Plan)
    requires Untouched(s, p.before)
    ensures Migration.Inv(p, s)
  {
  }

  // From the reviewed plan to what readers see.  Migrate and undo in any order, each run cut short
  // anywhere: readers only ever see the texts before or the texts after.  Then, once nothing fails
  // any more, running the migration twice publishes the texts after, and running the rollback twice
  // the texts before - unless the direction's receipt was torn, or there is nothing to undo.
  lemma {:induction false} ReviewedPlanConverges(
      reader: Plans.Reader, plan: Plans.Plan, name: R.Path -> Journal.Name, digest: string,
      f: Journal.Schedule, s: Journal.Store<Migration.Receipts>, ds: seq<Migration.Direction>, d: Migration.Direction)
    requires Plans.Sorts(reader) && Plans.Scans(reader) && Rules.Reviewed(reader, plan)
    requires Rules.BareNames(reader, plan.before) && Injective(name)
    requires Journal.OrderedRemoval(f) && Untouched(s, Named(name, plan.before))
    ensures var p := MigrationOf(reader, plan, name, digest);
            var t := Migration.Runs(f, s, p, ds);
            && Migration.Whole(p, t.views, 0)
            && (Journal.Quiet(f, t.clock) && (d.Undo? ==> |t.views| > 1) ==>
                  var (u, a) := Migration.ApplyPlan(f, Migration.ApplyPlan(f, t, p, d).0, p, d);
                  if t.notes.At(d) == Some(Migration.Torn) then !Migration.Succeeds(a)
                  else Migration.Succeeds(a) && Migration.Settled(p, d, u)
                       && u.View() == Named(name, if d.Migrate? then plan.after else plan.before))
  {
    hide Migration.Runs, Migration.ApplyPlan, Migration.Inv, Rules.Reviewed, Rules.BareNames, Plans.Sorts, Plans.Scans,
      Named, Migration.Plan.Sound, Migration.Plan.Leads;
    var p := MigrationOf(reader, plan, name, digest);
    ReviewedPlanIsSound(reader, plan, name, digest);
    SoundFacts(p);
    UntouchedIsInv(s, p);
    Migration.RunsKeep(f, s, p, ds);
    var t := Migration.Runs(f, s, p, ds);
    if Journal.Quiet(f, t.clock) && (d.Undo? ==> |t.views| > 1) {
      Migration.InvFacts(p, t);
      ShownTwice(p, t, d);
      Migration.RetryConverges(f, t, p, d);
    }
  }

  lemma {:induction false} SoundFacts(p: Migration.Plan)
    requires p.Sound()
    ensures p.Leads() && p.before != p.after
    ensures forall d: Migration.Direction :: p.verified(p.Target(d), d == Migration.Migrate)
    ensures forall d: Migration.Direction :: p.verified(p.Source(d), d == Migration.Undo)
  {
  }

  // Readers who see the texts after have seen another tree before.
  lemma {:induction false} ShownTwice(p: Migration.Plan, t: Journal.Store<Migration.Receipts>, d: Migration.Direction)
    requires p.before != p.after && t.views != [] && t.views[|t.views| - 1] == t.View() && t.views[0] == p.before
    requires d.Undo? ==> |t.views| > 1
    ensures t.View() == p.Target(d) ==> |t.views| > 1
  {
  }

  lemma {:induction false} DifferentNamed(name: R.Path -> Journal.Name, a: map<R.Path, string>, b: map<R.Path, string>)
    requires Injective(name) && a != b
    ensures Named(name, a) != Named(name, b)
  {
    hide Named, Injective;
    forall p
      ensures Get(Named(name, a), name(p)) == Get(a, p) && Get(Named(name, b), name(p)) == Get(b, p)
    {
      NamedAt(name, a, p);
      NamedAt(name, b, p);
    }
    if Named(name, a) == Named(name, b) {
      SameTree(a, b);
    }
  }
}
