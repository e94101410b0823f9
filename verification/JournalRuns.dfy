// Whole histories of writers, and the one interruption the protocol does not cover.
module JournalRuns {
  import opened Base
  import opened Trees
  import opened Journal
  import opened CrashSafety

  // ----- whole runs -----------------------------------------------------------------

  // The first n writers one after the other; a writer that died leaves the lock
  // to the next one.
  ghost function Run<R, N>(f: Schedule, s: Store<N>, jobs: seq<Job<R, N>>, n: nat): Store<N>
    requires n <= |jobs|
  {
    if n == 0 then s else Persist(f, Run(f, s, jobs, n - 1), jobs[n - 1]).0
  }

  // Some writer's comparison held in the old view and its writes make the new one.
  ghost predicate Swapped<R, N>(jobs: seq<Job<R, N>>, n: nat, before: Tree, after: Tree)
    requires n <= |jobs|
  {
    exists j :: 0 <= j < n && Holds(jobs[j].expected, jobs[j].parse, before) && after == Apply(before, jobs[j].writes)
  }

  // Every view of t after those of s is committed and swapped in for its predecessor.
  ghost predicate Chained<R, N>(s: Store<N>, t: Store<N>, jobs: seq<Job<R, N>>, n: nat)
    requires n <= |jobs| && s.views != []
  {
    && s.views <= t.views && |t.views| <= |s.views| + n
    && forall i | |s.views| <= i < |t.views| ::
         Swapped(jobs, n, t.views[i - 1], t.views[i]) && Committed(t.views[i], t.commits)
  }

  // Over any run with any crashes, everything readers ever see is a chain of
  // successful compare-and-swaps, at most one per writer, and each view is the
  // tree of a commit in history.
  lemma {:induction false} RunsAreAtomic<R, N>(f: Schedule, s: Store<N>, jobs: seq<Job<R, N>>, n: nat)
    requires OrderedRemoval(f) && Valid(s) && n <= |jobs|
    ensures var t := Run(f, s, jobs, n);
            Valid(t) && s.commits <= t.commits && Chained(s, t, jobs, n)
  {
    hide Persist;
    if n > 0 {
      var p, t := Run(f, s, jobs, n - 1), Run(f, s, jobs, n);
      RunsAreAtomic(f, s, jobs, n - 1);
      OneMore(f, p, jobs, n);
      ChainGrows(s, p, t, jobs, n);
    }
  }

  lemma {:induction false} OneMore<R, N>(f: Schedule, p: Store<N>, jobs: seq<Job<R, N>>, n: nat)
    requires OrderedRemoval(f) && Valid(p) && 0 < n <= |jobs|
    ensures var t := Persist(f, p, jobs[n - 1]).0;
            && Valid(t) && p.commits <= t.commits
            && (t.views == p.views
                || (t.views == p.views + [t.View()] && Swapped(jobs, n, p.views[|p.views| - 1], t.View())))
  {
    CrashAtomicity(f, p, jobs[n - 1]);
  }

  lemma {:induction false} ChainGrows<R, N>(s: Store<N>, p: Store<N>, t: Store<N>, jobs: seq<Job<R, N>>, n: nat)
    requires 0 < n <= |jobs| && s.views != [] && Chained(s, p, jobs, n - 1)
    requires p.commits <= t.commits && Committed(t.View(), t.commits)
    requires t.views == p.views
             || (t.views == p.views + [t.View()] && Swapped(jobs, n, p.views[|p.views| - 1], t.View()))
    ensures Chained(s, t, jobs, n)
  {
    forall i | |s.views| <= i < |t.views|
      ensures Swapped(jobs, n, t.views[i - 1], t.views[i]) && Committed(t.views[i], t.commits)
    {
      if i < |p.views| {
        assert Swapped(jobs, n - 1, p.views[i - 1], p.views[i]);
        CommittedGrows(p.views[i], p.commits, t.commits);
      }
    }
  }

  // ----- a removal that raises after its unlink -----------------------------------------

  // Readers see the tree after the transaction with the first k files restored.
  ghost predicate Torn(shown: Tree, writes: Images, view: Tree, k: nat) {
    k <= |writes| && view == ApplyTo(Apply(shown, writes), Before(shown, writes), k)
  }

  // No file restored: the new tree.  All restored: the old one.
  lemma {:induction false} WholeIsTorn(shown: Tree, writes: Images)
    ensures Torn(shown, writes, Apply(shown, writes), 0) && Torn(shown, writes, shown, |writes|)
  {
    ApplyOutside(shown, writes, |writes|);
    Restore(shown, Apply(shown, writes), writes);
  }

  // Even then a file holds its old or its new content, but the rollback that
  // follows runs in the open: stopped after k files it leaves those old.
  lemma {:induction false} TornAtWorst<R, N>(f: Schedule, s: Store<N>, job: Job<R, N>)
    requires Clean(s) && Committed(s.View(), s.commits)
    ensures exists k: nat :: Torn(s.View(), job.writes, Conclude(f, s, job).0.View(), k)
  {
    hide Torn, Before, Apply, ApplyTo, Publish, RollBack, Work, Dirty;
    var shown := s.View();
    var t := Conclude(f, s, job).0;
    WholeIsTorn(shown, job.writes);
    JournalFirst(f, s, job.writes);
    var j := WriteJournal(f, s, Before(shown, job.writes));
    if j.outcome.Done? {
      var published := Publish(f, j.store, job);
      TryLeaves(f, j.store, shown, job);
      if published.outcome.Raised? && published.store.journal.None? {
        var k := OpenRollBack(f, published.store, shown, job.writes);
        assert Torn(shown, job.writes, t.View(), k);
      } else if published.outcome.Raised? {
        RollBackShielded(f, published.store, shown, job.writes);
        assert t.View() == shown;
      } else {
        assert t.View() == shown || t.View() == Apply(shown, job.writes);
      }
    }
  }

  // What the `try` block can leave: the journal's shield, or the new tree in the open.
  lemma {:induction false} TryLeaves<R, N>(f: Schedule, s: Store<N>, shown: Tree, job: Job<R, N>)
    requires Shielded(s, shown, job.writes) && s.disk == shown == s.Head() && s.temps == {}
    ensures var t := Publish(f, s, job);
            if t.store.journal.None? then t.store.disk == Apply(shown, job.writes)
            else Shielded(t.store, shown, job.writes) && (!t.outcome.Crashed? ==> t.store.temps == {})
  {
    hide Apply, ApplyTo, Before, Publish, Work, Dirty;
    PublishSplits(f, s, job);
    WorkShielded(f, s, shown, job);
    WorkReports(f, s, shown, job);
  }

  lemma {:induction false} OpenRollBack<N>(f: Schedule, s: Store<N>, shown: Tree, writes: Images) returns (k: nat)
    requires s.journal.None? && s.disk == Apply(shown, writes)
    ensures Torn(shown, writes, RollBack(f, s, Before(shown, writes)).store.View(), k)
  {
    var before := Before(shown, writes);
    ReplaceKeeps(f, s, before, 0, false);
    ReplaceDisk(f, s, s.disk, before, 0, false);
    var restored := ReplaceAll(f, s, before, false);
    k := Progress(f, s.clock, before, 0);
    if restored.outcome.Done? {
      k := |writes|;
      ApplyOutside(shown, writes, |writes|);
      Restore(shown, s.disk, writes);
      Restore(shown, restored.store.disk, writes) by {
        assert restored.store.disk == shown;
      }
    }
  }

  // But a rollback that completes covers that fault as well: whenever the images are journalled
  // again, readers see the old tree.
  lemma {:induction false} CompletedRollBack<R, N>(f: Schedule, s: Store<N>, job: Job<R, N>)
    requires Clean(s) && Committed(s.View(), s.commits)
    ensures var (t, exit) := Conclude(f, s, job);
            exit.Failed? && t.journal == Some(Before(s.View(), job.writes)) ==> t.View() == s.View()
  {
    hide Before, Apply, ApplyTo, Publish, RollBack, Work, Dirty;
    var shown := s.View();
    JournalFirst(f, s, job.writes);
    var j := WriteJournal(f, s, Before(shown, job.writes));
    if j.outcome.Done? {
      TryLeaves(f, j.store, shown, job);
      var published := Publish(f, j.store, job);
      if published.outcome.Raised? && published.store.journal.None? {
        RollBackCompletes(f, published.store, shown, job.writes);
      } else if published.outcome.Raised? {
        RollBackShielded(f, published.store, shown, job.writes);
      }
    }
  }

  lemma {:induction false} RollBackCompletes<N>(f: Schedule, s: Store<N>, shown: Tree, writes: Images)
    requires s.journal.None? && s.disk == Apply(shown, writes)
    ensures var t := RollBack(f, s, Before(shown, writes)).store;
            t.journal == Some(Before(shown, writes)) ==> t.View() == shown
  {
    hide Before, ApplyTo, ReplaceFrom;
    var before := Before(shown, writes);
    ReplaceKeeps(f, s, before, 0, false);
    ReplaceWithin(f, s, before, false);
    ApplyOutside(shown, writes, |writes|);
    Restore(shown, s.disk, writes);
    Restore(shown, shown, writes);
  }

  ghost predicate NoOp(tree: Tree, w: Write<Name, Text>) {
    w.value == Get(tree, w.key)
  }

  // Such a view is one of the two whole trees exactly when the interruption
  // separates nothing: no restored file, or no file left, was changed at all.
  lemma {:induction false} TornExactly(tree: Tree, writes: Images, k: nat)
    requires DistinctKeys(writes) && k <= |writes|
    ensures var after := Apply(tree, writes);
            var torn := ApplyTo(after, Before(tree, writes), k);
            (torn == tree || torn == after)
            <==> ((forall i | 0 <= i < k :: NoOp(tree, writes[i]))
                  || (forall i | k <= i < |writes| :: NoOp(tree, writes[i])))
  {
    var after := Apply(tree, writes);
    var torn := ApplyTo(after, Before(tree, writes), k);
    forall i | 0 <= i < |writes|
      ensures Get(after, writes[i].key) == writes[i].value
      ensures Get(torn, writes[i].key) == if i < k then Get(tree, writes[i].key) else writes[i].value
    {
      TornAt(tree, writes, k, i);
    }
    if forall i | 0 <= i < k :: NoOp(tree, writes[i]) {
      TornIs(tree, writes, k, after);
    }
    if forall i | k <= i < |writes| :: NoOp(tree, writes[i]) {
      TornIs(tree, writes, k, tree);
    }
  }

  lemma {:induction false} TornAt(tree: Tree, writes: Images, k: nat, i: nat)
    requires DistinctKeys(writes) && k <= |writes| && i < |writes|
    ensures var after := Apply(tree, writes);
            var torn := ApplyTo(after, Before(tree, writes), k);
            && Get(after, writes[i].key) == writes[i].value
            && Get(torn, writes[i].key) == if i < k then Get(tree, writes[i].key) else writes[i].value
  {
    var b, key := Before(tree, writes), writes[i].key;
    ApplyAt(tree, writes, |writes|, key);
    LastDistinct(writes, |writes|, i);
    ApplyAt(Apply(tree, writes), b, k, key);
    if i < k {
      LastDistinct(b, k, i);
    } else {
      LastKey(b, k, key);
    }
  }

  lemma {:induction false} TornIs(tree: Tree, writes: Images, k: nat, whole: Tree)
    requires DistinctKeys(writes) && k <= |writes|
    requires whole == tree || whole == Apply(tree, writes)
    requires forall i | 0 <= i < |writes| ::
               Get(whole, writes[i].key) == if i < k then Get(tree, writes[i].key) else writes[i].value
    ensures ApplyTo(Apply(tree, writes), Before(tree, writes), k) == whole
  {
    var after, b := Apply(tree, writes), Before(tree, writes);
    var torn := ApplyTo(after, b, k);
    forall n ensures Get(torn, n) == Get(whole, n) {
      if n in Keys(writes) {
        var i :| 0 <= i < |writes| && writes[i].key == n;
        TornAt(tree, writes, k, i);
      } else {
        ApplyAt(tree, writes, |writes|, n);
        LastKey(writes, |writes|, n);
        ApplyAt(after, b, k, n);
        LastKey(b, k, n);
        assert forall j | 0 <= j < k :: b[j].key == writes[j].key;
      }
    }
    SameTree(torn, whole);
  }

  ghost predicate QuietFor(f: Schedule, from: nat, steps: nat) {
    forall t: nat | from <= t < from + steps :: f(t).NoFault?
  }

  lemma {:induction false} ReplaceUntil<N>(f: Schedule, s: Store<N>, ws: Images, i: nat, stop: nat)
    requires i <= stop <= |ws| && QuietFor(f, s.clock, stop - i)
    requires stop < |ws| ==> f(s.clock + stop - i).CrashBefore?
    ensures Progress(f, s.clock, ws, i) == stop
    ensures var t := ReplaceFrom(f, s, ws, i, false);
            if stop < |ws| then t.outcome.Crashed? else t.outcome.Done? && t.store.clock == s.clock + stop - i
    decreases |ws| - i
  {
    hide Put, Log, Apply;
    if i < stop {
      var step := ReplaceFile(f, s, ws[i]);
      ReplaceUntil(f, step.store, ws, i + 1, stop);
    }
  }

  // The schedules that tear: everything succeeds up to the journal's unlink, its
  // sync raises, and the process dies after restoring k of the files.
  ghost predicate Tears(f: Schedule, clock: nat, files: nat, k: nat) {
    var unlink := clock + files + 3;
    && k < files && QuietFor(f, clock, files + 3) && f(unlink).UnlinkThenRaise?
    && QuietFor(f, unlink + 1, k) && f(unlink + 1 + k).CrashBefore?
  }

  lemma {:induction false} WorkUntil<R, N>(f: Schedule, s: Store<N>, shown: Tree, job: Job<R, N>)
    requires Shielded(s, shown, job.writes) && s.disk == shown == s.Head() && s.temps == {}
    requires job.committed(Report(s, job, Apply(shown, job.writes))).Some? && QuietFor(f, s.clock, |job.writes| + 2)
    ensures Work(f, s, job).outcome.Done? && Work(f, s, job).store.clock == s.clock + |job.writes| + 2
  {
    WritesShielded(f, s, shown, job.writes);
    ReplaceUntil(f, s, job.writes, 0, |job.writes|);
    var written := ReplaceAll(f, s, job.writes, false);
    CommitShielded(f, written.store, shown, job.writes, job.message);
  }

  lemma {:induction false} TornReached<R, N>(f: Schedule, s: Store<N>, job: Job<R, N>, k: nat)
    requires Clean(s) && Committed(s.View(), s.commits) && Tears(f, s.clock, |job.writes|, k)
    requires job.committed(Report(s, job, Apply(s.View(), job.writes))).Some?
    ensures Conclude(f, s, job).0.View() == ApplyTo(Apply(s.View(), job.writes), Before(s.View(), job.writes), k)
  {
    hide Work, Publish, RollBack;
    var shown, ws := s.View(), job.writes;
    JournalFirst(f, s, ws);
    var j := WriteJournal(f, s, Before(shown, ws));
    WorkUntil(f, j.store, shown, job);
    WorkReports(f, j.store, shown, job);
    PublishSplits(f, j.store, job);
    var p := RemoveJournal(f, Work(f, j.store, job).store);
    assert Publish(f, j.store, job) == p && p.outcome.Raised?;
    TornRollBack(f, p.store, shown, ws, k);
  }

  lemma {:induction false} TornRollBack<N>(f: Schedule, s: Store<N>, shown: Tree, writes: Images, k: nat)
    requires s.journal.None? && s.disk == Apply(shown, writes)
    requires k < |writes| && QuietFor(f, s.clock, k) && f(s.clock + k).CrashBefore?
    ensures RollBack(f, s, Before(shown, writes)).store.View() == ApplyTo(s.disk, Before(shown, writes), k)
  {
    var before := Before(shown, writes);
    ReplaceKeeps(f, s, before, 0, false);
    ReplaceUntil(f, s, before, 0, k);
    ReplaceDisk(f, s, s.disk, before, 0, false);
  }

  // Readers see one of the two whole trees.
  ghost predicate WholeAfter<R, N>(f: Schedule, s: Store<N>, job: Job<R, N>) {
    var view := Conclude(f, s, job).0.View(); view == s.View() || view == Apply(s.View(), job.writes)
  }

  predicate OneChange(tree: Tree, writes: Images) {
    forall i, j | 0 <= i < j < |writes| ::
      writes[i].value == Get(tree, writes[i].key) || writes[j].value == Get(tree, writes[j].key)
  }

  // No schedule whatever tears a transaction exactly when at most one of its writes changes its file.
  lemma {:induction false} NeverTornExactly<R, N>(s: Store<N>, job: Job<R, N>)
    requires Clean(s) && Committed(s.View(), s.commits) && DistinctKeys(job.writes)
    requires job.committed(Report(s, job, Apply(s.View(), job.writes))).Some?
    ensures (forall f: Schedule :: WholeAfter(f, s, job)) <==> OneChange(s.View(), job.writes)
  {
    hide Conclude;
    if OneChange(s.View(), job.writes) {
      forall f: Schedule
        ensures WholeAfter(f, s, job)
      {
        OneChangeWhole(f, s, job);
      }
    } else {
      var i, j :| 0 <= i < j < |job.writes| && !NoOp(s.View(), job.writes[i]) && !NoOp(s.View(), job.writes[j]);
      var f := TearingAt(s.clock, |job.writes|, j);
      TornReached(f, s, job, j);
      TornExactly(s.View(), job.writes, j);
      assert !WholeAfter(f, s, job);
    }
  }

  lemma {:induction false} OneChangeWhole<R, N>(f: Schedule, s: Store<N>, job: Job<R, N>)
    requires Clean(s) && Committed(s.View(), s.commits) && DistinctKeys(job.writes) && OneChange(s.View(), job.writes)
    ensures WholeAfter(f, s, job)
  {
    hide Conclude;
    TornAtWorst(f, s, job);
    var k: nat :| Torn(s.View(), job.writes, Conclude(f, s, job).0.View(), k);
    TornExactly(s.View(), job.writes, k);
  }

  function TearingAt(clock: nat, files: nat, k: nat): (f: Schedule)
    requires k < files
    ensures Tears(f, clock, files, k)
  {
    (t: nat) =>
      if t == clock + files + 3 then UnlinkThenRaise else if t == clock + files + 4 + k then CrashBefore else NoFault
  }

  // So a whole writer that changes one file at most is atomic under every schedule.
  lemma {:induction false} OneChangeAtomic<R, N>(f: Schedule, s: Store<N>, job: Job<R, N>)
    requires Valid(s) && DistinctKeys(job.writes) && OneChange(s.View(), job.writes)
    ensures Persist(f, s, job).0.View() == s.View() || Persist(f, s, job).0.View() == Apply(s.View(), job.writes)
  {
    hide Conclude, Begin;
    BeginInvisible(f, s, job);
    var (begun, exit) := Begin(f, s, job);
    if exit.Returned? {
      OneChangeWhole(f, begun, job);
    }
  }

  // Two changed files are enough: readers see one old and one new.
  lemma {:induction false} TornPair(f: Schedule, x: Text, y: Text)
    requires Tears(f, 0, 2, 1) && x != y
    ensures var tree: Tree := map["a" := x, "b" := x];
            var s := Store(0, tree, {}, None, [Commit(tree, "")], (), [tree]);
            var writes := [Write("a", Some(y)), Write("b", Some(y))];
            var job := Job(writes, "approve", map[], (t: Text) => t, (scene: Scene<()>) => Some(()),
                           (scene: Scene<()>) => (), (scene: Scene<()>) => Some(()));
            && Clean(s) && Valid(s)
            && Conclude(f, s, job).0.View() != s.View()
            && Conclude(f, s, job).0.View() != Apply(s.View(), writes)
  {
    var tree: Tree := map["a" := x, "b" := x];
    var s := Store(0, tree, {}, None, [Commit(tree, "")], (), [tree]);
    var writes := [Write("a", Some(y)), Write("b", Some(y))];
    var job := Job(writes, "approve", map[], (t: Text) => t, (scene: Scene<()>) => Some(()),
                   (scene: Scene<()>) => (), (scene: Scene<()>) => Some(()));
    assert s.commits[0].tree == s.View();
    TornReached(f, s, job, 1);
    TornExactly(tree, writes, 1);
    assert !NoOp(tree, writes[0]) && !NoOp(tree, writes[1]);
  }
}
