// What the journal protocol guarantees under every fault schedule.
module CrashSafety {
  import opened Base
  import opened Trees
  import opened Journal

  // ----- the loop over files ---------------------------------------------------

  // How many files have been replaced when the loop stops.
  ghost function Progress(f: Schedule, clock: nat, ws: Images, i: nat): (k: nat)
    requires i <= |ws|
    ensures i <= k <= |ws|
    decreases |ws| - i
  {
    if i == |ws| then i
    else if f(clock).NoFault? then Progress(f, clock + 1, ws, i + 1)
    else if TakesEffect(f(clock)) then i + 1
    else i
  }

  lemma {:induction false} ReplaceKeeps<N>(f: Schedule, s: Store<N>, ws: Images, i: nat, sweep: bool)
    requires i <= |ws|
    ensures var t := ReplaceFrom(f, s, ws, i, sweep).store;
            t.commits == s.commits && t.journal == s.journal && t.notes == s.notes && t.clock >= s.clock
    decreases |ws| - i
  {
    if i < |ws| {
      var step := ReplaceFile(f, Swept(s, ws[i].key, sweep), ws[i]);
      if step.outcome.Done? {
        ReplaceKeeps(f, step.store, ws, i + 1, sweep);
      }
    }
  }

  lemma {:induction false} ReplaceDisk<N>(f: Schedule, s: Store<N>, m: Tree, ws: Images, i: nat, sweep: bool)
    requires i <= |ws| && s.disk == ApplyTo(m, ws, i)
    ensures var t := ReplaceFrom(f, s, ws, i, sweep);
            && t.store.disk == ApplyTo(m, ws, Progress(f, s.clock, ws, i))
            && (t.outcome.Done? ==> t.store.disk == Apply(m, ws))
    decreases |ws| - i
  {
    hide Put, Log;
    if i < |ws| {
      var step := ReplaceFile(f, Swept(s, ws[i].key, sweep), ws[i]);
      if step.outcome.Done? {
        ReplaceDisk(f, step.store, m, ws, i + 1, sweep);
      }
    }
  }

  // Wherever it stops, only the named files can differ from before.
  lemma {:induction false} ReplaceWithin<N>(f: Schedule, s: Store<N>, ws: Images, sweep: bool)
    ensures var t := ReplaceAll(f, s, ws, sweep);
            && AgreeOutside(t.store.disk, s.disk, Keys(ws))
            && (t.outcome.Done? ==> t.store.disk == Apply(s.disk, ws))
  {
    ReplaceDisk(f, s, s.disk, ws, 0, sweep);
    ApplyOutside(s.disk, ws, Progress(f, s.clock, ws, 0));
  }

  lemma {:induction false} ReplaceTemps<N>(f: Schedule, s: Store<N>, ws: Images, i: nat, sweep: bool)
    requires i <= |ws| && (sweep || s.temps == {})
    ensures var t := ReplaceFrom(f, s, ws, i, sweep);
            && t.store.temps <= s.temps + Keys(ws)
            && (t.outcome.Raised? ==> t.store.temps <= s.temps)
            && (t.outcome.Done? ==> t.store.temps <= s.temps && forall j | i <= j < |ws| :: ws[j].key !in t.store.temps)
    decreases |ws| - i
  {
    if i < |ws| {
      var step := ReplaceFile(f, Swept(s, ws[i].key, sweep), ws[i]);
      assert ws[i].key in Keys(ws);
      if step.outcome.Done? {
        ReplaceTemps(f, step.store, ws, i + 1, sweep);
      }
    }
  }

  lemma {:induction false} OneHidden<N>(f: Schedule, s: Store<N>, w: Write<Name, Text>, sweep: bool)
    requires Logged(s) && w.key in Keys(s.Pending())
    ensures var t := ReplaceFile(f, Swept(s, w.key, sweep), w).store;
            t.View() == s.View() && t.views == s.views && Logged(t) && t.journal == s.journal
  {
    hide Apply, Put;
    PutAgrees(s.disk, w, Keys(s.Pending()));
    OverlayHides(Put(s.disk, w), s.disk, s.Pending());
  }

  // Readers notice nothing while the journal covers every file written.
  lemma {:induction false} ReplaceHidden<N>(f: Schedule, s: Store<N>, ws: Images, i: nat, sweep: bool)
    requires i <= |ws| && Logged(s) && Keys(ws) <= Keys(s.Pending())
    ensures var t := ReplaceFrom(f, s, ws, i, sweep).store;
            t.View() == s.View() && t.views == s.views && Logged(t)
    decreases |ws| - i
  {
    hide Apply, ApplyTo, Put, Keys, ReplaceFile, Logged;
    if i < |ws| {
      KeyIn(ws, i);
      OneHidden(f, s, ws[i], sweep);
      var step := ReplaceFile(f, Swept(s, ws[i].key, sweep), ws[i]);
      if step.outcome.Done? {
        ReplaceHidden(f, step.store, ws, i + 1, sweep);
      }
    }
  }

  lemma {:induction false} KeyIn(ws: Images, i: nat)
    requires i < |ws|
    ensures ws[i].key in Keys(ws)
  {
  }

  lemma {:induction false} ReplaceQuiet<N>(f: Schedule, s: Store<N>, ws: Images, i: nat, sweep: bool)
    requires i <= |ws| && Quiet(f, s.clock)
    ensures ReplaceFrom(f, s, ws, i, sweep).outcome.Done?
    decreases |ws| - i
  {
    if i < |ws| {
      ReplaceQuiet(f, ReplaceFile(f, Swept(s, ws[i].key, sweep), ws[i]).store, ws, i + 1, sweep);
    }
  }

  lemma {:induction false} DirtyWithin(disk: Tree, committed: Tree, keys: set<Name>)
    requires AgreeOutside(disk, committed, keys)
    ensures Dirty(disk, committed) <= keys
  {
    forall n | n in Dirty(disk, committed) ensures n in keys {
      if n !in keys {
        AgreesAt(disk, committed, keys, n);
      }
    }
  }

  // ----- recovery -------------------------------------------------------------------

  // Recovery changes nothing readers see, wherever it is interrupted, and once it
  // succeeds the disk itself is what they saw.
  lemma {:induction false} RecoveryInvisible<N>(f: Schedule, s: Store<N>)
    requires Valid(s)
    ensures var t := Recover(f, s);
            && Valid(t.store) && t.store.View() == s.View() && t.store.views == s.views
            && s.commits <= t.store.commits && t.store.notes == s.notes && t.store.clock >= s.clock
            && (t.outcome.Done? ==> Clean(t.store) && t.store.Pending() == [])
            && (t.store.journal == s.journal || t.store.journal.None?)
            && (Quiet(f, s.clock) ==> t.outcome.Done?)
  {
    var previous := s.Pending();
    if previous == [] {
      assert Recover(f, s) == Step(s, Done);
      assert Keys(previous) == {};
      AgreesEverywhere(s.disk, s.Head());
      return;
    }
    var restored := ReplaceAll(f, s, previous, true);
    ReplaceKeeps(f, s, previous, 0, true);
    ReplaceWithin(f, s, previous, true);
    ReplaceTemps(f, s, previous, 0, true);
    ReplaceHidden(f, s, previous, 0, true);
    if restored.outcome.Done? {
      DirtyWithin(restored.store.disk, s.Head(), Keys(previous));
      RecoveryCommits(f, restored.store, s.View());
    }
    if Quiet(f, s.clock) {
      ReplaceQuiet(f, s, previous, 0, true);
    }
  }

  // The end of recovery, once every file is back.
  lemma {:induction false} RecoveryCommits<N>(f: Schedule, s: Store<N>, shown: Tree)
    requires s.Pending() != [] && s.disk == s.View() == shown && s.temps == {} && Logged(s)
    requires Dirty(s.disk, s.Head()) <= Keys(s.Pending())
    requires AgreeOutside(s.disk, s.Head(), Keys(s.Pending()))
    requires s.commits != [] && Committed(shown, s.commits)
    ensures var c := CommitFiles(f, s, "Recover interrupted governance approval", Keys(s.Pending()));
            var t := if c.outcome.Done? then RemoveJournal(f, c.store) else c;
            && Valid(t.store) && t.store.View() == shown && t.store.views == s.views
            && s.commits <= t.store.commits && t.store.notes == s.notes && t.store.clock >= s.clock
            && (t.outcome.Done? ==> Clean(t.store) && t.store.Pending() == [])
            && (t.store.journal == s.journal || t.store.journal.None?)
            && (Quiet(f, s.clock) ==> t.outcome.Done?)
  {
    hide Apply, Dirty, Keys, Committed;
    var c := CommitFiles(f, s, "Recover interrupted governance approval", Keys(s.Pending()));
    CommittedGrows(shown, s.commits, c.store.commits);
    if c.outcome.Done? {
      RecoveryEnds(f, c.store);
    }
  }

  lemma {:induction false} RecoveryEnds<N>(f: Schedule, s: Store<N>)
    requires s.commits != [] && s.disk == s.View() == s.Head() && s.temps == {} && Logged(s)
    requires s.Pending() != [] && Committed(s.View(), s.commits)
    ensures var t := RemoveJournal(f, s);
            && Valid(t.store) && t.store.View() == s.View() && t.store.views == s.views
            && t.store.commits == s.commits && t.store.notes == s.notes && t.store.clock >= s.clock
            && (t.outcome.Done? ==> Clean(t.store) && t.store.Pending() == [])
  {
  }

  lemma {:induction false} CommittedGrows(tree: Tree, commits: seq<Commit>, more: seq<Commit>)
    requires Committed(tree, commits) && commits <= more
    ensures Committed(tree, more)
  {
    var i :| 0 <= i < |commits| && commits[i].tree == tree;
    assert more[i] == commits[i];
  }

  // ----- publication and rollback ------------------------------------------------------

  // Inside the `try` block: the journal shields readers from every written file.
  ghost predicate Shielded<N>(s: Store<N>, shown: Tree, writes: Images) {
    && s.commits != [] && s.journal == Some(Before(shown, writes)) && s.View() == shown && Logged(s)
    && AgreeOutside(s.disk, shown, Keys(writes))
    && AgreeOutside(s.Head(), shown, Keys(writes))
    && s.temps <= Keys(writes)
  }

  // One store follows another without readers or history losing anything.
  ghost predicate Follows<N>(s: Store<N>, t: Store<N>) {
    s.commits <= t.commits && t.views == s.views && t.clock >= s.clock
  }

  lemma {:induction false} WritesShielded<N>(f: Schedule, s: Store<N>, shown: Tree, writes: Images)
    requires Shielded(s, shown, writes) && s.disk == shown && s.temps == {}
    ensures var t := ReplaceAll(f, s, writes, false);
            && Shielded(t.store, shown, writes) && Follows(s, t.store)
            && t.store.commits == s.commits && t.store.notes == s.notes
            && (t.outcome.Done? ==> t.store.disk == Apply(shown, writes))
            && (!t.outcome.Crashed? ==> t.store.temps == {})
  {
    BeforeKeys(shown, writes);
    ReplaceKeeps(f, s, writes, 0, false);
    ReplaceWithin(f, s, writes, false);
    ReplaceTemps(f, s, writes, 0, false);
    ReplaceHidden(f, s, writes, 0, false);
  }

  lemma {:induction false} CommitShielded<N>(f: Schedule, s: Store<N>, shown: Tree, writes: Images, message: string)
    requires Shielded(s, shown, writes) && s.temps == {} && s.Head() == shown
    ensures var t := CommitFiles(f, s, message, Keys(writes));
            && Shielded(t.store, shown, writes) && Follows(s, t.store)
            && t.store.temps == {} && t.store.disk == s.disk && t.store.notes == s.notes
            && (t.outcome.Done? ==> t.store.commits == s.commits + [Commit(s.disk, message)])
            && (f(s.clock).NoFault? ==> t.outcome.Done?)
  {
    DirtyWithin(s.disk, shown, Keys(writes));
  }

  // `Publish` without its last operation.
  ghost function Work<R, N>(f: Schedule, s: Store<N>, job: Job<R, N>): Step<N> {
    var written := ReplaceAll(f, s, job.writes, false);
    if !written.outcome.Done? then written else
    var committed := CommitFiles(f, written.store, job.message, Keys(job.writes));
    if !committed.outcome.Done? then committed else
    Call(f, committed.store, job.committed)
  }

  ghost function Unveil<N>(f: Schedule, work: Step<N>): Step<N> {
    if work.outcome.Done? then RemoveJournal(f, work.store) else work
  }

  lemma {:induction false} PublishSplits<R, N>(f: Schedule, s: Store<N>, job: Job<R, N>)
    ensures Publish(f, s, job) == Unveil(f, Work(f, s, job))
  {
  }

  // What the `committed` callback is shown once the new tree is in history.
  ghost function Report<R, N>(s: Store<N>, job: Job<R, N>, after: Tree): Scene<N> {
    Scene(after, true, s.commits + [Commit(after, job.message)], s.notes)
  }

  lemma {:induction false} CallShielded<N>(
      f: Schedule, s: Store<N>, shown: Tree, writes: Images, callback: Scene<N> -> Option<N>)
    requires Shielded(s, shown, writes)
    ensures var t := Call(f, s, callback).store;
            Shielded(t, shown, writes) && Follows(s, t) && t.temps == s.temps
  {
  }

  lemma {:induction false} WorkShielded<R, N>(f: Schedule, s: Store<N>, shown: Tree, job: Job<R, N>)
    requires Shielded(s, shown, job.writes) && s.disk == shown == s.Head() && s.temps == {}
    ensures var t := Work(f, s, job);
            && Shielded(t.store, shown, job.writes) && Follows(s, t.store)
            && (!t.outcome.Crashed? ==> t.store.temps == {})
  {
    WritesShielded(f, s, shown, job.writes);
    var written := ReplaceAll(f, s, job.writes, false);
    if written.outcome.Done? {
      CommitShielded(f, written.store, shown, job.writes, job.message);
      var c := CommitFiles(f, written.store, job.message, Keys(job.writes));
      if c.outcome.Done? {
        CallShielded(f, c.store, shown, job.writes, job.committed);
        assert Work(f, s, job) == Call(f, c.store, job.committed);
      } else {
        assert Work(f, s, job) == c;
      }
    } else {
      assert Work(f, s, job) == written;
    }
  }

  lemma {:induction false} WorkReports<R, N>(f: Schedule, s: Store<N>, shown: Tree, job: Job<R, N>)
    requires Shielded(s, shown, job.writes) && s.disk == shown == s.Head() && s.temps == {}
    ensures var t := Work(f, s, job);
            var report := Report(s, job, Apply(shown, job.writes));
            && (t.outcome.Done? ==>
                  && t.store.disk == report.tree && t.store.commits == report.commits
                  && job.committed(report) == Some(t.store.notes))
            && (t.store.notes == s.notes
                || (job.committed(report) == Some(t.store.notes) && t.store.commits == report.commits))
  {
    WritesShielded(f, s, shown, job.writes);
    var written := ReplaceAll(f, s, job.writes, false);
    if written.outcome.Done? {
      CommitShielded(f, written.store, shown, job.writes, job.message);
    }
  }

  // An exception leaves readers the old tree: the rollback writes under the
  // journal that was never lost, and journals the same images again.
  lemma {:induction false} RollBackShielded<N>(f: Schedule, s: Store<N>, shown: Tree, writes: Images)
    requires Shielded(s, shown, writes) && s.temps == {}
    ensures var t := RollBack(f, s, Before(shown, writes)).store;
            Shielded(t, shown, writes) && Follows(s, t) && t.commits == s.commits && t.notes == s.notes
  {
    var before := Before(shown, writes);
    BeforeKeys(shown, writes);
    ReplaceKeeps(f, s, before, 0, false);
    ReplaceWithin(f, s, before, false);
    ReplaceTemps(f, s, before, 0, false);
    ReplaceHidden(f, s, before, 0, false);
  }

  // The last operation publishes: it removes the journal or changes nothing.
  lemma {:induction false} UnveilSwitches<N>(f: Schedule, work: Step<N>, shown: Tree, writes: Images)
    requires OrderedRemoval(f) && Shielded(work.store, shown, writes)
    requires work.outcome.Done? ==> work.store.disk == work.store.Head() && work.store.temps == {}
    ensures var t := Unveil(f, work);
            && t.store.commits == work.store.commits && t.store.notes == work.store.notes
            && t.store.clock >= work.store.clock && t.store.temps == work.store.temps
            && (t.outcome.Done? ==> work.outcome.Done? && t.store.journal.None?)
            && (t.outcome.Raised? ==> Shielded(t.store, shown, writes))
            && (t.store.journal.None? ==> work.outcome.Done? && Switched(work.store, t.store))
            && (t.store.journal.Some? ==> Shielded(t.store, shown, writes) && Follows(work.store, t.store))
  {
    assert f(work.store.clock) != UnlinkThenRaise;
  }

  ghost predicate Switched<N>(s: Store<N>, t: Store<N>) {
    t.disk == s.disk && t.journal.None? && t.views == Log(s.views, s.disk) && Logged(t)
  }

  // ----- crash atomicity ----------------------------------------------------------------

  // Readers saw nothing new, or exactly one new view: the whole tree after.
  ghost predicate Switches<N>(s: Store<N>, t: Store<N>, published: bool, after: Tree) {
    && t.views == (if published then Log(s.views, after) else s.views)
    && t.View() == (if published then after else s.View())
  }

  lemma {:induction false} ShieldedIsValid<N>(s: Store<N>, shown: Tree, writes: Images, commits: seq<Commit>)
    requires Shielded(s, shown, writes) && Committed(shown, commits) && commits <= s.commits
    ensures Valid(s)
  {
    CommittedGrows(shown, commits, s.commits);
    BeforeKeys(shown, writes);
  }

  lemma {:induction false} SwitchedIsValid<N>(s: Store<N>)
    requires s.journal.None? && s.commits != [] && s.disk == s.Head() && s.temps == {} && Logged(s)
    ensures Valid(s)
  {
    assert s.commits[|s.commits| - 1].tree == s.View();
  }

  lemma {:induction false} JournalFirst<N>(f: Schedule, s: Store<N>, writes: Images)
    requires Clean(s) && Committed(s.View(), s.commits)
    ensures var j := WriteJournal(f, s, Before(s.View(), writes));
            && Valid(j.store) && Follows(s, j.store) && j.store.View() == s.View() && j.store.notes == s.notes
            && j.store.commits == s.commits
            && (j.outcome.Done? ==>
                  && Shielded(j.store, s.View(), writes)
                  && j.store.disk == s.View() == j.store.Head() && j.store.temps == {})
            && (f(s.clock).NoFault? ==> j.outcome.Done?)
  {
    Restore(s.View(), s.View(), writes);
  }

  lemma {:induction false} ConcludeAtomic<R, N>(f: Schedule, s: Store<N>, job: Job<R, N>)
    requires OrderedRemoval(f) && Clean(s) && Committed(s.View(), s.commits)
    ensures var (t, exit) := Conclude(f, s, job);
            var after := Apply(s.View(), job.writes);
            && Valid(t) && s.commits <= t.commits && t.clock >= s.clock && exit != Conflict
            && (Switches(s, t, false, after) || Switches(s, t, true, after))
            && (exit.Returned? ==> Switches(s, t, true, after))
            && (exit.Failed? ==> Switches(s, t, false, after))
  {
    var shown := s.View();
    JournalFirst(f, s, job.writes);
    var j := WriteJournal(f, s, Before(s.disk, job.writes));
    if j.outcome.Done? {
      PublishAtomic(f, j.store, shown, job);
      var published := Publish(f, j.store, job);
      if published.outcome.Raised? {
        RollBackShielded(f, published.store, shown, job.writes);
        ShieldedIsValid(RollBack(f, published.store, Before(shown, job.writes)).store, shown, job.writes, s.commits);
      }
    }
  }

  lemma {:induction false} PublishAtomic<R, N>(f: Schedule, s: Store<N>, shown: Tree, job: Job<R, N>)
    requires OrderedRemoval(f) && Committed(shown, s.commits)
    requires Shielded(s, shown, job.writes) && s.disk == shown == s.Head() && s.temps == {}
    ensures var t := Publish(f, s, job);
            var after := Apply(shown, job.writes);
            && s.commits <= t.store.commits && t.store.clock >= s.clock
            && Valid(t.store)
            && (t.outcome.Raised? ==>
                  Shielded(t.store, shown, job.writes) && t.store.temps == {} && t.store.views == s.views)
            && (Switches(s, t.store, false, after) || Switches(s, t.store, true, after))
            && (t.outcome.Done? ==> Switches(s, t.store, true, after))
  {
    PublishSplits(f, s, job);
    WorkShielded(f, s, shown, job);
    WorkReports(f, s, shown, job);
    var work := Work(f, s, job);
    UnveilSwitches(f, work, shown, job.writes);
    var t := Unveil(f, work);
    assert t == Publish(f, s, job);
    if t.store.journal.None? {
      assert t.store.disk == Apply(shown, job.writes);
      SwitchedIsValid(t.store);
      assert Switches(s, t.store, true, Apply(shown, job.writes));
    } else {
      ShieldedIsValid(t.store, shown, job.writes, s.commits);
      assert Switches(s, t.store, false, Apply(shown, job.writes));
    }
  }

  // Recovery, comparison and `prepare` are invisible and end in a clean store.
  lemma {:induction false} BeginInvisible<R, N>(f: Schedule, s: Store<N>, job: Job<R, N>)
    requires Valid(s)
    ensures var (t, exit) := Begin(f, s, job);
            && Valid(t) && t.View() == s.View() && Follows(s, t)
            && (exit.Returned? ==> Clean(t) && Holds(job.expected, job.parse, s.View()))
            && (exit.Conflict? ==> !Holds(job.expected, job.parse, s.View()))
    ensures var (t, exit) := Begin(f, s, job);
            var scene := Scene(s.View(), t.journal.Some?, t.commits, s.notes);
            var answer := job.prepare(scene);
            && (t.notes == s.notes || answer == Some(t.notes) || (answer.Some? && t.notes == job.partial(scene)))
            && (exit.Returned? ==> answer == Some(t.notes))
            && (t.journal == s.journal || t.journal.None?)
            && (Quiet(f, s.clock) ==> t.notes == s.notes || exit.Returned?)
            && (Quiet(f, s.clock) && Holds(job.expected, job.parse, s.View()) && answer.Some? ==> exit.Returned?)
            && (Quiet(f, s.clock) && s.journal != Some([]) ==> t.journal.None?)
  {
    hide Recover, Apply, AgreeOutside, Keys, Dirty, Committed;
    RecoveryInvisible(f, s);
    var recovered := Recover(f, s);
    if recovered.outcome.Done? && Holds(job.expected, job.parse, s.View()) {
      PrepareClean(f, recovered.store, job);
    }
  }

  lemma {:induction false} PrepareClean<R, N>(f: Schedule, s: Store<N>, job: Job<R, N>)
    requires Valid(s) && Clean(s)
    ensures var t := Prepare(f, s, job).store;
            && Valid(t) && Clean(t) && t.View() == s.View() && Follows(s, t)
            && t.commits == s.commits && t.journal == s.journal
  {
    hide Valid, Clean, Prepare, Apply;
    NotesAlone(s, s.clock, s.notes);
    PrepareNotes(f, s, job);
    var t := Prepare(f, s, job).store;
    NotesAlone(s, t.clock, t.notes);
  }

  // The callback touches nothing but the notes.
  lemma {:induction false} PrepareNotes<R, N>(f: Schedule, s: Store<N>, job: Job<R, N>)
    requires Logged(s)
    ensures var t := Prepare(f, s, job).store;
            t == s.(clock := t.clock, notes := t.notes) && t.clock >= s.clock
  {
    hide Apply;
  }

  lemma {:induction false} NotesAlone<N>(s: Store<N>, clock: nat, notes: N)
    requires Valid(s) && Clean(s)
    ensures var t := s.(clock := clock, notes := notes);
            Valid(t) && Clean(t) && t.View() == s.View() && Logged(s)
  {
  }

  // One writer's effect: readers go from the whole old tree to the whole new tree
  // in one step, or stay; the exit says which, except after a crash.
  ghost predicate Atomic<R, N>(s: Store<N>, t: Store<N>, job: Job<R, N>, exit: Exit) {
    var after := Apply(s.View(), job.writes);
    && Valid(t) && s.commits <= t.commits && t.clock >= s.clock
    && (Switches(s, t, false, after)
        || (Switches(s, t, true, after) && Holds(job.expected, job.parse, s.View())))
    && (exit.Returned? ==> Switches(s, t, true, after) && Holds(job.expected, job.parse, s.View()))
    && (exit.Conflict? ==> Switches(s, t, false, after) && !Holds(job.expected, job.parse, s.View()))
    && (exit.Failed? ==> Switches(s, t, false, after))
  }

  // So it is under every schedule of exceptions and crashes.
  lemma {:induction false} CrashAtomicity<R, N>(f: Schedule, s: Store<N>, job: Job<R, N>)
    requires OrderedRemoval(f) && Valid(s)
    ensures var (t, exit) := Persist(f, s, job); Atomic(s, t, job, exit)
  {
    BeginInvisible(f, s, job);
    var (begun, exit) := Begin(f, s, job);
    if exit.Returned? {
      ConcludeAtomic(f, begun, job);
    }
  }

  // ----- what callers and callbacks may rely on -----------------------------------------

  // The callback's answer is in the notes whenever readers see the new tree, and
  // the commit it was shown is then the last one.
  lemma {:induction false} ConcludeReports<R, N>(f: Schedule, s: Store<N>, job: Job<R, N>)
    requires OrderedRemoval(f) && Clean(s) && Committed(s.View(), s.commits)
    ensures var (t, exit) := Conclude(f, s, job);
            var after := Apply(s.View(), job.writes);
            var report := Report(s, job, after);
            && (t.notes == s.notes || (job.committed(report) == Some(t.notes) && t.commits == report.commits))
            && (t.journal == s.journal || t.journal.None? || t.journal == Some(Before(s.View(), job.writes)))
            && (Switches(s, t, false, after)
                || (Switches(s, t, true, after) && job.committed(report) == Some(t.notes)
                    && t.commits == report.commits && t.journal.None?))
            && (exit.Returned? ==> Switches(s, t, true, after) && job.committed(report) == Some(t.notes)
                                   && t.commits == report.commits && t.journal.None?)
            && (Quiet(f, s.clock) && job.committed(report).Some? ==> exit.Returned?)
  {
    var shown := s.View();
    JournalFirst(f, s, job.writes);
    var j := WriteJournal(f, s, Before(s.disk, job.writes));
    if j.outcome.Done? {
      PublishReports(f, j.store, shown, job);
      var published := Publish(f, j.store, job);
      if published.outcome.Raised? {
        RollBackShielded(f, published.store, shown, job.writes);
      }
    }
  }

  lemma {:induction false} PublishReports<R, N>(f: Schedule, s: Store<N>, shown: Tree, job: Job<R, N>)
    requires OrderedRemoval(f) && Committed(shown, s.commits)
    requires Shielded(s, shown, job.writes) && s.disk == shown == s.Head() && s.temps == {}
    ensures var t := Publish(f, s, job);
            var after := Apply(shown, job.writes);
            var report := Report(s, job, after);
            && (t.store.notes == s.notes
                || (job.committed(report) == Some(t.store.notes) && t.store.commits == report.commits))
            && (t.store.journal.None? || t.store.journal == Some(Before(shown, job.writes)))
            && (t.outcome.Raised? ==>
                  Shielded(t.store, shown, job.writes) && t.store.temps == {} && t.store.views == s.views)
            && (Switches(s, t.store, false, after)
                || (Switches(s, t.store, true, after) && job.committed(report) == Some(t.store.notes)
                    && t.store.commits == report.commits && t.store.journal.None?))
            && (t.outcome.Done? ==> t.store.journal.None? && Switches(s, t.store, true, after)
                                    && job.committed(report) == Some(t.store.notes)
                                    && t.store.commits == report.commits)
            && (Quiet(f, s.clock) && job.committed(report).Some? ==> t.outcome.Done?)
  {
    PublishSplits(f, s, job);
    WorkShielded(f, s, shown, job);
    WorkReports(f, s, shown, job);
    var work := Work(f, s, job);
    UnveilSwitches(f, work, shown, job.writes);
    var t := Unveil(f, work);
    assert t == Publish(f, s, job);
    if Quiet(f, s.clock) && job.committed(Report(s, job, Apply(shown, job.writes))).Some? {
      WorkQuiet(f, s, shown, job);
    }
  }

  lemma {:induction false} WorkQuiet<R, N>(f: Schedule, s: Store<N>, shown: Tree, job: Job<R, N>)
    requires Shielded(s, shown, job.writes) && s.disk == shown == s.Head() && s.temps == {}
    requires Quiet(f, s.clock) && job.committed(Report(s, job, Apply(shown, job.writes))).Some?
    ensures Work(f, s, job).outcome.Done?
  {
    WritesShielded(f, s, shown, job.writes);
    ReplaceQuiet(f, s, job.writes, 0, false);
    var written := ReplaceAll(f, s, job.writes, false);
    CommitShielded(f, written.store, shown, job.writes, job.message);
  }

  // A writer no fault disturbs succeeds exactly when its comparison and its
  // callbacks do, however many dead writers came before it.
  lemma {:induction false} QuietWriterSucceeds<R, N>(f: Schedule, s: Store<N>, job: Job<R, N>)
    requires OrderedRemoval(f) && Valid(s) && Quiet(f, s.clock)
    requires forall scene :: job.prepare(scene).Some? && job.committed(scene).Some?
    ensures Persist(f, s, job).1 == if Holds(job.expected, job.parse, s.View()) then Returned else Conflict
  {
    BeginInvisible(f, s, job);
    var (begun, exit) := Begin(f, s, job);
    if exit.Returned? {
      ConcludeReports(f, begun, job);
    } else {
      RecoveryInvisible(f, s);
    }
  }
}
