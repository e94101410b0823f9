// What a writer commits, and what it undoes when its report is refused.
module JournalGuards {
  import opened Base
  import opened CrashSafety
  import opened Journal
  import opened Trees

  // ----- commits -------------------------------------------------------------------------------

  // The i-th commit holds of this file what the one before it held.
  ghost predicate LeftAlone(commits: seq<Commit>, i: nat, n: Name)
    requires i < |commits|
  {
    Get(commits[i].tree, n) == if i == 0 then None else Get(commits[i - 1].tree, n)
  }

  // History only grew, and no new commit differs from the one before it but in the named files.
  ghost predicate Confined(before: seq<Commit>, after: seq<Commit>, names: set<Name>) {
    && before <= after
    && forall i, n | |before| <= i < |after| && n !in names :: LeftAlone(after, i, n)
  }

  lemma {:induction false} CommitConfined<N>(f: Schedule, s: Store<N>, message: string, paths: set<Name>)
    ensures var t := CommitFiles(f, s, message, paths).store;
            && Confined(s.commits, t.commits, paths) && t.journal == s.journal
            && (t.commits != s.commits ==> s.temps == {} && t.commits == s.commits + [Commit(s.disk, message)])
  {
    forall n | n !in paths && Dirty(s.disk, s.Head()) <= paths
      ensures Get(s.disk, n) == Get(s.Head(), n)
    {
      assert n !in Dirty(s.disk, s.Head());
    }
  }

  lemma {:induction false} ConfinedJoins(
      a: seq<Commit>, b: seq<Commit>, c: seq<Commit>, names: set<Name>, more: set<Name>)
    requires Confined(a, b, names) && Confined(b, c, more)
    ensures Confined(a, c, names + more)
  {
    forall i, n | |a| <= i < |c| && n !in names + more
      ensures LeftAlone(c, i, n)
    {
      assert n !in names && n !in more;
      if i < |b| {
        assert LeftAlone(b, i, n) && c[i] == b[i] && (i > 0 ==> c[i - 1] == b[i - 1]);
      }
    }
  }

  lemma {:induction false} NothingConfined(commits: seq<Commit>, names: set<Name>)
    ensures Confined(commits, commits, names)
  {
  }

  lemma {:induction false} RecoverConfined<N>(f: Schedule, s: Store<N>)
    ensures Confined(s.commits, Recover(f, s).store.commits, Keys(s.Pending()))
  {
    hide Confined, CommitFiles, ReplaceFrom;
    NothingConfined(s.commits, Keys(s.Pending()));
    var previous := s.Pending();
    var restored := ReplaceAll(f, s, previous, true);
    ReplaceKeeps(f, s, previous, 0, true);
    CommitConfined(f, restored.store, "Recover interrupted governance approval", Keys(previous));
  }

  lemma {:induction false} PublishConfined<R, N>(f: Schedule, s: Store<N>, job: Job<R, N>)
    ensures Confined(s.commits, Publish(f, s, job).store.commits, Keys(job.writes))
  {
    hide Confined, CommitFiles, ReplaceFrom;
    NothingConfined(s.commits, Keys(job.writes));
    var written := ReplaceAll(f, s, job.writes, false);
    ReplaceKeeps(f, s, job.writes, 0, false);
    CommitConfined(f, written.store, job.message, Keys(job.writes));
  }

  lemma {:induction false} ConcludeConfined<R, N>(f: Schedule, s: Store<N>, job: Job<R, N>)
    ensures Confined(s.commits, Conclude(f, s, job).0.commits, Keys(job.writes))
  {
    hide Confined, Publish, ReplaceFrom;
    NothingConfined(s.commits, Keys(job.writes));
    var before := Before(s.disk, job.writes);
    var j := WriteJournal(f, s, before);
    PublishConfined(f, j.store, job);
    ReplaceKeeps(f, Publish(f, j.store, job).store, before, 0, false);
  }

  // Whatever state the repository was left in, and whatever happens: a writer commits changes to
  // the files of a pending journal and to its own, and to no other.
  lemma {:induction false} OnlyNamedCommitted<R, N>(f: Schedule, s: Store<N>, job: Job<R, N>)
    ensures Confined(s.commits, Persist(f, s, job).0.commits, Keys(s.Pending()) + Keys(job.writes))
  {
    hide Confined, Recover, Conclude;
    RecoverConfined(f, s);
    var begun := Begin(f, s, job).0;
    assert begun.commits == Recover(f, s).store.commits;
    ConcludeConfined(f, begun, job);
    NothingConfined(begun.commits, Keys(job.writes));
    ConfinedJoins(s.commits, begun.commits, Persist(f, s, job).0.commits, Keys(s.Pending()), Keys(job.writes));
  }

  // ----- a refused report -----------------------------------------------------------------------

  lemma {:induction false} UndoneQuietly<N>(f: Schedule, s: Store<N>, shown: Tree, writes: Images)
    requires AgreeOutside(shown, s.disk, Keys(writes)) && Quiet(f, s.clock)
    ensures var t := RollBack(f, s, Before(shown, writes));
            && t.outcome.Done? && t.store.disk == shown && t.store.journal == Some(Before(shown, writes))
            && t.store.commits == s.commits && t.store.notes == s.notes && t.store.clock >= s.clock
  {
    hide ReplaceFrom, Apply, Before;
    var before := Before(shown, writes);
    ReplaceQuiet(f, s, before, 0, false);
    ReplaceKeeps(f, s, before, 0, false);
    ReplaceWithin(f, s, before, false);
    Restore(shown, s.disk, writes);
  }

  // If nothing fails but the report after the commit, every file is put back and the images are
  // journalled again: the commit stays in history, readers saw nothing of it, and the next recovery
  // commits the old tree on top.
  lemma {:induction false} RefusedReport<R, N>(f: Schedule, s: Store<N>, job: Job<R, N>)
    requires Clean(s) && Committed(s.View(), s.commits) && Quiet(f, s.clock) && job.writes != []
    requires job.committed(Report(s, job, Apply(s.View(), job.writes))).None?
    ensures var (t, exit) := Conclude(f, s, job);
            && exit.Failed? && t.views == s.views && t.notes == s.notes && t.disk == s.disk
            && t.journal == Some(Before(s.disk, job.writes))
            && t.commits == s.commits + [Commit(Apply(s.disk, job.writes), job.message)]
            && var r := Recover(f, t);
               && r.outcome.Done? && r.store.journal.None? && r.store.disk == s.disk && r.store.views == s.views
               && r.store.commits == t.commits + [Commit(s.disk, "Recover interrupted governance approval")]
  {
    hide Publish, RollBack, Recover, Valid, Shielded;
    var shown := s.View();
    JournalFirst(f, s, job.writes);
    var j := WriteJournal(f, s, Before(shown, job.writes));
    ReportRefused(f, j.store, shown, job);
    var p := Publish(f, j.store, job);
    UndoneQuietly(f, p.store, shown, job.writes);
    RollBackShielded(f, p.store, shown, job.writes);
    var t := Conclude(f, s, job).0;
    ShieldedIsValid(t, shown, job.writes, s.commits);
    ShieldedViews(t, shown, job.writes);
    RecoversTo(f, t, shown, job.writes);
  }

  lemma {:induction false} ShieldedViews<N>(t: Store<N>, shown: Tree, writes: Images)
    requires Shielded(t, shown, writes)
    ensures t.journal == Some(Before(shown, writes)) && t.View() == shown
  {
  }

  lemma {:induction false} ReportRefused<R, N>(f: Schedule, s: Store<N>, shown: Tree, job: Job<R, N>)
    requires Shielded(s, shown, job.writes) && s.disk == shown == s.Head() && s.temps == {} && Quiet(f, s.clock)
    requires var after := Apply(shown, job.writes);
             job.committed(Scene(after, true, s.commits + [Commit(after, job.message)], s.notes)).None?
    ensures var p := Publish(f, s, job);
            && p.outcome.Raised? && Shielded(p.store, shown, job.writes) && p.store.temps == {}
            && Follows(s, p.store) && p.store.notes == s.notes
            && p.store.commits == s.commits + [Commit(Apply(shown, job.writes), job.message)]
            && p.store.disk == Apply(shown, job.writes)
            && AgreeOutside(shown, p.store.disk, Keys(job.writes))
  {
    hide ReplaceFrom, CommitFiles, Apply, Before;
    WritesShielded(f, s, shown, job.writes);
    ReplaceQuiet(f, s, job.writes, 0, false);
    var written := ReplaceAll(f, s, job.writes, false);
    CommitShielded(f, written.store, shown, job.writes, job.message);
    var c := CommitFiles(f, written.store, job.message, Keys(job.writes));
    CallShielded(f, c.store, shown, job.writes, job.committed);
    ApplyOutside(shown, job.writes, |job.writes|);
  }

  // Recovery without faults puts the images back and commits them.
  lemma {:induction false} RecoversTo<N>(f: Schedule, s: Store<N>, shown: Tree, writes: Images)
    requires Valid(s) && Quiet(f, s.clock) && writes != []
    requires s.journal == Some(Before(shown, writes)) && s.View() == shown
    ensures var r := Recover(f, s);
            && r.outcome.Done? && r.store.journal.None? && r.store.disk == shown && r.store.views == s.views
            && r.store.commits == s.commits + [Commit(shown, "Recover interrupted governance approval")]
  {
    hide ReplaceFrom, Valid, Apply, Dirty;
    var previous := s.Pending();
    assert previous != [];
    RecoveryInvisible(f, s);
    var restored := ReplaceAll(f, s, previous, true);
    ReplaceKeeps(f, s, previous, 0, true);
    ReplaceWithin(f, s, previous, true);
    CommitConfined(f, restored.store, "Recover interrupted governance approval", Keys(previous));
  }
}
