// Running a plan, or undoing it, through the journal: receipts, crashes and running it again.
module Migration {
  import opened Base
  import opened CrashSafety
  import opened Journal
  import opened Repositories
  import opened Trees

  datatype Direction = Migrate | Undo

  // `Torn` is what a process leaves that stops while it creates the file. Commits are named by
  // their position in the history.
  datatype Receipt = Torn | Receipt(finished: bool, recovery: nat, evidence: Option<nat>)

  datatype Receipts = Receipts(migrate: Option<Receipt>, rollBack: Option<Receipt>)
  {
    function At(d: Direction): Option<Receipt> {
      if d.Migrate? then migrate else rollBack
    }

    function Put(d: Direction, r: Receipt): (rs: Receipts)
      ensures forall e :: rs.At(e) == if e == d then Some(r) else At(e)
    {
      if d.Migrate? then this.(migrate := Some(r)) else this.(rollBack := Some(r))
    }
  }

  predicate Readable(r: Option<Receipt>) {
    r.Some? && !r.value.Torn?
  }

  predicate Evident(r: Option<Receipt>) {
    Readable(r) && r.value.evidence.Some?
  }

  // A reviewed plan: its two snapshots, its writes, and what `_verify_rules` says of a tree
  // before or after the plan was applied.
  datatype Plan = Plan(
    before: Tree, after: Tree, forward: Images, backward: Images, digest: string, verified: (Tree, bool) -> bool)
  {
    function Source(d: Direction): Tree {
      if d.Migrate? then before else after
    }

    function Target(d: Direction): Tree {
      if d.Migrate? then after else before
    }

    function Writes(d: Direction): Images {
      if d.Migrate? then forward else backward
    }

    function Message(d: Direction): string {
      (if d.Migrate? then "Migrate" else "Rollback") + " exact duplicates " + digest
    }

    // Its writes lead from each snapshot to the other.
    ghost predicate Leads() {
      && before != after && forward != [] && backward != []
      && Apply(before, forward) == after && Apply(after, backward) == before
    }

    // And its rules accept both.
    ghost predicate Sound() {
      Leads() && verified(before, false) && verified(after, true)
    }
  }

  // ----- the callbacks -------------------------------------------------------------------

  predicate IsDirty(scene: Scene<Receipts>) {
    scene.commits == [] || Dirty(scene.tree, scene.commits[|scene.commits| - 1].tree) != {}
  }

  // `prepare`: the reviewed source, committed; a receipt is written before anything else.
  function Prepared(p: Plan, d: Direction, scene: Scene<Receipts>): Option<Receipts> {
    if scene.journalled || scene.tree != p.Source(d) || !p.verified(scene.tree, d.Undo?) || IsDirty(scene) then None
    else
      match scene.notes.At(d)
      case None => Some(scene.notes.Put(d, Receipt(false, |scene.commits| - 1, None)))
      case Some(Torn) => None
      case Some(_) => Some(scene.notes)
  }

  function Partial(d: Direction, scene: Scene<Receipts>): Receipts {
    if scene.notes.At(d).None? then scene.notes.Put(d, Torn) else scene.notes
  }

  // `_verify_committed`: a clean repository whose history holds the commit under its message.
  predicate Proven(p: Plan, d: Direction, scene: Scene<Receipts>, commit: nat) {
    !IsDirty(scene) && commit < |scene.commits| && scene.commits[commit].message == p.Message(d)
  }

  // `committed`: the target is on disk; the receipt names the commit before readers see it.
  function Reported(p: Plan, d: Direction, scene: Scene<Receipts>): Option<Receipts> {
    if scene.tree != p.Target(d) || !Readable(scene.notes.At(d)) || |scene.commits| == 0
       || !Proven(p, d, scene, |scene.commits| - 1) then None
    else
      Some(scene.notes.Put(d, Receipt(false, scene.notes.At(d).value.recovery, Some(|scene.commits| - 1))))
  }

  function Finished(d: Direction, scene: Scene<Receipts>): Option<Receipts> {
    if !Evident(scene.notes.At(d)) then None
    else Some(scene.notes.Put(d, scene.notes.At(d).value.(finished := true)))
  }

  // The branch for a target that is already there: matching bytes alone prove nothing.
  function Confirmed(p: Plan, d: Direction, scene: Scene<Receipts>): Option<Receipts> {
    if scene.journalled || scene.tree != p.Target(d) || !p.verified(scene.tree, d.Migrate?)
       || !Evident(scene.notes.At(d))
       || !Proven(p, d, scene, scene.notes.At(d).value.evidence.value) then None
    else Finished(d, scene)
  }

  function JobOf(p: Plan, d: Direction): Job<(), Receipts> {
    Job(p.Writes(d), p.Message(d), map[], (t: Text) => (),
        (scene: Scene<Receipts>) => Prepared(p, d, scene),
        (scene: Scene<Receipts>) => Partial(d, scene),
        (scene: Scene<Receipts>) => Reported(p, d, scene))
  }

  // ----- apply_plan --------------------------------------------------------------------------

  datatype Answer = Applied | AlreadyDone | Refused | Stopped

  function AnswerOf(o: Outcome, a: Answer): Answer {
    match o case Done => a case Raised => Refused case Crashed => Stopped
  }

  function ApplyPlan(f: Schedule, s: Store<Receipts>, p: Plan, d: Direction): (Store<Receipts>, Answer) {
    if s.journal.None? && s.disk == p.Target(d) then
      if !Evident(s.notes.At(d)) then (s, Refused) else
      var confirmed := Call(f, s, (scene: Scene<Receipts>) => Confirmed(p, d, scene));
      (confirmed.store, AnswerOf(confirmed.outcome, AlreadyDone))
    else
      var (t, exit) := Persist(f, s, JobOf(p, d));
      if !exit.Returned? then (t, if exit.Died? then Stopped else Refused) else
      var finished := Call(f, t, (scene: Scene<Receipts>) => Finished(d, scene));
      (finished.store, AnswerOf(finished.outcome, Applied))
  }

  method RunPlan(repository: Repository<Receipts>, p: Plan, d: Direction) returns (a: Answer)
    modifies repository
    ensures (repository.State(), a) == ApplyPlan(repository.faults, old(repository.State()), p, d)
    ensures Valid(old(repository.State())) ==> Gated(p, d, old(repository.State()), repository.State(), a)
    ensures OrderedRemoval(repository.faults) && Valid(old(repository.State())) && Succeeds(a) ==>
              Means(p, d, old(repository.State()), repository.State(), a)
    ensures OrderedRemoval(repository.faults) && p.Leads() && Inv(p, old(repository.State())) ==>
              && Kept(p, d, old(repository.State()), repository.State())
              && (Succeeds(a) ==> Settled(p, d, repository.State()))
  {
    hide Persist, Call, Inv, Kept, Settled, Gated, Means, Confirmed, Finished, Prepared, Reported, Partial;
    if Valid(repository.State()) {
      RulesGate(repository.faults, repository.State(), p, d);
      if OrderedRemoval(repository.faults) && Succeeds(ApplyPlan(repository.faults, repository.State(), p, d).1) {
        SuccessMeans(repository.faults, repository.State(), p, d);
      }
    }
    if OrderedRemoval(repository.faults) && p.Leads() && Inv(p, repository.State()) {
      ApplyKeeps(repository.faults, repository.State(), p, d);
    }
    if repository.journal.None? && repository.disk == p.Target(d) {
      if !Evident(repository.notes.At(d)) {
        return Refused;
      }
      var o := repository.Invoke((scene: Scene<Receipts>) => Confirmed(p, d, scene));
      return AnswerOf(o, AlreadyDone);
    }
    var exit := repository.PersistGovernance(JobOf(p, d));
    if exit != Returned {
      return if exit.Died? then Stopped else Refused;
    }
    var o := repository.Invoke((scene: Scene<Receipts>) => Finished(d, scene));
    a := AnswerOf(o, Applied);
  }

  // ----- what a run may do at all --------------------------------------------------------------

  // No fault gets a run past the plan's rules: unless they hold of the tree the run started from,
  // and it is the reviewed one, readers see nothing new, no receipt is written, and no success is
  // reported.
  ghost predicate Gated(p: Plan, d: Direction, s: Store<Receipts>, t: Store<Receipts>, a: Answer) {
    && (t.views != s.views || a.Applied? ==> s.View() == p.Source(d) && p.verified(s.View(), d == Undo))
    && (a.AlreadyDone? ==> s.journal.None? && s.View() == p.Target(d) && p.verified(s.View(), d == Migrate))
    && (t.notes != s.notes ==>
          || (s.View() == p.Source(d) && p.verified(s.View(), d == Undo))
          || (s.View() == p.Target(d) && p.verified(s.View(), d == Migrate)))
  }

  lemma {:induction false} RulesGate(f: Schedule, s: Store<Receipts>, p: Plan, d: Direction)
    requires Valid(s)
    ensures var (t, a) := ApplyPlan(f, s, p, d); Gated(p, d, s, t, a)
  {
    hide Begin, Conclude, Valid, Apply;
    ViewIsDisk(s);
    if !(s.journal.None? && s.disk == p.Target(d)) {
      var job := JobOf(p, d);
      BeginInvisible(f, s, job);
      var (t, exit) := Begin(f, s, job);
      var scene := Scene(s.View(), t.journal.Some?, t.commits, s.notes);
      assert job.prepare(scene) == Prepared(p, d, scene);
    }
  }

  lemma {:induction false} ViewIsDisk(s: Store<Receipts>)
    requires Valid(s)
    ensures Logged(s) && (s.journal.None? ==> s.View() == s.disk)
  {
  }

  // Success means that the target is published under a receipt that says so: it names a commit
  // of the direction's message in the history, the last one if this run made it, and for recovery
  // the commit of the source it started from.
  ghost predicate Means(p: Plan, d: Direction, s: Store<Receipts>, t: Store<Receipts>, a: Answer) {
    && t.journal.None? && t.View() == p.Target(d)
    && t.notes.At(d).Some? && t.notes.At(d).value.Receipt? && t.notes.At(d).value.finished
    && (forall e | e != d :: t.notes.At(e) == s.notes.At(e))
    && var r := t.notes.At(d).value;
       && r.evidence.Some? && r.evidence.value < |t.commits|
       && t.commits[r.evidence.value].message
          == (if d == Migrate then "Migrate" else "Rollback") + " exact duplicates " + p.digest
       && (a.Applied? ==>
             && r.evidence.value == |t.commits| - 1 && t.commits[|t.commits| - 1].tree == p.Target(d)
             && s.View() == p.Source(d)
             && (s.notes.At(d).None? ==>
                   r.recovery < |t.commits| && t.commits[r.recovery].tree == p.Source(d))
             && (s.notes.At(d).Some? ==>
                   s.notes.At(d).value.Receipt? && r.recovery == s.notes.At(d).value.recovery))
  }

  lemma {:induction false} SuccessMeans(f: Schedule, s: Store<Receipts>, p: Plan, d: Direction)
    requires OrderedRemoval(f) && Valid(s) && Succeeds(ApplyPlan(f, s, p, d).1)
    ensures var (t, a) := ApplyPlan(f, s, p, d); Means(p, d, s, t, a)
  {
    hide Begin, Conclude, Valid, Apply;
    ViewIsDisk(s);
    if !(s.journal.None? && s.disk == p.Target(d)) {
      AppliedMeans(f, s, p, d);
    }
  }

  lemma {:induction false} PreparedNames(p: Plan, d: Direction, scene: Scene<Receipts>)
    requires Prepared(p, d, scene).Some?
    ensures var rs := Prepared(p, d, scene).value;
            && scene.tree == p.Source(d) && Readable(rs.At(d)) && scene.notes.At(d) != Some(Torn)
            && (forall e | e != d :: rs.At(e) == scene.notes.At(e))
            && (scene.notes.At(d).Some? ==> rs.At(d) == scene.notes.At(d))
            && (scene.notes.At(d).None? ==>
                  && rs.At(d).value.recovery < |scene.commits|
                  && scene.commits[rs.At(d).value.recovery].tree == p.Source(d))
  {
    CleanIsCommitted(scene);
  }

  lemma {:induction false} ReportedNames(p: Plan, d: Direction, scene: Scene<Receipts>)
    requires Reported(p, d, scene).Some?
    ensures var rs := Reported(p, d, scene).value;
            && scene.tree == p.Target(d) && Readable(scene.notes.At(d)) && scene.commits != []
            && rs.At(d) == Some(Receipt(false, scene.notes.At(d).value.recovery, Some(|scene.commits| - 1)))
            && (forall e | e != d :: rs.At(e) == scene.notes.At(e))
            && scene.commits[|scene.commits| - 1] == Commit(p.Target(d), p.Message(d))
  {
    CleanIsCommitted(scene);
  }

  // The migration's writer, up to the last receipt.
  lemma {:induction false} WriterNames(f: Schedule, s: Store<Receipts>, p: Plan, d: Direction)
    requires OrderedRemoval(f) && Valid(s) && Persist(f, s, JobOf(p, d)).1.Returned?
    ensures var t := Persist(f, s, JobOf(p, d)).0;
            && t.journal.None? && t.View() == p.Target(d) && s.View() == p.Source(d) && s.notes.At(d) != Some(Torn)
            && (forall e | e != d :: t.notes.At(e) == s.notes.At(e))
            && t.commits != [] && t.commits[|t.commits| - 1] == Commit(p.Target(d), p.Message(d))
            && Readable(t.notes.At(d)) && t.notes.At(d).value.evidence == Some(|t.commits| - 1)
            && var recovery := t.notes.At(d).value.recovery;
               if s.notes.At(d).Some? then recovery == s.notes.At(d).value.recovery
               else recovery < |t.commits| && t.commits[recovery].tree == p.Source(d)
  {
    hide Begin, Conclude, Valid, Apply, Plan.Message, Prepared, Reported, Receipts.At, Partial, Committed;
    var job := JobOf(p, d);
    BeginInvisible(f, s, job);
    var (begun, _) := Begin(f, s, job);
    var scene := Scene(s.View(), begun.journal.Some?, begun.commits, s.notes);
    assert job.prepare(scene) == Prepared(p, d, scene);
    PreparedNames(p, d, scene);
    CommittedOf(begun);
    ConcludeAtomic(f, begun, job);
    ConcludeReports(f, begun, job);
    var report := Report(begun, job, Apply(begun.View(), job.writes));
    assert job.committed(report) == Reported(p, d, report);
    ReportedNames(p, d, report);
    var t := Conclude(f, begun, job).0;
    assert forall i | 0 <= i < |begun.commits| :: t.commits[i] == begun.commits[i];
  }

  lemma {:induction false} AppliedMeans(f: Schedule, s: Store<Receipts>, p: Plan, d: Direction)
    requires OrderedRemoval(f) && Valid(s) && ApplyPlan(f, s, p, d).1.Applied?
    ensures var (t, a) := ApplyPlan(f, s, p, d); Means(p, d, s, t, a)
  {
    hide Persist, Valid, Apply;
    WriterNames(f, s, p, d);
  }

  // ----- what every run keeps ------------------------------------------------------------------

  // Evidence names a commit of the target under the migration's message; a finished receipt has it;
  // and what the receipt names for recovery is a commit of the source.
  ghost predicate Truthful(p: Plan, d: Direction, commits: seq<Commit>, r: Option<Receipt>) {
    && (Readable(r) ==> r.value.recovery < |commits| && commits[r.value.recovery].tree == p.Source(d))
    && (Evident(r) ==> r.value.evidence.value < |commits|
                       && commits[r.value.evidence.value] == Commit(p.Target(d), p.Message(d)))
    && (Readable(r) && r.value.finished ==> Evident(r))
  }

  ghost predicate AllTruthful(p: Plan, commits: seq<Commit>, rs: Receipts) {
    forall d :: Truthful(p, d, commits, rs.At(d))
  }

  // Readers see one of the two snapshots, and one that a run switched them to is in evidence.
  ghost predicate Inv(p: Plan, s: Store<Receipts>) {
    && Valid(s) && s.journal != Some([]) && (s.View() == p.before || s.View() == p.after)
    && AllTruthful(p, s.commits, s.notes)
    && forall d | s.View() == p.Target(d) && |s.views| > 1 :: Evident(s.notes.At(d))
  }

  lemma {:induction false} TruthfulGrows(p: Plan, commits: seq<Commit>, more: seq<Commit>, rs: Receipts)
    requires AllTruthful(p, commits, rs) && commits <= more
    ensures AllTruthful(p, more, rs)
  {
    forall d
      ensures Truthful(p, d, more, rs.At(d))
    {
      assert Truthful(p, d, commits, rs.At(d));
      assert forall i | 0 <= i < |commits| :: more[i] == commits[i];
    }
  }

  // Receipts change for one direction only, stay truthful and keep their evidence.
  ghost predicate Careful(p: Plan, commits: seq<Commit>, rs: Receipts, rs': Receipts) {
    AllTruthful(p, commits, rs') && forall d :: Evident(rs.At(d)) ==> Evident(rs'.At(d))
  }

  lemma {:induction false} PreparedCareful(p: Plan, d: Direction, scene: Scene<Receipts>)
    requires AllTruthful(p, scene.commits, scene.notes)
    ensures Prepared(p, d, scene).Some? ==>
              && Careful(p, scene.commits, scene.notes, Prepared(p, d, scene).value)
              && Careful(p, scene.commits, scene.notes, Partial(d, scene))
              && Readable(Prepared(p, d, scene).value.At(d))
  {
    assert forall e :: Truthful(p, e, scene.commits, scene.notes.At(e));
    if Prepared(p, d, scene).Some? {
      CleanIsCommitted(scene);
    }
  }

  lemma {:induction false} CleanIsCommitted(scene: Scene<Receipts>)
    requires !IsDirty(scene)
    ensures scene.commits != [] && scene.commits[|scene.commits| - 1].tree == scene.tree
  {
    var committed := scene.commits[|scene.commits| - 1].tree;
    assert forall n | n in scene.tree.Keys + committed.Keys :: n !in Dirty(scene.tree, committed);
    SameTree(scene.tree, committed);
  }

  lemma {:induction false} FinishedCareful(p: Plan, d: Direction, scene: Scene<Receipts>)
    requires AllTruthful(p, scene.commits, scene.notes)
    ensures Finished(d, scene).Some? ==> Careful(p, scene.commits, scene.notes, Finished(d, scene).value)
  {
    assert forall e :: Truthful(p, e, scene.commits, scene.notes.At(e));
  }

  // The commit the callback names is the one just made.
  lemma {:induction false} ReportedCareful(p: Plan, d: Direction, s: Store<Receipts>)
    requires AllTruthful(p, s.commits, s.notes)
    ensures var report := Report(s, JobOf(p, d), p.Target(d));
            var answer := Reported(p, d, report);
            answer.Some? ==> Careful(p, report.commits, s.notes, answer.value) && Evident(answer.value.At(d))
  {
    var report := Report(s, JobOf(p, d), p.Target(d));
    TruthfulGrows(p, s.commits, report.commits, s.notes);
    assert forall e :: Truthful(p, e, report.commits, s.notes.At(e));
  }

  // Any run, in either direction and under any faults, keeps the invariant; readers switch to the
  // whole target or see nothing new, and an answer of success means the target with its evidence.
  ghost predicate Kept(p: Plan, d: Direction, s: Store<Receipts>, t: Store<Receipts>) {
    && Inv(p, t) && s.commits <= t.commits && t.clock >= s.clock
    && (t.views == s.views || (s.View() == p.Source(d) && t.views == s.views + [p.Target(d)]))
  }

  lemma {:induction false} BeginKeeps(f: Schedule, s: Store<Receipts>, p: Plan, d: Direction)
    requires p.Leads() && Inv(p, s)
    ensures var (t, exit) := Begin(f, s, JobOf(p, d));
            && Inv(p, t) && s.commits <= t.commits && t.clock >= s.clock && t.views == s.views && t.View() == s.View()
            && (exit.Returned? ==> Clean(t) && s.View() == p.Source(d) && Readable(t.notes.At(d)))
            && exit != Conflict
  {
    var job := JobOf(p, d);
    BeginInvisible(f, s, job);
    var (t, exit) := Begin(f, s, job);
    var scene := Scene(s.View(), t.journal.Some?, t.commits, s.notes);
    assert job.prepare(scene) == Prepared(p, d, scene) && job.partial(scene) == Partial(d, scene);
    TruthfulGrows(p, s.commits, t.commits, s.notes);
    PreparedCareful(p, d, scene);
  }

  lemma {:induction false} ConcludeKeeps(f: Schedule, s: Store<Receipts>, p: Plan, d: Direction)
    requires OrderedRemoval(f) && p.Leads() && Inv(p, s) && Clean(s) && s.View() == p.Source(d)
    ensures var (t, exit) := Conclude(f, s, JobOf(p, d));
            && Kept(p, d, s, t) && exit != Conflict
            && (exit.Returned? ==> t.View() == p.Target(d) && Evident(t.notes.At(d)) && t.journal.None?)
  {
    var job := JobOf(p, d);
    var report := Report(s, job, p.Target(d));
    ConcludeAtomic(f, s, job);
    ConcludeReports(f, s, job);
    assert job.committed(report) == Reported(p, d, report);
    ReportedCareful(p, d, s);
    var (t, exit) := Conclude(f, s, job);
    TruthfulGrows(p, s.commits, t.commits, s.notes);
    assert Before(s.View(), job.writes) != [];
  }

  lemma {:induction false} CallKeeps(
      f: Schedule, s: Store<Receipts>, p: Plan, callback: Scene<Receipts> -> Option<Receipts>)
    requires Inv(p, s)
    requires callback(SceneOf(s)).Some? ==> Careful(p, s.commits, s.notes, callback(SceneOf(s)).value)
    ensures var c := Call(f, s, callback);
            && Inv(p, c.store) && c.store.views == s.views && c.store.commits == s.commits && c.store.clock >= s.clock
            && c.store.disk == s.disk && c.store.journal == s.journal
            && (c.outcome.Done? ==> callback(SceneOf(s)) == Some(c.store.notes))
            && (callback(SceneOf(s)).None? ==> c.store.notes == s.notes)
            && (Quiet(f, s.clock) && callback(SceneOf(s)).Some? ==> c.outcome.Done?)
  {
    hide Apply, Keys, AgreeOutside, Committed, AllTruthful, Evident;
  }

  predicate Succeeds(a: Answer) {
    a.Applied? || a.AlreadyDone?
  }

  // The target is published, with a finished receipt that names its commit.
  predicate Settled(p: Plan, d: Direction, s: Store<Receipts>) {
    s.journal.None? && s.View() == p.Target(d) && Evident(s.notes.At(d)) && s.notes.At(d).value.finished
  }

  // Whatever is on the way, readers see one of the two whole snapshots, a receipt's evidence is a
  // real commit of its target, and success means the target with a finished receipt.
  lemma {:induction false} ApplyKeeps(f: Schedule, s: Store<Receipts>, p: Plan, d: Direction)
    requires OrderedRemoval(f) && p.Leads() && Inv(p, s)
    ensures var (t, a) := ApplyPlan(f, s, p, d);
            && Kept(p, d, s, t)
            && (Succeeds(a) ==> Settled(p, d, t))
  {
    hide Inv, Persist, Call, Settled, Kept;
    if s.journal.None? && s.disk == p.Target(d) {
      ConfirmKeeps(f, s, p, d);
    } else {
      MigrateKeeps(f, s, p, d);
    }
  }

  lemma {:induction false} ConfirmKeeps(f: Schedule, s: Store<Receipts>, p: Plan, d: Direction)
    requires p.Leads() && Inv(p, s) && s.journal.None? && s.disk == p.Target(d)
    ensures var (t, a) := ApplyPlan(f, s, p, d);
            Kept(p, d, s, t) && (Succeeds(a) ==> Settled(p, d, t))
  {
    hide Inv, Careful, Call;
    InvFacts(p, s);
    FinishedCareful(p, d, SceneOf(s));
    CallKeeps(f, s, p, (scene: Scene<Receipts>) => Confirmed(p, d, scene));
  }

  lemma {:induction false} MigrateKeeps(f: Schedule, s: Store<Receipts>, p: Plan, d: Direction)
    requires OrderedRemoval(f) && p.Leads() && Inv(p, s) && !(s.journal.None? && s.disk == p.Target(d))
    ensures var (t, a) := ApplyPlan(f, s, p, d);
            Kept(p, d, s, t) && (Succeeds(a) ==> Settled(p, d, t))
  {
    hide Inv, Begin, Conclude, Careful, Call;
    BeginKeeps(f, s, p, d);
    var (begun, exit) := Begin(f, s, JobOf(p, d));
    if exit.Returned? {
      ConcludeKeeps(f, begun, p, d);
      var (t, end) := Conclude(f, begun, JobOf(p, d));
      InvFacts(p, t);
      FinishedCareful(p, d, SceneOf(t));
      CallKeeps(f, t, p, (scene: Scene<Receipts>) => Finished(d, scene));
    }
  }

  lemma {:induction false} InvFacts(p: Plan, s: Store<Receipts>)
    requires Inv(p, s)
    ensures AllTruthful(p, s.commits, s.notes) && s.views != [] && s.views[|s.views| - 1] == s.View()
    ensures s.journal.None? ==> !IsDirty(SceneOf(s))
  {
    if s.journal.None? {
      assert Keys(s.Pending()) == {};
      AgreesEverywhere(s.disk, s.Head());
    }
  }

  // ----- whole runs ----------------------------------------------------------------------------

  function Runs(f: Schedule, s: Store<Receipts>, p: Plan, ds: seq<Direction>): Store<Receipts>
    decreases |ds|
  {
    if ds == [] then s else Runs(f, ApplyPlan(f, s, p, ds[0]).0, p, ds[1..])
  }

  // From the given view on, readers saw nothing but the two snapshots.
  ghost predicate Whole(p: Plan, views: seq<Tree>, from: nat) {
    forall i | from <= i < |views| :: views[i] == p.before || views[i] == p.after
  }

  // Migrations and rollbacks in any order, each cut short anywhere: the receipts never lie, history
  // and what readers saw only grow, and readers never see a third tree.
  lemma {:induction false} RunsKeep(f: Schedule, s: Store<Receipts>, p: Plan, ds: seq<Direction>)
    requires OrderedRemoval(f) && p.Leads() && Inv(p, s)
    ensures var t := Runs(f, s, p, ds);
            && Inv(p, t) && s.commits <= t.commits && t.clock >= s.clock && s.views <= t.views
            && Whole(p, t.views, |s.views|)
    decreases |ds|
  {
    hide Inv, ApplyPlan;
    if ds != [] {
      ApplyKeeps(f, s, p, ds[0]);
      RunsKeep(f, ApplyPlan(f, s, p, ds[0]).0, p, ds[1..]);
    }
  }

  // ----- running it again ------------------------------------------------------------------------

  // What an operator can see before the run.
  predicate Ready(p: Plan, d: Direction, s: Store<Receipts>) {
    if s.journal.None? && s.disk == p.Target(d) then Evident(s.notes.At(d)) && p.verified(s.disk, d == Migrate)
    else s.View() == p.Source(d) && p.verified(s.View(), d == Undo) && s.notes.At(d) != Some(Torn)
  }

  // An undisturbed run reaches the target, or confirms it, exactly when the rules and the receipt
  // allow it and no leftover journal of the other direction shows the target.
  lemma {:induction false} ConvergesExactly(f: Schedule, s: Store<Receipts>, p: Plan, d: Direction)
    requires OrderedRemoval(f) && Quiet(f, s.clock) && p.Leads() && Inv(p, s)
    ensures Succeeds(ApplyPlan(f, s, p, d).1) <==> Ready(p, d, s)
    ensures !Succeeds(ApplyPlan(f, s, p, d).1) ==>
              ApplyPlan(f, s, p, d).0.journal.None? && ApplyPlan(f, s, p, d).0.notes == s.notes
  {
    if s.journal.None? && s.disk == p.Target(d) {
      ConfirmsExactly(f, s, p, d);
    } else {
      MigratesExactly(f, s, p, d);
    }
  }

  lemma {:induction false} ConfirmsExactly(f: Schedule, s: Store<Receipts>, p: Plan, d: Direction)
    requires OrderedRemoval(f) && Quiet(f, s.clock) && p.Leads() && Inv(p, s)
    requires s.journal.None? && s.disk == p.Target(d)
    ensures Succeeds(ApplyPlan(f, s, p, d).1) <==> Evident(s.notes.At(d)) && p.verified(s.disk, d == Migrate)
    ensures !Succeeds(ApplyPlan(f, s, p, d).1) ==>
              ApplyPlan(f, s, p, d).0.journal.None? && ApplyPlan(f, s, p, d).0.notes == s.notes
  {
    hide Inv, Careful, Call;
    InvFacts(p, s);
    assert Truthful(p, d, s.commits, s.notes.At(d));
    FinishedCareful(p, d, SceneOf(s));
    CallKeeps(f, s, p, (scene: Scene<Receipts>) => Confirmed(p, d, scene));
  }

  lemma {:induction false} MigratesExactly(f: Schedule, s: Store<Receipts>, p: Plan, d: Direction)
    requires OrderedRemoval(f) && Quiet(f, s.clock) && p.Leads() && Inv(p, s)
    requires !(s.journal.None? && s.disk == p.Target(d))
    ensures Succeeds(ApplyPlan(f, s, p, d).1) <==>
              s.View() == p.Source(d) && p.verified(s.View(), d == Undo) && s.notes.At(d) != Some(Torn)
    ensures !Succeeds(ApplyPlan(f, s, p, d).1) ==>
              ApplyPlan(f, s, p, d).0.journal.None? && ApplyPlan(f, s, p, d).0.notes == s.notes
  {
    hide Begin, Conclude, Careful, Call;
    var job := JobOf(p, d);
    var (begun, exit) := Begin(f, s, job);
    BeginQuiet(f, s, p, d);
    if exit.Returned? {
      BeginKeeps(f, s, p, d);
      ConcludeQuiet(f, begun, p, d);
      ConcludeKeeps(f, begun, p, d);
      var (t, end) := Conclude(f, begun, job);
      InvFacts(p, t);
      FinishedCareful(p, d, SceneOf(t));
      CallKeeps(f, t, p, (scene: Scene<Receipts>) => Finished(d, scene));
    }
  }

  lemma {:induction false} BeginQuiet(f: Schedule, s: Store<Receipts>, p: Plan, d: Direction)
    requires Quiet(f, s.clock) && p.Leads() && Inv(p, s)
    ensures var (t, exit) := Begin(f, s, JobOf(p, d));
            && t.journal.None?
            && (exit.Returned? <==>
                  s.View() == p.Source(d) && p.verified(s.View(), d == Undo) && s.notes.At(d) != Some(Torn))
            && (!exit.Returned? ==> t.notes == s.notes) && t.clock >= s.clock
  {
    hide Begin, Prepared, Partial, Inv, Valid, Apply, IsDirty, Quiet;
    var job := JobOf(p, d);
    BeginKeeps(f, s, p, d);
    ValidOf(p, s);
    BeginInvisible(f, s, job);
    var (t, exit) := Begin(f, s, job);
    var scene := Scene(s.View(), t.journal.Some?, t.commits, s.notes);
    assert job.prepare(scene) == Prepared(p, d, scene);
    InvFacts(p, t);
    OnlyCommits(SceneOf(t), scene);
    PreparesWhen(p, d, scene);
  }

  lemma {:induction false} ValidOf(p: Plan, s: Store<Receipts>)
    requires Inv(p, s)
    ensures Valid(s) && s.journal != Some([])
  {
  }

  lemma {:induction false} OnlyCommits(a: Scene<Receipts>, b: Scene<Receipts>)
    requires a.commits == b.commits && a.tree == b.tree
    ensures IsDirty(a) == IsDirty(b)
  {
  }

  // On a clean repository `prepare` refuses for the tree, the rules or a torn receipt alone.
  lemma {:induction false} PreparesWhen(p: Plan, d: Direction, scene: Scene<Receipts>)
    requires !scene.journalled && !IsDirty(scene)
    ensures Prepared(p, d, scene).Some? <==>
              scene.tree == p.Source(d) && p.verified(scene.tree, d == Undo) && scene.notes.At(d) != Some(Torn)
  {
  }

  lemma {:induction false} ConcludeQuiet(f: Schedule, s: Store<Receipts>, p: Plan, d: Direction)
    requires OrderedRemoval(f) && Quiet(f, s.clock) && p.Leads() && Inv(p, s) && Clean(s) && s.View() == p.Source(d)
    requires Readable(s.notes.At(d))
    ensures Conclude(f, s, JobOf(p, d)).1.Returned? && Conclude(f, s, JobOf(p, d)).0.clock >= s.clock
  {
    hide Conclude, Reported, Inv, Valid, Switches;
    var job := JobOf(p, d);
    var report := Report(s, job, p.Target(d));
    ValidOf(p, s);
    CommittedOf(s);
    ConcludeAtomic(f, s, job);
    ConcludeReports(f, s, job);
    assert job.committed(report) == Reported(p, d, report);
    ReportsWhen(p, d, s);
  }

  lemma {:induction false} CommittedOf(s: Store<Receipts>)
    requires Valid(s)
    ensures Committed(s.View(), s.commits)
  {
  }

  lemma {:induction false} ReportsWhen(p: Plan, d: Direction, s: Store<Receipts>)
    requires Readable(s.notes.At(d))
    ensures Reported(p, d, Report(s, JobOf(p, d), p.Target(d))).Some?
  {
    assert Dirty(p.Target(d), p.Target(d)) == {};
  }

  // After any crash of this plan's runs, running a direction twice without further faults succeeds
  // exactly when the rules accept what each run starts from, unless the direction's receipt was
  // torn while it was being created.
  lemma {:induction false} RetryConverges(f: Schedule, s: Store<Receipts>, p: Plan, d: Direction)
    requires OrderedRemoval(f) && Quiet(f, s.clock) && p.Leads() && Inv(p, s)
    requires s.View() == p.Target(d) ==> |s.views| > 1
    ensures var again := ApplyPlan(f, ApplyPlan(f, s, p, d).0, p, d);
            && (Succeeds(again.1) <==>
                  && s.notes.At(d) != Some(Torn) && p.verified(p.Target(d), d == Migrate)
                  && (s.View() == p.Source(d) ==> p.verified(p.Source(d), d == Undo)))
            && (Succeeds(again.1) ==> Settled(p, d, again.0))
  {
    hide ApplyPlan;
    var (t, a) := ApplyPlan(f, s, p, d);
    RulesGate(f, s, p, d);
    ApplyKeeps(f, s, p, d);
    ConvergesExactly(f, s, p, d);
    ApplyKeeps(f, t, p, d);
    ConvergesExactly(f, t, p, d);
  }

  // Such a receipt arises: the process stops inside the first file the migration creates.
  lemma {:induction false} TornReached(f: Schedule, s: Store<Receipts>, p: Plan, d: Direction)
    requires p.Leads() && Inv(p, s) && s.journal.None? && s.View() == p.Source(d) && s.notes.At(d) == None
    requires p.verified(p.Source(d), d == Undo) && f(s.clock).CrashInside?
    ensures var (t, a) := ApplyPlan(f, s, p, d);
            a.Stopped? && t.View() == p.Source(d) && t.journal.None? && t.notes.At(d) == Some(Torn)
  {
    InvFacts(p, s);
    var job := JobOf(p, d);
    assert Recover(f, s) == Step(s, Done);
    assert job.prepare(SceneOf(s)) == Prepared(p, d, SceneOf(s));
    assert job.partial(SceneOf(s)) == Partial(d, SceneOf(s));
  }
}
