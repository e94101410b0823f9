// The before-image journal of governance transactions, as a protocol over values.
//
// A store holds the thought files, an optional journal of before images and the
// commit history.  Every file operation takes one tick of a fault schedule: it
// may raise or stop the process, before or after taking effect.  `views` lists
// everything a reader could have seen, looking after every single operation; a
// view that stays the same is listed once.  Repository.dfy runs this protocol.
module Journal {
  import opened Base
  import opened Trees

  type Name = string
  type Text = string
  type Tree = map<Name, Text>
  type Images = seq<Write<Name, Text>>

  datatype Commit = Commit(tree: Tree, message: string)

  // `UnlinkThenRaise` is the directory sync failing after the journal's unlink;
  // under any other failed removal the journal stays in place.
  datatype Fault =
    | NoFault
    | RaiseBefore | RaiseAfter | UnlinkThenRaise
    | CrashBefore | CrashInside | CrashAfter

  type Schedule = nat -> Fault

  datatype Outcome = Done | Raised | Crashed

  // How `persist_governance` ends; `Conflict` is its compare-and-swap failure.
  datatype Exit = Returned | Conflict | Failed | Died

  datatype Store<+N> = Store(
    clock: nat,
    disk: Tree,
    temps: set<Name>,           // temporary files a dead writer left beside its targets
    journal: Option<Images>,
    commits: seq<Commit>,
    notes: N,                   // private records beside the thoughts, such as receipts
    views: seq<Tree>)
  {
    // What readers see: before images hide the files they name.
    function View(): Tree {
      if journal.Some? then Apply(disk, journal.value) else disk
    }

    function Pending(): Images {
      if journal.Some? then journal.value else []
    }

    function Head(): Tree {
      if commits == [] then map[] else commits[|commits| - 1].tree
    }
  }

  datatype Step<+N> = Step(store: Store<N>, outcome: Outcome)

  // What a `prepare` or `committed` callback can look at.
  datatype Scene<+N> = Scene(tree: Tree, journalled: bool, commits: seq<Commit>, notes: N)

  // One call of `persist_governance`; a callback raises with `None`, and `partial` is what a
  // process that stops inside `prepare` leaves of the notes.
  datatype Job<!R, !N> = Job(
    writes: Images,
    message: string,
    expected: map<Name, R>,
    parse: Text -> R,
    prepare: Scene<N> -> Option<N>,
    partial: Scene<N> -> N,
    committed: Scene<N> -> Option<N>)

  // ----- single operations ------------------------------------------------

  function OutcomeOf(f: Fault): Outcome {
    match f
    case NoFault => Done
    case RaiseBefore | RaiseAfter | UnlinkThenRaise => Raised
    case CrashBefore | CrashInside | CrashAfter => Crashed
  }

  predicate TakesEffect(f: Fault) {
    f.NoFault? || f.RaiseAfter? || f.UnlinkThenRaise? || f.CrashAfter?
  }

  function Log(views: seq<Tree>, view: Tree): seq<Tree> {
    if views != [] && views[|views| - 1] == view then views else views + [view]
  }

  function Tick<N>(s: Store<N>): Store<N> {
    s.(clock := s.clock + 1, views := Log(s.views, s.View()))
  }

  // Writes a temporary beside the file and renames it, or unlinks the file.
  function ReplaceFile<N>(f: Schedule, s: Store<N>, w: Write<Name, Text>): Step<N> {
    var fault := f(s.clock);
    var disk := if TakesEffect(fault) then Put(s.disk, w) else s.disk;
    var temps :=
      if w.value.None? || fault.CrashBefore? then s.temps
      else if fault.CrashInside? then s.temps + {w.key}
      else s.temps - {w.key};
    Step(Tick(s.(disk := disk, temps := temps)), OutcomeOf(fault))
  }

  function WriteJournal<N>(f: Schedule, s: Store<N>, before: Images): Step<N> {
    var fault := f(s.clock);
    Step(Tick(if TakesEffect(fault) then s.(journal := Some(before)) else s), OutcomeOf(fault))
  }

  function RemoveJournal<N>(f: Schedule, s: Store<N>): Step<N> {
    var fault := f(s.clock);
    Step(Tick(if TakesEffect(fault) && !fault.RaiseAfter? then s.(journal := None) else s), OutcomeOf(fault))
  }

  function Dirty(disk: Tree, committed: Tree): set<Name> {
    set n | n in disk.Keys + committed.Keys && Get(disk, n) != Get(committed, n)
  }

  // Snapshots the whole disk, unless anything outside `paths` is dirty.
  function CommitFiles<N>(f: Schedule, s: Store<N>, message: string, paths: set<Name>): Step<N>
  {
    var fault := f(s.clock);
    if s.temps != {} || !(Dirty(s.disk, s.Head()) <= paths) then
      Step(Tick(s), Raised)
    else if TakesEffect(fault) then
      Step(Tick(s.(commits := s.commits + [Commit(s.disk, message)])), OutcomeOf(fault))
    else
      Step(Tick(s), OutcomeOf(fault))
  }

  function SceneOf<N>(s: Store<N>): Scene<N> {
    Scene(s.disk, s.journal.Some?, s.commits, s.notes)
  }

  function Call<N>(f: Schedule, s: Store<N>, callback: Scene<N> -> Option<N>): Step<N> {
    var fault := f(s.clock);
    var answer := callback(SceneOf(s));
    if answer.None? then Step(Tick(s), Raised)
    else Step(Tick(if TakesEffect(fault) then s.(notes := answer.value) else s), OutcomeOf(fault))
  }

  // ----- the protocol -------------------------------------------------------

  // Writes the files from the i-th on, one after the other, until one fails.
  // Recovery also sweeps away each stray temporary first.
  function ReplaceFrom<N>(f: Schedule, s: Store<N>, ws: Images, i: nat, sweep: bool): Step<N>
    requires i <= |ws|
    decreases |ws| - i
  {
    if i == |ws| then Step(s, Done) else
    var step := ReplaceFile(f, Swept(s, ws[i].key, sweep), ws[i]);
    if step.outcome.Done? then ReplaceFrom(f, step.store, ws, i + 1, sweep) else step
  }

  function Swept<N>(s: Store<N>, n: Name, sweep: bool): Store<N> {
    if sweep then s.(temps := s.temps - {n}) else s
  }

  function ReplaceAll<N>(f: Schedule, s: Store<N>, ws: Images, sweep: bool): Step<N> {
    ReplaceFrom(f, s, ws, 0, sweep)
  }

  function Recover<N>(f: Schedule, s: Store<N>): Step<N>
  {
    var previous := s.Pending();
    if previous == [] then Step(s, Done) else
    var restored := ReplaceAll(f, s, previous, true);
    if !restored.outcome.Done? then restored else
    var committed := CommitFiles(f, restored.store, "Recover interrupted governance approval", Keys(previous));
    if !committed.outcome.Done? then committed else
    RemoveJournal(f, committed.store)
  }

  // Every expected file is present and parses to the expected record.
  predicate Holds<R(==)>(expected: map<Name, R>, parse: Text -> R, tree: Tree) {
    forall n | n in expected :: n in tree && parse(tree[n]) == expected[n]
  }

  // The `try` block: replace every file, commit, report, remove the journal.
  function Publish<R, N>(f: Schedule, s: Store<N>, job: Job<R, N>): Step<N>
  {
    var written := ReplaceAll(f, s, job.writes, false);
    if !written.outcome.Done? then written else
    var committed := CommitFiles(f, written.store, job.message, Keys(job.writes));
    if !committed.outcome.Done? then committed else
    var reported := Call(f, committed.store, job.committed);
    if !reported.outcome.Done? then reported else
    RemoveJournal(f, reported.store)
  }

  // The `except` branch: put every file back, then journal the images again.
  function RollBack<N>(f: Schedule, s: Store<N>, before: Images): Step<N> {
    var restored := ReplaceAll(f, s, before, false);
    if !restored.outcome.Done? then restored else WriteJournal(f, restored.store, before)
  }

  function Prepare<R, N>(f: Schedule, s: Store<N>, job: Job<R, N>): Step<N> {
    var called := Call(f, s, job.prepare);
    if called.outcome.Crashed? && f(s.clock).CrashInside? then
      Step(called.store.(notes := job.partial(SceneOf(s))), Crashed)
    else
      called
  }

  // Everything before the `try` block's journal: recovery, comparison, `prepare`.
  function Begin<R(==), N>(f: Schedule, s: Store<N>, job: Job<R, N>): (Store<N>, Exit)
  {
    var recovered := Recover(f, s);
    if !recovered.outcome.Done? then (recovered.store, Ended(recovered.outcome))
    else if !Holds(job.expected, job.parse, recovered.store.disk) then (recovered.store, Conflict)
    else
      var prepared := Prepare(f, recovered.store, job);
      (prepared.store, Ended(prepared.outcome))
  }

  function Conclude<R, N>(f: Schedule, s: Store<N>, job: Job<R, N>): (Store<N>, Exit)
  {
    var before := Before(s.disk, job.writes);
    var journalled := WriteJournal(f, s, before);
    if !journalled.outcome.Done? then (journalled.store, Ended(journalled.outcome)) else
    var published := Publish(f, journalled.store, job);
    if !published.outcome.Raised? then (published.store, Ended(published.outcome)) else
    var undone := RollBack(f, published.store, before);
    (undone.store, if undone.outcome.Crashed? then Died else Failed)
  }

  // One governed writer, from taking the lock to releasing it or dying.
  function Persist<R(==), N>(f: Schedule, s: Store<N>, job: Job<R, N>): (Store<N>, Exit)
  {
    var (begun, exit) := Begin(f, s, job);
    if exit != Returned then (begun, exit) else
    Conclude(f, begun, job)
  }

  function Ended(o: Outcome): Exit {
    match o case Done => Returned case Raised => Failed case Crashed => Died
  }

  // ----- the invariant between writers -------------------------------------------

  ghost predicate Committed(tree: Tree, commits: seq<Commit>) {
    exists i :: 0 <= i < |commits| && commits[i].tree == tree
  }

  // Uncommitted differences and stray temporaries lie only under journalled
  // names, and what readers see was committed.
  ghost predicate Valid<N>(s: Store<N>) {
    && s.commits != []
    && AgreeOutside(s.disk, s.Head(), Keys(s.Pending()))
    && s.temps <= Keys(s.Pending())
    && Committed(s.View(), s.commits)
    && Logged(s)
  }

  ghost predicate Logged<N>(s: Store<N>) {
    s.views != [] && s.views[|s.views| - 1] == s.View()
  }

  // A writer that holds the lock with nothing left to recover.
  ghost predicate Clean<N>(s: Store<N>) {
    s.commits != [] && s.disk == s.Head() == s.View() && s.temps == {} && Logged(s)
  }

  // No journal removal raises after its unlink took effect.
  ghost predicate OrderedRemoval(f: Schedule) {
    forall t: nat :: f(t) != UnlinkThenRaise
  }

  ghost predicate Quiet(f: Schedule, from: nat) {
    forall t: nat | from <= t :: f(t) == NoFault
  }
}
