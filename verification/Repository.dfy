// The data repository: thought files, journal and history, updated in place.
//
// Every method performs its file operations one by one under the repository's
// fault schedule and is proved to do exactly what Journal.dfy says.
module Repositories {
  import opened Base
  import opened Trees
  import opened Journal
  import opened CrashSafety

  class Repository<N> {
    const faults: Schedule
    var clock: nat
    var disk: Tree
    var temps: set<Name>
    var journal: Option<Images>
    var commits: seq<Commit>
    var notes: N
    ghost var views: seq<Tree>

    constructor (faults: Schedule, tree: Tree, notes: N)
      ensures this.faults == faults
      ensures State() == Store(0, tree, {}, None, [Commit(tree, "")], notes, [tree]) && Valid(State())
    {
      this.faults := faults;
      clock, disk, temps, journal := 0, tree, {}, None;
      commits, this.notes, views := [Commit(tree, "")], notes, [tree];
      new;
      assert commits[0].tree == tree;
    }

    ghost function State(): Store<N>
      reads this
    {
      Store(clock, disk, temps, journal, commits, notes, views)
    }

    // ----- single file operations ----------------------------------------------

    method Replace(w: Write<Name, Text>) returns (o: Outcome)
      modifies this
      ensures Step(State(), o) == ReplaceFile(faults, old(State()), w)
    {
      var fault := faults(clock);
      if TakesEffect(fault) {
        match w.value {
          case None => disk := disk - {w.key};
          case Some(text) => disk := disk[w.key := text];
        }
      }
      if w.value.Some? && fault.CrashInside? {
        temps := temps + {w.key};
      } else if w.value.Some? && !fault.CrashBefore? {
        temps := temps - {w.key};
      }
      Ticked();
      o := OutcomeOf(fault);
    }

    method SaveJournal(before: Images) returns (o: Outcome)
      modifies this
      ensures Step(State(), o) == WriteJournal(faults, old(State()), before)
    {
      var fault := faults(clock);
      if TakesEffect(fault) {
        journal := Some(before);
      }
      Ticked();
      o := OutcomeOf(fault);
    }

    method UnlinkJournal() returns (o: Outcome)
      modifies this
      ensures Step(State(), o) == RemoveJournal(faults, old(State()))
    {
      var fault := faults(clock);
      if TakesEffect(fault) && !fault.RaiseAfter? {
        journal := None;
      }
      Ticked();
      o := OutcomeOf(fault);
    }

    method Snap(message: string, paths: set<Name>) returns (o: Outcome)
      modifies this
      ensures Step(State(), o) == CommitFiles(faults, old(State()), message, paths)
    {
      var fault := faults(clock);
      var head := if commits == [] then map[] else commits[|commits| - 1].tree;
      if temps != {} || !(Dirty(disk, head) <= paths) {
        o := Raised;
      } else {
        if TakesEffect(fault) {
          commits := commits + [Commit(disk, message)];
        }
        o := OutcomeOf(fault);
      }
      Ticked();
    }

    method Invoke(callback: Scene<N> -> Option<N>) returns (o: Outcome)
      modifies this
      ensures Step(State(), o) == Call(faults, old(State()), callback)
    {
      var fault := faults(clock);
      var answer := callback(Scene(disk, journal.Some?, commits, notes));
      if answer.None? {
        o := Raised;
      } else {
        if TakesEffect(fault) {
          notes := answer.value;
        }
        o := OutcomeOf(fault);
      }
      Ticked();
    }

    // A process that stops inside the callback may leave part of what it writes.
    method InvokePrepare<R>(job: Job<R, N>) returns (o: Outcome)
      modifies this
      ensures Step(State(), o) == Prepare(faults, old(State()), job)
    {
      var fault := faults(clock);
      var partial := job.partial(Scene(disk, journal.Some?, commits, notes));
      o := Invoke(job.prepare);
      if o.Crashed? && fault.CrashInside? {
        notes := partial;
      }
    }

    method Ticked()
      modifies this
      ensures State() == Tick(old(State()))
    {
      clock, views := clock + 1, Log(views, State().View());
    }

    // ----- the reader -------------------------------------------------------------

    // Assembles the reader's view file by file: disk files the journal does not
    // name, then the journal's own images on top.
    method Snapshot() returns (result: Tree)
      ensures result == State().View()
    {
      var before := if journal.Some? then journal.value else [];
      result := ReadFiles(before);
      ghost var base := result;
      for i := 0 to |before|
        invariant result == ApplyTo(base, before, i)
      {
        match before[i].value {
          case None => result := result - {before[i].key};
          case Some(text) => result := result[before[i].key := text];
        }
      }
      SnapshotIsOverlay(disk, before, base);
    }

    // Each file on disk, with its before image if it has one.
    method ReadFiles(before: Images) returns (result: Tree)
      ensures forall n | n in disk :: Get(result, n) == Image(disk, before, n)
      ensures forall n | n !in disk :: n !in result
    {
      hide Last;
      result := map[];
      var names := disk.Keys;
      while names != {}
        invariant names <= disk.Keys
        invariant forall n | n in names || n !in disk :: n !in result
        invariant forall n | n in disk && n !in names :: Get(result, n) == Image(disk, before, n)
        decreases |names|
      {
        var n :| n in names;
        names := names - {n};
        var image := Last(before, |before|, n);
        if image.None? {
          result := result[n := disk[n]];
        } else if image.value.Some? {
          result := result[n := image.value.value];
        }
      }
    }

    // ----- writers ------------------------------------------------------------------

    method ReplaceEach(ws: Images, sweep: bool) returns (o: Outcome)
      modifies this
      ensures Step(State(), o) == ReplaceAll(faults, old(State()), ws, sweep)
    {
      for i := 0 to |ws|
        invariant ReplaceAll(faults, old(State()), ws, sweep) == ReplaceFrom(faults, State(), ws, i, sweep)
      {
        if sweep {
          temps := temps - {ws[i].key};
        }
        o := Replace(ws[i]);
        if o != Done {
          return;
        }
      }
      o := Done;
    }

    method RecoverJournal() returns (o: Outcome)
      modifies this
      ensures Step(State(), o) == Recover(faults, old(State()))
    {
      var previous := if journal.Some? then journal.value else [];
      if previous == [] {
        return Done;
      }
      o := ReplaceEach(previous, true);
      if o != Done {
        return;
      }
      o := Snap("Recover interrupted governance approval", Keys(previous));
      if o != Done {
        return;
      }
      o := UnlinkJournal();
    }

    // The loop over `expected`: every file must still parse to its record.
    method Unchanged<R(==)>(expected: map<Name, R>, parse: Text -> R) returns (same: bool)
      ensures same <==> Holds(expected, parse, disk)
    {
      var names := expected.Keys;
      while names != {}
        invariant names <= expected.Keys
        invariant forall n | n in expected && n !in names :: n in disk && parse(disk[n]) == expected[n]
        decreases |names|
      {
        var n :| n in names;
        names := names - {n};
        if n !in disk || parse(disk[n]) != expected[n] {
          return false;
        }
      }
      return true;
    }

    method BeforeImages(writes: Images) returns (before: Images)
      ensures before == Before(disk, writes)
    {
      before := [];
      for i := 0 to |writes|
        invariant before == Before(disk, writes)[..i]
      {
        before := before + [Write(writes[i].key, Get(disk, writes[i].key))];
      }
    }

    // The body of the `try` block.
    method Attempt<R>(job: Job<R, N>) returns (o: Outcome)
      modifies this
      ensures Step(State(), o) == Publish(faults, old(State()), job)
    {
      o := ReplaceEach(job.writes, false);
      if o != Done {
        return;
      }
      o := Snap(job.message, Keys(job.writes));
      if o != Done {
        return;
      }
      o := Invoke(job.committed);
      if o != Done {
        return;
      }
      o := UnlinkJournal();
    }

    // Journals the before images, runs the `try` block and, on an exception, its
    // `except` branch.
    method Transact<R>(job: Job<R, N>) returns (r: Exit)
      modifies this
      ensures (State(), r) == Conclude(faults, old(State()), job)
    {
      var before := BeforeImages(job.writes);
      var o := SaveJournal(before);
      if o != Done {
        return Ended(o);
      }
      o := Attempt(job);
      if o != Raised {
        return Ended(o);
      }
      o := ReplaceEach(before, false);
      if o == Done {
        o := SaveJournal(before);
      }
      r := if o.Crashed? then Died else Failed;
    }

    // `persist_governance`: recover, compare, prepare, transact.
    method PersistGovernance<R(==)>(job: Job<R, N>) returns (r: Exit)
      modifies this
      ensures (State(), r) == Persist(faults, old(State()), job)
      ensures OrderedRemoval(faults) && Valid(old(State())) ==> Atomic(old(State()), State(), job, r)
    {
      hide Atomic, Valid, OrderedRemoval, Recover, Prepare, Conclude;
      if OrderedRemoval(faults) && Valid(State()) {
        CrashAtomicity(faults, State(), job);
      }
      var o := RecoverJournal();
      if o != Done {
        return Ended(o);
      }
      var same := Unchanged(job.expected, job.parse);
      if !same {
        return Conflict;
      }
      o := InvokePrepare(job);
      if o != Done {
        return Ended(o);
      }
      r := Transact(job);
    }
  }

  ghost function Image(disk: Tree, before: Images, n: Name): Option<Text> {
    match Last(before, |before|, n) case None => Get(disk, n) case Some(v) => v
  }

  lemma {:induction false} SnapshotIsOverlay(disk: Tree, before: Images, base: Tree)
    requires forall n | n in disk :: Get(base, n) == Image(disk, before, n)
    requires forall n | n !in disk :: n !in base
    ensures Apply(base, before) == Apply(disk, before)
  {
    forall n ensures Get(Apply(base, before), n) == Get(Apply(disk, before), n) {
      ApplyAt(base, before, |before|, n);
      ApplyAt(disk, before, |before|, n);
    }
    SameTree(Apply(base, before), Apply(disk, before));
  }
}
