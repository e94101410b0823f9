// The lifecycle over the journal: files, faults and crashes below, records and
// reviews above, in one system.
//
// Silent events leave the files alone.  Authors write one file while no journal
// is pending.  Publishing and superseding run the journal protocol under the
// fault schedule, and what readers then see decides what happened to the record.
module Composition {
  import opened Base
  import opened Trees
  import opened Journal
  import opened CrashSafety
  import opened Publication
  import L = Lifecycle
  import N = Lineage
  import P = Promotion
  import R = Records

  datatype System<+T> = System(store: Store<T>, world: L.World)

  datatype Move<!T> =
    | Silent(event: L.Event)
    | Written(event: L.Event, write: Write<Name, Text>, message: string)
    | Recovered
    | Governed(event: L.Event, job: Job<R.Record, T>)

  // The one record an author's event stores.
  function Draft(w: L.World, e: L.Event): Option<Write<R.Path, R.Record>>
    requires w.views != []
  {
    match e
    case Save(path, t, patches, _) => Some(Write(path, Some(L.SavedRecord(t, patches))))
    case Update(path, content) =>
      if path in w.Now() then Some(Write(path, Some(P.Stored(w.Now()[path].(content := content))))) else None
    case Supersede(path, t, original, scope, _) =>
      Some(Write(path, Some(P.Stored(P.SuccessorRecord(t, original, scope)))))
    case _ => None
  }

  // A single file written in place and committed.
  function Committing<T>(s: Store<T>, w: Write<Name, Text>, message: string): Store<T> {
    var disk := Put(s.disk, w);
    s.(disk := disk, commits := s.commits + [Commit(disk, message)], views := Log(s.views, disk))
  }

  // The decision a process is about to publish.
  ghost predicate Deciding(w: L.World, pid: nat) {
    pid in w.procs && w.procs[pid].Holding? && P.Propose(w.procs[pid].q, w.procs[pid].items).Transaction?
  }

  function Decided(w: L.World, pid: nat): P.Decision
    requires pid in w.procs && w.procs[pid].Holding?
  {
    P.Propose(w.procs[pid].q, w.procs[pid].items)
  }

  // The world once readers see what the process published, whatever it compared.
  function Published(w: L.World, pid: nat): L.World
    requires w.views != [] && pid in w.procs && w.procs[pid].Holding? && Decided(w, pid).Transaction?
  {
    var d := Decided(w, pid);
    L.World(w.views + [Apply(w.Now(), d.writes)], w.born, w.procs - {pid},
            if d.record.fm.status.Approved?
            then w.approvals + [L.Approval(pid, |w.views|, w.procs[pid].q, d.target, d.applied)]
            else w.approvals)
  }

  ghost predicate Step<T>(form: Format, f: Schedule, s: System<T>, m: Move<T>, t: System<T>)
    requires s.world.views != []
  {
    match m
    case Silent(e) =>
      && t.store == s.store && (e.Abandon? || e.BeginReview? || e.Prepare? || e.Drop?) && L.Next(s.world, e, t.world)
    case Written(e, w, message) =>
      && (e.Save? || e.Update?) && L.Next(s.world, e, t.world)
      && s.store.journal.None? && Draft(s.world, e).Some? && EncodesWrite(form, w, Draft(s.world, e).value)
      && t.store == Committing(s.store, w, message)
    case Recovered =>
      t == System(Recover(f, s.store).store, s.world)
    case Governed(e, job) =>
      && job.parse == form.parse && t.store == Persist(f, s.store, job).0
      && (e.Publish? || e.Supersede?)
      && if e.Publish? then Publishes(form, s, e.pid, job, t) else Supersedes(form, s, e, job, t)
  }

  ghost predicate Publishes<T>(form: Format, s: System<T>, pid: nat, job: Job<R.Record, T>, t: System<T>)
    requires s.world.views != []
  {
    && Deciding(s.world, pid)
    && Encodes(form, job.writes, Decided(s.world, pid).writes)
    && EncodesExpected(form, job.expected, Decided(s.world, pid).expected)
    && t.world == if t.store.View() != s.store.View() then Published(s.world, pid)
                  else s.world.(procs := s.world.procs - {pid})
  }

  ghost predicate Supersedes<T>(form: Format, s: System<T>, e: L.Event, job: Job<R.Record, T>, t: System<T>)
    requires s.world.views != [] && e.Supersede?
  {
    var draft := Draft(s.world, e).value;
    var born := s.world.born[e.t.id := e.birth];
    var shown := L.Shows(s.world, Put(s.world.Now(), draft), born);
    && |job.writes| == 1 && EncodesWrite(form, job.writes[0], draft) && job.expected == map[]
    && L.Next(s.world, e, shown)
    && t.world == if t.store.View() != s.store.View() then shown else s.world.(born := born)
  }

  // ----- what holds between moves ----------------------------------------------------------

  // Each tree readers saw holds the records of a view of the world, in order.
  ghost predicate Mirrors(form: Format, trees: seq<Tree>, views: seq<P.View>, at: seq<nat>) {
    && |at| == |trees|
    && (forall n | 0 <= n < |trees| :: at[n] < |views| && Denotes(form, trees[n], views[at[n]]))
    && forall n, m | 0 <= n <= m < |trees| :: at[n] <= at[m]
  }

  ghost predicate Good<T>(form: Format, s: System<T>) {
    && Valid(s.store) && L.Inv(s.world) && Denotes(form, s.store.View(), s.world.Now())
    && exists at: seq<nat> :: Mirrors(form, s.store.views, s.world.views, at)
  }

  // The move as the lifecycle sees it; None is a stutter.
  function Seen<T>(s: System<T>, m: Move<T>, t: System<T>): Option<L.Event> {
    match m
    case Silent(e) => Some(e)
    case Written(e, _, _) => Some(e)
    case Recovered => None
    case Governed(e, _) =>
      if t.store.View() != s.store.View() then Some(e)
      else if e.Publish? then Some(L.Drop(e.pid))
      else if e.Supersede? then Some(L.Abandon(e.t.id, e.birth))
      else None
  }

  ghost predicate Projects(w: L.World, e: Option<L.Event>, w': L.World)
    requires w.views != []
  {
    match e case None => w' == w case Some(event) => L.Next(w, event, w')
  }

  // ----- one move -----------------------------------------------------------------------------

  lemma {:induction false} MirrorsMore(
      form: Format, trees: seq<Tree>, views: seq<P.View>, tree: Tree, views': seq<P.View>)
    requires exists at: seq<nat> :: Mirrors(form, trees, views, at)
    requires views <= views' && views' != [] && Denotes(form, tree, views'[|views'| - 1])
    ensures exists at: seq<nat> :: Mirrors(form, trees, views', at)
    ensures exists at: seq<nat> :: Mirrors(form, trees + [tree], views', at)
  {
    hide Denotes;
    var at: seq<nat> :| Mirrors(form, trees, views, at);
    assert Mirrors(form, trees, views', at);
    assert Mirrors(form, trees + [tree], views', at + [|views'| - 1]);
  }

  // Readers saw nothing new, or the one tree that is there now.
  ghost predicate Grew<T>(s: Store<T>, t: Store<T>) {
    t.views == s.views || t.views == s.views + [t.View()]
  }

  lemma {:induction false} StaysGood<T>(form: Format, s: System<T>, t: System<T>)
    requires Good(form, s) && Valid(t.store) && L.Inv(t.world) && Denotes(form, t.store.View(), t.world.Now())
    requires Grew(s.store, t.store) && s.world.views <= t.world.views
    ensures Good(form, t)
  {
    hide Denotes, Mirrors, L.Inv, Valid;
    assert t.world.views != [] by {
      WorldSeen(s.world);
    }
    MirrorsMore(form, s.store.views, s.world.views, t.store.View(), t.world.views);
  }

  lemma {:induction false} WorldSeen(w: L.World)
    requires L.Inv(w)
    ensures w.views != []
  {
  }

  // An author's file on a repository without a journal.
  lemma {:induction false} WrittenGood<T>(
      form: Format, s: System<T>, e: L.Event, w: Write<Name, Text>, message: string, t: System<T>)
    requires Injective(form.name) && Good(form, s) && (e.Save? || e.Update?) && L.Next(s.world, e, t.world)
    requires s.store.journal.None? && Draft(s.world, e).Some? && EncodesWrite(form, w, Draft(s.world, e).value)
    requires t.store == Committing(s.store, w, message)
    ensures Good(form, t)
  {
    hide Denotes, Mirrors, L.Inv, Injective, EncodesWrite;
    WorldSeen(s.world);
    L.StepKeeps(s.world, e, t.world);
    NextShows(s.world, e, t.world);
    PutDenotes(form, s.store.View(), s.world.Now(), w, Draft(s.world, e).value);
    CommittingValid(s.store, w, message);
    StaysGood(form, s, t);
  }

  lemma {:induction false} CommittingValid<T>(s: Store<T>, w: Write<Name, Text>, message: string)
    requires Valid(s) && s.journal.None?
    ensures var t := Committing(s, w, message);
            Valid(t) && t.View() == Put(s.View(), w) && Grew(s, t)
  {
    var t := Committing(s, w, message);
    assert Keys(s.Pending()) == {} && Keys(t.Pending()) == {};
    assert t.commits[|t.commits| - 1].tree == t.View();
  }

  lemma {:induction false} NextShows(w: L.World, e: L.Event, w': L.World)
    requires w.views != [] && L.Next(w, e, w') && Draft(w, e).Some?
    ensures w'.views == w.views + [Put(w.Now(), Draft(w, e).value)]
  {
    hide L.Mints, P.Propose, P.Commit;
  }

  // The journal protocol, as the records see it.
  lemma {:induction false} PersistShows<T>(
      form: Format, f: Schedule, s: Store<T>, job: Job<R.Record, T>, view: P.View, writes: P.Writes, expected: P.View)
    requires OrderedRemoval(f) && Injective(form.name) && Valid(s) && Denotes(form, s.View(), view)
    requires job.parse == form.parse && Encodes(form, job.writes, writes)
             && EncodesExpected(form, job.expected, expected)
    ensures var t := Persist(f, s, job).0;
            && Valid(t) && Grew(s, t)
            && (t.View() != s.View() ==> P.Expected(expected, view) && Denotes(form, t.View(), Apply(view, writes)))
  {
    hide Persist, EncodesWrite, EncodesExpected, Denotes, P.Expected, Journal.Holds;
    CrashAtomicity(f, s, job);
    ApplyDenotes(form, s.View(), view, job.writes, writes, |job.writes|);
    ExpectedDenotes(form, s.View(), view, job.expected, expected);
  }

  lemma {:induction false} PublishRefines<T>(
      form: Format, f: Schedule, s: System<T>, pid: nat, job: Job<R.Record, T>, t: System<T>)
    requires OrderedRemoval(f) && Injective(form.name) && Good(form, s)
    requires job.parse == form.parse && t.store == Persist(f, s.store, job).0 && Publishes(form, s, pid, job, t)
    ensures var e := if t.store.View() != s.store.View() then L.Publish(pid) else L.Drop(pid);
            L.Next(s.world, e, t.world) && Good(form, t)
  {
    hide Persist, Encodes, EncodesExpected, Denotes, P.Expected, P.Propose, Mirrors, L.Inv, Injective, Valid, Apply;
    WorldSeen(s.world);
    var d := Decided(s.world, pid);
    PersistShows(form, f, s.store, job, s.world.Now(), d.writes, d.expected);
    var e := if t.store.View() != s.store.View() then L.Publish(pid) else L.Drop(pid);
    assert L.Next(s.world, e, t.world);
    L.StepKeeps(s.world, e, t.world);
    StaysGood(form, s, t);
  }

  lemma {:induction false} OneWrite(view: P.View, w: Write<R.Path, R.Record>)
    ensures Apply(view, [w]) == Put(view, w)
  {
    assert ApplyTo(view, [w], 1) == Put(ApplyTo(view, [w], 0), w);
  }

  lemma {:induction false} SupersedeRefines<T>(
      form: Format, f: Schedule, s: System<T>, e: L.Event, job: Job<R.Record, T>, t: System<T>)
    requires OrderedRemoval(f) && Injective(form.name) && Good(form, s) && e.Supersede?
    requires job.parse == form.parse && t.store == Persist(f, s.store, job).0 && Supersedes(form, s, e, job, t)
    ensures var event := if t.store.View() != s.store.View() then e else L.Abandon(e.t.id, e.birth);
            L.Next(s.world, event, t.world) && Good(form, t)
  {
    hide Persist, EncodesWrite, Denotes, P.Expected, Mirrors, L.Inv, Injective, Valid, Apply, L.Mints,
      P.SuccessorRecord;
    WorldSeen(s.world);
    var draft := Draft(s.world, e).value;
    var none: P.View := map[];
    assert Encodes(form, job.writes, [draft]);
    assert EncodesExpected(form, job.expected, none);
    PersistShows(form, f, s.store, job, s.world.Now(), [draft], none);
    OneWrite(s.world.Now(), draft);
    var event := if t.store.View() != s.store.View() then e else L.Abandon(e.t.id, e.birth);
    assert L.Next(s.world, event, t.world);
    L.StepKeeps(s.world, event, t.world);
    StaysGood(form, s, t);
  }

  // Every move, under any faults, is a step of the lifecycle or none; and readers
  // go on seeing what the lifecycle says.
  lemma {:induction false} MoveRefines<T>(form: Format, f: Schedule, s: System<T>, m: Move<T>, t: System<T>)
    requires OrderedRemoval(f) && Injective(form.name) && Good(form, s) && Step(form, f, s, m, t)
    ensures Good(form, t) && Projects(s.world, Seen(s, m, t), t.world)
  {
    hide Persist, Denotes, Mirrors, Injective, Valid, Publishes, Supersedes, L.Next, L.Inv, Recover, Committing, Draft,
      EncodesWrite;
    match m {
      case Silent(e) =>
        SilentGood(form, s, e, t);
      case Written(e, w, message) =>
        WrittenGood(form, s, e, w, message, t);
      case Recovered =>
        RecoveryInvisible(f, s.store);
        StaysGood(form, s, t);
      case Governed(e, job) =>
        if e.Publish? {
          PublishRefines(form, f, s, e.pid, job, t);
        } else {
          SupersedeRefines(form, f, s, e, job, t);
        }
    }
  }

  lemma {:induction false} SilentGood<T>(form: Format, s: System<T>, e: L.Event, t: System<T>)
    requires Good(form, s) && t.store == s.store && L.Next(s.world, e, t.world)
    requires e.Abandon? || e.BeginReview? || e.Prepare? || e.Drop?
    ensures Good(form, t)
  {
    hide Denotes, Mirrors, Valid, L.Inv, P.Propose, L.Mints;
    L.StepKeeps(s.world, e, t.world);
    StaysGood(form, s, t);
  }

  // ----- whole runs -------------------------------------------------------------------------------

  ghost predicate Start<T>(form: Format, s: System<T>) {
    && Valid(s.store) && s.store.views == [s.store.View()] && L.Init(s.world)
    && Denotes(form, s.store.View(), s.world.Now())
  }

  ghost predicate Run<T>(form: Format, f: Schedule, ss: seq<System<T>>, ms: seq<Move<T>>) {
    && |ss| == |ms| + 1 && Start(form, ss[0])
    && forall i | 0 <= i < |ms| :: ss[i].world.views != [] && Step(form, f, ss[i], ms[i], ss[i + 1])
  }

  lemma {:induction false} StartGood<T>(form: Format, s: System<T>)
    requires Start(form, s)
    ensures Good(form, s)
  {
    hide Denotes, Valid;
    var ws := [s.world];
    L.RunKeeps(ws, [], 0);
    assert Mirrors(form, s.store.views, s.world.views, [0]);
  }

  // A run of the whole system, with all its faults and recoveries, is a run of the
  // lifecycle; and every tree readers ever saw holds the records of its views.
  lemma {:induction false} RunsCompose<T>(form: Format, f: Schedule, ss: seq<System<T>>, ms: seq<Move<T>>, i: nat)
    returns (ws: seq<L.World>, es: seq<L.Event>)
    requires OrderedRemoval(f) && Injective(form.name) && Run(form, f, ss, ms) && i < |ss|
    ensures L.Run(ws, es) && ws[|ws| - 1] == ss[i].world && Good(form, ss[i])
  {
    hide Step, Good, L.Next, L.Init, OrderedRemoval, Injective;
    if i == 0 {
      StartGood(form, ss[0]);
      ws, es := [ss[0].world], [];
      StartsRun(ws[0]) by {
        Started(form, ss[0]);
      }
    } else {
      ws, es := RunsCompose(form, f, ss, ms, i - 1);
      var s, m, t := ss[i - 1], ms[i - 1], ss[i];
      MoveRefines(form, f, s, m, t);
      var e := Seen(s, m, t);
      if e.Some? {
        RunGrows(ws, es, e.value, t.world);
        ws, es := ws + [t.world], es + [e.value];
      }
    }
  }

  lemma {:induction false} Started<T>(form: Format, s: System<T>)
    requires Start(form, s)
    ensures L.Init(s.world)
  {
  }

  lemma {:induction false} StartsRun(w: L.World)
    requires L.Init(w)
    ensures L.Run([w], [])
  {
  }

  lemma {:induction false} RunGrows(ws: seq<L.World>, es: seq<L.Event>, e: L.Event, w: L.World)
    requires L.Run(ws, es) && ws[|ws| - 1].views != [] && L.Next(ws[|ws| - 1], e, w)
    ensures L.Run(ws + [w], es + [e])
  {
    hide L.Next, L.Init;
  }

  lemma {:induction false} DenotesOne(form: Format, tree: Tree, v: P.View, w: P.View)
    requires Denotes(form, tree, v) && Denotes(form, tree, w)
    ensures v == w
  {
    forall p
      ensures Get(v, p) == Get(w, p)
    {
      assert Get(v, p) == if form.name(p) in tree then Some(form.parse(tree[form.name(p)])) else None;
    }
    SameTree(v, w);
  }

  // Unique current truth, on disk: once any tree readers saw held an approved
  // record, in every later tree they see the chain of its replacements is approved
  // and shows default readers its last record alone - whatever crashed in between.
  lemma {:induction false} TruthOnDisk<T>(
      form: Format, f: Schedule, ss: seq<System<T>>, ms: seq<Move<T>>, i: nat, n: nat, m: nat,
      p: R.Path, v: P.View, items: seq<R.Item>) returns (chain: seq<R.Path>)
    requires OrderedRemoval(f) && Injective(form.name) && Run(form, f, ss, ms) && i < |ss|
    requires var trees := ss[i].store.views;
             && n <= m < |trees| && Denotes(form, trees[m], v)
             && form.name(p) in trees[n] && form.parse(trees[n][form.name(p)]).fm.status.Approved?
    requires N.Lists(items, v)
    ensures L.Lane(v, items, chain) && chain[0] == p
  {
    hide Run, L.Run, L.Inv, Valid, Denotes, N.Lists, L.Lane, OrderedRemoval, Injective;
    var ws, es := RunsCompose(form, f, ss, ms, i);
    var trees, views := ss[i].store.views, ss[i].world.views;
    var at: seq<nat> :| Mirrors(form, trees, views, at);
    DenotesOne(form, trees[m], v, views[at[m]]);
    HeldThere(form, trees[n], views[at[n]], p);
    RunLasts(ws, es);
    chain := L.UniqueCurrentTruth(ws, es, |ws| - 1, at[n], at[m], p, items);
  }

  lemma {:induction false} RunLasts(ws: seq<L.World>, es: seq<L.Event>)
    requires L.Run(ws, es)
    ensures ws != []
  {
  }

  lemma {:induction false} HeldThere(form: Format, tree: Tree, v: P.View, p: R.Path)
    requires Denotes(form, tree, v) && form.name(p) in tree
    ensures p in v && v[p] == form.parse(tree[form.name(p)])
  {
    assert Get(v, p) == Some(form.parse(tree[form.name(p)]));
  }
}
