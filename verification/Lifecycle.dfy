// All interleavings of writers across trails and processes.
//
// A world is everything readers have ever seen, oldest first, together with the
// identifiers ever minted, the promotions in progress and a log of approvals.
// Saves and updates are single steps; a promotion is a review, a preparation
// and a publication with any other steps in between, and may be dropped anywhere.
module Lifecycle {
  import opened Base
  import opened Trees
  import opened Texts
  import opened Records
  import opened Promotion
  import opened Lineage
  import opened Steps
  import H = Hooks

  datatype Process =
    | Reviewing(path: Path, seen: Record)
    | Holding(q: Request, items: seq<Item>, at: nat)

  // The `at`-th view is the first to hold this approval, which process `pid` published.
  datatype Approval = Approval(pid: nat, at: nat, q: Request, target: Path, applied: seq<H.Patch>)

  datatype World = World(views: seq<View>, born: Births, procs: map<nat, Process>, approvals: seq<Approval>)
  {
    function Now(): View
      requires views != []
    {
      views[|views| - 1]
    }
  }

  datatype Event =
    | Save(path: Path, t: NewThought, patches: seq<H.Patch>, birth: nat)
    | Update(path: Path, content: string)
    | Supersede(path: Path, t: NewThought, original: Record, scope: string, birth: nat)
    | Abandon(id: string, birth: nat)
    | BeginReview(pid: nat, path: Path, seen: Record)
    | Prepare(pid: nat, q: Request, items: seq<Item>)
    | Publish(pid: nat)
    | Drop(pid: nat)

  // A freshly minted identifier.
  ghost predicate Mints(born: Births, id: string, birth: nat) {
    Bare(id) && id !in born && forall other | other in born :: born[other] < birth
  }

  function SavedRecord(t: NewThought, patches: seq<H.Patch>): Record {
    Stored(H.Patched(DraftRecord(t), patches, |patches|))
  }

  function Shows(w: World, v: View, born: Births): World {
    w.(views := w.views + [v], born := born)
  }

  // The same thought, in whatever namespace.
  predicate SameThought(p: Path, q: Path) {
    p.scope == q.scope && p.file == q.file
  }

  // The process has had this thought, as it was then, under review.
  predicate UnderReview(w: World, pid: nat, source: Path, seen: Record) {
    pid in w.procs && w.procs[pid].Reviewing? && SameThought(w.procs[pid].path, source) && w.procs[pid].seen == seen
  }

  ghost predicate Next(w: World, e: Event, w': World)
    requires w.views != []
  {
    match e
    case Save(path, t, patches, birth) =>
      && Mints(w.born, t.id, birth) && path.file == t.id && path.scope != ""
      && w' == Shows(w, w.Now()[path := SavedRecord(t, patches)], w.born[t.id := birth])
    case Update(path, content) =>
      && path in w.Now() && Updatable(w.Now()[path])
      && w' == Shows(w, w.Now()[path := Stored(w.Now()[path].(content := content))], w.born)
    case Supersede(path, t, original, scope, birth) =>
      && Mints(w.born, t.id, birth) && path.file == t.id && path.scope != ""
      && original.fm.id in w.born && Bare(original.fm.id) && scope != ""
      && w' == Shows(w, w.Now()[path := Stored(SuccessorRecord(t, original, scope))], w.born[t.id := birth])
    case Abandon(id, birth) =>
      Mints(w.born, id, birth) && w' == w.(born := w.born[id := birth])
    case BeginReview(pid, path, seen) =>
      pid !in w.procs && w' == w.(procs := w.procs[pid := Reviewing(path, seen)])
    case Prepare(pid, q, items) =>
      && WellRead(q) && Lists(items, w.Now())
      && (q.reviewed.Some? ==> UnderReview(w, pid, q.source, q.reviewed.value) && q.review.Some?)
      && (q.reviewed.None? ==> pid !in w.procs)
      && Propose(q, items).Transaction?
      && w' == w.(procs := w.procs[pid := Holding(q, items, |w.views| - 1)])
    case Publish(pid) =>
      && pid in w.procs && w.procs[pid].Holding?
      && (var d := Propose(w.procs[pid].q, w.procs[pid].items);
          && d.Transaction? && Commit(w.Now(), d).Ok?
          && w' == World(
               w.views + [Commit(w.Now(), d).value], w.born, w.procs - {pid},
               if d.record.fm.status.Approved?
               then w.approvals + [Approval(pid, |w.views|, w.procs[pid].q, d.target, d.applied)]
               else w.approvals))
    case Drop(pid) =>
      w' == w.(procs := w.procs - {pid})
  }

  // ----- the invariant ---------------------------------------------------------------------

  ghost predicate AllOk(w: World) {
    forall i | 0 <= i < |w.views| :: ViewOk(w.views[i], w.born)
  }

  ghost predicate AllStable(w: World) {
    forall i, j | 0 <= i <= j < |w.views| :: Stable(w.views[i], w.views[j])
  }

  ghost predicate Prepared(w: World, p: Process) {
    p.Holding? ==>
      && p.at < |w.views| && Lists(p.items, w.views[p.at]) && WellRead(p.q)
      && Propose(p.q, p.items).Transaction?
  }

  // The approved record is the one that was read, and shown for review if there
  // was a review, after at most five hook patches and the verdict.
  ghost predicate Justified(w: World, a: Approval) {
    && 0 < a.at < |w.views|
    && a.q.source in w.views[a.at - 1] && w.views[a.at - 1][a.q.source] == a.q.record
    && (a.q.reviewed.Some? ==> a.q.reviewed.value == a.q.record)
    && |a.applied| <= H.MAX_MUTATIONS_PER_PIPELINE
    && a.target in w.views[a.at]
    && w.views[a.at][a.target] == Stored(Judged(H.Patched(a.q.record, a.applied, |a.applied|), a.q.review))
    && w.views[a.at][a.target].fm.status.Approved?
  }

  ghost predicate Logged(w: World, j: nat, p: Path) {
    exists k :: 0 <= k < |w.approvals| && w.approvals[k].at <= j && w.approvals[k].target == p
  }

  // Every approved record was approved at the start or is in the log.
  ghost predicate Traced(w: World)
    requires w.views != []
  {
    forall j, p | 0 <= j < |w.views| && p in w.views[j] && w.views[j][p].fm.status.Approved? ::
      (p in w.views[0] && w.views[0][p].fm.status.Approved?) || Logged(w, j, p)
  }

  ghost predicate Inv(w: World) {
    && w.views != [] && AllOk(w) && AllStable(w)
    && (forall pid | pid in w.procs :: Prepared(w, w.procs[pid]))
    && (forall k | 0 <= k < |w.approvals| :: Justified(w, w.approvals[k]))
    && Traced(w)
  }

  ghost predicate Init(w: World) {
    && |w.views| == 1 && ViewOk(w.views[0], w.born)
    && w.procs == map[] && w.approvals == []
  }

  // ----- every step keeps it ----------------------------------------------------------------

  lemma {:induction false} BirthsGrow(v: View, born: Births, born': Births)
    requires ViewOk(v, born) && Extends(born, born')
    ensures ViewOk(v, born')
  {
  }

  // One more view, well formed and stable from the last one.
  lemma {:induction false} ShowKeeps(w: World, v: View, born: Births)
    requires Inv(w) && Extends(w.born, born) && ViewOk(v, born) && Stable(w.Now(), v)
    ensures var w' := Shows(w, v, born);
            && AllOk(w') && AllStable(w')
            && (forall p | Prepared(w, p) :: Prepared(w', p))
            && (forall a | Justified(w, a) :: Justified(w', a))
  {
    hide ViewOk, Stable, Lists, WellRead, Propose, Judged, H.Patched;
    var w' := Shows(w, v, born);
    forall i | 0 <= i < |w'.views| ensures ViewOk(w'.views[i], born) {
      if i < |w.views| {
        BirthsGrow(w.views[i], w.born, born);
      }
    }
    StableRefl(v);
    forall i | 0 <= i < |w.views| ensures Stable(w.views[i], v) {
      StableTransitive(w.views[i], w.Now(), v);
    }
  }

  lemma {:induction false} TraceKeeps(w: World, w': World)
    requires w.views != [] && Traced(w) && w.views <= w'.views && |w'.views| == |w.views| + 1
             && w.approvals <= w'.approvals
    requires forall p | p in w'.Now() && w'.Now()[p].fm.status.Approved? ::
               (p in w.Now() && w.Now()[p].fm.status.Approved?) || Logged(w', |w.views|, p)
    ensures Traced(w')
  {
    forall j, p | 0 <= j < |w'.views| && p in w'.views[j] && w'.views[j][p].fm.status.Approved?
      ensures (p in w'.views[0] && w'.views[0][p].fm.status.Approved?) || Logged(w', j, p)
    {
      var i := if j < |w.views| then j else |w.views| - 1;
      if p in w.views[i] && w.views[i][p].fm.status.Approved? && Logged(w, i, p) {
        var k :| 0 <= k < |w.approvals| && w.approvals[k].at <= i && w.approvals[k].target == p;
        assert w'.approvals[k] == w.approvals[k];
      }
    }
  }

  lemma {:induction false} DraftStepKeeps(w: World, path: Path, r: Record, id: string, birth: nat)
    requires Inv(w) && Mints(w.born, id, birth) && path.file == id
    requires NewDraft(w.born[id := birth], path, r)
    ensures Inv(Shows(w, w.Now()[path := r], w.born[id := birth]))
  {
    var born := w.born[id := birth];
    var w' := Shows(w, w.Now()[path := r], born);
    AddKeeps(w.Now(), w.born, born, path, r);
    ShowKeeps(w, w.Now()[path := r], born);
    TraceKeeps(w, w');
  }

  lemma {:induction false} SavedIsDraft(t: NewThought, patches: seq<H.Patch>, born: Births, path: Path)
    requires Bare(t.id) && t.id in born && path.file == t.id && path.scope != ""
    ensures NewDraft(born, path, SavedRecord(t, patches))
  {
    H.PatchedKeepsIdentity(DraftRecord(t), patches, |patches|);
    StripTrims(H.Patched(DraftRecord(t), patches, |patches|).content);
  }

  lemma {:induction false} UpdateStepKeeps(w: World, path: Path, content: string)
    requires Inv(w) && path in w.Now() && Updatable(w.Now()[path])
    ensures Inv(Shows(w, w.Now()[path := Stored(w.Now()[path].(content := content))], w.born))
  {
    hide ViewOk, Stable, Lists, WellRead, Propose, Judged, H.Patched;
    var v := w.Now()[path := Stored(w.Now()[path].(content := content))];
    UpdateKeeps(w.Now(), w.born, path, content);
    ShowKeeps(w, v, w.born);
    TraceKeeps(w, Shows(w, v, w.born));
  }

  lemma {:induction false} PublishStepKeeps(w: World, pid: nat, w': World)
    requires Inv(w) && Next(w, Publish(pid), w')
    ensures Inv(w')
  {
    hide ViewOk, Stable, Lists, WellRead, Propose, Judged, H.Patched, Traced, Apply, Expected;
    var p := w.procs[pid];
    assert Prepared(w, p);
    var d := Propose(p.q, p.items);
    var v := Apply(w.Now(), d.writes);
    CommitKeeps(w.views[p.at], w.Now(), w.born, w.born, p.q, p.items);
    ShowKeeps(w, v, w.born);
    TransactionRecord(p.q, p.items);
    ListedNames(w.views[p.at], w.born, p.items);
    SourceCompared(w.views[p.at], w.Now(), w.born, p.q, p.items);
    var shown := Shows(w, v, w.born);
    assert w'.views == shown.views && w'.born == shown.born;
    forall k | 0 <= k < |w'.approvals| ensures Justified(w', w'.approvals[k]) {
      if k < |w.approvals| {
        assert Justified(shown, w.approvals[k]);
      }
    }
    forall other | other in w'.procs ensures Prepared(w', w'.procs[other]) {
      assert Prepared(shown, w.procs[other]);
    }
    PublishTraced(w, pid, p.q, p.items, v, w');
  }

  lemma {:induction false} ListedNames(v: View, born: Births, items: seq<Item>)
    requires ViewOk(v, born) && Lists(items, v)
    ensures WellNamed(v, born)
    ensures forall i | 0 <= i < |items| :: items[i].record.fm.id == items[i].path.file
  {
    forall i | 0 <= i < |items| ensures items[i].record.fm.id == items[i].path.file {
      assert items[i].path in v;
    }
  }

  // A publication approves no record but its target.
  lemma {:induction false} PublishTraced(w: World, pid: nat, q: Request, items: seq<Item>, v: View, w': World)
    requires w.views != [] && Traced(w) && w'.views == w.views + [v]
    requires Propose(q, items).Transaction? && v == Apply(w.Now(), Propose(q, items).writes)
    requires Expected(Propose(q, items).expected, w.Now())
    requires var d := Propose(q, items);
             w'.approvals == if d.record.fm.status.Approved?
                             then w.approvals + [Approval(pid, |w.views|, q, d.target, d.applied)] else w.approvals
    requires forall i | 0 <= i < |items| :: items[i].record.fm.id == items[i].path.file
    requires WellRead(q)
    ensures Traced(w')
  {
    hide Propose;
    var d := Propose(q, items);
    TransactionRecord(q, items);
    if Replaces(d.record) {
      var original := ReplacingTransaction(q, items, w.Now());
      assert original.path.file == d.record.fm.supersedesId.value;
    } else {
      PlainTransaction(q, items, w.Now());
    }
    forall p | p in v && v[p].fm.status.Approved?
      ensures (p in w.Now() && w.Now()[p].fm.status.Approved?) || Logged(w', |w.views|, p)
    {
      if p == d.target {
        assert w'.approvals[|w.approvals|].target == p;
      }
    }
    TraceKeeps(w, w');
  }

  lemma {:induction false} StepKeeps(w: World, e: Event, w': World)
    requires Inv(w) && Next(w, e, w')
    ensures Inv(w')
  {
    hide ViewOk, Stable, Lists, WellRead, Propose, Judged, H.Patched;
    match e {
      case Save(path, t, patches, birth) =>
        SavedIsDraft(t, patches, w.born[t.id := birth], path);
        DraftStepKeeps(w, path, SavedRecord(t, patches), t.id, birth);
      case Update(path, content) =>
        UpdateStepKeeps(w, path, content);
      case Supersede(path, t, original, scope, birth) =>
        StripTrims(t.content);
        DraftStepKeeps(w, path, Stored(SuccessorRecord(t, original, scope)), t.id, birth);
      case Abandon(id, birth) =>
        AbandonKeeps(w, id, birth);
      case BeginReview(pid, path, seen) =>
      case Prepare(pid, q, items) =>
      case Publish(pid) =>
        PublishStepKeeps(w, pid, w');
      case Drop(pid) =>
    }
  }

  lemma {:induction false} AbandonKeeps(w: World, id: string, birth: nat)
    requires Inv(w) && Mints(w.born, id, birth)
    ensures Inv(w.(born := w.born[id := birth]))
  {
    hide ViewOk, Stable, Lists, WellRead, Propose, Judged, H.Patched, Stored;
    forall i | 0 <= i < |w.views| ensures ViewOk(w.views[i], w.born[id := birth]) {
      BirthsGrow(w.views[i], w.born, w.born[id := birth]);
    }
  }

  // ----- whole runs ---------------------------------------------------------------------------

  ghost predicate Run(ws: seq<World>, es: seq<Event>) {
    && |ws| == |es| + 1 && Init(ws[0])
    && forall i | 0 <= i < |es| :: ws[i].views != [] && Next(ws[i], es[i], ws[i + 1])
  }

  lemma {:induction false} RunKeeps(ws: seq<World>, es: seq<Event>, i: nat)
    requires Run(ws, es) && i < |ws|
    ensures Inv(ws[i])
  {
    hide ViewOk, Stable, Next;
    if i == 0 {
      StableRefl(ws[0].views[0]);
    } else {
      RunKeeps(ws, es, i - 1);
      StepKeeps(ws[i - 1], es[i - 1], ws[i]);
    }
  }

  // ----- what readers may rely on -------------------------------------------------------------

  // In every view of every run: X is approved as the replacement of A exactly
  // when A's scoped backlink names X.
  lemma {:induction false} LineageBothWays(ws: seq<World>, es: seq<Event>, i: nat, j: nat, a: Path, x: Path)
    requires Run(ws, es) && i < |ws| && j < |ws[i].views| && a in ws[i].views[j] && x in ws[i].views[j]
    ensures var v := ws[i].views[j];
            (v[x].fm.status.Approved? && v[x].fm.supersedesId == Some(a.file)
             && v[x].fm.supersedesScope == Some(a.scope))
            <==> (v[a].fm.supersededBy == Some(x.file) && v[a].fm.supersededScope == Some(x.scope))
  {
    hide Next, Propose;
    RunKeeps(ws, es, i);
    PairBothWays(ws[i].views[j], ws[i].born, a, x);
  }

  lemma {:induction false} PairBothWays(v: View, born: Births, a: Path, x: Path)
    requires ViewOk(v, born) && a in v && x in v
    ensures (v[x].fm.status.Approved? && v[x].fm.supersedesId == Some(a.file)
             && v[x].fm.supersedesScope == Some(a.scope))
            <==> (v[a].fm.supersededBy == Some(x.file) && v[a].fm.supersededScope == Some(x.scope))
  {
    if v[x].fm.status.Approved? && v[x].fm.supersedesId == Some(a.file) {
      var p :| p in v && Replaced(v, p, x);
      assert p.file == a.file;
    }
    if v[a].fm.supersededBy == Some(x.file) {
      var q :| q in v && v[q].fm.status.Approved? && Replaced(v, a, q);
      assert q.file == x.file;
    }
  }

  // A predecessor has at most one approved successor.
  lemma {:induction false} OneSuccessor(ws: seq<World>, es: seq<Event>, i: nat, j: nat, a: Path, x: Path, y: Path)
    requires Run(ws, es) && i < |ws| && j < |ws[i].views| && a in ws[i].views[j]
    requires forall q | q in {x, y} ::
               q in ws[i].views[j] && ws[i].views[j][q].fm.status.Approved?
               && ws[i].views[j][q].fm.supersedesId == Some(a.file)
               && ws[i].views[j][q].fm.supersedesScope == Some(a.scope)
    ensures x == y
  {
    hide Next, Propose;
    RunKeeps(ws, es, i);
    var v := ws[i].views[j];
    assert x in {x, y} && y in {x, y};
    PairBothWays(v, ws[i].born, a, x);
    PairBothWays(v, ws[i].born, a, y);
    assert WellNamed(v, ws[i].born);
  }

  // The record that replaced p.
  ghost function Successor(v: View, born: Births, p: Path): (q: Path)
    requires ViewOk(v, born) && p in v && v[p].fm.supersededBy.Some?
    ensures q in v && v[q].fm.status.Approved? && Replaced(v, p, q)
    ensures p.file in born && q.file in born && born[p.file] < born[q.file]
  {
    var q :| q in v && v[q].fm.status.Approved? && Replaced(v, p, q);
    q
  }

  // p, the record that replaced it, the record that replaced that one, ...
  ghost function Chain(v: View, born: Births, p: Path, top: nat): (c: seq<Path>)
    requires ViewOk(v, born) && p in v && forall id | id in born :: born[id] < top
    ensures c != [] && c[0] == p
    decreases top - (if p.file in born then born[p.file] else 0)
  {
    if v[p].fm.supersededBy.None? then [p]
    else [p] + Chain(v, born, Successor(v, born, p), top)
  }

  ghost function Top(born: Births, ids: set<string>): (top: nat)
    requires ids <= born.Keys
    ensures forall id | id in ids :: born[id] < top
    decreases |ids|
  {
    if ids == {} then 0
    else
      var id :| id in ids;
      var rest := Top(born, ids - {id});
      if born[id] < rest then rest else born[id] + 1
  }

  // Approved records, each replaced by the next, only the last of them visible
  // to default readers, none of them twice.
  ghost predicate Lane(v: View, items: seq<Item>, c: seq<Path>) {
    && c != []
    && (forall k | 0 <= k < |c| :: c[k] in v && v[c[k]].fm.status.Approved?)
    && (forall k | 0 <= k < |c| - 1 :: Replaced(v, c[k], c[k + 1]))
    && (forall k | 0 <= k < |c| :: Visible(v, items, c[k]) <==> k == |c| - 1)
    && (forall k, l | 0 <= k < l < |c| :: c[k] != c[l])
  }

  // Every record of the chain was born after p.
  ghost predicate Younger(born: Births, p: Path, c: seq<Path>) {
    p.file in born && forall k | 0 <= k < |c| :: c[k].file in born && born[p.file] < born[c[k].file]
  }

  lemma {:induction false} LaneCons(v: View, items: seq<Item>, born: Births, p: Path, rest: seq<Path>)
    requires Lane(v, items, rest) && Younger(born, p, rest)
    requires p in v && v[p].fm.status.Approved? && !Visible(v, items, p) && Replaced(v, p, rest[0])
    ensures Lane(v, items, [p] + rest)
  {
    hide Visible, Replaced;
    var c := [p] + rest;
    assert forall k | 0 < k < |c| :: c[k] == rest[k - 1];
    forall k | 0 <= k < |c| - 1 ensures Replaced(v, c[k], c[k + 1]) {
      if k > 0 {
        assert Replaced(v, rest[k - 1], rest[k]);
      }
    }
  }

  lemma {:induction false} ChainIsLane(v: View, born: Births, items: seq<Item>, p: Path, top: nat)
    requires ViewOk(v, born) && Lists(items, v) && p in v && v[p].fm.status.Approved?
    requires forall id | id in born :: born[id] < top
    ensures Lane(v, items, Chain(v, born, p, top))
    ensures Younger(born, p, Chain(v, born, p, top)[1..])
    decreases top - (if p.file in born then born[p.file] else 0)
  {
    hide ViewOk, Lists, Visible, Replaced, Lane;
    VisibleExactly(v, born, items, p);
    if v[p].fm.supersededBy.None? {
      LaneOne(v, items, p);
      YoungerStart(v, born, p);
      assert Chain(v, born, p, top) == [p];
    } else {
      var q := Successor(v, born, p);
      var rest := Chain(v, born, q, top);
      ChainIsLane(v, born, items, q, top);
      assert Chain(v, born, p, top) == [p] + rest;
      assert rest == [q] + rest[1..];
      assert Younger(born, p, rest) by {
        assert forall k | 0 < k < |rest| :: rest[k] == rest[1..][k - 1];
      }
      LaneCons(v, items, born, p, rest);
      assert ([p] + rest)[1..] == rest;
    }
  }

  lemma {:induction false} LaneOne(v: View, items: seq<Item>, p: Path)
    requires p in v && v[p].fm.status.Approved? && Visible(v, items, p)
    ensures Lane(v, items, [p])
  {
  }

  lemma {:induction false} YoungerStart(v: View, born: Births, p: Path)
    requires ViewOk(v, born) && p in v
    ensures Younger(born, p, [])
  {
  }

  // Unique current truth: once a record is approved, in every later view of the
  // run the chain of its replacements shows readers exactly one record.
  lemma {:induction false} UniqueCurrentTruth(
      ws: seq<World>, es: seq<Event>, i: nat, j: nat, k: nat, p: Path, items: seq<Item>)
    returns (chain: seq<Path>)
    requires Run(ws, es) && i < |ws| && j <= k < |ws[i].views|
    requires p in ws[i].views[j] && ws[i].views[j][p].fm.status.Approved? && Lists(items, ws[i].views[k])
    ensures Lane(ws[i].views[k], items, chain) && chain[0] == p
  {
    hide Next, Propose, ViewOk, Lists, Lane, Justified, Prepared, Traced;
    RunKeeps(ws, es, i);
    var w := ws[i];
    assert Stable(w.views[j], w.views[k]);
    assert Remains(w.views[j][p], w.views[k][p]);
    var top := Top(w.born, w.born.Keys);
    ChainIsLane(w.views[k], w.born, items, p, top);
    chain := Chain(w.views[k], w.born, p, top);
  }

  // Once approved, always approved, unchanged but for one backlink at most.
  lemma {:induction false} ApprovedForever(ws: seq<World>, es: seq<Event>, i: nat, j: nat, k: nat, p: Path)
    requires Run(ws, es) && i < |ws| && j <= k < |ws[i].views|
    requires p in ws[i].views[j] && ws[i].views[j][p].fm.status.Approved?
    ensures p in ws[i].views[k]
    ensures var r, s := ws[i].views[j][p], ws[i].views[k][p];
            && s.fm.status.Approved? && s.content == r.content
            && s.fm.metadata == r.fm.metadata && s.fm.supersedesId == r.fm.supersedesId
            && s == r.(fm := r.fm.(supersededBy := s.fm.supersededBy, supersededScope := s.fm.supersededScope))
            && (r.fm.supersededBy.Some? ==> s == r)
  {
    hide Next, Propose;
    RunKeeps(ws, es, i);
    assert Stable(ws[i].views[j], ws[i].views[k]);
    assert Remains(ws[i].views[j][p], ws[i].views[k][p]);
  }

  // ----- where an approval came from -----------------------------------------------------------

  predicate Touches(e: Event, pid: nat) {
    match e
    case BeginReview(p, _, _) => p == pid
    case Prepare(p, _, _) => p == pid
    case Publish(p) => p == pid
    case Drop(p) => p == pid
    case _ => false
  }

  // Between the two events the process only waits.
  ghost predicate Waits(es: seq<Event>, from: nat, to: nat, pid: nat) {
    forall m | from < m < to && m < |es| :: !Touches(es[m], pid)
  }

  // Event b put the thought under review, and the process has waited since.
  ghost predicate Began(es: seq<Event>, b: nat, n: nat, pid: nat, source: Path, seen: Record) {
    && b < n <= |es| && es[b].BeginReview? && es[b].pid == pid && SameThought(es[b].path, source) && es[b].seen == seen
    && Waits(es, b, n, pid)
  }

  // Event c prepared the request, after its review if it has one.
  ghost predicate PreparedBy(es: seq<Event>, c: nat, n: nat, pid: nat, q: Request) {
    && c < n <= |es| && es[c].Prepare? && es[c].pid == pid && es[c].q == q && Waits(es, c, n, pid)
    && (q.reviewed.Some? ==> exists b: nat :: Began(es, b, c, pid, q.source, q.reviewed.value))
  }

  ghost predicate Explained(es: seq<Event>, n: nat, pid: nat, p: Process) {
    match p
    case Reviewing(path, seen) => exists b: nat :: Began(es, b, n, pid, path, seen)
    case Holding(q, _, _) => exists c: nat :: PreparedBy(es, c, n, pid, q)
  }

  lemma {:induction false} StillExplained(es: seq<Event>, n: nat, pid: nat, p: Process)
    requires n < |es| && Explained(es, n, pid, p) && !Touches(es[n], pid)
    ensures Explained(es, n + 1, pid, p)
  {
    match p {
      case Reviewing(path, seen) =>
        var b: nat :| Began(es, b, n, pid, path, seen);
        assert Began(es, b, n + 1, pid, path, seen);
      case Holding(q, _, _) =>
        var c: nat :| PreparedBy(es, c, n, pid, q);
        assert PreparedBy(es, c, n + 1, pid, q);
    }
  }

  // A step leaves alone every process it does not touch.
  lemma {:induction false} OthersWait(w: World, e: Event, w': World, pid: nat)
    requires w.views != [] && Next(w, e, w') && pid in w'.procs && !Touches(e, pid)
    ensures pid in w.procs && w'.procs[pid] == w.procs[pid]
  {
    hide Propose, Commit, Lists, WellRead, Mints, Updatable;
  }

  // What a step leaves of a process it touches, that step explains.
  lemma {:induction false} TouchExplains(w: World, es: seq<Event>, n: nat, w': World, pid: nat)
    requires w.views != [] && n < |es| && Next(w, es[n], w') && Touches(es[n], pid) && pid in w'.procs
    requires pid in w.procs ==> Explained(es, n, pid, w.procs[pid])
    ensures Explained(es, n + 1, pid, w'.procs[pid])
  {
    hide Propose, Commit, Lists, WellRead;
    match es[n] {
      case BeginReview(_, path, seen) =>
        assert Began(es, n, n + 1, pid, path, seen);
      case Prepare(_, q, items) =>
        if q.reviewed.Some? {
          var b: nat :| Began(es, b, n, pid, w.procs[pid].path, w.procs[pid].seen);
          assert Began(es, b, n, pid, q.source, q.reviewed.value);
        }
        assert PreparedBy(es, n, n + 1, pid, q);
      case _ =>
    }
  }

  // Every process in any world of a run is where events of its own brought it.
  lemma {:induction false} ProcessExplained(ws: seq<World>, es: seq<Event>, i: nat, pid: nat)
    requires Run(ws, es) && i < |ws| && pid in ws[i].procs
    ensures Explained(es, i, pid, ws[i].procs[pid])
  {
    hide Explained, Next, ViewOk;
    assert i > 0;
    var n := i - 1;
    assert Next(ws[n], es[n], ws[i]);
    if pid in ws[n].procs {
      ProcessExplained(ws, es, n, pid);
    }
    if Touches(es[n], pid) {
      TouchExplains(ws[n], es, n, ws[i], pid);
    } else {
      OthersWait(ws[n], es[n], ws[i], pid);
      StillExplained(es, n, pid, ws[n].procs[pid]);
    }
  }

  // Event e published the approval, of the very request its process held.
  ghost predicate Granted(ws: seq<World>, es: seq<Event>, e: nat, i: nat, a: Approval)
    requires |ws| == |es| + 1
  {
    && e < i <= |es| && es[e] == Publish(a.pid) && |ws[e].views| == a.at
    && a.pid in ws[e].procs && ws[e].procs[a.pid].Holding? && ws[e].procs[a.pid].q == a.q
  }

  lemma {:induction false} ApprovalGranted(ws: seq<World>, es: seq<Event>, i: nat, a: Approval) returns (e: nat)
    requires Run(ws, es) && i < |ws| && a in ws[i].approvals
    ensures Granted(ws, es, e, i, a)
  {
    hide Propose, Commit, Lists, WellRead, ViewOk, Mints;
    assert i > 0;
    e := i - 1;
    assert Next(ws[e], es[e], ws[i]);
    if a in ws[e].approvals {
      e := ApprovalGranted(ws, es, i - 1, a);
    }
  }

  // The logged approval of an approved record, and what the invariant says of it.
  lemma {:induction false} ApprovalLogged(
      ws: seq<World>, es: seq<Event>, i: nat, j: nat, p: Path) returns (a: Approval)
    requires Run(ws, es) && i < |ws| && j < |ws[i].views|
    requires p in ws[i].views[j] && ws[i].views[j][p].fm.status.Approved?
    requires !(p in ws[i].views[0] && ws[i].views[0][p].fm.status.Approved?)
    ensures a in ws[i].approvals && a.target == p && 0 < a.at <= j && Justified(ws[i], a)
    ensures Remains(ws[i].views[a.at][p], ws[i].views[j][p])
  {
    hide Next, Propose, Judged, H.Patched, ViewOk, Lists, Init;
    RunKeeps(ws, es, i);
    var w := ws[i];
    assert Logged(w, j, p);
    var k :| 0 <= k < |w.approvals| && w.approvals[k].at <= j && w.approvals[k].target == p;
    a := w.approvals[k];
    assert Justified(w, a);
    assert Stable(w.views[a.at], w.views[j]);
  }

  lemma {:induction false} VerdictApproved(r: Record, review: Option<Review>)
    requires Stored(Judged(r, review)).fm.status.Approved?
    ensures review.Some? && review.value.ruling.Approving?
  {
  }

  lemma {:induction false} GrantExplained(ws: seq<World>, es: seq<Event>, e: nat, i: nat, a: Approval)
    returns (b: nat, c: nat)
    requires Run(ws, es) && Granted(ws, es, e, i, a)
    ensures PreparedBy(es, c, e, a.pid, a.q)
    ensures a.q.reviewed.Some? ==> Began(es, b, c, a.pid, a.q.source, a.q.reviewed.value)
  {
    hide Next, Init, Began;
    ProcessExplained(ws, es, e, a.pid);
    c :| PreparedBy(es, c, e, a.pid, a.q);
    b := 0;
    if a.q.reviewed.Some? {
      b :| Began(es, b, c, a.pid, a.q.source, a.q.reviewed.value);
    }
  }

  // Reviewed is what gets approved.  Whatever is approved now and was not at the
  // start got there by one publication (event e) of the record then on disk,
  // with an approving verdict, after at most five hook patches; it still is that
  // record but for a backlink.  The process that published it had prepared it
  // (event c); and if a review was asked for, that very record was shown to it
  // before (event b), and the process did nothing else in between.
  lemma {:induction false} ReviewedIsApproved(
      ws: seq<World>, es: seq<Event>, i: nat, j: nat, p: Path) returns (a: Approval, b: nat, c: nat, e: nat)
    requires Run(ws, es) && i < |ws| && j < |ws[i].views|
    requires p in ws[i].views[j] && ws[i].views[j][p].fm.status.Approved?
    requires !(p in ws[i].views[0] && ws[i].views[0][p].fm.status.Approved?)
    ensures a in ws[i].approvals && a.target == p && 0 < a.at <= j
    ensures var before, after := ws[i].views[a.at - 1], ws[i].views[a.at];
            && a.q.source in before && before[a.q.source] == a.q.record && p in after
            && |a.applied| <= H.MAX_MUTATIONS_PER_PIPELINE
            && after[p] == Stored(Judged(H.Patched(a.q.record, a.applied, |a.applied|), a.q.review))
            && after[p].fm.status.Approved? && Remains(after[p], ws[i].views[j][p])
    ensures a.q.review.Some? && a.q.review.value.ruling.Approving?
    ensures Granted(ws, es, e, i, a) && PreparedBy(es, c, e, a.pid, a.q)
    ensures a.q.reviewed.Some? ==> Began(es, b, c, a.pid, a.q.source, a.q.record)
  {
    hide Inv, Init, Next, Judged, Stored, Stable, PreparedBy, Began, Explained, H.Patched, Lists, WellRead, ViewOk;
    a := ApprovalLogged(ws, es, i, j, p);
    VerdictApproved(H.Patched(a.q.record, a.applied, |a.applied|), a.q.review);
    e := ApprovalGranted(ws, es, i, a);
    b, c := GrantExplained(ws, es, e, i, a);
  }

  // A promotion that expects an unmarked predecessor can no longer be published
  // once any view has shown a backlink on it: of two approvals of the same
  // record's replacements the second fails, in this process or any other.
  lemma {:induction false} LosingApprovalFails(
      ws: seq<World>, es: seq<Event>, i: nat, j: nat, k: nat, a: Path, d: Decision)
    requires Run(ws, es) && i < |ws| && j <= k < |ws[i].views|
    requires a in ws[i].views[j] && ws[i].views[j][a].fm.supersededBy.Some?
    requires d.Transaction? && a in d.expected && d.expected[a].fm.id == a.file && d.expected[a].fm.supersededBy.None?
    ensures Commit(ws[i].views[k], d) == Err(Refusal.Conflict)
  {
    hide Next, Propose, Apply;
    RunKeeps(ws, es, i);
    var v, w := ws[i].views[j], ws[i].views[k];
    assert Stable(v, w);
    assert WellNamed(w, ws[i].born);
    var q :| q in w && KeepsBacklink(v, a, w, q);
    assert a in w ==> q == a;
  }
}
