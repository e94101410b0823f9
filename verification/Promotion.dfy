// The transitions of a thought record: saving, updating, superseding, promoting.
//
// A view maps paths to parsed records.  Each transition first decides, from what
// the caller read, either to refuse or which files to write; promotion and
// supersession then go through the journal's compare-and-swap.
module Promotion {
  import opened Base
  import opened Trees
  import opened Texts
  import opened Records
  import H = Hooks

  type View = map<Path, Record>
  type Writes = seq<Write<Path, Record>>

  // What reading a file back yields after printing a record into it.
  function Stored(r: Record): Record {
    r.(content := Strip(r.content))
  }

  const FROZEN_STATUSES: set<Status> := {Approved, Rejected, Tombstoned}

  const VALID_NAMESPACES: set<string> :=
    {"drafts", "decisions", "observations", "intents", "preferences", "preferences/client", "preferences/firm"}

  function Route(s: SourceType): string {
    match s
    case Decision => "decisions"
    case Observation | Inference | ToolOutput => "observations"
    case UserInput => "preferences"
  }

  datatype Refusal =
    | Changed | Frozen | Missing | TombstonedRecord | HookRefused | BadNamespace
    | PredecessorMissing | AlreadyReplaced | Conflict

  // Assignment to an ordered dictionary of writes.
  function Assign(ws: Writes, path: Path, value: Option<Record>, i: nat := 0): Writes
    requires i <= |ws|
    decreases |ws| - i
  {
    if i == |ws| then ws + [Write(path, value)]
    else if ws[i].key == path then ws[i := Write(path, value)]
    else Assign(ws, path, value, i + 1)
  }

  // ----- saving, updating, superseding ------------------------------------------------

  datatype NewThought = NewThought(
    id: string, agentId: string, sourceType: SourceType, confidence: real, parentId: Option<string>,
    intentRef: Option<string>, relationships: seq<Relationship>, metadata: Metadata, createdAt: string, content: string)

  function DraftRecord(t: NewThought): Record {
    Record(
      Frontmatter(t.id, t.parentId, None, None, None, None, t.agentId, t.confidence, t.sourceType, Draft,
                  t.intentRef, t.createdAt, t.relationships, t.metadata),
      t.content)
  }

  // The successor draft: it names its predecessor and inherits all but the
  // review provenance.
  function SuccessorRecord(t: NewThought, original: Record, scope: string): Record {
    var fm := original.fm;
    var extra := fm.metadata.extra - {"trust_gate", "approval"};
    Record(
      Frontmatter(t.id, Some(fm.id), None, None, Some(fm.id), Some(scope), t.agentId, t.confidence, fm.sourceType,
                  Draft, fm.intentRef, t.createdAt, fm.relationships, fm.metadata.(extra := extra)),
      t.content)
  }

  // A draft that carries on the original: its predecessor is named, its references, sources and
  // metadata are kept, and only what was said of the original's review is gone.
  ghost predicate Succeeds(r: Record, t: NewThought, original: Record, scope: string) {
    && r.fm.status == Draft && r.fm.supersededBy == r.fm.supersededScope == None
    && r.fm.parentId == r.fm.supersedesId == Some(original.fm.id) && r.fm.supersedesScope == Some(scope)
    && r.fm.id == t.id && r.fm.agentId == t.agentId && r.fm.confidence == t.confidence
    && r.fm.createdAt == t.createdAt && r.content == t.content
    && r.fm.sourceType == original.fm.sourceType && r.fm.intentRef == original.fm.intentRef
    && r.fm.relationships == original.fm.relationships
    && r.fm.metadata.project == original.fm.metadata.project && r.fm.metadata.branch == original.fm.metadata.branch
    && r.fm.metadata.tags == original.fm.metadata.tags
    && forall key :: Get(r.fm.metadata.extra, key)
                     == if key == "trust_gate" || key == "approval" then None else Get(original.fm.metadata.extra, key)
  }

  // The guard of `update_thought`.
  predicate Updatable(r: Record) {
    r.fm.status !in FROZEN_STATUSES && r.fm.supersededBy.None?
  }

  // ----- promotion ------------------------------------------------------------------------

  datatype Ruling = Approving | Rejecting | Erring

  datatype Review = Review(
    ruling: Ruling, reviewer: string, reviewedAt: string, reasoning: string, kind: string, details: map<string, Json>)

  // One call of `propose_truth`: the record it read and the copy that was reviewed.
  datatype Request = Request(
    trail: string, source: Path, record: Record, reviewed: Option<Record>, review: Option<Review>, hooks: seq<H.Hook>)

  datatype Decision =
    | Refused(why: Refusal)
    | Already(record: Record)
    | Transaction(expected: View, writes: Writes, record: Record, target: Path, applied: seq<H.Patch>)

  function RulingText(r: Ruling): string {
    match r case Approving => "approve" case Rejecting => "reject" case Erring => "error"
  }

  function StatusOf(r: Ruling): Status {
    match r case Approving => Approved case Rejecting => Rejected case Erring => Errored
  }

  // What a review may add about itself.
  const GATE_DETAILS: set<string> := {"confidence", "provider", "model", "policy", "noul_probability", "threshold"}

  function Details(v: Review): map<string, Json> {
    map name | name in v.details && name in GATE_DETAILS :: v.details[name]
  }

  // The record with the verdict and its provenance written into it.
  function Judged(r: Record, review: Option<Review>): Record {
    match review
    case None => r.(fm := r.fm.(status := Proposed))
    case Some(v) =>
      var gate := Object(map["reviewer" := Text(v.reviewer), "reviewed_at" := Text(v.reviewedAt),
                             "verdict" := Text(RulingText(v.ruling)), "reasoning" := Text(v.reasoning),
                             "kind" := Text(v.kind)] + Details(v));
      var extra := r.fm.metadata.extra["trust_gate" := gate];
      var extra' := if v.ruling.Approving? then
          extra["approval" := Object(map["kind" := Text(v.kind), "actor" := Text(v.reviewer),
                                         "approved_at" := Text(v.reviewedAt)])]
        else extra;
      r.(fm := r.fm.(status := StatusOf(v.ruling), metadata := r.fm.metadata.(extra := extra')))
  }

  function Linked(original: Record, successor: string, scope: string): Record {
    original.(fm := original.fm.(supersededBy := Some(successor), supersededScope := Some(scope)))
  }

  datatype Gate = Gate(record: Record, namespace: string, applied: seq<H.Patch>)

  // The `before_propose` pipeline's say.
  function PassHooks(q: Request): Result<Gate, Refusal> {
    var ns := Route(q.record.fm.sourceType);
    if q.hooks == [] then Ok(Gate(q.record, ns, [])) else
    match H.RunFrom(q.hooks, 0, H.Start(H.Event(H.BeforePropose, Some(q.record), [])))
    case Err(_) => Err(HookRefused)
    case Ok(p) =>
      var record := if p.event.thought.Some? then p.event.thought.value else q.record;
      if p.rejected then Err(HookRefused)
      else if Truthy(p.redirect) then
        if p.redirect.value in VALID_NAMESPACES then Ok(Gate(record, p.redirect.value, p.applied))
        else Err(BadNamespace)
      else Ok(Gate(record, ns, p.applied))
  }

  // What `save_thought` stores, and where.
  function Saving(namespace: string, t: NewThought, hooks: seq<H.Hook>): Result<Gate, Refusal> {
    var ns := if namespace == "" then "drafts" else namespace;
    if ns !in VALID_NAMESPACES then Err(BadNamespace)
    else if hooks == [] then Ok(Gate(DraftRecord(t), ns, []))
    else
      match H.RunFrom(hooks, 0, H.Start(H.Event(H.BeforeSave, Some(DraftRecord(t)), [])))
      case Err(_) => Err(HookRefused)
      case Ok(p) =>
        var record := if p.event.thought.Some? then p.event.thought.value else DraftRecord(t);
        if p.rejected then Err(HookRefused)
        else if !Truthy(p.redirect) then Ok(Gate(record, ns, p.applied))
        else if p.redirect.value in VALID_NAMESPACES then Ok(Gate(record, p.redirect.value, p.applied))
        else Err(BadNamespace)
  }

  // Whatever the hooks answer, a saved record is the new draft after at most five patches, under
  // its own identifier and with its own references, without lineage or approval, in a valid
  // namespace.
  lemma {:induction false} SavingOnlyPatches(namespace: string, t: NewThought, hooks: seq<H.Hook>)
    requires Saving(namespace, t, hooks).Ok?
    ensures var g := Saving(namespace, t, hooks).value;
            && |g.applied| <= H.MAX_MUTATIONS_PER_PIPELINE
            && g.record == H.Patched(DraftRecord(t), g.applied, |g.applied|)
            && H.SameIdentity(DraftRecord(t), g.record) && g.namespace in VALID_NAMESPACES
            && g.record.fm.id == t.id && g.record.fm.agentId == t.agentId && g.record.fm.sourceType == t.sourceType
            && g.record.fm.parentId == t.parentId && g.record.fm.intentRef == t.intentRef
            && g.record.fm.relationships == t.relationships && g.record.fm.createdAt == t.createdAt
            && g.record.fm.status == Draft
            && g.record.fm.supersededBy == g.record.fm.supersedesId == None
            && g.record.fm.supersededScope == g.record.fm.supersedesScope == None
            && (g.applied == [] ==>
                  && g.record.fm.confidence == t.confidence && g.record.fm.metadata == t.metadata
                  && g.record.content == t.content)
  {
    hide H.RunFrom;
    if hooks != [] {
      var event := H.Event(H.BeforeSave, Some(DraftRecord(t)), []);
      H.RunFromSound(event, hooks, 0, H.Start(event));
    }
    var g := Saving(namespace, t, hooks).value;
    H.PatchedKeepsIdentity(DraftRecord(t), g.applied, |g.applied|);
  }

  // The records among the first n of a scope that carry an identifier.
  function Candidates(items: seq<Item>, scope: string, id: string, n: nat): seq<Item>
    requires n <= |items|
  {
    if n == 0 then []
    else if items[n - 1].record.fm.id == id && items[n - 1].path.scope == scope then
      Candidates(items, scope, id, n - 1) + [items[n - 1]]
    else Candidates(items, scope, id, n - 1)
  }

  function TargetPath(q: Request, record: Record, namespace: string): Path {
    if record.fm.status.Approved? || record.fm.status.Proposed? then Path(q.trail, namespace, q.record.fm.id)
    else q.source
  }

  predicate Replaces(record: Record) {
    record.fm.status.Approved? && Truthy(record.fm.supersedesId)
  }

  function PredecessorScope(q: Request, record: Record): string {
    if Truthy(record.fm.supersedesScope) then record.fm.supersedesScope.value else q.trail
  }

  // `propose_truth` up to its transaction; `items` is the snapshot it reads when
  // it approves a replacement.
  function Propose(q: Request, items: seq<Item>): Decision {
    if q.reviewed.Some? && q.reviewed.value != q.record then Refused(Changed)
    else if q.record.fm.status.Approved? then Already(q.record)
    else if q.record.fm.status.Tombstoned? then Refused(TombstonedRecord)
    else
      match PassHooks(q)
      case Err(why) => Refused(why)
      case Ok(gate) => Conclude(q, items, gate)
  }

  function Conclude(q: Request, items: seq<Item>, gate: Gate): Decision {
    var record := Judged(gate.record, q.review);
    var target := TargetPath(q, record, gate.namespace);
    var expected: View := map[q.source := q.record];
    var writes := Assign(Assign([], q.source, None), target, Some(Stored(record)));
    if !Replaces(record) then Transaction(expected, writes, record, target, gate.applied) else
    var candidates := Candidates(items, PredecessorScope(q, record), record.fm.supersedesId.value, |items|);
    if |candidates| != 1 then Refused(PredecessorMissing) else
    var original := candidates[0];
    if EffectivelySuperseded(original.record, Index(items)) then Refused(AlreadyReplaced) else
    Transaction(
      expected[original.path := original.record],
      Assign(writes, original.path, Some(Stored(Linked(original.record, record.fm.id, q.trail)))),
      record, target, gate.applied)
  }

  predicate Expected(expected: View, view: View) {
    forall p | p in expected :: p in view && view[p] == expected[p]
  }

  // The compare-and-swap the journal makes atomic.
  function Commit(view: View, d: Decision): Result<View, Refusal>
    requires d.Transaction?
  {
    if Expected(d.expected, view) then Ok(Apply(view, d.writes)) else Err(Refusal.Conflict)
  }

  // ----- the same, step by step --------------------------------------------------------------

  method FindCandidates(items: seq<Item>, scope: string, id: string) returns (found: seq<Item>)
    ensures found == Candidates(items, scope, id, |items|)
  {
    found := [];
    for k := 0 to |items|
      invariant found == Candidates(items, scope, id, k)
    {
      if items[k].record.fm.id == id && items[k].path.scope == scope {
        found := found + [items[k]];
      }
    }
  }

  method ProposeTruth(q: Request, items: seq<Item>) returns (d: Decision)
    ensures d == Propose(q, items)
  {
    var record := q.record;
    var expected: View := map[q.source := record];
    if q.reviewed.Some? && q.reviewed.value != record {
      return Refused(Changed);
    }
    if record.fm.status.Approved? {
      return Already(record);
    }
    if record.fm.status.Tombstoned? {
      return Refused(TombstonedRecord);
    }
    var namespace := Route(record.fm.sourceType);
    var applied := [];
    if q.hooks != [] {
      var r := H.RunPipeline(q.hooks, H.Event(H.BeforePropose, Some(record), []));
      if r.Err? || r.value.rejected {
        return Refused(HookRefused);
      }
      if Truthy(r.value.redirect) {
        if r.value.redirect.value !in VALID_NAMESPACES {
          return Refused(BadNamespace);
        }
        namespace := r.value.redirect.value;
      }
      if r.value.event.thought.Some? {
        record := r.value.event.thought.value;
      }
      applied := r.value.applied;
    }
    record := Judged(record, q.review);
    var target := q.source;
    if record.fm.status.Approved? || record.fm.status.Proposed? {
      target := Path(q.trail, namespace, q.record.fm.id);
    }
    var writes := Assign(Assign([], q.source, None), target, Some(Stored(record)));
    if record.fm.status.Approved? && Truthy(record.fm.supersedesId) {
      var scope := q.trail;
      if Truthy(record.fm.supersedesScope) {
        scope := record.fm.supersedesScope.value;
      }
      var candidates := FindCandidates(items, scope, record.fm.supersedesId.value);
      if |candidates| != 1 {
        return Refused(PredecessorMissing);
      }
      var original := candidates[0];
      var index := BuildIndex(items);
      if EffectivelySuperseded(original.record, index) {
        return Refused(AlreadyReplaced);
      }
      expected := expected[original.path := original.record];
      writes := Assign(writes, original.path, Some(Stored(Linked(original.record, record.fm.id, q.trail))));
    }
    d := Transaction(expected, writes, record, target, applied);
  }

  // The records of a repository without a pending journal, changed in place.
  class Shelf {
    var view: View

    constructor ()
      ensures view == map[]
    {
      view := map[];
    }

    method SaveThought(
        trail: string, namespace: string, t: NewThought, hooks: seq<H.Hook>) returns (r: Result<Record, Refusal>)
      modifies this
      ensures match Saving(namespace, t, hooks)
              case Ok(gate) =>
                && r == Ok(gate.record)
                && view == old(view)[Path(trail, gate.namespace, gate.record.fm.id) := Stored(gate.record)]
              case Err(why) => r == Err(why) && view == old(view)
    {
      var record, ns := DraftRecord(t), if namespace == "" then "drafts" else namespace;
      if ns !in VALID_NAMESPACES {
        return Err(BadNamespace);
      }
      if hooks != [] {
        var p := H.RunPipeline(hooks, H.Event(H.BeforeSave, Some(record), []));
        if p.Err? || p.value.rejected {
          return Err(HookRefused);
        }
        if Truthy(p.value.redirect) {
          if p.value.redirect.value !in VALID_NAMESPACES {
            return Err(BadNamespace);
          }
          ns := p.value.redirect.value;
        }
        if p.value.event.thought.Some? {
          record := p.value.event.thought.value;
        }
      }
      view := view[Path(trail, ns, record.fm.id) := Stored(record)];
      r := Ok(record);
    }

    method UpdateThought(path: Path, content: string) returns (r: Result<Record, Refusal>)
      modifies this
      ensures r.Ok? <==>
                && path in old(view) && old(view)[path].fm.status !in {Approved, Rejected, Tombstoned}
                && old(view)[path].fm.supersededBy.None?
      ensures r.Ok? ==> r.value == old(view)[path].(content := content) && view == old(view)[path := Stored(r.value)]
      ensures r.Err? ==> view == old(view)
    {
      if path !in view {
        return Err(Missing);
      }
      var record := view[path];
      if record.fm.status in FROZEN_STATUSES || record.fm.supersededBy.Some? {
        return Err(Frozen);
      }
      record := record.(content := content);
      view := view[path := Stored(record)];
      r := Ok(record);
    }

    // The original keeps standing; only a draft is added.
    method Supersede(original: Path, dest: string, t: NewThought) returns (r: Result<Record, Refusal>)
      modifies this
      ensures r.Ok? <==> original in old(view)
      ensures r.Ok? ==> r.value == SuccessorRecord(t, old(view)[original], original.scope)
                        && Succeeds(r.value, t, old(view)[original], original.scope)
                        && view == old(view)[Path(dest, "drafts", t.id) := Stored(r.value)]
      ensures r.Err? ==> view == old(view)
    {
      if original !in view {
        return Err(Missing);
      }
      var record := SuccessorRecord(t, view[original], original.scope);
      view := view[Path(dest, "drafts", t.id) := Stored(record)];
      r := Ok(record);
    }

    // The last step of a promotion: compare every expected record, then write.
    method Publish(d: Decision) returns (r: Result<Record, Refusal>)
      requires d.Transaction?
      modifies this
      ensures match Commit(old(view), d)
              case Ok(after) => r == Ok(d.record) && view == after
              case Err(why) => r == Err(why) && view == old(view)
    {
      if !Expected(d.expected, view) {
        return Err(Refusal.Conflict);
      }
      ghost var start := view;
      for i := 0 to |d.writes|
        invariant view == ApplyTo(start, d.writes, i)
      {
        match d.writes[i].value {
          case None => view := view - {d.writes[i].key};
          case Some(record) => view := view[d.writes[i].key := record];
        }
      }
      r := Ok(d.record);
    }
  }
}
