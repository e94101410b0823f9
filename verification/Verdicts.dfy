// What saving and promoting a thought decide, in plain terms.
module Verdicts {
  import opened Base
  import opened Hooks
  import opened HookRuns
  import opened Promotion
  import opened Records
  import opened Steps
  import opened Trees

  // ----- what hooks say ---------------------------------------------------------------------------

  // The name of a namespace records may be put in.
  predicate Valid(ns: string) {
    || ns == "drafts" || ns == "decisions" || ns == "observations" || ns == "intents"
    || ns == "preferences" || ns == "preferences/client" || ns == "preferences/firm"
  }

  // Where a namespace is chosen by a hook's redirection, if there is one, and by default otherwise.
  function Placed(redirect: Option<string>, default: string): string {
    if redirect.Some? && redirect.value != "" then redirect.value else default
  }

  // What a gating run leaves to do: nothing, for a hook that raised or rejected; nothing, for a
  // namespace that does not exist; or the record it ended with.
  function Gated(r: Verdict, default: string): Result<Gate, Refusal> {
    if r.Err? || r.value.rejected then Err(HookRefused)
    else if !Valid(Placed(r.value.redirect, default)) then Err(BadNamespace)
    else if r.value.event.thought.None? then Err(HookRefused)
    else Ok(Gate(r.value.event.thought.value, Placed(r.value.redirect, default), r.value.applied))
  }

  lemma {:induction false} ThoughtStays(hooks: seq<Hook>, event: Event, shown: seq<Event>, r: Verdict)
    requires Runs(hooks, event, shown, r) && event.thought.Some?
    ensures r.Ok? ==> r.value.event.thought.Some?
  {
    hide Offered, ShownInTurn, GoesPast, Aborts, Halts, Patches, Selected;
  }

  lemma {:induction false} NoHooksRun(event: Event)
    ensures RunFrom([], 0, Start(event)) == Ok(Start(event))
  {
  }

  // A thought is saved exactly when no hook rejects it or fails closed and the namespace exists.
  lemma {:induction false} SavingExactly(namespace: string, t: NewThought, hooks: seq<Hook>)
    returns (shown: seq<Event>, r: Verdict)
    ensures Runs(hooks, Event(BeforeSave, Some(DraftRecord(t)), []), shown, r)
    ensures var ns := if namespace == "" then "drafts" else namespace;
            Saving(namespace, t, hooks) == if !Valid(ns) then Err(BadNamespace) else Gated(r, ns)
  {
    hide RunFrom, Runs, DraftRecord;
    var event := Event(BeforeSave, Some(DraftRecord(t)), []);
    shown := PipelineRuns(hooks, event);
    r := RunFrom(hooks, 0, Start(event));
    ThoughtStays(hooks, event, shown, r);
    if hooks == [] {
      NoHooksRun(event);
    }
  }

  // The namespace a source type goes to by default.
  lemma {:induction false} RoutesExactly(s: SourceType)
    ensures Route(s) == "decisions" <==> s == Decision
    ensures Route(s) == "preferences" <==> s == UserInput
    ensures Route(s) == "observations" <==> s == Observation || s == Inference || s == ToolOutput
    ensures Valid(Route(s))
  {
  }

  lemma {:induction false} PassingExactly(q: Request) returns (shown: seq<Event>, r: Verdict)
    ensures Runs(q.hooks, Event(BeforePropose, Some(q.record), []), shown, r)
    ensures PassHooks(q) == Gated(r, Route(q.record.fm.sourceType))
  {
    hide RunFrom, Runs, Route;
    var event := Event(BeforePropose, Some(q.record), []);
    shown := PipelineRuns(q.hooks, event);
    r := RunFrom(q.hooks, 0, Start(event));
    ThoughtStays(q.hooks, event, shown, r);
    RoutesExactly(q.record.fm.sourceType);
    if q.hooks == [] {
      NoHooksRun(event);
    }
  }

  // ----- what a verdict writes ------------------------------------------------------------------------

  // The status tells the verdict, and without a review the record is only proposed.
  ghost predicate StatusTells(status: Status, review: Option<Review>) {
    && (status == Approved <==> review.Some? && review.value.ruling == Approving)
    && (status == Rejected <==> review.Some? && review.value.ruling == Rejecting)
    && (status == Errored <==> review.Some? && review.value.ruling == Erring)
    && (status == Proposed <==> review.None?)
  }

  // What is written about the review beside the record's own extra metadata.
  ghost predicate ProvenanceTells(extra: map<string, Json>, extra': map<string, Json>, review: Option<Review>) {
    && (forall key | key != "trust_gate" && key != "approval" :: Get(extra', key) == Get(extra, key))
    && match review
       case None => extra' == extra
       case Some(v) =>
         && "trust_gate" in extra' && extra'["trust_gate"].Object?
         && GateTells(extra'["trust_gate"].fields, v)
         && if v.ruling != Approving then Get(extra', "approval") == Get(extra, "approval")
            else
              && "approval" in extra' && extra'["approval"].Object?
              && extra'["approval"].fields.Keys == {"kind", "actor", "approved_at"}
              && extra'["approval"].fields["kind"] == Text(v.kind)
              && extra'["approval"].fields["actor"] == Text(v.reviewer)
              && extra'["approval"].fields["approved_at"] == Text(v.reviewedAt)
  }

  ghost predicate GateTells(gate: map<string, Json>, v: Review) {
    && Get(gate, "reviewer") == Some(Text(v.reviewer))
    && Get(gate, "reviewed_at") == Some(Text(v.reviewedAt))
    && Get(gate, "reasoning") == Some(Text(v.reasoning))
    && Get(gate, "kind") == Some(Text(v.kind))
    && (Get(gate, "verdict") == Some(Text("approve")) <==> v.ruling == Approving)
    && (Get(gate, "verdict") == Some(Text("reject")) <==> v.ruling == Rejecting)
    && (Get(gate, "verdict") == Some(Text("error")) <==> v.ruling == Erring)
    && (forall name | name in {"confidence", "provider", "model", "policy", "noul_probability", "threshold"} ::
          Get(gate, name) == Get(v.details, name))
    && forall name | name in gate ::
         name in {"reviewer", "reviewed_at", "reasoning", "kind", "verdict",
                  "confidence", "provider", "model", "policy", "noul_probability", "threshold"}
  }

  lemma {:induction false} GateWritten(v: Review)
    ensures GateTells(map["reviewer" := Text(v.reviewer), "reviewed_at" := Text(v.reviewedAt),
                          "verdict" := Text(RulingText(v.ruling)), "reasoning" := Text(v.reasoning),
                          "kind" := Text(v.kind)] + Details(v), v)
  {
    RulingTextsDiffer();
    NamesDiffer();
  }

  lemma {:induction false} RulingTextsDiffer()
    ensures "approve" != "reject" && "reject" != "error" && "approve" != "error"
  {
    assert "approve"[0] == 'a' && "reject"[0] == 'r' && "error"[0] == 'e';
  }

  lemma {:induction false} NamesDiffer()
    ensures {"reviewer", "reviewed_at", "reasoning", "kind", "verdict"} !!
            {"confidence", "provider", "model", "policy", "noul_probability", "threshold"}
    ensures |"reviewer"| == 8 && |"reviewed_at"| == 11 && |"reasoning"| == 9 && |"kind"| == 4 && |"verdict"| == 7
  {
    assert "reviewer"[0] == 'r' && "reviewed_at"[0] == 'r' && "reasoning"[0] == 'r' && "kind"[0] == 'k';
    assert "verdict"[0] == 'v' && "confidence"[0] == 'c' && "provider"[0] == 'p' && "model"[0] == 'm';
    assert "policy"[0] == 'p' && "noul_probability"[0] == 'n' && "threshold"[0] == 't';
  }

  lemma {:induction false} ProvenanceWritten(extra: map<string, Json>, gate: map<string, Json>, v: Review)
    requires GateTells(gate, v)
    ensures var extra' := extra["trust_gate" := Object(gate)];
            var approval := Object(map["kind" := Text(v.kind), "actor" := Text(v.reviewer),
                                       "approved_at" := Text(v.reviewedAt)]);
            ProvenanceTells(extra, if v.ruling.Approving? then extra'["approval" := approval] else extra', Some(v))
  {
    hide GateTells;
    assert "trust_gate"[0] == 't' && "approval"[0] == 'a';
    assert |"kind"| == 4 && |"actor"| == 5 && |"approved_at"| == 11;
  }

  lemma {:induction false} JudgedTells(r: Record, review: Option<Review>)
    ensures var s := Judged(r, review);
            && StatusTells(s.fm.status, review)
            && ProvenanceTells(r.fm.metadata.extra, s.fm.metadata.extra, review)
            && s == r.(fm := r.fm.(status := s.fm.status, metadata := r.fm.metadata.(extra := s.fm.metadata.extra)))
  {
    hide GateTells, Details, RulingText, Get;
    if review.None? {
      assert ProvenanceTells(r.fm.metadata.extra, Judged(r, review).fm.metadata.extra, review);
    } else {
      hide ProvenanceTells;
      var v := review.value;
      var gate := map["reviewer" := Text(v.reviewer), "reviewed_at" := Text(v.reviewedAt),
                      "verdict" := Text(RulingText(v.ruling)), "reasoning" := Text(v.reasoning),
                      "kind" := Text(v.kind)] + Details(v);
      GateWritten(v);
      ProvenanceWritten(r.fm.metadata.extra, gate, v);
    }
  }

  // What a promotion writes: the record it read with at most five patches, and nothing else changed
  // than the verdict and its provenance; in the default namespace of its source type or where a
  // hook put it, or where it was if it was rejected or could not be judged.
  lemma {:induction false} PromotionTells(q: Request, items: seq<Item>)
    returns (patched: Record, shown: seq<Event>, r: Verdict)
    requires Propose(q, items).Transaction?
    ensures Runs(q.hooks, Event(BeforePropose, Some(q.record), []), shown, r) && r.Ok?
    ensures r.value.event.thought == Some(patched) && !r.value.rejected
    ensures var d := Propose(q, items);
            && StatusTells(d.record.fm.status, q.review)
            && ProvenanceTells(patched.fm.metadata.extra, d.record.fm.metadata.extra, q.review)
            && d.record == patched.(fm := patched.fm.(status := d.record.fm.status,
                                                     metadata := d.record.fm.metadata))
            && d.record.fm.metadata == patched.fm.metadata.(extra := d.record.fm.metadata.extra)
            && d.target == if q.review.None? || q.review.value.ruling == Approving
                           then Path(q.trail, Placed(r.value.redirect, Route(q.record.fm.sourceType)), q.record.fm.id)
                           else q.source
  {
    hide RunFrom, Runs, Route, Judged, StatusTells, ProvenanceTells;
    shown, r := PassingExactly(q);
    var gate := PassHooks(q).value;
    patched := gate.record;
    JudgedTells(patched, q.review);
    TargetTells(q, Judged(patched, q.review), gate.namespace);
    ConcludedRecord(q, items, gate);
  }

  lemma {:induction false} TargetTells(q: Request, record: Record, ns: string)
    requires StatusTells(record.fm.status, q.review)
    ensures TargetPath(q, record, ns)
            == if q.review.None? || q.review.value.ruling == Approving then Path(q.trail, ns, q.record.fm.id)
               else q.source
  {
  }

  lemma {:induction false} ConcludedRecord(q: Request, items: seq<Item>, gate: Gate)
    requires Conclude(q, items, gate).Transaction?
    ensures var d := Conclude(q, items, gate);
            d.record == Judged(gate.record, q.review) && d.target == TargetPath(q, d.record, gate.namespace)
  {
    hide Judged;
  }

  // ----- when a promotion is refused -------------------------------------------------------------------

  // An approved replacement: the scope and identifier its predecessor is looked for under.
  predicate Replacing(q: Request, patched: Record) {
    && q.review.Some? && q.review.value.ruling == Approving
    && patched.fm.supersedesId.Some? && patched.fm.supersedesId.value != ""
  }

  function LookedForIn(q: Request, patched: Record): string {
    if patched.fm.supersedesScope.Some? && patched.fm.supersedesScope.value != "" then patched.fm.supersedesScope.value
    else q.trail
  }

  ghost predicate Carries(item: Item, scope: string, id: string) {
    item.path.scope == scope && item.record.fm.id == id
  }

  // The one record among the items with this scope and identifier.
  ghost predicate TheOnly(items: seq<Item>, scope: string, id: string, i: nat) {
    && i < |items| && Carries(items[i], scope, id)
    && forall j | 0 <= j < |items| && Carries(items[j], scope, id) :: j == i
  }

  // The backlink leads to an approved record.
  ghost predicate Retired(items: seq<Item>, record: Record) {
    EffectivelySuperseded(record, Index(items))
  }

  lemma {:induction false} CandidatesNone(items: seq<Item>, scope: string, id: string, n: nat)
    requires n <= |items|
    ensures Candidates(items, scope, id, n) == [] <==> forall j | 0 <= j < n :: !Carries(items[j], scope, id)
  {
    if n > 0 {
      CandidatesNone(items, scope, id, n - 1);
    }
  }

  // The candidates are one record exactly when one record carries the identifier in the scope.
  lemma {:induction false} CandidatesOne(items: seq<Item>, scope: string, id: string, n: nat, i: nat)
    requires i < n <= |items| && Carries(items[i], scope, id)
    requires forall j | 0 <= j < n && Carries(items[j], scope, id) :: j == i
    ensures Candidates(items, scope, id, n) == [items[i]]
  {
    if i == n - 1 {
      CandidatesNone(items, scope, id, n - 1);
    } else {
      CandidatesOne(items, scope, id, n - 1, i);
    }
  }

  lemma {:induction false} CandidatesFound(items: seq<Item>, scope: string, id: string, n: nat) returns (i: nat)
    requires n <= |items| && |Candidates(items, scope, id, n)| == 1
    ensures i < n && Carries(items[i], scope, id) && Candidates(items, scope, id, n) == [items[i]]
    ensures forall j | 0 <= j < n && Carries(items[j], scope, id) :: j == i
  {
    if Carries(items[n - 1], scope, id) {
      i := n - 1;
      CandidatesNone(items, scope, id, n - 1);
    } else {
      i := CandidatesFound(items, scope, id, n - 1);
    }
  }

  lemma {:induction false} CandidatesCount(items: seq<Item>, scope: string, id: string)
    ensures var found := Candidates(items, scope, id, |items|);
            && (|found| == 1 <==> exists i: nat :: TheOnly(items, scope, id, i))
            && forall i: nat | TheOnly(items, scope, id, i) :: found == [items[i]]
  {
    hide Candidates;
    forall i: nat | TheOnly(items, scope, id, i)
      ensures Candidates(items, scope, id, |items|) == [items[i]]
    {
      CandidatesOne(items, scope, id, |items|, i);
    }
    if |Candidates(items, scope, id, |items|)| == 1 {
      var i := CandidatesFound(items, scope, id, |items|);
      assert TheOnly(items, scope, id, i);
    }
  }

  // Why a promotion is refused, and when it is not.
  lemma {:induction false} PromotionRefusedExactly(q: Request, items: seq<Item>)
    returns (shown: seq<Event>, r: Verdict)
    ensures Runs(q.hooks, Event(BeforePropose, Some(q.record), []), shown, r)
    ensures var d := Propose(q, items);
            var ns := Route(q.record.fm.sourceType);
            if q.reviewed.Some? && q.reviewed.value != q.record then d == Refused(Changed)
            else if q.record.fm.status == Approved then d == Already(q.record)
            else if q.record.fm.status == Tombstoned then d == Refused(TombstonedRecord)
            else if r.Err? || r.value.rejected then d == Refused(HookRefused)
            else if !Valid(Placed(r.value.redirect, ns)) then d == Refused(BadNamespace)
            else
              && r.value.event.thought.Some?
              && var patched := r.value.event.thought.value;
                 if !Replacing(q, patched) then d.Transaction?
                 else
                   var scope, id := LookedForIn(q, patched), patched.fm.supersedesId.value;
                   && (d == Refused(PredecessorMissing) <==> forall i: nat :: !TheOnly(items, scope, id, i))
                   && (d == Refused(AlreadyReplaced) <==>
                         exists i: nat :: TheOnly(items, scope, id, i) && Retired(items, items[i].record))
                   && (d.Transaction? <==>
                         exists i: nat :: TheOnly(items, scope, id, i) && !Retired(items, items[i].record))
  {
    hide RunFrom, Runs, Route, Judged, Conclude, Gated, Valid, TheOnly, Retired;
    shown, r := PassingExactly(q);
    GatedCases(r, Route(q.record.fm.sourceType));
    ThoughtStays(q.hooks, Event(BeforePropose, Some(q.record), []), shown, r);
    if Gated(r, Route(q.record.fm.sourceType)).Ok? {
      ConcludedExactly(q, items, PassHooks(q).value);
    }
  }

  lemma {:induction false} GatedCases(r: Verdict, ns: string)
    ensures r.Err? || r.value.rejected ==> Gated(r, ns) == Err(HookRefused)
    ensures r.Ok? && !r.value.rejected && !Valid(Placed(r.value.redirect, ns)) ==> Gated(r, ns) == Err(BadNamespace)
    ensures r.Ok? && !r.value.rejected && Valid(Placed(r.value.redirect, ns)) && r.value.event.thought.Some? ==>
              Gated(r, ns) == Ok(Gate(r.value.event.thought.value, Placed(r.value.redirect, ns), r.value.applied))
  {
  }

  lemma {:induction false} ConcludedExactly(q: Request, items: seq<Item>, gate: Gate)
    ensures var d := Conclude(q, items, gate);
            if !Replacing(q, gate.record) then d.Transaction?
            else
              var scope, id := LookedForIn(q, gate.record), gate.record.fm.supersedesId.value;
              && (d == Refused(PredecessorMissing) <==> forall i: nat :: !TheOnly(items, scope, id, i))
              && (d == Refused(AlreadyReplaced) <==>
                    exists i: nat :: TheOnly(items, scope, id, i) && Retired(items, items[i].record))
              && (d.Transaction? <==>
                    exists i: nat :: TheOnly(items, scope, id, i) && !Retired(items, items[i].record))
  {
    hide Judged, TheOnly, Index, EffectivelySuperseded, Candidates, Assign;
    JudgedTells(gate.record, q.review);
    if Replacing(q, gate.record) {
      CandidatesCount(items, LookedForIn(q, gate.record), gate.record.fm.supersedesId.value);
    }
  }
}
