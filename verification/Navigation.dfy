// The promotion tool: a review is taken on a copy, and its verdict is applied later, when the
// record may have changed.
module Navigation {
  import opened Base
  import opened Lineage
  import opened Promotion
  import opened Records
  import opened Steps
  import opened Trees
  import opened Verdicts
  import H = Hooks

  // What the awaited review comes back with.
  datatype Reply = NoReply | Unusable | Given(review: Review)

  datatype Outcome = Promoted | RejectedByReview | Failed

  datatype Answer = Answer(outcome: Outcome, record: Option<Record>)

  datatype Call = Call(
    human: bool,                  // explicit operator approval was asked for
    operator: bool, agentId: Option<string>, now: string,
    reviewing: bool,              // the policy asks for an automatic review
    prompts: bool,                // review prompts are loaded
    trail: string, source: Path, hooks: seq<H.Hook>)

  datatype Stage = Stage(reviewed: Option<Record>, review: Option<Review>)

  function HumanReview(agent: string, now: string): Review {
    Review(Approving, "human:" + agent, now, "Explicit operator approval", "human", map[])
  }

  // Everything up to the second read of the record; None is an error answer.
  function Reviewed(call: Call, seen: Option<Record>, reply: Reply): Option<Stage> {
    if call.human then
      if call.operator && Truthy(call.agentId) then Some(Stage(None, Some(HumanReview(call.agentId.value, call.now))))
      else None
    else if call.reviewing && !call.prompts then None
    else if !call.prompts then Some(Stage(None, None))
    else if seen.None? || !reply.Given? then None
    else Some(Stage(seen, Some(reply.review)))
  }

  function RequestOf(call: Call, stage: Stage, record: Record): Request {
    Request(call.trail, call.source, record, stage.reviewed, stage.review, call.hooks)
  }

  function OutcomeOf(call: Call, review: Option<Review>): Outcome {
    if call.human || review.None? then Promoted
    else match review.value.ruling case Approving => Promoted case Rejecting => RejectedByReview case Erring => Failed
  }

  const REFUSED := Answer(Failed, None)

  // `seen` is the record at the first read, `current` at the second; `items` is the snapshot read
  // while preparing, and `disk` what lies under the lock.
  function Navigated(
      call: Call, seen: Option<Record>, reply: Reply, current: Option<Record>, items: seq<Item>, disk: View)
    : (Answer, View) {
    var stage := Reviewed(call, seen, reply);
    if stage.None? || current.None? then (REFUSED, disk) else
    match Propose(RequestOf(call, stage.value, current.value), items)
    case Refused(_) => (REFUSED, disk)
    case Already(record) => (Answer(OutcomeOf(call, stage.value.review), Some(record)), disk)
    case Transaction(expected, writes, record, _, _) =>
      if Expected(expected, disk) then (Answer(OutcomeOf(call, stage.value.review), Some(record)), Apply(disk, writes))
      else (REFUSED, disk)
  }

  // What the second read and the snapshot must be: the record its file is named after, and the
  // records of one well-named view.
  ghost predicate WellCalled(call: Call, current: Option<Record>, items: seq<Item>, view: View, born: Births) {
    && WellNamed(view, born) && Lists(items, view) && call.trail == call.source.scope
    && (current.Some? ==>
          current.value.fm.id == call.source.file && current.value.fm.supersedesId != Some(call.source.file))
  }

  predicate ApprovedIn(view: View, p: Path) {
    p in view && view[p].fm.status.Approved?
  }

  // Who may have a record reviewed how: an operator who asks for explicit approval by his own name;
  // the reviewer, of the record that was read before; nobody, where no policy asks for a review.
  ghost predicate Authorized(call: Call, seen: Option<Record>, reply: Reply, review: Option<Review>) {
    if call.human then
      && call.operator && call.agentId.Some? && call.agentId.value != ""
      && review == Some(Review(Approving, "human:" + call.agentId.value, call.now,
                               "Explicit operator approval", "human", map[]))
    else if call.prompts then seen.Some? && reply.Given? && review == Some(reply.review)
    else !call.reviewing && review == None
  }

  // The call is refused before anything is decided.
  ghost predicate Barred(call: Call, seen: Option<Record>, reply: Reply, current: Option<Record>) {
    || (call.human && !(call.operator && call.agentId.Some? && call.agentId.value != ""))
    || (!call.human && call.reviewing && !call.prompts)
    || (!call.human && call.prompts && (seen.None? || !reply.Given?))
    || current.None?
  }

  // What is reported is the verdict given, and the record stored has it.
  ghost predicate TellsVerdict(
      call: Call, seen: Option<Record>, reply: Reply, answer: Answer, before: View, after: View) {
    && (answer.outcome.RejectedByReview? ==>
          !call.human && call.prompts && reply.Given? && reply.review.ruling == Rejecting)
    && (answer.outcome.Promoted? ==>
          && answer.record.Some?
          && if call.human || call.prompts
             then answer.record.value.fm.status == Approved
                  && (call.human || (reply.Given? && reply.review.ruling == Approving))
             else !call.reviewing && answer.record.value.fm.status in {Proposed, Approved})
    && (after != before ==>
          && answer.record.Some?
          && (answer.record.value.fm.status == Approved <==>
                call.human || (call.prompts && reply.Given? && reply.review.ruling == Approving))
          && (answer.record.value.fm.status == Rejected <==>
                !call.human && call.prompts && reply.Given? && reply.review.ruling == Rejecting)
          && (answer.record.value.fm.status == Errored <==>
                !call.human && call.prompts && reply.Given? && reply.review.ruling == Erring)
          && (answer.record.value.fm.status == Proposed <==> !call.human && !call.prompts)
          && (answer.outcome.Promoted? <==> answer.record.value.fm.status in {Approved, Proposed})
          && (answer.outcome.RejectedByReview? <==> answer.record.value.fm.status == Rejected))
  }

  // What is stored, under the same identifier in the same scope, is the record of the second read,
  // which is still the one on disk and the one shown for review, patched and judged.
  ghost predicate StoresReviewed(
      call: Call, seen: Option<Record>, reply: Reply, current: Option<Record>, answer: Answer,
      before: View, after: View, patches: seq<H.Patch>, target: Path, review: Option<Review>) {
    && call.source in before && current == Some(before[call.source])
    && (!call.human && call.prompts ==> seen == current)
    && Authorized(call, seen, reply, review)
    && |patches| <= 5 && answer.record.Some?
    && var patched, stored := H.Patched(before[call.source], patches, |patches|), answer.record.value;
       && StatusTells(stored.fm.status, review)
       && ProvenanceTells(patched.fm.metadata.extra, stored.fm.metadata.extra, review)
       && stored == patched.(fm := patched.fm.(status := stored.fm.status, metadata :=
                                                 patched.fm.metadata.(extra := stored.fm.metadata.extra)))
       && target.scope == call.source.scope && target.file == call.source.file
       && Get(after, target) == Some(Stored(stored))
  }

  method Navigate(
      call: Call, seen: Option<Record>, reply: Reply, current: Option<Record>, items: seq<Item>, shelf: Shelf,
      ghost view: View, ghost born: Births)
    returns (answer: Answer, ghost patches: seq<H.Patch>, ghost target: Path, ghost review: Option<Review>)
    modifies shelf
    ensures (answer, shelf.view) == Navigated(call, seen, reply, current, items, old(shelf.view))
    ensures TellsVerdict(call, seen, reply, answer, old(shelf.view), shelf.view)
    ensures Barred(call, seen, reply, current) ==>
              answer.outcome.Failed? && answer.record.None? && shelf.view == old(shelf.view)
    ensures WellCalled(call, current, items, view, born) && shelf.view != old(shelf.view) ==>
              StoresReviewed(call, seen, reply, current, answer, old(shelf.view), shelf.view, patches, target, review)
    ensures WellCalled(call, current, items, view, born) ==>
              forall p | ApprovedIn(shelf.view, p) && !ApprovedIn(old(shelf.view), p) ::
                || (call.human && call.operator && call.agentId.Some? && call.agentId.value != "")
                || (!call.human && call.prompts && seen == current && reply.Given?
                    && reply.review.ruling == Approving)
  {
    hide Navigated, TellsVerdict, StoresReviewed, Barred, WellCalled, ApprovedIn;
    ghost var before := shelf.view;
    patches, target, review := [], call.source, None;
    if WellCalled(call, current, items, view, born) {
      patches, target, review := OnlyReviewedIsJudged(call, seen, reply, current, items, before, view, born);
      NothingElseApproved(call, seen, reply, current, items, before, view, born);
    }
    OutcomeTellsVerdict(call, seen, reply, current, items, before);
    BarredFails(call, seen, reply, current, items, before);
    answer := Promote(call, seen, reply, current, items, shelf);
  }

  method Promote(
      call: Call, seen: Option<Record>, reply: Reply, current: Option<Record>, items: seq<Item>, shelf: Shelf)
    returns (answer: Answer)
    modifies shelf
    ensures (answer, shelf.view) == Navigated(call, seen, reply, current, items, old(shelf.view))
  {
    var review: Option<Review> := None;
    var reviewed: Option<Record> := None;
    if call.human {
      if !call.operator || !Truthy(call.agentId) {
        return REFUSED;
      }
      review := Some(HumanReview(call.agentId.value, call.now));
    } else {
      if call.reviewing && !call.prompts {
        return REFUSED;
      }
      if call.prompts {
        if seen.None? {
          return REFUSED;
        }
        reviewed := seen;
        if !reply.Given? {
          return REFUSED;
        }
        review := Some(reply.review);
      }
    }
    if current.None? {
      return REFUSED;
    }
    var d := ProposeTruth(Request(call.trail, call.source, current.value, reviewed, review, call.hooks), items);
    if d.Refused? {
      return REFUSED;
    }
    if d.Already? {
      return Answer(OutcomeOf(call, review), Some(d.record));
    }
    var published := shelf.Publish(d);
    if published.Err? {
      return REFUSED;
    }
    answer := Answer(OutcomeOf(call, review), Some(published.value));
  }

  // ----- what a verdict can do ----------------------------------------------------------------

  // What a transaction leaves at its target, whichever other files it writes.
  lemma {:induction false} TargetHolds(q: Request, items: seq<Item>, view: View, born: Births, disk: View)
    requires Propose(q, items).Transaction? && WellNamed(view, born) && Lists(items, view) && WellRead(q)
    ensures var d := Propose(q, items);
            && d.target.scope == q.source.scope && d.target.file == q.source.file
            && Get(Apply(disk, d.writes), d.target) == Some(Stored(d.record))
  {
    hide Propose, Judged, H.Patched, Apply;
    var d := Propose(q, items);
    TransactionRecord(q, items);
    if Replaces(d.record) {
      var original := ReplacingTransaction(q, items, disk);
      assert original.path in view;
    } else {
      PlainTransaction(q, items, disk);
    }
  }

  // If the call changes anything, the record under the lock is the record of the second read and,
  // where a review was asked for, the record shown to it; what is stored, under the same identifier
  // in the same scope, is that record after at most five patches and the verdict.
  lemma {:induction false} OnlyReviewedIsJudged(
      call: Call, seen: Option<Record>, reply: Reply, current: Option<Record>, items: seq<Item>,
      disk: View, view: View, born: Births)
    returns (patches: seq<H.Patch>, target: Path, review: Option<Review>)
    requires WellCalled(call, current, items, view, born)
    ensures var (answer, after) := Navigated(call, seen, reply, current, items, disk);
            after != disk ==>
              StoresReviewed(call, seen, reply, current, answer, disk, after, patches, target, review)
  {
    hide Propose, Judged, H.Patched, Lists, WellNamed, Apply, StatusTells, ProvenanceTells;
    patches, target, review := [], call.source, None;
    var stage := Reviewed(call, seen, reply);
    if stage.Some? && current.Some? {
      var q := RequestOf(call, stage.value, current.value);
      var d := Propose(q, items);
      if d.Transaction? && Expected(d.expected, disk) {
        TransactionRecord(q, items);
        SourceCompared(view, disk, born, q, items);
        TargetHolds(q, items, view, born, disk);
        patches, target, review := d.applied, d.target, q.review;
        JudgedTells(H.Patched(q.record, patches, |patches|), review);
      }
    }
  }

  // Without an approving verdict nothing becomes approved: not by a timeout, a refusal, a missing
  // review, a rejection or an error; nor by explicit approval, unless an operator gave it.
  lemma {:induction false} NoApprovalWithoutVerdict(
      call: Call, seen: Option<Record>, reply: Reply, current: Option<Record>, items: seq<Item>,
      disk: View, view: View, born: Births, p: Path)
    requires WellCalled(call, current, items, view, born)
    requires ApprovedIn(Navigated(call, seen, reply, current, items, disk).1, p) && !ApprovedIn(disk, p)
    ensures call.human ==> call.operator && call.agentId.Some? && call.agentId.value != ""
    ensures !call.human ==> call.prompts && seen == current && reply.Given? && reply.review.ruling == Approving
  {
    hide Propose, H.Patched, Lists, WellNamed, Apply;
    var stage := Reviewed(call, seen, reply);
    if stage.Some? && current.Some? {
      var q := RequestOf(call, stage.value, current.value);
      if Propose(q, items).Transaction? {
        TransactionRecord(q, items);
        if !Replaces(Propose(q, items).record) {
          PlainTransaction(q, items, disk);
        }
      }
    }
  }

  lemma {:induction false} NothingElseApproved(
      call: Call, seen: Option<Record>, reply: Reply, current: Option<Record>, items: seq<Item>,
      disk: View, view: View, born: Births)
    requires WellCalled(call, current, items, view, born)
    ensures var after := Navigated(call, seen, reply, current, items, disk).1;
            forall p | ApprovedIn(after, p) && !ApprovedIn(disk, p) ::
              || (call.human && call.operator && call.agentId.Some? && call.agentId.value != "")
              || (!call.human && call.prompts && seen == current && reply.Given? && reply.review.ruling == Approving)
  {
    hide Navigated, WellCalled, ApprovedIn;
    var after := Navigated(call, seen, reply, current, items, disk).1;
    forall p | ApprovedIn(after, p) && !ApprovedIn(disk, p)
      ensures || (call.human && call.operator && call.agentId.Some? && call.agentId.value != "")
              || (!call.human && call.prompts && seen == current && reply.Given? && reply.review.ruling == Approving)
    {
      NoApprovalWithoutVerdict(call, seen, reply, current, items, disk, view, born, p);
    }
  }

  // A caller without the operator's authority, a review that could not be had and a record that is
  // gone change nothing.
  lemma {:induction false} BarredFails(
      call: Call, seen: Option<Record>, reply: Reply, current: Option<Record>, items: seq<Item>, disk: View)
    ensures Barred(call, seen, reply, current) ==>
              Navigated(call, seen, reply, current, items, disk) == (Answer(Failed, None), disk)
    ensures !Barred(call, seen, reply, current) <==> Reviewed(call, seen, reply).Some? && current.Some?
  {
    hide Propose, Apply;
  }

  // A rejection or an error is never reported as a promotion.
  lemma {:induction false} OutcomeTellsVerdict(
      call: Call, seen: Option<Record>, reply: Reply, current: Option<Record>, items: seq<Item>, disk: View)
    ensures var (answer, after) := Navigated(call, seen, reply, current, items, disk);
            TellsVerdict(call, seen, reply, answer, disk, after)
  {
    hide Propose, Judged, H.Patched, Apply, Expected, ProvenanceTells;
    var stage := Reviewed(call, seen, reply);
    if stage.Some? && current.Some? {
      var q := RequestOf(call, stage.value, current.value);
      var d := Propose(q, items);
      if d.Transaction? {
        TransactionRecord(q, items);
        JudgedTells(H.Patched(q.record, d.applied, |d.applied|), q.review);
      } else {
        AlreadyApproved(q, items);
      }
    }
  }

  lemma {:induction false} AlreadyApproved(q: Request, items: seq<Item>)
    ensures Propose(q, items).Already? ==> Propose(q, items).record.fm.status.Approved?
  {
    hide Conclude, PassHooks;
    if PassHooks(q).Ok? {
      ConcludesInTransaction(q, items, PassHooks(q).value);
    }
  }

  lemma {:induction false} ConcludesInTransaction(q: Request, items: seq<Item>, gate: Gate)
    ensures !Conclude(q, items, gate).Already?
  {
  }
}
