// The gating hook pipeline: hooks are arbitrary functions of the event, and the
// pipeline decides what their answers may do to it.
module Hooks {
  import opened Base
  import opened Records

  const MAX_MUTATIONS_PER_PIPELINE: nat := 5

  datatype Patch = Patch(
    content: Option<string>, extra: Option<map<string, Json>>, tags: Option<seq<string>>, confidence: Option<real>)
  {
    function Apply(r: Record): Record {
      var meta := r.fm.metadata;
      var meta' := meta.(
        extra := if extra.Some? then meta.extra + extra.value else meta.extra,
        tags := if tags.Some? then tags.value else meta.tags);
      Record(
        r.fm.(metadata := meta', confidence := if confidence.Some? then confidence.value else r.fm.confidence),
        if content.Some? then content.value else r.content)
    }
  }

  datatype Action =
    | Proceed
    | Reject(reason: string)
    | Redirect(namespace: string)
    | Mutate(patch: Patch)
    | RecallSelect(ids: seq<string>)
    | Warn(message: string) | Advise(message: string) | Annotate(values: map<string, Json>)

  datatype Point = BeforeSave | BeforePropose | OnRecall | OnRecallMix

  datatype Event = Event(point: Point, thought: Option<Record>, results: seq<Record>)

  datatype Answer = TimedOut | Threw | Answered(actions: seq<Action>)

  datatype Hook = Hook(closed: bool, respond: Event -> Answer)

  // `applied` lists the patches that took effect, oldest first.
  datatype Pipeline = Pipeline(
    event: Event, rejected: bool, redirect: Option<string>, selection: Option<seq<string>>,
    mutations: nat, applied: seq<Patch>)

  // A fail-closed hook that times out, raises or mutates too often aborts.
  type Verdict = Result<Pipeline, ()>

  predicate Permitted(point: Point, action: Action) {
    match action
    case Proceed | Warn(_) | Advise(_) | Annotate(_) => true
    case Reject(_) | Redirect(_) | Mutate(_) => point.BeforeSave? || point.BeforePropose?
    case RecallSelect(_) => point.OnRecall? || point.OnRecallMix?
  }

  function Start(event: Event): Pipeline {
    Pipeline(event, false, None, None, 0, [])
  }

  function Ids(results: seq<Record>): set<string> {
    set i | 0 <= i < |results| :: results[i].fm.id
  }

  // The first n selected identifiers, keeping the first occurrence of each that
  // names a result.
  function Kept(ids: seq<string>, n: nat, valid: set<string>): seq<string>
    requires n <= |ids|
  {
    if n == 0 then []
    else
      var kept := Kept(ids, n - 1, valid);
      if ids[n - 1] in valid && ids[n - 1] !in kept then kept + [ids[n - 1]] else kept
  }

  function Mutated(p: Pipeline, patch: Patch): Pipeline {
    if p.event.thought.None? then p else
    p.(event := p.event.(thought := Some(patch.Apply(p.event.thought.value))), applied := p.applied + [patch])
  }

  // The pipeline from action j of hook i on.
  function ActFrom(hooks: seq<Hook>, i: nat, actions: seq<Action>, j: nat, p: Pipeline): Verdict
    requires i < |hooks| && j <= |actions|
    decreases |hooks| - i, 1, |actions| - j
  {
    if j == |actions| then RunFrom(hooks, i + 1, p) else
    var action := actions[j];
    if !Permitted(p.event.point, action) then ActFrom(hooks, i, actions, j + 1, p) else
    match action
    case Reject(_) => Ok(p.(rejected := true))
    case Redirect(ns) => Ok(p.(redirect := Some(ns)))
    case Mutate(patch) =>
      var p' := p.(mutations := p.mutations + 1);
      if p'.mutations > MAX_MUTATIONS_PER_PIPELINE then
        if hooks[i].closed then Err(()) else ActFrom(hooks, i, actions, j + 1, p')
      else
        ActFrom(hooks, i, actions, j + 1, Mutated(p', patch))
    case RecallSelect(ids) =>
      var p' := if p.event.results == [] then p else p.(selection := Some(Kept(ids, |ids|, Ids(p.event.results))));
      ActFrom(hooks, i, actions, j + 1, p')
    case _ => ActFrom(hooks, i, actions, j + 1, p)
  }

  // The pipeline from hook i on.
  function RunFrom(hooks: seq<Hook>, i: nat, p: Pipeline): Verdict
    requires i <= |hooks|
    decreases |hooks| - i, 2, 0
  {
    if i == |hooks| then Ok(p) else
    match hooks[i].respond(p.event)
    case Answered(actions) => ActFrom(hooks, i, actions, 0, p)
    case _ => if hooks[i].closed then Err(()) else RunFrom(hooks, i + 1, p)
  }

  // The two nested loops of `run_pipeline`.
  method RunPipeline(hooks: seq<Hook>, event: Event) returns (r: Verdict)
    ensures r == RunFrom(hooks, 0, Start(event))
  {
    var p := Start(event);
    for i := 0 to |hooks|
      invariant RunFrom(hooks, 0, Start(event)) == RunFrom(hooks, i, p)
    {
      var answer := hooks[i].respond(p.event);
      if !answer.Answered? {
        if hooks[i].closed {
          return Err(());
        }
        continue;
      }
      var actions := answer.actions;
      for j := 0 to |actions|
        invariant RunFrom(hooks, 0, Start(event)) == ActFrom(hooks, i, actions, j, p)
      {
        if !Permitted(p.event.point, actions[j]) {
          continue;
        }
        match actions[j] {
          case Reject(_) =>
            return Ok(p.(rejected := true));
          case Redirect(ns) =>
            return Ok(p.(redirect := Some(ns)));
          case Mutate(patch) =>
            p := p.(mutations := p.mutations + 1);
            if p.mutations > MAX_MUTATIONS_PER_PIPELINE {
              if hooks[i].closed {
                return Err(());
              }
            } else {
              p := Mutated(p, patch);
            }
          case RecallSelect(ids) =>
            if p.event.results != [] {
              var filtered := Select(ids, p.event.results);
              p := p.(selection := Some(filtered));
            }
          case _ =>
        }
      }
    }
    r := Ok(p);
  }

  // Keeps the valid identifiers, each once, in the order given.
  method Select(ids: seq<string>, results: seq<Record>) returns (filtered: seq<string>)
    ensures filtered == Kept(ids, |ids|, Ids(results))
  {
    var valid := Ids(results);
    filtered := [];
    var seen := {};
    for k := 0 to |ids|
      invariant filtered == Kept(ids, k, valid)
      invariant forall id :: id in seen <==> id in filtered
    {
      if ids[k] in valid && ids[k] !in seen {
        filtered := filtered + [ids[k]];
        seen := seen + {ids[k]};
      }
    }
  }

  // ----- what no hook can get past ------------------------------------------------------

  lemma {:induction false} KeptSound(ids: seq<string>, n: nat, valid: set<string>)
    requires n <= |ids|
    ensures NoDuplicates(Kept(ids, n, valid))
    ensures forall id :: id in Kept(ids, n, valid) <==> id in valid && id in ids[..n]
  {
    if n > 0 {
      KeptSound(ids, n - 1, valid);
      assert ids[..n] == ids[..n - 1] + [ids[n - 1]];
    }
  }

  // The first n patches applied in order.
  function Patched(r: Record, patches: seq<Patch>, n: nat): Record
    requires n <= |patches|
  {
    if n == 0 then r else patches[n - 1].Apply(Patched(r, patches, n - 1))
  }

  lemma {:induction false} PatchedPrefix(r: Record, patches: seq<Patch>, more: seq<Patch>, n: nat)
    requires n <= |patches| && patches <= more
    ensures Patched(r, patches, n) == Patched(r, more, n)
  {
    if n > 0 {
      PatchedPrefix(r, patches, more, n - 1);
    }
  }

  // Everything but content, confidence, tags and extra metadata.
  ghost predicate SameIdentity(a: Record, b: Record) {
    a.fm.(confidence := b.fm.confidence,
          metadata := a.fm.metadata.(tags := b.fm.metadata.tags, extra := b.fm.metadata.extra)) == b.fm
  }

  lemma {:induction false} PatchedKeepsIdentity(r: Record, patches: seq<Patch>, n: nat)
    requires n <= |patches|
    ensures SameIdentity(r, Patched(r, patches, n))
  {
    if n > 0 {
      PatchedKeepsIdentity(r, patches, n - 1);
    }
  }

  // From the event `start` the pipeline has come this far: at most five patches
  // explain the thought, and any selection is a duplicate-free subset.
  ghost predicate Sound(start: Event, p: Pipeline) {
    && p.event == start.(thought := p.event.thought)
    && |p.applied| <= MAX_MUTATIONS_PER_PIPELINE && |p.applied| <= p.mutations
    && (start.thought.None? ==> p.event.thought.None?)
    && (start.thought.Some? ==> p.event.thought == Some(Patched(start.thought.value, p.applied, |p.applied|)))
    && (p.selection.Some? ==>
          && NoDuplicates(p.selection.value)
          && (forall id | id in p.selection.value :: id in Ids(start.results)))
    && (start.point.OnRecall? || start.point.OnRecallMix? ==> !p.rejected && p.redirect.None? && p.applied == [])
  }

  lemma {:induction false} PatchedMore(r: Record, patches: seq<Patch>, patch: Patch)
    ensures Patched(r, patches + [patch], |patches| + 1) == patch.Apply(Patched(r, patches, |patches|))
  {
    PatchedPrefix(r, patches, patches + [patch], |patches|);
  }

  lemma {:induction false} MutatedSound(start: Event, p: Pipeline, patch: Patch)
    requires Sound(start, p) && p.mutations < MAX_MUTATIONS_PER_PIPELINE
    requires start.point.BeforeSave? || start.point.BeforePropose?
    ensures Sound(start, Mutated(p.(mutations := p.mutations + 1), patch))
  {
    hide Patched, Patch.Apply, NoDuplicates, Ids;
    if start.thought.Some? {
      PatchedMore(start.thought.value, p.applied, patch);
    }
  }

  // What an action that is not a mutation can change.
  lemma {:induction false} ActionSound(start: Event, p: Pipeline, ns: string)
    requires Sound(start, p)
    ensures p.event.point == start.point && p.event.results == start.results
    ensures Sound(start, p.(mutations := p.mutations + 1))
    ensures start.point.BeforeSave? || start.point.BeforePropose? ==>
              Sound(start, p.(rejected := true)) && Sound(start, p.(redirect := Some(ns)))
  {
    hide Patched, NoDuplicates, Ids;
  }

  lemma {:induction false} SelectedSound(start: Event, p: Pipeline, ids: seq<string>)
    requires Sound(start, p)
    ensures Sound(start, p.(selection := Some(Kept(ids, |ids|, Ids(p.event.results)))))
  {
    hide Patched, NoDuplicates, Ids, Kept;
    KeptSound(ids, |ids|, Ids(p.event.results));
  }

  lemma {:induction false} ActFromSound(
      start: Event, hooks: seq<Hook>, i: nat, actions: seq<Action>, j: nat, p: Pipeline)
    requires i < |hooks| && j <= |actions| && Sound(start, p)
    ensures var r := ActFrom(hooks, i, actions, j, p); r.Ok? ==> Sound(start, r.value)
    decreases |hooks| - i, 1, |actions| - j
  {
    hide Sound, Mutated, Kept, Ids, RunFrom;
    if j == |actions| {
      RunFromSound(start, hooks, i + 1, p);
    } else if !Permitted(p.event.point, actions[j]) {
      ActFromSound(start, hooks, i, actions, j + 1, p);
    } else {
      ActionSound(start, p, if actions[j].Redirect? then actions[j].namespace else "");
      match actions[j] {
        case Reject(_) =>
        case Redirect(_) =>
        case Mutate(patch) =>
          var p' := p.(mutations := p.mutations + 1);
          if p'.mutations <= MAX_MUTATIONS_PER_PIPELINE {
            MutatedSound(start, p, patch);
            ActFromSound(start, hooks, i, actions, j + 1, Mutated(p', patch));
          } else if !hooks[i].closed {
            ActFromSound(start, hooks, i, actions, j + 1, p');
          }
        case RecallSelect(ids) =>
          SelectedSound(start, p, ids);
          var p' := if p.event.results == [] then p else p.(selection := Some(Kept(ids, |ids|, Ids(p.event.results))));
          ActFromSound(start, hooks, i, actions, j + 1, p');
        case _ =>
          ActFromSound(start, hooks, i, actions, j + 1, p);
      }
    }
  }

  // Whatever the hooks answer, a pipeline that finishes is sound.
  lemma {:induction false} RunFromSound(start: Event, hooks: seq<Hook>, i: nat, p: Pipeline)
    requires i <= |hooks| && Sound(start, p)
    ensures var r := RunFrom(hooks, i, p); r.Ok? ==> Sound(start, r.value)
    decreases |hooks| - i, 2, 0
  {
    if i < |hooks| {
      match hooks[i].respond(p.event) {
        case Answered(actions) => ActFromSound(start, hooks, i, actions, 0, p);
        case _ => RunFromSound(start, hooks, i + 1, p);
      }
    }
  }
}
