// What hooks' answers do, told from the answers themselves.
//
// The actions the asked hooks may take at this point are read in one line, one
// hook after the other.  The first rejection or redirection in it ends the run;
// the first five mutations before it patch the record; and every hook was shown
// the record as patched by those before it.
module HookRuns {
  import opened Base
  import opened Hooks
  import opened Records

  // ----- one line of actions -----------------------------------------------------------------

  // The permitted actions among those from the j-th on.
  function Usable(point: Point, actions: seq<Action>, j: nat): seq<Action>
    requires j <= |actions|
    decreases |actions| - j
  {
    if j == |actions| then []
    else (if Permitted(point, actions[j]) then [actions[j]] else []) + Usable(point, actions, j + 1)
  }

  function Offers(point: Point, answer: Answer): seq<Action> {
    match answer
    case Answered(actions) => Usable(point, actions, 0)
    case _ => []
  }

  predicate Final(a: Action) {
    a.Reject? || a.Redirect?
  }

  // Where the first final action stands, or the length.
  function Stop(line: seq<Action>): (k: nat)
    ensures k <= |line| && (forall i | 0 <= i < k :: !Final(line[i])) && (k < |line| ==> Final(line[k]))
  {
    if line == [] || Final(line[0]) then 0 else Stop(line[1..]) + 1
  }

  function Patches(line: seq<Action>): seq<Patch> {
    if line == [] then []
    else Patches(line[..|line| - 1])
         + match line[|line| - 1] case Mutate(patch) => [patch] case _ => []
  }

  function FirstFive(patches: seq<Patch>): seq<Patch> {
    if |patches| <= 5 then patches else patches[..5]
  }

  // The last selection made, of the records there are to select from.
  function Selected(event: Event, line: seq<Action>): Option<seq<string>> {
    if line == [] then None
    else
      match line[|line| - 1]
      case RecallSelect(ids) =>
        if event.results == [] then Selected(event, line[..|line| - 1]) else Some(Kept(ids, |ids|, Ids(event.results)))
      case _ => Selected(event, line[..|line| - 1])
  }

  function Applied(event: Event, line: seq<Action>): seq<Patch> {
    if event.thought.None? then [] else FirstFive(Patches(line))
  }

  // The event as the mutations of the line leave it.
  function Seen(event: Event, line: seq<Action>): Event {
    var patches := Applied(event, line);
    if event.thought.None? then event
    else event.(thought := Some(Patched(event.thought.value, patches, |patches|)))
  }

  // ----- a run ---------------------------------------------------------------------------------

  // What the first n hooks offer, each asked about the event it was shown.
  function Offered(hooks: seq<Hook>, shown: seq<Event>, point: Point, n: nat): seq<Action>
    requires n <= |shown| <= |hooks|
  {
    if n == 0 then []
    else Offered(hooks, shown, point, n - 1) + Offers(point, hooks[n - 1].respond(shown[n - 1]))
  }

  // A fail-closed hook timed out, raised, or made a sixth mutation before anything final.
  predicate Aborts(hook: Hook, point: Point, answer: Answer, before: seq<Action>) {
    var mine := Offers(point, answer);
    && hook.closed
    && (!answer.Answered?
        || (Patches(mine[..Stop(mine)]) != [] && |Patches(before)| + |Patches(mine[..Stop(mine)])| > 5))
  }

  predicate Halts(point: Point, answer: Answer) {
    Stop(Offers(point, answer)) < |Offers(point, answer)|
  }

  // The i-th hook's answer ends nothing.
  ghost predicate GoesPast(hooks: seq<Hook>, event: Event, shown: seq<Event>, i: nat)
    requires i < |shown| <= |hooks|
  {
    var answer := hooks[i].respond(shown[i]);
    !Aborts(hooks[i], event.point, answer, Offered(hooks, shown, event.point, i)) && !Halts(event.point, answer)
  }

  ghost predicate ShownInTurn(hooks: seq<Hook>, event: Event, shown: seq<Event>)
    requires |shown| <= |hooks|
  {
    forall i | 0 <= i < |shown| :: shown[i] == Seen(event, Offered(hooks, shown, event.point, i))
  }

  // The outcome of a run that asked these hooks.
  ghost predicate Ended(hooks: seq<Hook>, event: Event, shown: seq<Event>, r: Verdict)
    requires |shown| <= |hooks|
  {
    var n, line := |shown|, Offered(hooks, shown, event.point, |shown|);
    var aborted := n > 0 && Aborts(hooks[n - 1], event.point, hooks[n - 1].respond(shown[n - 1]),
                                   Offered(hooks, shown, event.point, n - 1));
    var halted := n > 0 && Halts(event.point, hooks[n - 1].respond(shown[n - 1]));
    && (r.Err? <==> aborted)
    && (aborted || halted || n == |hooks|)
    && (r.Ok? ==> Outcome(event, line, r.value))
  }

  // What comes of a line of actions.
  ghost predicate Outcome(event: Event, line: seq<Action>, p: Pipeline) {
    var k := Stop(line);
    && (forall i | 0 <= i < k :: !line[i].Reject? && !line[i].Redirect?)
    && (k < |line| ==> line[k].Reject? || line[k].Redirect?)
    && (p.rejected <==> k < |line| && line[k].Reject?)
    && p.redirect == (if k < |line| && line[k].Redirect? then Some(line[k].namespace) else None)
    && p.applied == Applied(event, line[..k])
    && p.mutations == |Patches(line[..k])|
    && p.selection == Selected(event, line[..k])
    && p.event == Seen(event, line[..k])
  }

  // A run of the pipeline: who was asked about what, and what came of it.
  ghost predicate Runs(hooks: seq<Hook>, event: Event, shown: seq<Event>, r: Verdict) {
    && |shown| <= |hooks| && ShownInTurn(hooks, event, shown)
    && (forall i | 0 <= i < |shown| - 1 :: GoesPast(hooks, event, shown, i))
    && Ended(hooks, event, shown, r)
  }

  // ----- lines grow at their end --------------------------------------------------------------------

  lemma {:induction false} PatchesMore(line: seq<Action>, a: Action)
    ensures Patches(line + [a]) == Patches(line) + match a case Mutate(patch) => [patch] case _ => []
  {
    assert (line + [a])[..|line|] == line;
  }

  lemma {:induction false} PatchesBoth(a: seq<Action>, b: seq<Action>)
    ensures Patches(a + b) == Patches(a) + Patches(b)
  {
    if b == [] {
      assert a + b == a;
    } else {
      var init, last := b[..|b| - 1], b[|b| - 1];
      assert a + b == (a + init) + [last];
      assert b == init + [last];
      PatchesMore(a + init, last);
      PatchesMore(init, last);
      PatchesBoth(a, init);
    }
  }

  lemma {:induction false} SelectedMore(event: Event, line: seq<Action>, a: Action)
    ensures Selected(event, line + [a])
            == match a
               case RecallSelect(ids) =>
                 if event.results == [] then Selected(event, line) else Some(Kept(ids, |ids|, Ids(event.results)))
               case _ => Selected(event, line)
  {
    assert (line + [a])[..|line|] == line;
  }

  // Nothing final in a means its part of a longer line is passed over.
  lemma {:induction false} StopBoth(a: seq<Action>, b: seq<Action>)
    requires Stop(a) == |a|
    ensures Stop(a + b) == |a| + Stop(b)
  {
    if a == [] {
      assert a + b == b;
    } else {
      assert (a + b)[1..] == a[1..] + b;
      StopBoth(a[1..], b);
    }
  }

  // The state of a pipeline that has got to the end of this line.
  ghost function After(event: Event, line: seq<Action>): Pipeline {
    Pipeline(Seen(event, line), false, None, Selected(event, line), |Patches(line)|, Applied(event, line))
  }

  lemma {:induction false} AfterNothing(event: Event)
    ensures After(event, []) == Start(event)
  {
  }

  lemma {:induction false} AfterPlain(event: Event, line: seq<Action>, a: Action)
    requires !Final(a) && !a.Mutate? && !a.RecallSelect?
    ensures After(event, line + [a]) == After(event, line)
  {
    hide Patches, Selected, Seen, Applied;
    PatchesMore(line, a);
    SelectedMore(event, line, a);
    SamePatches(event, line, line + [a]);
  }

  lemma {:induction false} SamePatches(event: Event, a: seq<Action>, b: seq<Action>)
    requires Patches(a) == Patches(b)
    ensures Applied(event, a) == Applied(event, b) && Seen(event, a) == Seen(event, b)
  {
  }

  lemma {:induction false} AfterSelect(event: Event, line: seq<Action>, a: Action)
    requires a.RecallSelect?
    ensures After(event, line + [a])
            == if event.results == [] then After(event, line)
               else After(event, line).(selection := Some(Kept(a.ids, |a.ids|, Ids(event.results))))
    ensures After(event, line).event.results == event.results
  {
    hide Patches, Selected, Applied;
    PatchesMore(line, a);
    SelectedMore(event, line, a);
    SamePatches(event, line, line + [a]);
  }

  lemma {:induction false} AfterMutate(event: Event, line: seq<Action>, a: Action)
    requires a.Mutate?
    ensures var counted := After(event, line).(mutations := |Patches(line)| + 1);
            After(event, line + [a]) == if |Patches(line)| + 1 > 5 then counted else Mutated(counted, a.patch)
  {
    hide Patches, Selected, Patch.Apply;
    PatchesMore(line, a);
    SelectedMore(event, line, a);
    if event.thought.Some? {
      var patches := Patches(line);
      if |patches| < 5 {
        PatchedMore(event.thought.value, patches, a.patch);
        assert FirstFive(Patches(line + [a])) == patches + [a.patch];
      } else {
        assert FirstFive(Patches(line + [a])) == FirstFive(patches);
      }
    }
  }

  lemma {:induction false} AfterPoint(event: Event, line: seq<Action>)
    ensures After(event, line).event.point == event.point
  {
  }

  // ----- one hook -------------------------------------------------------------------------------------

  // What a hook's answer from its j-th action on does to a pipeline at the end of `line`.
  ghost function Told(hooks: seq<Hook>, i: nat, event: Event, line: seq<Action>, mine: seq<Action>): Verdict
    requires i < |hooks|
  {
    var k := Stop(mine);
    var through := line + mine[..k];
    if hooks[i].closed && Patches(mine[..k]) != [] && |Patches(line)| + |Patches(mine[..k])| > 5 then Err(())
    else if k < |mine| && mine[k].Reject? then Ok(After(event, through).(rejected := true))
    else if k < |mine| && mine[k].Redirect? then Ok(After(event, through).(redirect := Some(mine[k].namespace)))
    else RunFrom(hooks, i + 1, After(event, through))
  }

  lemma {:induction false} ToldNothing(hooks: seq<Hook>, i: nat, event: Event, line: seq<Action>)
    requires i < |hooks|
    ensures Told(hooks, i, event, line, []) == RunFrom(hooks, i + 1, After(event, line))
  {
    hide RunFrom, After;
    assert line + [] == line;
  }

  lemma {:induction false} ToldFinal(
      hooks: seq<Hook>, i: nat, event: Event, line: seq<Action>, a: Action, rest: seq<Action>)
    requires i < |hooks| && Final(a)
    ensures Told(hooks, i, event, line, [a] + rest)
            == if a.Reject? then Ok(After(event, line).(rejected := true))
               else Ok(After(event, line).(redirect := Some(a.namespace)))
  {
    hide RunFrom, After;
    var mine := [a] + rest;
    assert Stop(mine) == 0 && mine[..0] == [] && line + [] == line;
  }

  // A further action joins the line, unless it is the mutation at which a fail-closed hook aborts.
  lemma {:induction false} ToldMore(
      hooks: seq<Hook>, i: nat, event: Event, line: seq<Action>, a: Action, rest: seq<Action>)
    requires i < |hooks| && !Final(a)
    ensures Told(hooks, i, event, line, [a] + rest)
            == if a.Mutate? && hooks[i].closed && |Patches(line)| + 1 > 5 then Err(())
               else Told(hooks, i, event, line + [a], rest)
  {
    hide RunFrom, After, Patches;
    var mine := [a] + rest;
    StopBoth([a], rest);
    var k := Stop(rest);
    assert mine[..k + 1] == [a] + rest[..k];
    assert line + ([a] + rest[..k]) == (line + [a]) + rest[..k];
    OnePatch(a);
    PatchesBoth([a], rest[..k]);
    PatchesBoth(line, [a]);
    assert k < |rest| ==> mine[k + 1] == rest[k];
  }

  lemma {:induction false} OnePatch(a: Action)
    ensures Patches([a]) == match a case Mutate(patch) => [patch] case _ => []
    ensures Stop([a]) == if Final(a) then 0 else 1
  {
    assert [] + [a] == [a];
    PatchesMore([], a);
  }

  lemma {:induction false} HookTold(
      hooks: seq<Hook>, i: nat, actions: seq<Action>, j: nat, event: Event, line: seq<Action>)
    requires i < |hooks| && j <= |actions|
    ensures ActFrom(hooks, i, actions, j, After(event, line))
            == Told(hooks, i, event, line, Usable(event.point, actions, j))
    decreases |actions| - j
  {
    hide After, Told, RunFrom, Mutated, Kept;
    AfterPoint(event, line);
    if j == |actions| {
      ToldNothing(hooks, i, event, line);
    } else if !Permitted(event.point, actions[j]) {
      HookTold(hooks, i, actions, j + 1, event, line);
      assert Usable(event.point, actions, j) == Usable(event.point, actions, j + 1);
    } else {
      var a, rest := actions[j], Usable(event.point, actions, j + 1);
      assert Usable(event.point, actions, j) == [a] + rest;
      if Final(a) {
        ToldFinal(hooks, i, event, line, a, rest);
      } else {
        ToldMore(hooks, i, event, line, a, rest);
        HookTold(hooks, i, actions, j + 1, event, line + [a]);
        ActionTaken(hooks, i, actions, j, event, line);
      }
    }
  }

  // One permitted action that ends nothing.
  lemma {:induction false} ActionTaken(
      hooks: seq<Hook>, i: nat, actions: seq<Action>, j: nat, event: Event, line: seq<Action>)
    requires i < |hooks| && j < |actions| && Permitted(event.point, actions[j]) && !Final(actions[j])
    ensures var a := actions[j];
            ActFrom(hooks, i, actions, j, After(event, line))
            == if a.Mutate? && hooks[i].closed && |Patches(line)| + 1 > 5 then Err(())
               else ActFrom(hooks, i, actions, j + 1, After(event, line + [a]))
  {
    hide Seen, Selected, Applied, Patches, RunFrom, Mutated, Kept, Ids;
    var a := actions[j];
    AfterPoint(event, line);
    if a.Mutate? {
      AfterMutate(event, line, a);
    } else if a.RecallSelect? {
      AfterSelect(event, line, a);
    } else {
      AfterPlain(event, line, a);
    }
  }

  // ----- the whole pipeline --------------------------------------------------------------------------

  ghost predicate AlikeTo(a: seq<Event>, b: seq<Event>, n: nat) {
    n <= |a| && n <= |b| && forall i | 0 <= i < n :: a[i] == b[i]
  }

  lemma {:induction false} OfferedPrefix(hooks: seq<Hook>, a: seq<Event>, b: seq<Event>, point: Point, n: nat)
    requires |a| <= |hooks| && |b| <= |hooks| && AlikeTo(a, b, n)
    ensures Offered(hooks, a, point, n) == Offered(hooks, b, point, n)
  {
    hide Offers;
    if n > 0 {
      OfferedPrefix(hooks, a, b, point, n - 1);
    }
  }

  lemma {:induction false} PastPrefix(hooks: seq<Hook>, event: Event, a: seq<Event>, b: seq<Event>, i: nat)
    requires |a| <= |hooks| && |b| <= |hooks| && AlikeTo(a, b, i + 1)
    ensures GoesPast(hooks, event, a, i) == GoesPast(hooks, event, b, i)
  {
    hide Aborts, Halts, Offered;
    OfferedPrefix(hooks, a, b, event.point, i);
  }

  // The run up to hook i, which it has reached.
  ghost predicate Reached(hooks: seq<Hook>, event: Event, shown: seq<Event>, line: seq<Action>) {
    && |shown| <= |hooks| && ShownInTurn(hooks, event, shown)
    && line == Offered(hooks, shown, event.point, |shown|) && Stop(line) == |line|
    && forall i | 0 <= i < |shown| :: GoesPast(hooks, event, shown, i)
  }

  lemma {:induction false} ShownOne(hooks: seq<Hook>, event: Event, shown: seq<Event>, line: seq<Action>)
    requires Reached(hooks, event, shown, line) && |shown| < |hooks|
    ensures var more := shown + [Seen(event, line)];
            && ShownInTurn(hooks, event, more) && (forall i | 0 <= i < |shown| :: GoesPast(hooks, event, more, i))
            && Offered(hooks, more, event.point, |shown|) == line
            && Offered(hooks, more, event.point, |shown| + 1)
               == line + Offers(event.point, hooks[|shown|].respond(Seen(event, line)))
  {
    hide Seen, GoesPast, Offers, Offered, Stop, AlikeTo;
    var more := shown + [Seen(event, line)];
    forall i | 0 <= i <= |shown|
      ensures Offered(hooks, more, event.point, i) == Offered(hooks, shown, event.point, i)
    {
      AlikeMore(shown, Seen(event, line), i);
      OfferedPrefix(hooks, more, shown, event.point, i);
    }
    forall i | 0 <= i < |shown|
      ensures GoesPast(hooks, event, more, i) == GoesPast(hooks, event, shown, i)
    {
      AlikeMore(shown, Seen(event, line), i + 1);
      PastPrefix(hooks, event, more, shown, i);
    }
    OfferedNext(hooks, more, event.point, |shown|);
  }

  lemma {:induction false} OfferedNext(hooks: seq<Hook>, shown: seq<Event>, point: Point, n: nat)
    requires n < |shown| <= |hooks|
    ensures Offered(hooks, shown, point, n + 1)
            == Offered(hooks, shown, point, n) + Offers(point, hooks[n].respond(shown[n]))
  {
    hide Offers;
  }

  lemma {:induction false} AlikeMore(shown: seq<Event>, next: Event, n: nat)
    requires n <= |shown|
    ensures AlikeTo(shown + [next], shown, n)
  {
  }

  // The next hook is asked, and the run goes on.
  lemma {:induction false} GoesOn(hooks: seq<Hook>, event: Event, shown: seq<Event>, line: seq<Action>)
    requires Reached(hooks, event, shown, line) && |shown| < |hooks|
    requires var answer := hooks[|shown|].respond(Seen(event, line));
             !Aborts(hooks[|shown|], event.point, answer, line) && !Halts(event.point, answer)
    ensures var mine := Offers(event.point, hooks[|shown|].respond(Seen(event, line)));
            Reached(hooks, event, shown + [Seen(event, line)], line + mine) && Stop(mine) == |mine|
  {
    hide Seen, Aborts, Offers, Offered, ShownInTurn, Stop;
    var answer := hooks[|shown|].respond(Seen(event, line));
    ShownOne(hooks, event, shown, line);
    StopBoth(line, Offers(event.point, answer));
    StopWithin(Offers(event.point, answer));
  }

  lemma {:induction false} StopWithin(line: seq<Action>)
    ensures Stop(line) <= |line|
  {
  }

  lemma {:induction false} RunTold(hooks: seq<Hook>, event: Event, i: nat, line: seq<Action>)
    requires i < |hooks|
    ensures var answer := hooks[i].respond(Seen(event, line));
            RunFrom(hooks, i, After(event, line))
            == if answer.Answered? then Told(hooks, i, event, line, Offers(event.point, answer))
               else if hooks[i].closed then Err(()) else RunFrom(hooks, i + 1, After(event, line))
  {
    hide Seen, Selected, Applied, Patches, Told;
    var answer := hooks[i].respond(Seen(event, line));
    if answer.Answered? {
      HookTold(hooks, i, answer.actions, 0, event, line);
    }
  }

  // The pipeline runs as told, whatever the hooks are.
  lemma {:induction false} PipelineRuns(hooks: seq<Hook>, event: Event) returns (shown: seq<Event>)
    ensures Runs(hooks, event, shown, RunFrom(hooks, 0, Start(event)))
  {
    hide Reached, After, Start, RunFrom;
    AfterNothing(event);
    NothingShown(hooks, event);
    shown := RunsOn(hooks, event, [], []);
  }

  lemma {:induction false} NothingShown(hooks: seq<Hook>, event: Event)
    ensures Reached(hooks, event, [], [])
  {
  }

  lemma {:induction false} RunsOn(hooks: seq<Hook>, event: Event, shown: seq<Event>, line: seq<Action>)
    returns (all: seq<Event>)
    requires Reached(hooks, event, shown, line)
    ensures Runs(hooks, event, all, RunFrom(hooks, |shown|, After(event, line)))
    decreases |hooks| - |shown|
  {
    hide Reached, After, RunFrom, Aborts, Halts, Told, Runs, Seen, Offers;
    ReachedShort(hooks, event, shown, line);
    if |shown| == |hooks| {
      all := shown;
      RunsOut(hooks, event, shown, line);
    } else {
      var answer := hooks[|shown|].respond(Seen(event, line));
      RunTold(hooks, event, |shown|, line);
      if Aborts(hooks[|shown|], event.point, answer, line) || Halts(event.point, answer) {
        all := shown + [Seen(event, line)];
        RunsToEnd(hooks, event, shown, line);
      } else {
        GoesOn(hooks, event, shown, line);
        GoesOnTold(hooks, event, |shown|, line);
        all := RunsOn(hooks, event, shown + [Seen(event, line)], line + Offers(event.point, answer));
      }
    }
  }

  lemma {:induction false} ReachedShort(hooks: seq<Hook>, event: Event, shown: seq<Event>, line: seq<Action>)
    requires Reached(hooks, event, shown, line)
    ensures |shown| <= |hooks|
  {
  }

  lemma {:induction false} GoesOnTold(hooks: seq<Hook>, event: Event, i: nat, line: seq<Action>)
    requires i < |hooks|
    requires var answer := hooks[i].respond(Seen(event, line));
             !Aborts(hooks[i], event.point, answer, line) && !Halts(event.point, answer)
    ensures var answer := hooks[i].respond(Seen(event, line));
            RunFrom(hooks, i, After(event, line))
            == RunFrom(hooks, i + 1, After(event, line + Offers(event.point, answer)))
  {
    hide Seen, After, RunFrom, Patches, Usable;
    var answer := hooks[i].respond(Seen(event, line));
    var mine := Offers(event.point, answer);
    RunTold(hooks, event, i, line);
    assert mine[..|mine|] == mine;
    assert !answer.Answered? ==> line + mine == line;
  }

  // No hook is left to ask.
  lemma {:induction false} RunsOut(hooks: seq<Hook>, event: Event, shown: seq<Event>, line: seq<Action>)
    requires Reached(hooks, event, shown, line) && |shown| == |hooks|
    ensures Runs(hooks, event, shown, RunFrom(hooks, |shown|, After(event, line)))
  {
    hide Seen, Selected, Applied, Patches, Aborts, Halts, Offers, Offered, ShownInTurn, Stop;
    assert line[..|line|] == line;
    if shown != [] {
      assert GoesPast(hooks, event, shown, |shown| - 1);
    }
  }

  // The hook asked last ends the run.
  lemma {:induction false} RunsToEnd(hooks: seq<Hook>, event: Event, shown: seq<Event>, line: seq<Action>)
    requires Reached(hooks, event, shown, line) && |shown| < |hooks|
    requires var answer := hooks[|shown|].respond(Seen(event, line));
             Aborts(hooks[|shown|], event.point, answer, line) || Halts(event.point, answer)
    ensures Runs(hooks, event, shown + [Seen(event, line)], RunFrom(hooks, |shown|, After(event, line)))
  {
    hide Seen, Selected, Applied, Patches, RunFrom, Usable, ShownInTurn, GoesPast, Offered, Stop;
    var answer := hooks[|shown|].respond(Seen(event, line));
    var mine := Offers(event.point, answer);
    ShownOne(hooks, event, shown, line);
    RunTold(hooks, event, |shown|, line);
    StopBoth(line, mine);
    assert (line + mine)[..|line| + Stop(mine)] == line + mine[..Stop(mine)];
    assert Stop(mine) < |mine| ==> (line + mine)[|line| + Stop(mine)] == mine[Stop(mine)];
  }

  // ----- and in one way only ---------------------------------------------------------------------------

  lemma {:induction false} ShownAlike(hooks: seq<Hook>, event: Event, a: seq<Event>, b: seq<Event>, n: nat)
    requires n <= |a| <= |hooks| && n <= |b| <= |hooks|
    requires ShownInTurn(hooks, event, a) && ShownInTurn(hooks, event, b)
    ensures AlikeTo(a, b, n)
  {
    hide Seen, Offered;
    if n > 0 {
      ShownAlike(hooks, event, a, b, n - 1);
      OfferedPrefix(hooks, a, b, event.point, n - 1);
    }
  }

  // Hooks and event decide who is asked about what, and what comes of it.
  lemma {:induction false} RunsAlike(
      hooks: seq<Hook>, event: Event, a: seq<Event>, r: Verdict, b: seq<Event>, s: Verdict)
    requires Runs(hooks, event, a, r) && Runs(hooks, event, b, s)
    ensures a == b && r == s
  {
    hide Seen, Aborts, Halts, Outcome, Offered, GoesPast, ShownInTurn;
    NoLonger(hooks, event, a, r, b, s);
    NoLonger(hooks, event, b, s, a, r);
    ShownAlike(hooks, event, a, b, |a|);
    assert a == b;
    if r.Ok? {
      OutcomeAlike(event, Offered(hooks, a, event.point, |a|), r.value, s.value);
    } else {
      assert r.error == s.error;
    }
  }

  lemma {:induction false} OutcomeAlike(event: Event, line: seq<Action>, p: Pipeline, p': Pipeline)
    requires Outcome(event, line, p) && Outcome(event, line, p')
    ensures p == p'
  {
    hide Seen, Applied, Selected, Patches, Stop;
  }

  lemma {:induction false} NoLonger(
      hooks: seq<Hook>, event: Event, a: seq<Event>, r: Verdict, b: seq<Event>, s: Verdict)
    requires Runs(hooks, event, a, r) && Runs(hooks, event, b, s)
    ensures |a| >= |b|
  {
    hide Aborts, Halts, Outcome, Offered, ShownInTurn, Runs;
    RunsFacts(hooks, event, a, r);
    RunsFacts(hooks, event, b, s);
    if |a| < |b| {
      ShownAlike(hooks, event, a, b, |a|);
      if |a| > 0 {
        PastPrefix(hooks, event, a, b, |a| - 1);
      }
    }
  }

  // A run stops short of its last hook only where that hook's answer ends it.
  lemma {:induction false} RunsFacts(hooks: seq<Hook>, event: Event, shown: seq<Event>, r: Verdict)
    requires Runs(hooks, event, shown, r)
    ensures |shown| <= |hooks| && ShownInTurn(hooks, event, shown)
    ensures forall i | 0 <= i < |shown| - 1 :: GoesPast(hooks, event, shown, i)
    ensures |shown| < |hooks| ==> shown != [] && !GoesPast(hooks, event, shown, |shown| - 1)
  {
    hide Aborts, Halts, Outcome, Offered, ShownInTurn;
  }

  // ----- what is permitted, and what the actions do ---------------------------------------------------

  lemma {:induction false} PermittedExactly(point: Point, a: Action)
    ensures a.Reject? || a.Redirect? || a.Mutate? ==>
              (Permitted(point, a) <==> point == BeforeSave || point == BeforePropose)
    ensures a.RecallSelect? ==> (Permitted(point, a) <==> point == OnRecall || point == OnRecallMix)
    ensures a.Proceed? || a.Warn? || a.Advise? || a.Annotate? ==> Permitted(point, a)
  {
  }

  // A patch sets what it holds and leaves the rest; extra metadata is merged key by key.
  lemma {:induction false} PatchSets(patch: Patch, r: Record, key: string)
    ensures var s := patch.Apply(r);
            && s.content == (if patch.content.Some? then patch.content.value else r.content)
            && s.fm.confidence == (if patch.confidence.Some? then patch.confidence.value else r.fm.confidence)
            && s.fm.metadata.tags == (if patch.tags.Some? then patch.tags.value else r.fm.metadata.tags)
            && Get(s.fm.metadata.extra, key)
               == (if patch.extra.Some? && key in patch.extra.value then Some(patch.extra.value[key])
                   else Get(r.fm.metadata.extra, key))
            && SameIdentity(r, s)
  {
  }

  // A kept selection follows the order given: of two kept identifiers the one kept first was
  // given before the other ever was.
  lemma {:induction false} KeptInOrder(ids: seq<string>, n: nat, valid: set<string>, a: nat, b: nat)
    requires n <= |ids| && a < b < |Kept(ids, n, valid)|
    ensures var kept := Kept(ids, n, valid);
            exists i :: 0 <= i < n && ids[i] == kept[a] && forall m | 0 <= m <= i :: ids[m] != kept[b]
  {
    var kept, prior := Kept(ids, n, valid), Kept(ids, n - 1, valid);
    if b < |prior| {
      KeptInOrder(ids, n - 1, valid, a, b);
      var i :| 0 <= i < n - 1 && ids[i] == prior[a] && forall m | 0 <= m <= i :: ids[m] != prior[b];
      assert ids[i] == kept[a];
    } else {
      KeptSound(ids, n - 1, valid);
      assert prior[a] in prior && ids[n - 1] !in prior;
      assert prior[a] in ids[..n - 1];
      var i :| 0 <= i < n - 1 && ids[i] == prior[a];
      forall m | 0 <= m <= i
        ensures ids[m] != kept[b]
      {
        assert ids[m] in ids[..n - 1];
      }
    }
  }
}
