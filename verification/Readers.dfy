// Who sees what: the three kinds of readers, and what a search finds for them.
module Readers {
  import opened Base
  import opened HookRuns
  import opened Hooks
  import opened Recall
  import opened Records

  // The checks a view has to pass: an author is known, history is for operators, only history shows
  // what was superseded or of any status, and an author asks for drafts and proposals.
  function Vetted(v: Visibility): Option<Visibility> {
    if v.mode.Authoring? && !Truthy(v.agentId) then None
    else if v.mode.History? && !v.operator then None
    else if v.includeSuperseded && !v.mode.History? then None
    else if v.statuses != {} && v.mode.Governed? then None
    else if v.mode.Authoring? && !(v.statuses <= {Draft, Proposed}) then None
    else Some(v)
  }

  // The backlink leads to an approved record of the snapshot.
  ghost predicate Hidden(r: Record, items: seq<Item>) {
    exists k | 0 <= k < |items| :: items[k].record.fm.status == Approved && LinksTo(items, r, k)
  }

  lemma {:induction false} HiddenExactly(items: seq<Item>, r: Record)
    requires BareIds(items) && r.fm.supersededBy.Some? && Bare(r.fm.supersededBy.value)
    ensures EffectivelySuperseded(r, Index(items)) <==> Hidden(r, items)
  {
    hide Index, LinksTo;
    var id := r.fm.supersededBy.value;
    if Truthy(r.fm.supersededScope) {
      ScopedLink(items, r);
    } else {
      BareLink(items, r);
    }
  }

  lemma {:induction false} ScopedLink(items: seq<Item>, r: Record)
    requires BareIds(items) && r.fm.supersededBy.Some? && Bare(r.fm.supersededBy.value)
    requires Truthy(r.fm.supersededScope)
    ensures EffectivelySuperseded(r, Index(items)) <==> Hidden(r, items)
  {
    hide Index;
    var scope, id := r.fm.supersededScope.value, r.fm.supersededBy.value;
    IndexAnswers(items, scope, id);
    forall k | 0 <= k < |items| && LinksTo(items, r, k)
      ensures LastNamed(items, |items|, scope, id) == Some(items[k].record)
    {
      LastNamedIs(items, |items|, k);
    }
    if LastNamed(items, |items|, scope, id).Some? {
      var k := LastAt(items, |items|, scope, id);
      assert LinksTo(items, r, k);
    }
  }

  lemma {:induction false} LastAt(items: seq<Item>, n: nat, scope: string, id: string) returns (k: nat)
    requires n <= |items| && LastNamed(items, n, scope, id).Some?
    ensures k < n && Named(items[k], scope, id) && items[k].record == LastNamed(items, n, scope, id).value
    ensures forall j | k < j < n :: !Named(items[j], scope, id)
  {
    if Named(items[n - 1], scope, id) {
      k := n - 1;
    } else {
      k := LastAt(items, n - 1, scope, id);
    }
  }

  lemma {:induction false} BareLink(items: seq<Item>, r: Record)
    requires BareIds(items) && r.fm.supersededBy.Some? && Bare(r.fm.supersededBy.value)
    requires !Truthy(r.fm.supersededScope)
    ensures EffectivelySuperseded(r, Index(items)) <==> Hidden(r, items)
  {
    hide Index;
    var id := r.fm.supersededBy.value;
    IndexAnswers(items, "", id);
    CountOne(items, |items|, id);
    if id in Index(items) {
      var k :| 0 <= k < |items| && items[k].record.fm.id == id && Index(items)[id] == items[k].record;
      assert LinksTo(items, r, k);
    }
    forall k | 0 <= k < |items| && LinksTo(items, r, k)
      ensures id in Index(items) && Index(items)[id] == items[k].record
    {
      assert items[k].record.fm.id == id;
    }
  }

  // A default reader sees approved truth; an author his own drafts and proposals; and an operator
  // what he asks for.
  lemma {:induction false} SeesExactly(v: Visibility, r: Record, items: seq<Item>)
    requires Vetted(v) == Some(v)
    ensures v.mode.Governed? ==>
              (v.Allows(r, Index(items)) <==>
                 r.fm.status == Approved && !EffectivelySuperseded(r, Index(items)))
    ensures v.mode.Authoring? ==>
              (v.Allows(r, Index(items)) <==>
                 && v.agentId.Some? && v.agentId.value != "" && r.fm.agentId == v.agentId.value
                 && (r.fm.status == Draft || r.fm.status == Proposed)
                 && (v.statuses != {} ==> r.fm.status in v.statuses)
                 && !EffectivelySuperseded(r, Index(items)))
    ensures v.mode.History? ==>
              && v.operator
              && (v.Allows(r, Index(items)) <==>
                    && (v.statuses != {} ==> r.fm.status in v.statuses)
                    && (v.includeSuperseded || !EffectivelySuperseded(r, Index(items))))
  {
    hide Index, EffectivelySuperseded;
  }

  // ----- what a search finds ---------------------------------------------------------------------

  // The record lies in the scope, in the namespace asked for or below it, may be seen, and matches.
  ghost predicate AskedFor(item: Item, trail: string, q: Query, items: seq<Item>) {
    && item.path.scope == trail
    && (q.namespace.None? || q.namespace.value == "" || item.path.namespace == q.namespace.value
        || q.namespace.value + "/" <= item.path.namespace)
    && q.visibility.Allows(item.record, Index(items)) && q.matches(item)
  }

  lemma {:induction false} MatchesExactly(items: seq<Item>, trail: string, q: Query, n: nat, r: Record)
    requires n <= |items|
    ensures r in Matches(items, trail, q, n) <==>
              exists k | 0 <= k < n :: items[k].record == r && AskedFor(items[k], trail, q, items)
  {
    hide Visibility.Allows, Index;
    if n > 0 {
      MatchesExactly(items, trail, q, n - 1, r);
      assert Wanted(items[n - 1], trail, q, Index(items)) <==> AskedFor(items[n - 1], trail, q, items);
    }
  }

  // A search of one scope finds only what was asked for, and all of it unless it reaches the limit.
  lemma {:induction false} SearchExactly(items: seq<Item>, trail: string, q: Query)
    requires q.limit >= 1
    ensures var found := Searched(items, trail, q);
            && |found| <= q.limit
            && (forall r | r in found ::
                  exists k | 0 <= k < |items| :: items[k].record == r && AskedFor(items[k], trail, q, items))
            && (|found| < q.limit ==>
                  forall k | 0 <= k < |items| && AskedFor(items[k], trail, q, items) :: items[k].record in found)
  {
    hide Matches, AskedFor;
    var all, found := Matches(items, trail, q, |items|), Searched(items, trail, q);
    forall r
      ensures r in all <==> exists k | 0 <= k < |items| :: items[k].record == r && AskedFor(items[k], trail, q, items)
    {
      MatchesExactly(items, trail, q, |items|, r);
    }
    assert forall r | r in found :: r in all;
  }

  ghost predicate Unhooked(trails: seq<Trail>) {
    forall t | 0 <= t < |trails| :: trails[t].hooks == []
  }

  lemma {:induction false} AddedKeeps(hits: seq<Hit>, found: seq<Record>, trail: string, n: nat)
    requires n <= |found|
    ensures hits <= Added(hits, found, trail, n)
    ensures forall k | 0 <= k < n :: exists h | h in Added(hits, found, trail, n) :: h.0.fm.id == found[k].fm.id
  {
    if n > 0 {
      AddedKeeps(hits, found, trail, n - 1);
      var added, more := Added(hits, found, trail, n - 1), Added(hits, found, trail, n);
      assert added <= more;
      assert forall h | h in added :: h in more;
      assert (exists h | h in added :: h.0.fm.id == found[n - 1].fm.id) || (found[n - 1], trail) in more;
    }
  }

  lemma {:induction false} AddedFrom(hits: seq<Hit>, found: seq<Record>, trail: string, n: nat)
    requires n <= |found|
    ensures forall h | h in Added(hits, found, trail, n) :: h in hits || (h.0 in found && h.1 == trail)
  {
    if n > 0 {
      AddedFrom(hits, found, trail, n - 1);
    }
  }

  // Where no hook has a say, a scope's answer.
  ghost function Found(items: seq<Item>, trail: string, q: Query): seq<Record> {
    Upto(Searched(items, trail, q), q.limit)
  }

  ghost predicate Hits(hits: seq<Hit>, r: Record) {
    exists h | h in hits :: h.0.fm.id == r.fm.id
  }

  // Without hooks, the merged hits hold each scope's answer by identifier, and nothing else.
  lemma {:induction false} MergedExactly(items: seq<Item>, trails: seq<Trail>, q: Query, n: nat)
    requires n <= |trails| && Unhooked(trails)
    ensures Merged(items, trails, q, n).Ok?
    ensures forall t, r | 0 <= t < n && r in Found(items, trails[t].name, q) ::
              Hits(Merged(items, trails, q, n).value, r)
    ensures forall h | h in Merged(items, trails, q, n).value ::
              exists t | 0 <= t < n :: h.1 == trails[t].name && h.0 in Found(items, trails[t].name, q)
  {
    hide Searched, Upto, Added;
    if n > 0 {
      MergedExactly(items, trails, q, n - 1);
      var found := Found(items, trails[n - 1].name, q);
      assert TrailAnswer(items, trails[n - 1], q) == Ok(found);
      AddedKeeps(Merged(items, trails, q, n - 1).value, found, trails[n - 1].name, |found|);
      AddedFrom(Merged(items, trails, q, n - 1).value, found, trails[n - 1].name, |found|);
      var before, hits := Merged(items, trails, q, n - 1).value, Merged(items, trails, q, n).value;
      assert forall h | h in before :: h in hits;
      forall t, r | 0 <= t < n && r in Found(items, trails[t].name, q)
        ensures Hits(hits, r)
      {
        if t < n - 1 {
          assert Hits(before, r);
        }
      }
    }
  }

  // Several scopes without hooks: only what was asked for, with the scope it lies in, and all of it,
  // by identifier, unless the answer or the search of its scope reaches the limit.
  lemma {:induction false} RecallExactly(items: seq<Item>, trails: seq<Trail>, q: Query)
    requires Unhooked(trails) && q.limit >= 1
    ensures MultiAnswer(items, trails, q).Ok?
    ensures var hits := MultiAnswer(items, trails, q).value;
            && |hits| <= q.limit
            && (forall h | h in hits ::
                  exists k | 0 <= k < |items| :: items[k].record == h.0 && AskedFor(items[k], h.1, q, items))
            && (|hits| < q.limit ==>
                  forall t, k | && 0 <= t < |trails| && |Searched(items, trails[t].name, q)| < q.limit
                                && 0 <= k < |items| && AskedFor(items[k], trails[t].name, q, items) ::
                    Hits(hits, items[k].record))
  {
    hide Merged, Searched, AskedFor, Hits;
    MergedExactly(items, trails, q, |trails|);
    var merged, hits := Merged(items, trails, q, |trails|).value, MultiAnswer(items, trails, q).value;
    assert hits == Upto(merged, q.limit);
    assert forall h | h in hits :: h in merged;
    forall t | 0 <= t < |trails|
      ensures Found(items, trails[t].name, q) == Searched(items, trails[t].name, q)
      ensures forall r | r in Searched(items, trails[t].name, q) ::
                exists k | 0 <= k < |items| :: items[k].record == r && AskedFor(items[k], trails[t].name, q, items)
    {
      SearchExactly(items, trails[t].name, q);
    }
    forall t, k | && 0 <= t < |trails| && |Searched(items, trails[t].name, q)| < q.limit
                  && 0 <= k < |items| && AskedFor(items[k], trails[t].name, q, items)
      ensures |hits| < q.limit ==> Hits(hits, items[k].record)
    {
      SearchExactly(items, trails[t].name, q);
    }
  }

  // ----- what hooks may do with it ------------------------------------------------------------------

  // A selection made by the pipeline arranges what was found; a pipeline that fails fails the search.
  lemma {:induction false} CuratedExactly<T>(found: seq<T>, id: T -> string, hooks: seq<Hook>, event: Event)
    returns (shown: seq<Event>, r: Verdict)
    ensures Runs(hooks, event, shown, r)
    ensures Curated(found, id, hooks, event)
            == if r.Err? then Err(())
               else if r.value.selection.Some? then
                 Ok(Arrange(found, id, r.value.selection.value, |r.value.selection.value|))
               else Ok(found)
  {
    hide RunFrom, Runs, Arrange;
    shown := PipelineRuns(hooks, event);
    r := RunFrom(hooks, 0, Start(event));
    if hooks == [] {
      Unrun(event);
    }
  }

  lemma {:induction false} Unrun(event: Event)
    ensures RunFrom([], 0, Start(event)) == Ok(Start(event))
  {
  }

  // The mixing hooks of the first scope have a say exactly where two scopes have different names.
  lemma {:induction false} MixesExactly(trails: seq<Trail>)
    ensures Mixes(trails) <==> exists t, u | 0 <= t < |trails| && 0 <= u < |trails| :: trails[t].name != trails[u].name
  {
    var names := Names(trails);
    if t, u :| 0 <= t < |trails| && 0 <= u < |trails| && trails[t].name != trails[u].name {
      assert {trails[t].name, trails[u].name} <= names;
      assert names == {trails[t].name, trails[u].name} + (names - {trails[t].name, trails[u].name});
    }
    if Mixes(trails) {
      var a :| a in names;
      assert |names - {a}| > 0;
      var b :| b in names - {a};
    }
  }
}
