// Filtered reads: one scope, and several scopes over one shared snapshot.
module Recall {
  import opened Base
  import opened Records
  import opened Hooks

  // ----- selection by hooks ------------------------------------------------------------

  // The items among the first n that carry an identifier, in order.
  function With<T>(items: seq<T>, id: T -> string, uid: string, n: nat): seq<T>
    requires n <= |items|
  {
    if n == 0 then []
    else if id(items[n - 1]) == uid then With(items, id, uid, n - 1) + [items[n - 1]]
    else With(items, id, uid, n - 1)
  }

  // `sorted([x for x in items if id(x) in order], key=order of id(x))`: all items
  // with the first selected identifier, then all with the second, and so on.
  function Arrange<T>(items: seq<T>, id: T -> string, selection: seq<string>, n: nat): seq<T>
    requires n <= |selection|
  {
    if n == 0 then [] else Arrange(items, id, selection, n - 1) + With(items, id, selection[n - 1], |items|)
  }

  function Chosen<T>(items: seq<T>, id: T -> string, uids: set<string>, n: nat): seq<T>
    requires n <= |items|
  {
    if n == 0 then []
    else if id(items[n - 1]) in uids then Chosen(items, id, uids, n - 1) + [items[n - 1]]
    else Chosen(items, id, uids, n - 1)
  }

  lemma {:induction false} WithIds<T>(items: seq<T>, id: T -> string, uid: string, n: nat)
    requires n <= |items|
    ensures forall k | 0 <= k < |With(items, id, uid, n)| :: id(With(items, id, uid, n)[k]) == uid
  {
    if n > 0 {
      WithIds(items, id, uid, n - 1);
    }
  }

  lemma {:induction false} ChooseOneMore<T>(items: seq<T>, id: T -> string, uids: set<string>, uid: string, n: nat)
    requires n <= |items| && uid !in uids
    ensures multiset(Chosen(items, id, uids + {uid}, n))
            == multiset(Chosen(items, id, uids, n)) + multiset(With(items, id, uid, n))
  {
    if n > 0 {
      ChooseOneMore(items, id, uids, uid, n - 1);
    }
  }

  function Firsts(s: seq<string>, n: nat): set<string>
    requires n <= |s|
  {
    set i | 0 <= i < n :: s[i]
  }

  // Arranging drops exactly the unselected items and loses or repeats no other.
  lemma {:induction false} ArrangePermutes<T>(items: seq<T>, id: T -> string, selection: seq<string>, n: nat)
    requires n <= |selection| && NoDuplicates(selection)
    ensures multiset(Arrange(items, id, selection, n)) == multiset(Chosen(items, id, Firsts(selection, n), |items|))
  {
    if n == 0 {
      NothingChosen(items, id, |items|);
      assert Firsts(selection, 0) == {};
    } else {
      ArrangePermutes(items, id, selection, n - 1);
      assert selection[n - 1] !in Firsts(selection, n - 1);
      assert Firsts(selection, n) == Firsts(selection, n - 1) + {selection[n - 1]};
      ChooseOneMore(items, id, Firsts(selection, n - 1), selection[n - 1], |items|);
    }
  }

  lemma {:induction false} NothingChosen<T>(items: seq<T>, id: T -> string, n: nat)
    requires n <= |items|
    ensures Chosen(items, id, {}, n) == []
  {
    if n > 0 {
      NothingChosen(items, id, n - 1);
    }
  }

  lemma {:induction false} ChosenWithin<T>(items: seq<T>, id: T -> string, uids: set<string>, n: nat)
    requires n <= |items|
    ensures multiset(Chosen(items, id, uids, n)) <= multiset(items[..n])
    ensures |Chosen(items, id, uids, n)| <= n
  {
    if n > 0 {
      ChosenWithin(items, id, uids, n - 1);
      assert items[..n] == items[..n - 1] + [items[n - 1]];
    }
  }

  // x does not come after y among the first n selected identifiers.
  ghost predicate InOrder(selection: seq<string>, n: nat, x: string, y: string)
    requires n <= |selection|
  {
    exists i, j :: 0 <= i <= j < n && selection[i] == x && selection[j] == y
  }

  // The selected identifiers come out in the order the hook gave them.
  lemma {:induction false} ArrangeOrdered<T>(
      items: seq<T>, id: T -> string, selection: seq<string>, n: nat, a: nat, b: nat)
    requires n <= |selection| && a < b < |Arrange(items, id, selection, n)|
    ensures var out := Arrange(items, id, selection, n); InOrder(selection, n, id(out[a]), id(out[b]))
  {
    var out, prior := Arrange(items, id, selection, n), Arrange(items, id, selection, n - 1);
    if b < |prior| {
      ArrangeOrdered(items, id, selection, n - 1, a, b);
      var i, j :| 0 <= i <= j < n - 1 && selection[i] == id(prior[a]) && selection[j] == id(prior[b]);
      assert out[a] == prior[a] && out[b] == prior[b];
    } else {
      WithIds(items, id, selection[n - 1], |items|);
      ArrangeFrom(items, id, selection, n, a);
      var i :| 0 <= i < n && selection[i] == id(out[a]);
      assert selection[n - 1] == id(out[b]);
    }
  }

  lemma {:induction false} ArrangeFrom<T>(items: seq<T>, id: T -> string, selection: seq<string>, n: nat, a: nat)
    requires n <= |selection| && a < |Arrange(items, id, selection, n)|
    ensures exists i :: 0 <= i < n && selection[i] == id(Arrange(items, id, selection, n)[a])
  {
    var prior := Arrange(items, id, selection, n - 1);
    if a < |prior| {
      ArrangeFrom(items, id, selection, n - 1, a);
    } else {
      WithIds(items, id, selection[n - 1], |items|);
    }
  }

  // ----- one scope ------------------------------------------------------------------------

  datatype Query = Query(
    namespace: Option<string>,
    matches: Item -> bool,         // the scope and text filters
    relationships: bool,
    limit: int,
    visibility: Visibility)

  datatype Trail = Trail(name: string, hooks: seq<Hook>)

  // `path.is_relative_to(search_dir)`.
  predicate Within(path: Path, trail: string, namespace: Option<string>) {
    && path.scope == trail
    && (namespace.None? || namespace.value == "" || path.namespace == namespace.value
        || namespace.value + "/" <= path.namespace)
  }

  predicate Wanted(item: Item, trail: string, q: Query, index: map<string, Record>) {
    Within(item.path, trail, q.namespace) && q.visibility.Allows(item.record, index) && q.matches(item)
  }

  // Every wanted record among the first n items, in snapshot order.
  function Matches(items: seq<Item>, trail: string, q: Query, n: nat): seq<Record>
    requires n <= |items|
  {
    if n == 0 then []
    else Matches(items, trail, q, n - 1)
         + if Wanted(items[n - 1], trail, q, Index(items)) then [items[n - 1].record] else []
  }

  // Python's `s[:limit]`.
  function Upto<T>(s: seq<T>, limit: int): seq<T> {
    if limit < 0 then s[..if |s| + limit < 0 then 0 else |s| + limit]
    else if limit < |s| then s[..limit] else s
  }

  function IdOf(r: Record): string { r.fm.id }

  // A record of this trail that this reader may see in this snapshot.
  ghost predicate Readable(r: Record, items: seq<Item>, trail: string, v: Visibility) {
    && v.Allows(r, Index(items))
    && exists k :: 0 <= k < |items| && items[k].record == r && items[k].path.scope == trail
  }

  ghost predicate AllReadable(rs: seq<Record>, items: seq<Item>, trail: string, v: Visibility) {
    forall r | r in rs :: Readable(r, items, trail, v)
  }

  // What the search loop collects before it stops: it looks at the limit only
  // after adding a record.
  function Searched(items: seq<Item>, trail: string, q: Query): seq<Record> {
    Upto(Matches(items, trail, q, |items|), if q.limit < 1 then 1 else q.limit)
  }

  // The hooks' selection applied to what was found.
  function Curated<T>(found: seq<T>, id: T -> string, hooks: seq<Hook>, event: Event): Result<seq<T>, ()> {
    if hooks == [] then Ok(found) else
    match RunFrom(hooks, 0, Start(event))
    case Err(_) => Err(())
    case Ok(p) =>
      Ok(if p.selection.Some? then Arrange(found, id, p.selection.value, |p.selection.value|) else found)
  }

  function Cut<T>(r: Result<seq<T>, ()>, limit: int): Result<seq<T>, ()> {
    match r case Ok(s) => Ok(Upto(s, limit)) case Err(_) => r
  }

  // The answer of one scope when no relationships are asked for.
  function TrailAnswer(items: seq<Item>, trail: Trail, q: Query): Result<seq<Record>, ()> {
    var found := Searched(items, trail.name, q);
    Cut(Curated(found, IdOf, trail.hooks, Event(OnRecall, None, found)), q.limit)
  }

  // Only readable records, never more than a non-negative limit; and exactly
  // `TrailAnswer` unless a hop along relationships adds to it.
  method RecallTrail(items: seq<Item>, trail: Trail, q: Query, index: map<string, Record>)
    returns (r: Result<seq<Record>, ()>)
    requires index == Index(items)
    ensures r.Ok? ==> AllReadable(r.value, items, trail.name, q.visibility)
    ensures r.Ok? && q.limit >= 0 ==> |r.value| <= q.limit
    ensures !q.relationships ==> r == TrailAnswer(items, trail, q)
  {
    var results := Search(items, trail.name, q, index);
    if q.relationships && results != [] {
      results := AddRelated(items, trail.name, q.visibility, index, results);
    }
    if trail.hooks != [] {
      var p := RunPipeline(trail.hooks, Event(OnRecall, None, results));
      if p.Err? {
        return Err(());
      }
      RunFromSound(Event(OnRecall, None, results), trail.hooks, 0, Start(Event(OnRecall, None, results)));
      if p.value.selection.Some? {
        var selection := p.value.selection.value;
        ArrangeOnly(results, IdOf, selection);
        results := Arrange(results, IdOf, selection, |selection|);
      }
    }
    r := Ok(Upto(results, q.limit));
  }

  lemma {:induction false} ArrangeOnly<T>(items: seq<T>, id: T -> string, selection: seq<string>)
    requires NoDuplicates(selection)
    ensures multiset(Arrange(items, id, selection, |selection|)) <= multiset(items)
    ensures forall x | x in Arrange(items, id, selection, |selection|) :: x in items
  {
    var out := Arrange(items, id, selection, |selection|);
    ArrangePermutes(items, id, selection, |selection|);
    ChosenWithin(items, id, Firsts(selection, |selection|), |items|);
    assert items[..|items|] == items;
    forall x | x in out ensures x in items {
      assert x in multiset(out);
    }
  }

  // The search loop with its early exit.
  method Search(items: seq<Item>, trail: string, q: Query, index: map<string, Record>) returns (results: seq<Record>)
    requires index == Index(items)
    ensures AllReadable(results, items, trail, q.visibility)
    ensures results == Searched(items, trail, q)
  {
    results := [];
    for k := 0 to |items|
      invariant results == Matches(items, trail, q, k) && (k > 0 ==> |results| < q.limit || results == [])
      invariant AllReadable(results, items, trail, q.visibility)
    {
      if !Wanted(items[k], trail, q, index) {
        continue;
      }
      results := results + [items[k].record];
      if |results| >= q.limit {
        MatchesGrow(items, trail, q, k + 1, |items|);
        break;
      }
    }
  }

  lemma {:induction false} MatchesGrow(items: seq<Item>, trail: string, q: Query, n: nat, m: nat)
    requires n <= m <= |items|
    ensures Matches(items, trail, q, n) <= Matches(items, trail, q, m)
  {
    if n < m {
      MatchesGrow(items, trail, q, n, m - 1);
    }
  }

  // The first record of a trail with an identifier, from the k-th item on.
  function FirstNamed(items: seq<Item>, k: nat, trail: string, id: string): Option<Record>
    requires k <= |items|
    decreases |items| - k
  {
    if k == |items| then None
    else if items[k].record.fm.id == id && items[k].path.scope == trail then Some(items[k].record)
    else FirstNamed(items, k + 1, trail, id)
  }

  // The record a relationship leads this reader to.
  function Related(items: seq<Item>, trail: string, v: Visibility, id: string): Option<Record> {
    var r := FirstNamed(items, 0, trail, id);
    if r.Some? && v.Allows(r.value, Index(items)) then r else None
  }

  function Targets(found: seq<Record>): set<string> {
    set i, j | 0 <= i < |found| && 0 <= j < |found[i].fm.relationships| :: found[i].fm.relationships[j].target
  }

  lemma {:induction false} RelatedReadable(items: seq<Item>, k: nat, trail: string, id: string)
    requires k <= |items|
    ensures var r := FirstNamed(items, k, trail, id);
            r.Some? ==> r.value.fm.id == id
                        && exists i :: 0 <= i < |items| && items[i].record == r.value && items[i].path.scope == trail
    decreases |items| - k
  {
    if k < |items| {
      RelatedReadable(items, k + 1, trail, id);
    }
  }

  // `results` is what was found, and once each target among `done` that leads somewhere new.
  ghost predicate Hopped(
      items: seq<Item>, trail: string, v: Visibility, found: seq<Record>, done: set<string>, results: seq<Record>) {
    && AllReadable(results, items, trail, v) && found <= results
    && (forall id :: id in Ids(results) <==> id in Ids(found) || (id in done && Related(items, trail, v, id).Some?))
    && (forall k | |found| <= k < |results| :: Related(items, trail, v, results[k].fm.id) == Some(results[k]))
    && (forall a, b | 0 <= a < b < |results| && |found| <= b :: results[a].fm.id != results[b].fm.id)
  }

  lemma {:induction false} HopSkipped(
      items: seq<Item>, trail: string, v: Visibility, found: seq<Record>, done: set<string>, results: seq<Record>,
      id: string)
    requires Hopped(items, trail, v, found, done, results) && (id in Ids(results) || Related(items, trail, v, id).None?)
    ensures Hopped(items, trail, v, found, done + {id}, results)
  {
    hide Related, AllReadable;
  }

  lemma {:induction false} HopAdded(
      items: seq<Item>, trail: string, v: Visibility, found: seq<Record>, done: set<string>, results: seq<Record>,
      r: Record)
    requires Hopped(items, trail, v, found, done, results) && r.fm.id !in Ids(results)
    requires Related(items, trail, v, r.fm.id) == Some(r) && Readable(r, items, trail, v)
    ensures Hopped(items, trail, v, found, done + {r.fm.id}, results + [r])
  {
    hide Related, Readable;
    IdsMore(results, r);
    assert forall i | 0 <= i < |results| :: results[i].fm.id in Ids(results);
  }

  // One hop along relationships, in whatever order the set of targets yields: each target that was
  // not found and leads somewhere is added once.
  method AddRelated(items: seq<Item>, trail: string, v: Visibility, index: map<string, Record>, found: seq<Record>)
    returns (results: seq<Record>)
    requires index == Index(items) && AllReadable(found, items, trail, v)
    ensures Hopped(items, trail, v, found, Targets(found), results)
  {
    hide FirstNamed, Index, Hopped, AllReadable;
    results := found;
    NothingHopped(items, trail, v, found);
    var targets := Targets(found);
    while targets != {}
      invariant targets <= Targets(found) && Hopped(items, trail, v, found, Targets(found) - targets, results)
      decreases |targets|
    {
      var target :| target in targets;
      assert Targets(found) - (targets - {target}) == Targets(found) - targets + {target};
      if target in Ids(results) {
        HopSkipped(items, trail, v, found, Targets(found) - targets, results, target);
      } else {
        var related := FindNamed(items, trail, target);
        if related.Some? && v.Allows(related.value, index) {
          RelatedReadable(items, 0, trail, target);
          HopAdded(items, trail, v, found, Targets(found) - targets, results, related.value);
          results := results + [related.value];
        } else {
          HopSkipped(items, trail, v, found, Targets(found) - targets, results, target);
        }
      }
      targets := targets - {target};
    }
    assert Targets(found) - {} == Targets(found);
  }

  lemma {:induction false} NothingHopped(items: seq<Item>, trail: string, v: Visibility, found: seq<Record>)
    requires AllReadable(found, items, trail, v)
    ensures Hopped(items, trail, v, found, {}, found) && Targets(found) - Targets(found) == {}
  {
  }

  lemma {:induction false} IdsMore(results: seq<Record>, r: Record)
    ensures Ids(results + [r]) == Ids(results) + {r.fm.id}
  {
    var more := results + [r];
    assert forall i | 0 <= i < |results| :: more[i] == results[i];
    assert more[|results|] == r;
    forall id | id in Ids(results) + {r.fm.id}
      ensures id in Ids(more)
    {
      if id != r.fm.id {
        var i :| 0 <= i < |results| && results[i].fm.id == id;
        assert more[i].fm.id == id;
      }
    }
  }

  method FindNamed(items: seq<Item>, trail: string, id: string) returns (r: Option<Record>)
    ensures r == FirstNamed(items, 0, trail, id)
  {
    for k := 0 to |items|
      invariant FirstNamed(items, 0, trail, id) == FirstNamed(items, k, trail, id)
    {
      if items[k].record.fm.id == id && items[k].path.scope == trail {
        return Some(items[k].record);
      }
    }
    r := None;
  }

  // ----- several scopes ----------------------------------------------------------------------

  type Hit = (Record, string)

  function HitId(h: Hit): string { h.0.fm.id }

  ghost predicate DistinctHits(hits: seq<Hit>) {
    forall i, j | 0 <= i < j < |hits| :: hits[i].0.fm.id != hits[j].0.fm.id
  }

  ghost predicate HitsReadable(hits: seq<Hit>, items: seq<Item>, v: Visibility) {
    forall h | h in hits :: Readable(h.0, items, h.1, v)
  }

  // The first n found records added to the hits, each identifier once.
  function Added(hits: seq<Hit>, found: seq<Record>, trail: string, n: nat): seq<Hit>
    requires n <= |found|
  {
    if n == 0 then hits
    else
      var added := Added(hits, found, trail, n - 1);
      if exists h | h in added :: h.0.fm.id == found[n - 1].fm.id then added else added + [(found[n - 1], trail)]
  }

  // The merged answers of the first n scopes.
  function Merged(items: seq<Item>, trails: seq<Trail>, q: Query, n: nat): Result<seq<Hit>, ()>
    requires n <= |trails|
  {
    if n == 0 then Ok([])
    else
      match Merged(items, trails, q, n - 1)
      case Err(_) => Err(())
      case Ok(hits) =>
        match TrailAnswer(items, trails[n - 1], q)
        case Err(_) => Err(())
        case Ok(found) => Ok(Added(hits, found, trails[n - 1].name, |found|))
  }

  function Mixes(trails: seq<Trail>): bool {
    trails != [] && |Names(trails)| > 1
  }

  function MixEvent(hits: seq<Hit>): Event {
    Event(OnRecallMix, None, seq(|hits|, k requires 0 <= k < |hits| => hits[k].0))
  }

  function MultiAnswer(items: seq<Item>, trails: seq<Trail>, q: Query): Result<seq<Hit>, ()> {
    match Merged(items, trails, q, |trails|)
    case Err(_) => Err(())
    case Ok(hits) =>
      Cut(if Mixes(trails) then Curated(hits, HitId, trails[0].hooks, MixEvent(hits)) else Ok(hits), q.limit)
  }

  // Every scope reads the same snapshot; the merged list has distinct identifiers
  // before and after the mixing hooks, which can only drop or reorder.
  method RecallMulti(items: seq<Item>, trails: seq<Trail>, q: Query) returns (r: Result<seq<Hit>, ()>)
    ensures r.Ok? ==> HitsReadable(r.value, items, q.visibility) && DistinctHits(r.value)
    ensures r.Ok? && q.limit >= 0 ==> |r.value| <= q.limit
    ensures !q.relationships ==> r == MultiAnswer(items, trails, q)
  {
    hide TrailAnswer, Curated, Readable, Added, Index;
    var index := BuildIndex(items);
    var hits := [];
    for t := 0 to |trails|
      invariant HitsReadable(hits, items, q.visibility) && DistinctHits(hits)
      invariant !q.relationships ==> Merged(items, trails, q, t) == Ok(hits)
    {
      var found := RecallTrail(items, trails[t], q, index);
      if found.Err? {
        MergeFails(items, trails, q, t + 1, |trails|);
        return Err(());
      }
      hits := Merge(items, q.visibility, trails[t].name, found.value, hits);
    }
    if Mixes(trails) {
      var mixed := Mix(items, q.visibility, trails[0].hooks, hits);
      r := Cut(mixed, q.limit);
    } else {
      r := Ok(Upto(hits, q.limit));
    }
  }

  // `on_recall_mix` on the primary trail.
  method Mix(items: seq<Item>, v: Visibility, hooks: seq<Hook>, hits: seq<Hit>) returns (r: Result<seq<Hit>, ()>)
    requires HitsReadable(hits, items, v) && DistinctHits(hits)
    ensures r.Ok? ==> HitsReadable(r.value, items, v) && DistinctHits(r.value)
    ensures r == Curated(hits, HitId, hooks, MixEvent(hits))
  {
    if hooks == [] {
      return Ok(hits);
    }
    var p := RunPipeline(hooks, MixEvent(hits));
    if p.Err? {
      return Err(());
    }
    RunFromSound(MixEvent(hits), hooks, 0, Start(MixEvent(hits)));
    if p.value.selection.None? {
      return Ok(hits);
    }
    ArrangeDistinct(hits, p.value.selection.value);
    r := Ok(Arrange(hits, HitId, p.value.selection.value, |p.value.selection.value|));
  }

  lemma {:induction false} MergeFails(items: seq<Item>, trails: seq<Trail>, q: Query, n: nat, m: nat)
    requires n <= m <= |trails|
    ensures Merged(items, trails, q, n).Err? ==> Merged(items, trails, q, m) == Err(())
    ensures !q.relationships && n > 0 && TrailAnswer(items, trails[n - 1], q).Err?
            ==> Merged(items, trails, q, m) == Err(())
  {
    if n < m {
      MergeFails(items, trails, q, n, m - 1);
    }
  }

  function Names(trails: seq<Trail>): set<string> {
    set i | 0 <= i < |trails| :: trails[i].name
  }

  // The merging loop: the identifiers already seen are those of the hits.
  method Merge(items: seq<Item>, v: Visibility, trail: string, found: seq<Record>, hits: seq<Hit>)
    returns (hits': seq<Hit>)
    requires AllReadable(found, items, trail, v) && HitsReadable(hits, items, v) && DistinctHits(hits)
    ensures HitsReadable(hits', items, v) && DistinctHits(hits')
    ensures hits' == Added(hits, found, trail, |found|)
  {
    hide Readable, HitsReadable, DistinctHits;
    hits' := hits;
    var seen := set k | 0 <= k < |hits| :: hits[k].0.fm.id;
    for k := 0 to |found|
      invariant HitsReadable(hits', items, v) && DistinctHits(hits')
      invariant hits' == Added(hits, found, trail, k)
      invariant forall id :: id in seen <==> exists h :: h in hits' && h.0.fm.id == id
    {
      if found[k].fm.id !in seen {
        seen := seen + {found[k].fm.id};
        HitAdded(items, v, hits', (found[k], trail));
        assert (found[k], trail) in hits' + [(found[k], trail)];
        hits' := hits' + [(found[k], trail)];
      }
    }
  }

  lemma {:induction false} HitAdded(items: seq<Item>, v: Visibility, hits: seq<Hit>, hit: Hit)
    requires HitsReadable(hits, items, v) && DistinctHits(hits) && Readable(hit.0, items, hit.1, v)
    requires forall h | h in hits :: h.0.fm.id != hit.0.fm.id
    ensures HitsReadable(hits + [hit], items, v) && DistinctHits(hits + [hit])
  {
    hide Readable;
    assert forall i | 0 <= i < |hits| :: hits[i] in hits;
  }

  lemma {:induction false} ArrangeDistinct(hits: seq<Hit>, selection: seq<string>)
    requires DistinctHits(hits) && NoDuplicates(selection)
    ensures var out := Arrange(hits, HitId, selection, |selection|);
            DistinctHits(out) && forall h | h in out :: h in hits
  {
    ArrangeOnly(hits, HitId, selection);
    ArrangeDistinctTo(hits, selection, |selection|);
  }

  lemma {:induction false} WithOne(hits: seq<Hit>, uid: string, n: nat)
    requires DistinctHits(hits) && n <= |hits|
    ensures |With(hits, HitId, uid, n)| <= 1
    ensures With(hits, HitId, uid, n) != [] ==> exists k :: 0 <= k < n && HitId(hits[k]) == uid
  {
    if n > 0 {
      WithOne(hits, uid, n - 1);
    }
  }

  lemma {:induction false} ArrangeDistinctTo(hits: seq<Hit>, selection: seq<string>, n: nat)
    requires DistinctHits(hits) && NoDuplicates(selection) && n <= |selection|
    ensures DistinctHits(Arrange(hits, HitId, selection, n))
  {
    if n > 0 {
      var prior := Arrange(hits, HitId, selection, n - 1);
      ArrangeDistinctTo(hits, selection, n - 1);
      WithOne(hits, selection[n - 1], |hits|);
      WithIds(hits, HitId, selection[n - 1], |hits|);
      forall a | 0 <= a < |prior| ensures HitId(prior[a]) != selection[n - 1] {
        ArrangeFrom(hits, HitId, selection, n - 1, a);
      }
    }
  }

  // The backlink leads to item k: by scope and identifier to the last record that
  // carries both or, without a scope, to the one record that carries the identifier.
  ghost predicate LinksTo(items: seq<Item>, r: Record, k: nat)
    requires k < |items|
  {
    var scope, id := items[k].path.scope, items[k].record.fm.id;
    && r.fm.supersededBy == Some(id)
    && if Truthy(r.fm.supersededScope) then
         r.fm.supersededScope == Some(scope) && forall j | k < j < |items| :: !Named(items[j], scope, id)
       else
         forall j | 0 <= j < |items| && items[j].record.fm.id == id :: j == k
  }

  // A backlink to an approved successor hides its record from every reader who
  // did not ask for history, in whichever scope the successor lives.
  lemma {:induction false} SuccessorHides(items: seq<Item>, v: Visibility, r: Record, k: nat)
    requires BareIds(items) && !v.includeSuperseded
    requires k < |items| && items[k].record.fm.status == Approved && LinksTo(items, r, k)
    ensures !v.Allows(r, Index(items))
  {
    var scope, id := items[k].path.scope, items[k].record.fm.id;
    IndexAnswers(items, scope, id);
    if Truthy(r.fm.supersededScope) {
      LastNamedIs(items, |items|, k);
    } else {
      CountOne(items, |items|, id);
    }
  }

  lemma {:induction false} LastNamedIs(items: seq<Item>, n: nat, k: nat)
    requires k < n <= |items|
    requires forall j | k < j < n :: !Named(items[j], items[k].path.scope, items[k].record.fm.id)
    ensures LastNamed(items, n, items[k].path.scope, items[k].record.fm.id) == Some(items[k].record)
  {
    if k < n - 1 {
      LastNamedIs(items, n - 1, k);
    }
  }

  // So no answer of `RecallMulti` holds a record whose approved successor is anywhere in the snapshot.
  lemma {:induction false} NeverBothGenerations(items: seq<Item>, hits: seq<Hit>, v: Visibility, h: Hit, k: nat)
    requires HitsReadable(hits, items, v) && BareIds(items) && !v.includeSuperseded
    requires k < |items| && items[k].record.fm.status == Approved && LinksTo(items, h.0, k)
    ensures h !in hits
  {
    SuccessorHides(items, v, h.0, k);
  }
}
