// The reader's lineage: all edges around a thought, followed through a graph
// that may branch, loop and point at thoughts that are not there.
module RichViews {
  import opened Base
  import opened Records

  datatype Thought = Thought(
    id: string, title: string, scope: string, route: string,
    approved: bool, isSuperseded: bool,
    parentId: Option<string>,
    supersededBy: Option<string>, supersededScope: Option<string>,
    supersedesId: Option<string>, supersedesScope: Option<string>)

  datatype Raw = Raw(source: string, kind: string, dest: string, destScope: Option<string>)

  datatype Target = Target(id: string, title: string, route: Option<string>, resolved: bool, scope: Option<string>)

  datatype Edge = Edge(source: Target, kind: string, target: Target)

  // ----- projections ------------------------------------------------------------------

  // `by_id`: the last of the first n thoughts with an identifier.
  function ById(thoughts: seq<Thought>, n: nat, id: string): Option<Thought>
    requires n <= |thoughts|
  {
    if n == 0 then None
    else if thoughts[n - 1].id == id then Some(thoughts[n - 1])
    else ById(thoughts, n - 1, id)
  }

  function TargetOf(thoughts: seq<Thought>, id: string, scope: Option<string>): Target {
    var hit := ById(thoughts, |thoughts|, id);
    var found := if hit.Some? && Truthy(scope) && hit.value.scope != scope.value then None else hit;
    Target(
      id,
      if found.Some? then found.value.title else id,
      if found.Some? then Some(found.value.route) else None,
      found.Some?,
      if Truthy(scope) then scope else if found.Some? then Some(found.value.scope) else None)
  }

  function ParentScope(t: Thought): Option<string> {
    if t.parentId == t.supersedesId then t.supersedesScope else None
  }

  function ToParent(t: Thought): seq<Raw> {
    if Truthy(t.parentId) then [Raw(t.id, "parent", t.parentId.value, ParentScope(t))] else []
  }

  function ToSuccessor(t: Thought): seq<Raw> {
    if Truthy(t.supersededBy) then
      [Raw(t.id, if t.isSuperseded then "superseded by" else "replacement link (not effective)",
           t.supersededBy.value, t.supersededScope)]
    else
      []
  }

  function ToPredecessor(t: Thought): seq<Raw> {
    if Truthy(t.supersedesId) then
      [Raw(t.id, if t.approved then "supersedes" else "replacement proposal for",
           t.supersedesId.value, t.supersedesScope)]
    else
      []
  }

  function EdgesOf(t: Thought): seq<Raw> {
    ToParent(t) + ToSuccessor(t) + ToPredecessor(t)
  }

  function AllEdges(thoughts: seq<Thought>, n: nat): seq<Raw>
    requires n <= |thoughts|
  {
    if n == 0 then [] else AllEdges(thoughts, n - 1) + EdgesOf(thoughts[n - 1])
  }

  predicate Resolved(thoughts: seq<Thought>, e: Raw) {
    TargetOf(thoughts, e.dest, e.destScope).resolved
  }

  function Project(thoughts: seq<Thought>, e: Raw): Edge {
    Edge(TargetOf(thoughts, e.source, None), e.kind, TargetOf(thoughts, e.dest, e.destScope))
  }

  // The edge is incident to the node.
  predicate Touches(thoughts: seq<Thought>, e: Raw, node: string) {
    node == e.source || (node == e.dest && Resolved(thoughts, e))
  }

  function Known(thoughts: seq<Thought>): set<string> {
    set i | 0 <= i < |thoughts| :: thoughts[i].id
  }

  // ----- what the lineage is ---------------------------------------------------------------

  // One resolved edge, in either direction.
  ghost predicate Adjacent(thoughts: seq<Thought>, edges: seq<Raw>, u: string, v: string) {
    exists e ::
      e in edges && Resolved(thoughts, e) && ((u == e.source && v == e.dest) || (u == e.dest && v == e.source))
  }

  ghost predicate Within(thoughts: seq<Thought>, edges: seq<Raw>, start: string, v: string, steps: nat)
    decreases steps
  {
    if steps == 0 then v == start
    else exists u :: Within(thoughts, edges, start, u, steps - 1) && Adjacent(thoughts, edges, u, v)
  }

  // The connected component of the start over resolved edges.
  ghost predicate Connected(thoughts: seq<Thought>, edges: seq<Raw>, start: string, v: string) {
    exists steps: nat :: Within(thoughts, edges, start, v, steps)
  }

  // The edge appears in the reader's data for some edge incident to the component.
  ghost predicate Belongs(thoughts: seq<Thought>, edges: seq<Raw>, start: string, edge: Edge) {
    exists e, v ::
      e in edges && Connected(thoughts, edges, start, v) && Touches(thoughts, e, v) && edge == Project(thoughts, e)
  }

  // ----- the traversal ------------------------------------------------------------------------

  // What the worklist has established: everything found belongs, and visited
  // nodes have all their edges listed and all their neighbours scheduled.
  ghost predicate Progress(
    thoughts: seq<Thought>, edges: seq<Raw>, start: string,
    pending: seq<string>, visited: set<string>, lineage: seq<Edge>)
  {
    && (start in visited || start in pending)
    && visited <= Known(thoughts) + {start}
    && (forall v | v in pending :: v in Known(thoughts) + {start} && Connected(thoughts, edges, start, v))
    && (forall v | v in visited :: Connected(thoughts, edges, start, v))
    && (forall edge | edge in lineage :: Belongs(thoughts, edges, start, edge))
    && NoDuplicates(lineage)
    && (forall v, e | v in visited && e in edges && Touches(thoughts, e, v) ::
          Handled(thoughts, e, pending, visited, lineage))
  }

  ghost predicate Handled(
      thoughts: seq<Thought>, e: Raw, pending: seq<string>, visited: set<string>, lineage: seq<Edge>) {
    && Project(thoughts, e) in lineage
    && (Resolved(thoughts, e)
        ==> (e.source in visited || e.source in pending) && (e.dest in visited || e.dest in pending))
  }

  lemma {:induction false} Connect(thoughts: seq<Thought>, edges: seq<Raw>, start: string, u: string, v: string)
    requires Connected(thoughts, edges, start, u) && Adjacent(thoughts, edges, u, v)
    ensures Connected(thoughts, edges, start, v)
  {
    var steps: nat :| Within(thoughts, edges, start, u, steps);
    assert Within(thoughts, edges, start, v, steps + 1);
  }

  lemma {:induction false} EdgesKnown(thoughts: seq<Thought>, n: nat)
    requires n <= |thoughts|
    ensures forall e | e in AllEdges(thoughts, n) :: e.source in Known(thoughts)
  {
    hide EdgesOf, Known;
    if n > 0 {
      EdgesKnown(thoughts, n - 1);
      ThoughtKnown(thoughts, n - 1);
      EdgesFrom(thoughts[n - 1]);
      forall e | e in AllEdges(thoughts, n)
        ensures e.source in Known(thoughts)
      {
        assert e in AllEdges(thoughts, n - 1) || e in EdgesOf(thoughts[n - 1]);
      }
    }
  }

  lemma {:induction false} ThoughtKnown(thoughts: seq<Thought>, i: nat)
    requires i < |thoughts|
    ensures thoughts[i].id in Known(thoughts)
  {
  }

  lemma {:induction false} EdgesFrom(t: Thought)
    ensures forall e | e in EdgesOf(t) :: e.source == t.id
  {
  }

  lemma {:induction false} FoundKnown(thoughts: seq<Thought>, n: nat, id: string)
    requires n <= |thoughts|
    ensures ById(thoughts, n, id).Some? ==> id in Known(thoughts)
  {
    if n > 0 {
      FoundKnown(thoughts, n - 1, id);
      assert thoughts[n - 1].id in Known(thoughts);
    }
  }

  // Handles every edge incident to a node just visited.
  method Visit(thoughts: seq<Thought>, edges: seq<Raw>, ghost start: string, current: string,
               pending0: seq<string>, visited: set<string>, lineage0: seq<Edge>)
    returns (pending: seq<string>, lineage: seq<Edge>)
    requires forall e | e in edges :: e.source in Known(thoughts)
    requires current in visited && Connected(thoughts, edges, start, current)
    requires forall edge | edge in lineage0 :: Belongs(thoughts, edges, start, edge)
    requires NoDuplicates(lineage0)
    ensures pending0 <= pending && lineage0 <= lineage && NoDuplicates(lineage)
    ensures forall v | v in pending[|pending0|..] :: v in Known(thoughts) && Connected(thoughts, edges, start, v)
    ensures forall edge | edge in lineage :: Belongs(thoughts, edges, start, edge)
    ensures forall e | e in edges && Touches(thoughts, e, current) :: Handled(thoughts, e, pending, visited, lineage)
  {
    hide AllEdges, ById, Project, Belongs, Connected, Known;
    pending, lineage := pending0, lineage0;
    for i := 0 to |edges|
      invariant pending0 <= pending && lineage0 <= lineage && NoDuplicates(lineage)
      invariant forall v | v in pending[|pending0|..] :: v in Known(thoughts) && Connected(thoughts, edges, start, v)
      invariant forall edge | edge in lineage :: Belongs(thoughts, edges, start, edge)
      invariant forall k | 0 <= k < i && Touches(thoughts, edges[k], current) ::
                  Handled(thoughts, edges[k], pending, visited, lineage)
    {
      var e := edges[i];
      var destination := TargetOf(thoughts, e.dest, e.destScope);
      if current != e.source && !(current == e.dest && destination.resolved) {
        continue;
      }
      ghost var pending1, lineage1 := pending, lineage;
      Neighbours(thoughts, edges, start, current, e);
      var edge := Project(thoughts, e);
      if edge !in lineage {
        lineage := lineage + [edge];
      }
      if e.source in Known(thoughts) && e.source !in visited {
        pending := pending + [e.source];
      }
      if destination.resolved && e.dest in Known(thoughts) && e.dest !in visited {
        pending := pending + [e.dest];
      }
      forall k | 0 <= k < i && Touches(thoughts, edges[k], current)
        ensures Handled(thoughts, edges[k], pending, visited, lineage)
      {
        assert Handled(thoughts, edges[k], pending1, visited, lineage1);
      }
    }
  }

  lemma {:induction false} Neighbours(thoughts: seq<Thought>, edges: seq<Raw>, start: string, current: string, e: Raw)
    requires forall e | e in edges :: e.source in Known(thoughts)
    requires e in edges && Touches(thoughts, e, current) && Connected(thoughts, edges, start, current)
    ensures Connected(thoughts, edges, start, e.source)
    ensures Resolved(thoughts, e) ==> Connected(thoughts, edges, start, e.dest)
    ensures e.source in Known(thoughts) && (Resolved(thoughts, e) ==> e.dest in Known(thoughts))
    ensures Belongs(thoughts, edges, start, Project(thoughts, e))
  {
    FoundKnown(thoughts, |thoughts|, e.dest);
    if Resolved(thoughts, e) {
      if current == e.source {
        Connect(thoughts, edges, start, current, e.dest);
      } else {
        Connect(thoughts, edges, start, current, e.source);
      }
    }
  }

  // The worklist ends, and its lineage holds every edge incident to the start's
  // component exactly once and no other edge.
  method Lineage(thoughts: seq<Thought>, start: string) returns (lineage: seq<Edge>)
    ensures NoDuplicates(lineage)
    ensures forall edge :: edge in lineage <==> Belongs(thoughts, AllEdges(thoughts, |thoughts|), start, edge)
  {
    hide Progress, Belongs, NoDuplicates, Known, AllEdges;
    var edges := CollectEdges(thoughts);
    EdgesKnown(thoughts, |thoughts|);
    lineage := [];
    var pending := [start];
    var visited: set<string> := {};
    Begun(thoughts, edges, start);
    while pending != []
      invariant Progress(thoughts, edges, start, pending, visited, lineage)
      decreases Known(thoughts) + {start} - visited, |pending|
    {
      var current := pending[|pending| - 1];
      ghost var pending0, visited0, lineage0 := pending, visited, lineage;
      Scheduled(thoughts, edges, start, pending, visited, lineage, current);
      pending := pending[..|pending| - 1];
      assert pending0 == pending + [current];
      if current in visited {
        Popped(thoughts, edges, start, pending0, visited, lineage, pending, current);
        continue;
      }
      visited := visited + {current};
      pending, lineage := Visit(thoughts, edges, start, current, pending, visited, lineage);
      Grown(thoughts, edges, start, pending0, visited0, lineage0, current, pending, lineage);
    }
    forall edge ensures edge in lineage <==> Belongs(thoughts, edges, start, edge) {
      ListsAll(thoughts, edges, start, visited, lineage, edge);
    }
    ListsOnce(thoughts, edges, start, visited, lineage);
  }

  lemma {:induction false} ListsOnce(
      thoughts: seq<Thought>, edges: seq<Raw>, start: string, visited: set<string>, lineage: seq<Edge>)
    requires Progress(thoughts, edges, start, [], visited, lineage)
    ensures NoDuplicates(lineage)
  {
    hide Connected, Belongs, Handled, Known;
  }

  lemma {:induction false} Begun(thoughts: seq<Thought>, edges: seq<Raw>, start: string)
    ensures Progress(thoughts, edges, start, [start], {}, [])
  {
    hide Belongs, Handled;
    assert Within(thoughts, edges, start, start, 0);
  }

  // What is pending is known and belongs to the component.
  lemma {:induction false} Scheduled(
      thoughts: seq<Thought>, edges: seq<Raw>, start: string,
      pending: seq<string>, visited: set<string>, lineage: seq<Edge>, current: string)
    requires Progress(thoughts, edges, start, pending, visited, lineage) && current in pending
    ensures current in Known(thoughts) + {start} && Connected(thoughts, edges, start, current)
    ensures visited <= Known(thoughts) + {start} && NoDuplicates(lineage)
    ensures forall edge | edge in lineage :: Belongs(thoughts, edges, start, edge)
  {
    hide Connected, Belongs, Handled, Known;
  }

  // At the end exactly the edges of the component are listed.
  lemma {:induction false} ListsAll(thoughts: seq<Thought>, edges: seq<Raw>, start: string,
                                    visited: set<string>, lineage: seq<Edge>, edge: Edge)
    requires Progress(thoughts, edges, start, [], visited, lineage)
    ensures edge in lineage <==> Belongs(thoughts, edges, start, edge)
  {
    hide Resolved, Known;
    if Belongs(thoughts, edges, start, edge) {
      var e, v :|
        e in edges && Connected(thoughts, edges, start, v) && Touches(thoughts, e, v) && edge == Project(thoughts, e);
      var steps: nat :| Within(thoughts, edges, start, v, steps);
      Exhausted(thoughts, edges, start, visited, lineage, v, steps);
      assert Handled(thoughts, e, [], visited, lineage);
    }
  }

  lemma {:induction false} Popped(thoughts: seq<Thought>, edges: seq<Raw>, start: string,
               pending: seq<string>, visited: set<string>, lineage: seq<Edge>, rest: seq<string>, current: string)
    requires Progress(thoughts, edges, start, pending, visited, lineage)
    requires pending == rest + [current] && current in visited
    ensures Progress(thoughts, edges, start, rest, visited, lineage)
  {
    forall v, e | v in visited && e in edges && Touches(thoughts, e, v)
      ensures Handled(thoughts, e, rest, visited, lineage)
    {
      assert Handled(thoughts, e, pending, visited, lineage);
    }
  }

  lemma {:induction false} Grown(thoughts: seq<Thought>, edges: seq<Raw>, start: string,
              pending0: seq<string>, visited0: set<string>, lineage0: seq<Edge>, current: string,
              pending: seq<string>, lineage: seq<Edge>)
    requires Progress(thoughts, edges, start, pending0, visited0, lineage0)
    requires pending0 != [] && current == pending0[|pending0| - 1]
    requires pending0[..|pending0| - 1] <= pending && lineage0 <= lineage && NoDuplicates(lineage)
    requires forall v | v in pending[|pending0| - 1..] :: v in Known(thoughts) && Connected(thoughts, edges, start, v)
    requires forall edge | edge in lineage :: Belongs(thoughts, edges, start, edge)
    requires forall e | e in edges && Touches(thoughts, e, current) ::
               Handled(thoughts, e, pending, visited0 + {current}, lineage)
    ensures Progress(thoughts, edges, start, pending, visited0 + {current}, lineage)
  {
    var rest := pending0[..|pending0| - 1];
    assert pending0 == rest + [current];
    assert pending == rest + pending[|rest|..];
    forall v, e | v in visited0 + {current} && e in edges && Touches(thoughts, e, v)
      ensures Handled(thoughts, e, pending, visited0 + {current}, lineage)
    {
      if v != current {
        assert Handled(thoughts, e, pending0, visited0, lineage0);
      }
    }
  }

  // With nothing pending, every connected node has been visited.
  lemma {:induction false} Exhausted(thoughts: seq<Thought>, edges: seq<Raw>, start: string,
                                     visited: set<string>, lineage: seq<Edge>, v: string, steps: nat)
    requires Progress(thoughts, edges, start, [], visited, lineage) && Within(thoughts, edges, start, v, steps)
    ensures v in visited
    decreases steps
  {
    hide Resolved, Connected, Belongs, Project, AllEdges, Known;
    if steps > 0 {
      var u :| Within(thoughts, edges, start, u, steps - 1) && Adjacent(thoughts, edges, u, v);
      Exhausted(thoughts, edges, start, visited, lineage, u, steps - 1);
      var e :|
        e in edges && Resolved(thoughts, e) && ((u == e.source && v == e.dest) || (u == e.dest && v == e.source));
      assert Handled(thoughts, e, [], visited, lineage);
    }
  }

  method CollectEdges(thoughts: seq<Thought>) returns (edges: seq<Raw>)
    ensures edges == AllEdges(thoughts, |thoughts|)
  {
    edges := [];
    for i := 0 to |thoughts|
      invariant edges == AllEdges(thoughts, i)
    {
      var more := CollectFrom(thoughts[i]);
      edges := edges + more;
    }
  }

  method CollectFrom(t: Thought) returns (edges: seq<Raw>)
    ensures edges == EdgesOf(t)
  {
    edges := [];
    if Truthy(t.parentId) {
      edges := [Raw(t.id, "parent", t.parentId.value, ParentScope(t))];
    }
    if Truthy(t.supersededBy) {
      var kind := if t.isSuperseded then "superseded by" else "replacement link (not effective)";
      edges := edges + [Raw(t.id, kind, t.supersededBy.value, t.supersededScope)];
    }
    assert edges == ToParent(t) + ToSuccessor(t);
    if Truthy(t.supersedesId) {
      var kind := if t.approved then "supersedes" else "replacement proposal for";
      edges := edges + [Raw(t.id, kind, t.supersedesId.value, t.supersedesScope)];
    }
  }

  // ----- routes --------------------------------------------------------------------------------

  function IdRoute(t: Thought): string {
    "/id/" + t.id + "/"
  }

  function ScopeRoute(t: Thought): string {
    "/scopes/" + t.scope + "/"
  }

  // The routes no thought's title may take.
  function Reserved(thoughts: seq<Thought>): set<string> {
    (set i | 0 <= i < |thoughts| :: IdRoute(thoughts[i])) + (set i | 0 <= i < |thoughts| :: ScopeRoute(thoughts[i]))
  }

  // Titles name routes, disambiguated by the shortest free suffix of the identifier. All routes
  // differ from each other and from every identity and scope route.  It fails exactly when some
  // thought's plain route is shared or taken, and every suffix of its identifier is taken too.
  method AssignRoutes(thoughts: seq<Thought>, slug: string -> string) returns (r: Result<seq<string>, string>)
    ensures r.Ok? ==> |r.value| == |thoughts|
    ensures r.Ok? ==> forall i, j | 0 <= i < j < |thoughts| :: r.value[i] != r.value[j]
    ensures r.Ok? ==> forall i, j | 0 <= i < |thoughts| && 0 <= j < |thoughts| ::
                        && r.value[i] != "/id/" + thoughts[j].id + "/"
                        && r.value[i] != "/scopes/" + thoughts[j].scope + "/"
    ensures r.Ok? ==> Assigned(thoughts, slug, r.value)
    ensures r.Err? ==>
              exists routes: seq<string> :: Assigned(thoughts, slug, routes) && Stuck(thoughts, slug, routes, r.error)
    ensures r.Ok? ==>
              forall routes: seq<string>, id | Assigned(thoughts, slug, routes) :: !Stuck(thoughts, slug, routes, id)
  {
    hide Chosen, Taken, Assigned, Stuck, Unroutable, Reserved, IdRoute, ScopeRoute;
    var used := Reserved(thoughts);
    var routes: seq<string> := [];
    NothingTaken(thoughts, slug);
    for i := 0 to |thoughts|
      invariant |routes| == i && used == Taken(thoughts, routes, i) && Assigned(thoughts, slug, routes)
    {
      var route := ChooseRoute(thoughts, slug, used, i);
      if route.None? {
        StuckAt(thoughts, slug, routes);
        return Err(thoughts[i].id);
      }
      AssignedMore(thoughts, slug, routes, route.value);
      TakenMore(thoughts, routes, route.value);
      used := used + {route.value};
      routes := routes + [route.value];
    }
    AssignedApart(thoughts, slug, routes);
    RoutesReserved(thoughts);
    forall other: seq<string>, id | Assigned(thoughts, slug, other)
      ensures !Stuck(thoughts, slug, other, id)
    {
      NeverStuck(thoughts, slug, routes, other, id);
    }
    r := Ok(routes);
  }

  lemma {:induction false} RoutesReserved(thoughts: seq<Thought>)
    ensures forall j | 0 <= j < |thoughts| ::
              && IdRoute(thoughts[j]) == "/id/" + thoughts[j].id + "/"
              && ScopeRoute(thoughts[j]) == "/scopes/" + thoughts[j].scope + "/"
  {
  }

  // No chosen route is reserved or chosen twice.
  lemma {:induction false} AssignedApart(thoughts: seq<Thought>, slug: string -> string, routes: seq<string>)
    requires Assigned(thoughts, slug, routes)
    ensures forall i, j | 0 <= i < j < |routes| :: routes[i] != routes[j]
    ensures forall i, j | 0 <= i < |routes| && 0 <= j < |thoughts| ::
              routes[i] != IdRoute(thoughts[j]) && routes[i] != ScopeRoute(thoughts[j])
  {
    hide Chosen, Taken, Reserved, IdRoute, ScopeRoute;
    forall j | 0 <= j < |routes|
      ensures routes[j] !in Taken(thoughts, routes, j)
    {
      ChosenFree(thoughts, slug, Taken(thoughts, routes, j), j, routes[j]);
    }
    forall i, j | 0 <= i < j < |routes|
      ensures routes[i] in Taken(thoughts, routes, j)
    {
      TakenHolds(thoughts, routes, j, i);
    }
    forall i, j | 0 <= i < |routes| && 0 <= j < |thoughts|
      ensures IdRoute(thoughts[j]) in Taken(thoughts, routes, i)
      ensures ScopeRoute(thoughts[j]) in Taken(thoughts, routes, i)
    {
      ReservedTaken(thoughts, routes, i, j);
    }
  }

  lemma {:induction false} ChosenFree(
      thoughts: seq<Thought>, slug: string -> string, taken: set<string>, i: nat, route: string)
    requires i < |thoughts| && Chosen(thoughts, slug, taken, i, route)
    ensures route !in taken
  {
  }

  lemma {:induction false} TakenHolds(thoughts: seq<Thought>, routes: seq<string>, n: nat, i: nat)
    requires i < n <= |routes|
    ensures routes[i] in Taken(thoughts, routes, n)
  {
    hide Reserved;
    var chosen := set k | 0 <= k < n :: routes[k];
    var route := routes[i];
    assert route in chosen;
  }

  lemma {:induction false} ReservedTaken(thoughts: seq<Thought>, routes: seq<string>, n: nat, j: nat)
    requires n <= |routes| && j < |thoughts|
    ensures IdRoute(thoughts[j]) in Taken(thoughts, routes, n) && ScopeRoute(thoughts[j]) in Taken(thoughts, routes, n)
  {
    assert IdRoute(thoughts[j]) in set k | 0 <= k < |thoughts| :: IdRoute(thoughts[k]);
    assert ScopeRoute(thoughts[j]) in set k | 0 <= k < |thoughts| :: ScopeRoute(thoughts[k]);
  }

  lemma {:induction false} NothingTaken(thoughts: seq<Thought>, slug: string -> string)
    ensures Taken(thoughts, [], 0) == Reserved(thoughts) && Assigned(thoughts, slug, [])
  {
  }

  lemma {:induction false} StuckAt(thoughts: seq<Thought>, slug: string -> string, routes: seq<string>)
    requires |routes| < |thoughts| && Unroutable(thoughts, slug, Taken(thoughts, routes, |routes|), |routes|)
    ensures Stuck(thoughts, slug, routes, thoughts[|routes|].id)
  {
  }

  // The plain route is shared or taken, and so is every suffix of the identifier.
  ghost predicate Unroutable(thoughts: seq<Thought>, slug: string -> string, taken: set<string>, i: nat)
    requires i < |thoughts|
  {
    var stem, id := StemOf(thoughts, slug, i), thoughts[i].id;
    && (Shared(thoughts, slug, stem) || stem + "/" in taken)
    && forall l | ShortLength(id) <= l <= |id| :: Suffixed(stem, id, l) in taken
  }

  method ChooseRoute(
      thoughts: seq<Thought>, slug: string -> string, used: set<string>, i: nat) returns (r: Option<string>)
    requires i < |thoughts|
    ensures r.Some? ==> r.value !in used && Chosen(thoughts, slug, used, i, r.value)
    ensures r.None? <==> Unroutable(thoughts, slug, used, i)
  {
    hide Shared, StemOf, Suffixed;
    var stem, id := StemOf(thoughts, slug, i), thoughts[i].id;
    var route := stem + "/";
    if Shared(thoughts, slug, stem) || route in used {
      var length := ShortLength(id);
      route := Suffixed(stem, id, length);
      while route in used
        invariant ShortLength(id) <= length <= |id| && route == Suffixed(stem, id, length)
        invariant forall l | ShortLength(id) <= l < length :: Suffixed(stem, id, l) in used
        decreases |id| - length
      {
        length := length + 1;
        if length > |id| {
          return None;
        }
        route := Suffixed(stem, id, length);
      }
    }
    r := Some(route);
  }

  function ShortLength(id: string): nat {
    if |id| < 8 then |id| else 8
  }

  function Suffixed(stem: string, id: string, length: nat): string
    requires length <= |id|
  {
    stem + "-" + Suffix(id, length) + "/"
  }

  // What the first n thoughts have taken, besides the reserved routes.
  function Taken(thoughts: seq<Thought>, routes: seq<string>, n: nat): set<string>
    requires n <= |routes|
  {
    Reserved(thoughts) + set i | 0 <= i < n :: routes[i]
  }

  // The plain route if nobody shares or took it, and else the shortest free suffix from eight on.
  ghost predicate Chosen(thoughts: seq<Thought>, slug: string -> string, taken: set<string>, i: nat, route: string)
    requires i < |thoughts|
  {
    var stem, id := StemOf(thoughts, slug, i), thoughts[i].id;
    if !Shared(thoughts, slug, stem) && stem + "/" !in taken then route == stem + "/"
    else
      && route !in taken
      && exists length :: ShortLength(id) <= length <= |id| && route == Suffixed(stem, id, length)
                          && forall l | ShortLength(id) <= l < length :: Suffixed(stem, id, l) in taken
  }

  ghost predicate Assigned(thoughts: seq<Thought>, slug: string -> string, routes: seq<string>) {
    |routes| <= |thoughts| && forall i | 0 <= i < |routes| ::
      Chosen(thoughts, slug, Taken(thoughts, routes, i), i, routes[i])
  }

  ghost predicate Stuck(thoughts: seq<Thought>, slug: string -> string, routes: seq<string>, id: string) {
    && |routes| < |thoughts| && thoughts[|routes|].id == id
    && Unroutable(thoughts, slug, Taken(thoughts, routes, |routes|), |routes|)
  }

  // A route that can be chosen is the only one.
  lemma {:induction false} ChosenOne(
      thoughts: seq<Thought>, slug: string -> string, taken: set<string>, i: nat, a: string, b: string)
    requires i < |thoughts| && Chosen(thoughts, slug, taken, i, a)
    ensures !Unroutable(thoughts, slug, taken, i)
    ensures Chosen(thoughts, slug, taken, i, b) ==> a == b
  {
    hide Shared, StemOf, Suffixed;
  }

  lemma {:induction false} AssignedAlike(
      thoughts: seq<Thought>, slug: string -> string, a: seq<string>, b: seq<string>, n: nat)
    requires Assigned(thoughts, slug, a) && Assigned(thoughts, slug, b) && n <= |a| && n <= |b|
    ensures forall i | 0 <= i < n :: a[i] == b[i]
    ensures Taken(thoughts, a, n) == Taken(thoughts, b, n)
  {
    hide Chosen, Taken;
    if n > 0 {
      AssignedAlike(thoughts, slug, a, b, n - 1);
      ChosenOne(thoughts, slug, Taken(thoughts, a, n - 1), n - 1, a[n - 1], b[n - 1]);
    }
    TakenAlike(thoughts, a, b, n);
  }

  lemma {:induction false} TakenAlike(thoughts: seq<Thought>, a: seq<string>, b: seq<string>, n: nat)
    requires n <= |a| && n <= |b| && forall i | 0 <= i < n :: a[i] == b[i]
    ensures Taken(thoughts, a, n) == Taken(thoughts, b, n)
  {
    hide Reserved;
    assert a[..n] == b[..n];
    TakenPrefix(thoughts, a[..n], a, n);
    TakenPrefix(thoughts, b[..n], b, n);
  }

  lemma {:induction false} NeverStuck(
      thoughts: seq<Thought>, slug: string -> string, routes: seq<string>, other: seq<string>, id: string)
    requires Assigned(thoughts, slug, routes) && |routes| == |thoughts| && Assigned(thoughts, slug, other)
    ensures !Stuck(thoughts, slug, other, id)
  {
    hide Chosen, Unroutable, Taken;
    var n := |other|;
    if n < |thoughts| {
      AssignedAlike(thoughts, slug, routes, other, n);
      ChosenOne(thoughts, slug, Taken(thoughts, routes, n), n, routes[n], routes[n]);
    }
  }

  lemma {:induction false} AssignedMore(
      thoughts: seq<Thought>, slug: string -> string, routes: seq<string>, route: string)
    requires |routes| < |thoughts| && Assigned(thoughts, slug, routes)
    requires Chosen(thoughts, slug, Taken(thoughts, routes, |routes|), |routes|, route)
    ensures Assigned(thoughts, slug, routes + [route])
  {
    hide Chosen, Reserved, Taken;
    forall i | 0 <= i <= |routes|
      ensures Taken(thoughts, routes + [route], i) == Taken(thoughts, routes, i)
    {
      TakenPrefix(thoughts, routes, routes + [route], i);
    }
  }

  lemma {:induction false} TakenPrefix(thoughts: seq<Thought>, routes: seq<string>, more: seq<string>, n: nat)
    requires n <= |routes| <= |more| && forall i | 0 <= i < |routes| :: more[i] == routes[i]
    ensures Taken(thoughts, more, n) == Taken(thoughts, routes, n)
  {
    hide Reserved;
    var a, b := set i | 0 <= i < n :: more[i], set i | 0 <= i < n :: routes[i];
    forall x
      ensures x in a <==> x in b
    {
      if x in a {
        var i :| 0 <= i < n && more[i] == x;
        assert routes[i] in b;
      }
      if x in b {
        var i :| 0 <= i < n && routes[i] == x;
        assert more[i] in a;
      }
    }
    assert a == b;
  }

  lemma {:induction false} TakenMore(thoughts: seq<Thought>, routes: seq<string>, route: string)
    ensures Taken(thoughts, routes + [route], |routes| + 1) == Taken(thoughts, routes, |routes|) + {route}
  {
    hide Reserved;
    var more := routes + [route];
    TakenPrefix(thoughts, routes, more, |routes|);
    assert forall x | x in Taken(thoughts, more, |more|) :: x in Taken(thoughts, more, |routes|) || x == more[|routes|];
    assert more[|routes|] in set i | 0 <= i < |more| :: more[i];
  }

  // `stems` is keyed by identifier, so the last thought with one decides.
  function StemOf(thoughts: seq<Thought>, slug: string -> string, i: nat): string
    requires i < |thoughts|
  {
    var t := ById(thoughts, |thoughts|, thoughts[i].id);
    if t.Some? then "/" + t.value.scope + "/" + slug(t.value.title) else ""
  }

  // More than one identifier has this stem.
  predicate Shared(thoughts: seq<Thought>, slug: string -> string, stem: string) {
    |set i | 0 <= i < |thoughts| && StemOf(thoughts, slug, i) == stem :: thoughts[i].id| > 1
  }

  // Python's `id[-length:]`.
  function Suffix(id: string, length: nat): string
    requires length <= |id|
  {
    if length == 0 then id else id[|id| - length..]
  }

  // ----- what a route says -------------------------------------------------------------------

  // Two thoughts of different identifiers would have this stem.
  lemma {:induction false} SharedExactly(thoughts: seq<Thought>, slug: string -> string, stem: string)
    ensures Shared(thoughts, slug, stem) <==>
              exists i, j | 0 <= i < |thoughts| && 0 <= j < |thoughts| ::
                && thoughts[i].id != thoughts[j].id
                && StemOf(thoughts, slug, i) == StemOf(thoughts, slug, j) == stem
  {
    hide StemOf;
    var ids := set i | 0 <= i < |thoughts| && StemOf(thoughts, slug, i) == stem :: thoughts[i].id;
    if i, j :| 0 <= i < |thoughts| && 0 <= j < |thoughts| && thoughts[i].id != thoughts[j].id
               && StemOf(thoughts, slug, i) == StemOf(thoughts, slug, j) == stem
    {
      assert thoughts[i].id in ids && thoughts[j].id in ids;
      assert {thoughts[i].id, thoughts[j].id} <= ids;
      Larger({thoughts[i].id, thoughts[j].id}, ids);
    }
    if |ids| > 1 {
      var a :| a in ids;
      assert |ids - {a}| > 0;
      var b :| b in ids - {a};
    }
  }

  lemma {:induction false} Larger(a: set<string>, b: set<string>)
    requires a <= b
    ensures |a| <= |b|
  {
    assert b == a + (b - a);
  }

  // A route is the scope and the slug of the title of the thought that the identifier names, and if
  // it is not plain, a suffix of the identifier after a hyphen.
  lemma {:induction false} RouteTells(thoughts: seq<Thought>, slug: string -> string, routes: seq<string>, i: nat)
    requires Assigned(thoughts, slug, routes) && i < |routes|
    ensures exists t | t in thoughts ::
              && t.id == thoughts[i].id
              && var stem := "/" + t.scope + "/" + slug(t.title);
                 || routes[i] == stem + "/"
                 || exists n | 0 <= n <= |t.id| ::
                      (|t.id| - n >= 8 || n == 0) && routes[i] == stem + "-" + t.id[n..] + "/"
  {
    hide Taken, Shared;
    FoundIn(thoughts, |thoughts|, thoughts[i].id);
    FoundAt(thoughts, |thoughts|, i);
    var t, id := ById(thoughts, |thoughts|, thoughts[i].id).value, thoughts[i].id;
    var stem := "/" + t.scope + "/" + slug(t.title);
    assert StemOf(thoughts, slug, i) == stem;
    assert Chosen(thoughts, slug, Taken(thoughts, routes, i), i, routes[i]);
    if routes[i] != stem + "/" {
      var length :| ShortLength(id) <= length <= |id| && routes[i] == Suffixed(stem, id, length);
      var n := if length == 0 then 0 else |id| - length;
      assert Suffix(id, length) == id[n..];
    }
  }

  lemma {:induction false} FoundIn(thoughts: seq<Thought>, n: nat, id: string)
    requires n <= |thoughts|
    ensures var t := ById(thoughts, n, id); t.Some? ==> t.value in thoughts && t.value.id == id
  {
    if n > 0 {
      FoundIn(thoughts, n - 1, id);
    }
  }

  lemma {:induction false} FoundAt(thoughts: seq<Thought>, n: nat, i: nat)
    requires i < n <= |thoughts|
    ensures ById(thoughts, n, thoughts[i].id).Some?
  {
    if i < n - 1 {
      FoundAt(thoughts, n - 1, i);
    }
  }
}
