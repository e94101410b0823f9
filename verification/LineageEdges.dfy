// The edges of the reader's lineage, told from the thoughts' own fields.
module LineageEdges {
  import opened Base
  import opened Records
  import opened RichViews

  // The thought stores a reference of this kind to this identifier, in this scope.
  ghost predicate Stores(t: Thought, kind: string, dest: string, scope: Option<string>) {
    && dest != ""
    && (|| (kind == "parent" && t.parentId == Some(dest)
            && scope == if t.parentId == t.supersedesId then t.supersedesScope else None)
        || (kind == (if t.isSuperseded then "superseded by" else "replacement link (not effective)")
            && t.supersededBy == Some(dest) && scope == t.supersededScope)
        || (kind == (if t.approved then "supersedes" else "replacement proposal for")
            && t.supersedesId == Some(dest) && scope == t.supersedesScope))
  }

  lemma {:induction false} StoredEdges(t: Thought, e: Raw)
    ensures e in EdgesOf(t) <==> e.source == t.id && Stores(t, e.kind, e.dest, e.destScope)
  {
  }

  lemma {:induction false} AllStored(thoughts: seq<Thought>, n: nat, e: Raw)
    requires n <= |thoughts|
    ensures e in AllEdges(thoughts, n) <==>
              exists i | 0 <= i < n :: e.source == thoughts[i].id && Stores(thoughts[i], e.kind, e.dest, e.destScope)
  {
    hide EdgesOf, Stores;
    if n > 0 {
      AllStored(thoughts, n - 1, e);
      StoredEdges(thoughts[n - 1], e);
    }
  }

  // The last thought with an identifier.
  ghost predicate Latest(thoughts: seq<Thought>, id: string, i: nat) {
    i < |thoughts| && thoughts[i].id == id && forall j | i < j < |thoughts| :: thoughts[j].id != id
  }

  // The thought a reference leads to, if its scope is the one that was named.
  ghost predicate LeadsTo(thoughts: seq<Thought>, id: string, scope: Option<string>, i: nat) {
    Latest(thoughts, id, i) && (scope.Some? && scope.value != "" ==> thoughts[i].scope == scope.value)
  }

  lemma {:induction false} LatestFound(thoughts: seq<Thought>, n: nat, id: string)
    requires n <= |thoughts|
    ensures ById(thoughts, n, id).None? <==> forall i | 0 <= i < n :: thoughts[i].id != id
    ensures forall i | 0 <= i < n && thoughts[i].id == id && (forall j | i < j < n :: thoughts[j].id != id) ::
              ById(thoughts, n, id) == Some(thoughts[i])
    ensures ById(thoughts, n, id).Some? ==>
              exists i | 0 <= i < n ::
                && thoughts[i].id == id && (forall j | i < j < n :: thoughts[j].id != id)
                && ById(thoughts, n, id) == Some(thoughts[i])
  {
    if n > 0 {
      LatestFound(thoughts, n - 1, id);
    }
  }

  // What the reader's data say of it: its title, route and scope, and of one that leads nowhere no
  // more than its identifier and the scope that was named.
  ghost predicate Described(thoughts: seq<Thought>, id: string, scope: Option<string>, t: Target) {
    && t.id == id
    && (t.resolved <==> exists i: nat :: LeadsTo(thoughts, id, scope, i))
    && (forall i: nat | LeadsTo(thoughts, id, scope, i) ::
          t.title == thoughts[i].title && t.route == Some(thoughts[i].route) && t.scope == Some(thoughts[i].scope))
    && (!t.resolved ==>
          t.title == id && t.route == None
          && t.scope == if scope.Some? && scope.value != "" then scope else None)
  }

  lemma {:induction false} TargetDescribed(thoughts: seq<Thought>, id: string, scope: Option<string>)
    ensures Described(thoughts, id, scope, TargetOf(thoughts, id, scope))
  {
    hide ById;
    LatestFound(thoughts, |thoughts|, id);
    var t := TargetOf(thoughts, id, scope);
    forall i: nat | LeadsTo(thoughts, id, scope, i)
      ensures t == Target(id, thoughts[i].title, Some(thoughts[i].route), true, Some(thoughts[i].scope))
    {
      assert ById(thoughts, |thoughts|, id) == Some(thoughts[i]);
    }
    if t.resolved {
      var i :| && 0 <= i < |thoughts| && thoughts[i].id == id && (forall j | i < j < |thoughts| :: thoughts[j].id != id)
               && ById(thoughts, |thoughts|, id) == Some(thoughts[i]);
      assert LeadsTo(thoughts, id, scope, i);
    }
  }

  lemma {:induction false} DescribedOnce(
      thoughts: seq<Thought>, id: string, scope: Option<string>, t: Target, t': Target)
    requires Described(thoughts, id, scope, t) && Described(thoughts, id, scope, t')
    ensures t == t'
  {
  }

  // Two identifiers are neighbours if a thought with one stores a reference that leads to the other.
  lemma {:induction false} NeighboursExactly(thoughts: seq<Thought>, u: string, v: string)
    ensures Adjacent(thoughts, AllEdges(thoughts, |thoughts|), u, v) <==>
              exists i: nat, kind, dest, scope, j: nat ::
                && i < |thoughts| && Stores(thoughts[i], kind, dest, scope) && LeadsTo(thoughts, dest, scope, j)
                && ((u == thoughts[i].id && v == dest) || (u == dest && v == thoughts[i].id))
  {
    hide AllEdges, Stores, LeadsTo, TargetOf;
    var edges := AllEdges(thoughts, |thoughts|);
    if e :| e in edges && Resolved(thoughts, e) && ((u == e.source && v == e.dest) || (u == e.dest && v == e.source)) {
      AllStored(thoughts, |thoughts|, e);
      TargetDescribed(thoughts, e.dest, e.destScope);
      var i :| 0 <= i < |thoughts| && e.source == thoughts[i].id && Stores(thoughts[i], e.kind, e.dest, e.destScope);
      var j: nat :| LeadsTo(thoughts, e.dest, e.destScope, j);
      assert Stores(thoughts[i], e.kind, e.dest, e.destScope) && LeadsTo(thoughts, e.dest, e.destScope, j);
    }
    if i: nat, kind, dest, scope, j: nat :|
      && i < |thoughts| && Stores(thoughts[i], kind, dest, scope) && LeadsTo(thoughts, dest, scope, j)
      && ((u == thoughts[i].id && v == dest) || (u == dest && v == thoughts[i].id))
    {
      var e := Raw(thoughts[i].id, kind, dest, scope);
      AllStored(thoughts, |thoughts|, e);
      TargetDescribed(thoughts, dest, scope);
      assert e in edges && Resolved(thoughts, e);
    }
  }

  // An edge is listed exactly when some thought stores it and its source or the thought it leads to
  // is connected to the start; and it describes both of its ends.
  lemma {:induction false} ListedExactly(thoughts: seq<Thought>, start: string, edge: Edge)
    ensures Belongs(thoughts, AllEdges(thoughts, |thoughts|), start, edge) <==>
              exists i: nat, dest, scope ::
                && i < |thoughts| && Stores(thoughts[i], edge.kind, dest, scope)
                && (Connected(thoughts, AllEdges(thoughts, |thoughts|), start, thoughts[i].id)
                    || (Connected(thoughts, AllEdges(thoughts, |thoughts|), start, dest)
                        && exists j: nat :: LeadsTo(thoughts, dest, scope, j)))
                && Described(thoughts, thoughts[i].id, None, edge.source)
                && Described(thoughts, dest, scope, edge.target)
  {
    hide AllEdges, Stores, LeadsTo, TargetOf, Connected, Described;
    var edges := AllEdges(thoughts, |thoughts|);
    if e, v :|
      e in edges && Connected(thoughts, edges, start, v) && Touches(thoughts, e, v) && edge == Project(thoughts, e)
    {
      AllStored(thoughts, |thoughts|, e);
      TargetDescribed(thoughts, e.source, None);
      TargetDescribed(thoughts, e.dest, e.destScope);
      ResolvedLeads(thoughts, e.dest, e.destScope);
    }
    if i: nat, dest, scope :|
      && i < |thoughts| && Stores(thoughts[i], edge.kind, dest, scope)
      && (Connected(thoughts, edges, start, thoughts[i].id)
          || (Connected(thoughts, edges, start, dest) && exists j: nat :: LeadsTo(thoughts, dest, scope, j)))
      && Described(thoughts, thoughts[i].id, None, edge.source) && Described(thoughts, dest, scope, edge.target)
    {
      var e := Raw(thoughts[i].id, edge.kind, dest, scope);
      AllStored(thoughts, |thoughts|, e);
      TargetDescribed(thoughts, e.source, None);
      TargetDescribed(thoughts, e.dest, e.destScope);
      DescribedOnce(thoughts, e.source, None, edge.source, TargetOf(thoughts, e.source, None));
      DescribedOnce(thoughts, dest, scope, edge.target, TargetOf(thoughts, dest, scope));
      ResolvedLeads(thoughts, dest, scope);
      assert Touches(thoughts, e, if Connected(thoughts, edges, start, thoughts[i].id) then thoughts[i].id else dest);
    }
  }

  lemma {:induction false} ResolvedLeads(thoughts: seq<Thought>, id: string, scope: Option<string>)
    ensures TargetOf(thoughts, id, scope).resolved <==> exists j: nat :: LeadsTo(thoughts, id, scope, j)
  {
    hide TargetOf, LeadsTo;
    TargetDescribed(thoughts, id, scope);
  }
}
