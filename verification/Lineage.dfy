// What every view of the records keeps: who replaced whom, and what is current.
module Lineage {
  import opened Base
  import opened Texts
  import opened Records
  import opened Promotion

  type Births = map<string, nat>

  // p's backlink and q's forward link name each other's scope and identifier.
  ghost predicate Replaced(v: View, p: Path, q: Path)
    requires p in v && q in v
  {
    && v[p].fm.supersededBy == Some(v[q].fm.id) && v[p].fm.supersededScope == Some(q.scope)
    && v[q].fm.supersedesId == Some(v[p].fm.id) && v[q].fm.supersedesScope == Some(p.scope)
  }

  ghost predicate WellNamed(v: View, born: Births) {
    && (forall p | p in v :: p.file == v[p].fm.id && Bare(p.file) && p.scope != "" && p.file in born)
    && (forall p, q | p in v && q in v && p.file == q.file :: p == q)
  }

  // A record is born after the one it proposes to replace.
  ghost predicate Ordered(v: View, born: Births) {
    forall p | p in v && v[p].fm.supersedesId.Some? ::
      && p.file in born && v[p].fm.supersedesId.value in born && born[v[p].fm.supersedesId.value] < born[p.file]
      && Bare(v[p].fm.supersedesId.value) && Truthy(v[p].fm.supersedesScope)
  }

  // A backlink names an approved record that names this one.
  ghost predicate BacklinksApproved(v: View) {
    forall p | p in v && v[p].fm.supersededBy.Some? ::
      exists q :: q in v && v[q].fm.status.Approved? && Replaced(v, p, q)
  }

  ghost predicate ScopeNeedsBacklink(v: View) {
    forall p | p in v && v[p].fm.supersededBy.None? :: v[p].fm.supersededScope.None?
  }

  // An approved replacement has marked its predecessor.
  ghost predicate ApprovedMarked(v: View) {
    forall q | q in v && v[q].fm.status.Approved? && v[q].fm.supersedesId.Some? ::
      exists p :: p in v && Replaced(v, p, q)
  }

  ghost predicate Trimmed(v: View) {
    forall p | p in v :: Trim(v[p].content)
  }

  ghost predicate ViewOk(v: View, born: Births) {
    && WellNamed(v, born) && Ordered(v, born) && BacklinksApproved(v) && ScopeNeedsBacklink(v)
    && ApprovedMarked(v) && Trimmed(v)
  }

  // Approved records stay where and what they are, except that a missing
  // backlink may appear; and no record ever loses its backlink.
  ghost predicate Stable(v: View, w: View) {
    && (forall p | p in v && v[p].fm.status.Approved? :: p in w && Remains(v[p], w[p]))
    && (forall p | p in v && v[p].fm.supersededBy.Some? :: exists q :: q in w && KeepsBacklink(v, p, w, q))
  }

  ghost predicate Remains(r: Record, s: Record) {
    && s == r.(fm := r.fm.(supersededBy := s.fm.supersededBy, supersededScope := s.fm.supersededScope))
    && (r.fm.supersededBy.Some? ==> s == r)
  }

  ghost predicate KeepsBacklink(v: View, p: Path, w: View, q: Path)
    requires p in v && q in w
  {
    q.file == p.file && q.scope == p.scope && w[q].fm.supersededBy == v[p].fm.supersededBy
  }

  lemma {:induction false} StableTransitive(u: View, v: View, w: View)
    requires Stable(u, v) && Stable(v, w)
    ensures Stable(u, w)
  {
    forall p | p in u && u[p].fm.supersededBy.Some?
      ensures exists q :: q in w && KeepsBacklink(u, p, w, q)
    {
      var q :| q in v && KeepsBacklink(u, p, v, q);
      var r :| r in w && KeepsBacklink(v, q, w, r);
      assert KeepsBacklink(u, p, w, r);
    }
  }

  lemma {:induction false} StableRefl(v: View)
    ensures Stable(v, v)
  {
    forall p | p in v && v[p].fm.supersededBy.Some?
      ensures exists q :: q in v && KeepsBacklink(v, p, v, q)
    {
      assert KeepsBacklink(v, p, v, p);
    }
  }

  // ----- snapshots of a view --------------------------------------------------------------

  // `items` lists the view, in any order.
  ghost predicate Lists(items: seq<Item>, v: View) {
    && (forall i | 0 <= i < |items| :: items[i].path in v && v[items[i].path] == items[i].record)
    && (forall p | p in v :: exists i :: 0 <= i < |items| && items[i].path == p)
    && (forall i, j | 0 <= i < j < |items| :: items[i].path != items[j].path)
  }

  // In a well-formed view the index answers a backlink with the very record.
  lemma {:induction false} LookupUnique(v: View, born: Births, items: seq<Item>, q: Path)
    requires WellNamed(v, born) && Lists(items, v) && q in v
    ensures Get(Index(items), Qualified(q.scope, q.file)) == Some(v[q])
    ensures BareIds(items)
  {
    forall i | 0 <= i < |items| ensures Bare(items[i].record.fm.id) {
      assert items[i].path in v;
    }
    IndexAnswers(items, q.scope, q.file);
    LastNamedSome(items, |items|, q.scope, q.file);
    var i :| 0 <= i < |items| && items[i].path == q;
    assert Named(items[i], q.scope, q.file);
    var k :| 0 <= k < |items| && Named(items[k], q.scope, q.file)
             && items[k].record == LastNamed(items, |items|, q.scope, q.file).value;
    assert items[k].path in v && items[k].path.file == q.file;
  }

  ghost predicate Visible(v: View, items: seq<Item>, p: Path)
    requires p in v
  {
    DEFAULT_VIEW.Allows(v[p], Index(items))
  }

  // Default readers see exactly the approved records without a backlink.
  lemma {:induction false} VisibleExactly(v: View, born: Births, items: seq<Item>, p: Path)
    requires ViewOk(v, born) && Lists(items, v) && p in v
    ensures EffectivelySuperseded(v[p], Index(items)) <==> v[p].fm.supersededBy.Some?
    ensures Visible(v, items, p) <==> v[p].fm.status.Approved? && v[p].fm.supersededBy.None?
  {
    if v[p].fm.supersededBy.Some? {
      BacklinkFound(v, born, items, p);
    } else {
      NoneNotFound(v, born, items, v[p]);
    }
  }

  lemma {:induction false} BacklinkFound(v: View, born: Births, items: seq<Item>, p: Path)
    requires WellNamed(v, born) && BacklinksApproved(v) && Lists(items, v) && p in v && v[p].fm.supersededBy.Some?
    ensures EffectivelySuperseded(v[p], Index(items))
  {
    var q :| q in v && v[q].fm.status.Approved? && Replaced(v, p, q);
    LookupUnique(v, born, items, q);
    assert SuccessorKey(v[p]) == Qualified(q.scope, q.file);
  }

  // Without a backlink the looked-up key is empty or spells an identifier that
  // stands for no record.
  lemma {:induction false} NoneNotFound(v: View, born: Births, items: seq<Item>, r: Record)
    requires WellNamed(v, born) && Lists(items, v) && r.fm.supersededBy.None? && r.fm.supersededScope.None?
    ensures SuccessorKey(r) !in Index(items)
  {
    EmptyKey(items, |items|);
    forall i | 0 <= i < |items| ensures items[i].record.fm.id != "" {
      assert items[i].path in v;
    }
  }

  lemma {:induction false} EmptyKey(items: seq<Item>, n: nat)
    requires n <= |items|
    ensures "" in EnterAll(items, n).index ==> exists i :: 0 <= i < n && items[i].record.fm.id == ""
  {
    if n > 0 {
      EmptyKey(items, n - 1);
    }
  }
}
