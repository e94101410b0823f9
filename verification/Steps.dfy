// Every transition keeps every view well formed and approved records in place.
module Steps {
  import opened Base
  import opened Trees
  import opened Texts
  import opened Records
  import opened Promotion
  import opened Lineage
  import H = Hooks

  // ----- drafts --------------------------------------------------------------------------

  ghost predicate Extends(born: Births, born': Births) {
    forall id | id in born :: id in born' && born'[id] == born[id]
  }

  // A new draft: its identifier is fresh, and any predecessor was born before it.
  ghost predicate NewDraft(born: Births, path: Path, r: Record) {
    && path.file == r.fm.id && Bare(path.file) && path.scope != "" && path.file in born
    && r.fm.status.Draft? && r.fm.supersededBy.None? && r.fm.supersededScope.None? && Trim(r.content)
    && (r.fm.supersedesId.Some? ==>
          && r.fm.supersedesId.value in born && born[r.fm.supersedesId.value] < born[path.file]
          && Bare(r.fm.supersedesId.value) && Truthy(r.fm.supersedesScope))
  }

  lemma {:induction false} AddKeeps(v: View, born: Births, born': Births, path: Path, r: Record)
    requires ViewOk(v, born) && Extends(born, born') && path.file !in born && NewDraft(born', path, r)
    ensures ViewOk(v[path := r], born') && Stable(v, v[path := r])
  {
    hide NewDraft, Extends, WellNamed, Ordered, BacklinksApproved, ScopeNeedsBacklink, ApprovedMarked, Trimmed, Stable;
    AddNames(v, born, born', path, r);
    AddPairs(v, path, r);
    KeepReplaced(v, v[path := r]);
  }

  lemma {:induction false} AddNames(v: View, born: Births, born': Births, path: Path, r: Record)
    requires WellNamed(v, born) && Ordered(v, born) && ScopeNeedsBacklink(v) && Trimmed(v)
    requires Extends(born, born') && path.file !in born && NewDraft(born', path, r)
    ensures var w := v[path := r];
            WellNamed(w, born') && Ordered(w, born') && ScopeNeedsBacklink(w) && Trimmed(w)
    ensures path !in v && r.fm.supersededBy.None? && !r.fm.status.Approved?
  {
    hide Bare, Trim, Truthy;
  }

  lemma {:induction false} AddPairs(v: View, path: Path, r: Record)
    requires BacklinksApproved(v) && ApprovedMarked(v)
    requires path !in v && r.fm.supersededBy.None? && !r.fm.status.Approved?
    ensures BacklinksApproved(v[path := r]) && ApprovedMarked(v[path := r])
  {
    hide Replaced;
    var w := v[path := r];
    forall p | p in w && w[p].fm.supersededBy.Some?
      ensures exists q :: q in w && w[q].fm.status.Approved? && Replaced(w, p, q)
    {
      var q :| q in v && v[q].fm.status.Approved? && Replaced(v, p, q);
      StillReplaced(v, w, p, q);
    }
    forall q | q in w && w[q].fm.status.Approved? && w[q].fm.supersedesId.Some?
      ensures exists p :: p in w && Replaced(w, p, q)
    {
      var p :| p in v && Replaced(v, p, q);
      StillReplaced(v, w, p, q);
    }
  }

  lemma {:induction false} StillReplaced(v: View, w: View, p: Path, q: Path)
    requires p in v && q in v && p in w && q in w && w[p] == v[p] && w[q] == v[q] && Replaced(v, p, q)
    ensures Replaced(w, p, q)
  {
  }

  // Records present in both views keep their backlinks.
  lemma {:induction false} KeepReplaced(v: View, w: View)
    requires forall p | p in v :: p in w && w[p] == v[p]
    ensures Stable(v, w)
  {
    forall p | p in v && v[p].fm.supersededBy.Some?
      ensures exists q :: q in w && KeepsBacklink(v, p, w, q)
    {
      assert KeepsBacklink(v, p, w, p);
    }
  }

  lemma {:induction false} UpdateKeeps(v: View, born: Births, path: Path, content: string)
    requires ViewOk(v, born) && path in v && Updatable(v[path])
    ensures var w := v[path := Stored(v[path].(content := content))]; ViewOk(w, born) && Stable(v, w)
  {
    StripTrims(content);
    var w := v[path := Stored(v[path].(content := content))];
    assert forall p | p in v :: p in w && w[p].fm == v[p].fm;
    SameFrontmatter(v, w, born);
    forall p | p in v && v[p].fm.supersededBy.Some?
      ensures exists q :: q in w && KeepsBacklink(v, p, w, q)
    {
      assert KeepsBacklink(v, p, w, p);
    }
  }

  lemma {:induction false} SameFrontmatter(v: View, w: View, born: Births)
    requires ViewOk(v, born) && v.Keys == w.Keys && Trimmed(w)
    requires forall p | p in v :: w[p].fm == v[p].fm
    ensures ViewOk(w, born)
  {
    forall p | p in w && w[p].fm.supersededBy.Some?
      ensures exists q :: q in w && w[q].fm.status.Approved? && Replaced(w, p, q)
    {
      var q :| q in v && v[q].fm.status.Approved? && Replaced(v, p, q);
      assert Replaced(w, p, q);
    }
    forall q | q in w && w[q].fm.status.Approved? && w[q].fm.supersedesId.Some?
      ensures exists p :: p in w && Replaced(w, p, q)
    {
      var p :| p in v && Replaced(v, p, q);
      assert Replaced(w, p, q);
    }
  }

  // ----- promotion: what a transaction contains ---------------------------------------------

  // The fields no hook and no verdict can touch.
  ghost predicate SameLinks(a: Record, b: Record) {
    && a.fm.id == b.fm.id && a.fm.parentId == b.fm.parentId
    && a.fm.supersededBy == b.fm.supersededBy && a.fm.supersededScope == b.fm.supersededScope
    && a.fm.supersedesId == b.fm.supersedesId && a.fm.supersedesScope == b.fm.supersedesScope
  }

  ghost predicate Reviewable(q: Request) {
    && !q.record.fm.status.Approved? && !q.record.fm.status.Tombstoned?
    && (q.reviewed.Some? ==> q.reviewed.value == q.record)
  }

  // At most five patches lie between the record read and the record judged.
  lemma {:induction false} HooksOnlyPatch(q: Request)
    requires PassHooks(q).Ok?
    ensures var g := PassHooks(q).value;
            && |g.applied| <= H.MAX_MUTATIONS_PER_PIPELINE
            && g.record == H.Patched(q.record, g.applied, |g.applied|)
            && H.SameIdentity(q.record, g.record)
  {
    if q.hooks != [] {
      var event := H.Event(H.BeforePropose, Some(q.record), []);
      H.RunFromSound(event, q.hooks, 0, H.Start(event));
    }
    var g := PassHooks(q).value;
    H.PatchedKeepsIdentity(q.record, g.applied, |g.applied|);
  }

  // What gets written is what was read, patched, judged.
  lemma {:induction false} TransactionRecord(q: Request, items: seq<Item>)
    requires Propose(q, items).Transaction?
    ensures var d := Propose(q, items);
            && Reviewable(q) && SameLinks(q.record, d.record)
            && |d.applied| <= H.MAX_MUTATIONS_PER_PIPELINE
            && d.record == Judged(H.Patched(q.record, d.applied, |d.applied|), q.review)
            && (d.target == q.source || (d.target.scope == q.trail && d.target.file == q.record.fm.id))
  {
    HooksOnlyPatch(q);
    var g := PassHooks(q).value;
    assert Propose(q, items) == Conclude(q, items, g);
  }

  function Moved(v: View, source: Path, target: Path, r: Record): View {
    (v - {source})[target := r]
  }

  lemma {:induction false} PlainTransaction(q: Request, items: seq<Item>, v: View)
    requires Propose(q, items).Transaction? && !Replaces(Propose(q, items).record)
    ensures var d := Propose(q, items);
            && d.expected == map[q.source := q.record]
            && Apply(v, d.writes) == Moved(v, q.source, d.target, Stored(d.record))
  {
    var d := Propose(q, items);
    assert d.writes == Assign(Assign([], q.source, None), d.target, Some(Stored(d.record)));
    MoveWrites(v, q.source, d.target, Stored(d.record));
  }

  lemma {:induction false} MoveWrites(v: View, source: Path, target: Path, r: Record)
    ensures var ws := Assign(Assign([], source, None), target, Some(r));
            && ws == (if source == target then [Write(target, Some(r))]
                      else [Write(source, None), Write(target, Some(r))])
            && Apply(v, ws) == Moved(v, source, target, r)
  {
    var ws := Assign(Assign([], source, None), target, Some(r));
    assert Assign([], source, None) == [Write(source, None)];
    if source == target {
      assert ws == [Write(target, Some(r))];
      assert ApplyTo(v, ws, 1) == Put(ApplyTo(v, ws, 0), ws[0]);
    } else {
      var first: Writes := [Write(source, None)];
      assert Assign(first, target, Some(r), 1) == first + [Write(target, Some(r))];
      assert ws == [Write(source, None), Write(target, Some(r))];
      assert ApplyTo(v, ws, 1) == Put(v, ws[0]);
      assert ApplyTo(v, ws, 2) == Put(Put(v, ws[0]), ws[1]);
    }
  }

  lemma {:induction false} CandidatesSound(items: seq<Item>, scope: string, id: string, n: nat)
    requires n <= |items|
    ensures forall k | 0 <= k < |Candidates(items, scope, id, n)| ::
              var c := Candidates(items, scope, id, n)[k]; c in items && c.record.fm.id == id && c.path.scope == scope
  {
    if n > 0 {
      CandidatesSound(items, scope, id, n - 1);
    }
  }

  lemma {:induction false} ReplacingTransaction(q: Request, items: seq<Item>, v: View) returns (original: Item)
    requires Propose(q, items).Transaction? && Replaces(Propose(q, items).record)
    ensures var d := Propose(q, items);
            && original in items && original.record.fm.id == d.record.fm.supersedesId.value
            && original.path.scope == PredecessorScope(q, d.record)
            && !EffectivelySuperseded(original.record, Index(items))
            && d.expected == map[q.source := q.record][original.path := original.record]
            && (original.path != q.source && original.path != d.target ==>
                  Apply(v, d.writes) == Moved(v, q.source, d.target, Stored(d.record))
                                          [original.path := Stored(Linked(original.record, d.record.fm.id, q.trail))])
  {
    var d := Propose(q, items);
    var scope, id := PredecessorScope(q, d.record), d.record.fm.supersedesId.value;
    var candidates := Candidates(items, scope, id, |items|);
    CandidatesSound(items, scope, id, |items|);
    original := candidates[0];
    MoveWrites(v, q.source, d.target, Stored(d.record));
    var ws := Assign(Assign([], q.source, None), d.target, Some(Stored(d.record)));
    var linked := Stored(Linked(original.record, d.record.fm.id, q.trail));
    assert d.writes == Assign(ws, original.path, Some(linked));
    if original.path != q.source && original.path != d.target {
      AssignNew(ws, original.path, linked);
      ApplyAppend(v, ws, Write(original.path, Some(linked)));
    }
  }

  lemma {:induction false} AssignNew(ws: Writes, path: Path, r: Record)
    requires |ws| <= 2 && forall k | 0 <= k < |ws| :: ws[k].key != path
    ensures Assign(ws, path, Some(r)) == ws + [Write(path, Some(r))]
  {
    AssignNewFrom(ws, path, r, 0);
  }

  lemma {:induction false} AssignNewFrom(ws: Writes, path: Path, r: Record, i: nat)
    requires i <= |ws| && forall k | 0 <= k < |ws| :: ws[k].key != path
    ensures Assign(ws, path, Some(r), i) == ws + [Write(path, Some(r))]
    decreases |ws| - i
  {
    if i < |ws| {
      AssignNewFrom(ws, path, r, i + 1);
    }
  }

  lemma {:induction false} ApplyPrefix(v: View, ws: Writes, w: Write<Path, Record>, n: nat)
    requires n <= |ws|
    ensures ApplyTo(v, ws + [w], n) == ApplyTo(v, ws, n)
  {
    if n > 0 {
      ApplyPrefix(v, ws, w, n - 1);
    }
  }

  lemma {:induction false} ApplyAppend(v: View, ws: Writes, w: Write<Path, Record>)
    ensures Apply(v, ws + [w]) == Put(Apply(v, ws), w)
  {
    ApplyPrefix(v, ws, w, |ws|);
  }

  // ----- promotion keeps the invariant ---------------------------------------------------------

  // A record that is not approved moves within its scope and may change status.
  ghost predicate Moves(v: View, source: Path, target: Path, r: Record) {
    && source in v && !v[source].fm.status.Approved? && SameLinks(v[source], r) && Trim(r.content)
    && target.scope == source.scope && target.file == source.file
  }

  // The path a record has after the move.
  function Whither(source: Path, target: Path, p: Path): Path {
    if p == source then target else p
  }

  lemma {:induction false} MoveKeepsPairs(
      v: View, born: Births, source: Path, target: Path, r: Record, p: Path, q: Path)
    requires WellNamed(v, born) && Moves(v, source, target, r) && p in v && q in v && Replaced(v, p, q)
    ensures var w := Moved(v, source, target, r);
            var p', q' := Whither(source, target, p), Whither(source, target, q);
            p' in w && q' in w && Replaced(w, p', q')
  {
    assert target in v ==> target == source;
  }

  lemma {:induction false} MoveNames(v: View, born: Births, source: Path, target: Path, r: Record)
    requires WellNamed(v, born) && Ordered(v, born) && Moves(v, source, target, r)
    requires ScopeNeedsBacklink(v) && Trimmed(v)
    ensures var w := Moved(v, source, target, r);
            WellNamed(w, born) && Ordered(w, born) && ScopeNeedsBacklink(w) && Trimmed(w)
  {
    assert target in v ==> target == source;
  }

  lemma {:induction false} MoveBacklinks(v: View, born: Births, source: Path, target: Path, r: Record)
    requires WellNamed(v, born) && BacklinksApproved(v) && Moves(v, source, target, r)
    ensures BacklinksApproved(Moved(v, source, target, r))
  {
    var w := Moved(v, source, target, r);
    forall p' | p' in w && w[p'].fm.supersededBy.Some?
      ensures exists q :: q in w && w[q].fm.status.Approved? && Replaced(w, p', q)
    {
      var p := if p' == target then source else p';
      var q :| q in v && v[q].fm.status.Approved? && Replaced(v, p, q);
      MoveKeepsPairs(v, born, source, target, r, p, q);
      assert Whither(source, target, q) == q && w[q] == v[q];
    }
  }

  lemma {:induction false} MoveStable(v: View, born: Births, source: Path, target: Path, r: Record)
    requires WellNamed(v, born) && Moves(v, source, target, r)
    ensures Stable(v, Moved(v, source, target, r))
  {
    var w := Moved(v, source, target, r);
    assert target in v ==> target == source;
    forall p | p in v && v[p].fm.supersededBy.Some?
      ensures exists q :: q in w && KeepsBacklink(v, p, w, q)
    {
      assert KeepsBacklink(v, p, w, Whither(source, target, p));
    }
  }

  // Every approved replacement but possibly the moved one is marked already.
  lemma {:induction false} MoveMarks(v: View, born: Births, source: Path, target: Path, r: Record, q: Path)
    requires WellNamed(v, born) && ApprovedMarked(v) && Moves(v, source, target, r)
    requires q in Moved(v, source, target, r) && q != target
    ensures var w := Moved(v, source, target, r);
            w[q].fm.status.Approved? && w[q].fm.supersedesId.Some? ==> exists p :: p in w && Replaced(w, p, q)
  {
    var w := Moved(v, source, target, r);
    if w[q].fm.status.Approved? && w[q].fm.supersedesId.Some? {
      var p :| p in v && Replaced(v, p, q);
      MoveKeepsPairs(v, born, source, target, r, p, q);
      assert Replaced(w, Whither(source, target, p), q);
    }
  }

  // A promotion that replaces nothing.
  lemma {:induction false} MoveKeeps(v: View, born: Births, source: Path, target: Path, r: Record)
    requires ViewOk(v, born) && Moves(v, source, target, r) && !Replaces(r)
    ensures var w := Moved(v, source, target, r); ViewOk(w, born) && Stable(v, w)
  {
    var w := Moved(v, source, target, r);
    MoveNames(v, born, source, target, r);
    MoveBacklinks(v, born, source, target, r);
    MoveStable(v, born, source, target, r);
    forall q | q in w && w[q].fm.status.Approved? && w[q].fm.supersedesId.Some?
      ensures exists p :: p in w && Replaced(w, p, q)
    {
      assert q != target;
      MoveMarks(v, born, source, target, r, q);
    }
  }

  // The predecessor, still unmarked, gets its backlink.
  ghost predicate Marks(v: View, source: Path, r: Record, original: Path) {
    && original in v && original != source && v[original].fm.supersededBy.None?
    && r.fm.status.Approved? && r.fm.supersedesId == Some(original.file) && r.fm.supersedesScope == Some(original.scope)
  }

  // A promotion that replaces `original`.
  lemma {:induction false} ReplaceKeeps(v: View, born: Births, source: Path, target: Path, r: Record, original: Path)
    requires ViewOk(v, born) && Moves(v, source, target, r) && Marks(v, source, r, original)
    ensures var w := Moved(v, source, target, r)[original := Linked(v[original], r.fm.id, target.scope)];
            ViewOk(w, born) && Stable(v, w) && Replaced(w, original, target)
  {
    var m := Moved(v, source, target, r);
    MoveNames(v, born, source, target, r);
    MoveBacklinks(v, born, source, target, r);
    MoveStable(v, born, source, target, r);
    assert original in m && m[original] == v[original] && original != target by {
      assert target in v ==> target == source;
    }
    forall q | q in m && q != target && m[q].fm.status.Approved? && m[q].fm.supersedesId.Some?
      ensures exists p :: p in m && Replaced(m, p, q)
    {
      MoveMarks(v, born, source, target, r, q);
    }
    MarkCompletes(m, born, original, target);
    var o := Linked(v[original], r.fm.id, target.scope);
    MarkStable(m, original, o);
    StableTransitive(v, m, m[original := o]);
  }

  // Between the move and the mark only the new replacement lacks its backlink.
  ghost predicate NearlyOk(m: View, born: Births, original: Path, target: Path) {
    && WellNamed(m, born) && Ordered(m, born) && ScopeNeedsBacklink(m) && Trimmed(m) && BacklinksApproved(m)
    && original in m && target in m && original != target && m[original].fm.supersededBy.None?
    && m[target].fm.status.Approved?
    && m[target].fm.supersedesId == Some(original.file) && m[target].fm.supersedesScope == Some(original.scope)
    && forall q | q in m && q != target && m[q].fm.status.Approved? && m[q].fm.supersedesId.Some? ::
         exists p :: p in m && Replaced(m, p, q)
  }

  function Marked(m: View, original: Path, target: Path): View
    requires original in m && target in m
  {
    m[original := Linked(m[original], m[target].fm.id, target.scope)]
  }

  lemma {:induction false} MarkCompletes(m: View, born: Births, original: Path, target: Path)
    requires NearlyOk(m, born, original, target)
    ensures var w := Marked(m, original, target); ViewOk(w, born) && Replaced(w, original, target)
  {
    hide Marked, NearlyOk;
    MarkNames(m, born, original, target);
    MarkBacklinks(m, born, original, target);
    MarkMarks(m, born, original, target);
  }

  lemma {:induction false} MarkNames(m: View, born: Births, original: Path, target: Path)
    requires NearlyOk(m, born, original, target)
    ensures var w := Marked(m, original, target);
            WellNamed(w, born) && Ordered(w, born) && ScopeNeedsBacklink(w) && Trimmed(w)
  {
    hide BacklinksApproved, Replaced, Trim, Bare, WellNamed, Ordered, Trimmed;
    SameNames(m, Marked(m, original, target), born);
  }

  // What a backlink leaves as it was.
  lemma {:induction false} SameNames(m: View, w: View, born: Births)
    requires WellNamed(m, born) && Ordered(m, born) && Trimmed(m) && w.Keys == m.Keys
    requires forall p | p in m ::
               && w[p].fm.id == m[p].fm.id && w[p].content == m[p].content
               && w[p].fm.supersedesId == m[p].fm.supersedesId && w[p].fm.supersedesScope == m[p].fm.supersedesScope
    ensures WellNamed(w, born) && Ordered(w, born) && Trimmed(w)
  {
    hide Trim, Bare;
  }

  lemma {:induction false} MarkBacklinks(m: View, born: Births, original: Path, target: Path)
    requires NearlyOk(m, born, original, target)
    ensures var w := Marked(m, original, target); BacklinksApproved(w) && Replaced(w, original, target)
  {
    var w := Marked(m, original, target);
    assert Replaced(w, original, target);
    forall p | p in w && w[p].fm.supersededBy.Some?
      ensures exists q :: q in w && w[q].fm.status.Approved? && Replaced(w, p, q)
    {
      if p != original {
        var q :| q in m && m[q].fm.status.Approved? && Replaced(m, p, q);
        assert Replaced(w, p, q);
      }
    }
  }

  lemma {:induction false} MarkMarks(m: View, born: Births, original: Path, target: Path)
    requires NearlyOk(m, born, original, target)
    ensures ApprovedMarked(Marked(m, original, target))
  {
    var w := Marked(m, original, target);
    assert Replaced(w, original, target);
    forall q | q in w && w[q].fm.status.Approved? && w[q].fm.supersedesId.Some?
      ensures exists p :: p in w && Replaced(w, p, q)
    {
      if q != target {
        assert q in m && m[q].fm.status.Approved? && m[q].fm.supersedesId.Some?;
        var p :| p in m && Replaced(m, p, q);
        assert Replaced(w, p, q);
      }
    }
  }

  lemma {:induction false} MarkStable(m: View, original: Path, o: Record)
    requires original in m && m[original].fm.supersededBy.None?
    requires o == m[original].(fm := m[original].fm.(supersededBy := o.fm.supersededBy,
                                                     supersededScope := o.fm.supersededScope))
    ensures Stable(m, m[original := o])
  {
    var w := m[original := o];
    forall p | p in m && m[p].fm.supersededBy.Some?
      ensures exists q :: q in w && KeepsBacklink(m, p, w, q)
    {
      assert KeepsBacklink(m, p, w, p);
    }
  }

  // ----- the compare-and-swap ------------------------------------------------------------------

  // What a writer reads from a thought file, even while another writer's
  // transaction is half done: the record the file is named after, which does not
  // name itself as its predecessor.
  ghost predicate WellRead(q: Request) {
    q.trail == q.source.scope && q.record.fm.id == q.source.file && q.record.fm.supersedesId != Some(q.source.file)
  }

  lemma {:induction false} SourceCompared(seen: View, v: View, born: Births, q: Request, items: seq<Item>)
    requires WellNamed(seen, born) && Lists(items, seen) && WellRead(q)
    requires Propose(q, items).Transaction? && Expected(Propose(q, items).expected, v)
    ensures q.source in v && v[q.source] == q.record
  {
    hide Propose;
    var d := Propose(q, items);
    TransactionRecord(q, items);
    if Replaces(d.record) {
      var original := ReplacingTransaction(q, items, v);
      assert original.path in seen;
      assert original.path != q.source;
    } else {
      PlainTransaction(q, items, v);
    }
  }

  // A transaction prepared from an earlier view and committed on a later one
  // keeps the invariant, whatever other writers did in between: both files it
  // compared are still what it read.
  lemma {:induction false} CommitKeeps(seen: View, v: View, born: Births, born': Births, q: Request, items: seq<Item>)
    requires ViewOk(seen, born) && ViewOk(v, born') && Lists(items, seen) && WellRead(q)
    requires Propose(q, items).Transaction? && Expected(Propose(q, items).expected, v)
    ensures var d := Propose(q, items);
            && ViewOk(Apply(v, d.writes), born') && Stable(v, Apply(v, d.writes))
            && d.target in Apply(v, d.writes) && Apply(v, d.writes)[d.target] == Stored(d.record)
            && (Replaces(d.record) ==> exists p :: p in Apply(v, d.writes) && Replaced(Apply(v, d.writes), p, d.target))
  {
    hide Propose, Apply, Judged, BacklinksApproved, ApprovedMarked, ScopeNeedsBacklink, Trimmed, Ordered;
    var d := Propose(q, items);
    TransactionRecord(q, items);
    StripTrims(d.record.content);
    var r := Stored(d.record);
    SourceCompared(seen, v, born, q, items);
    assert Moves(v, q.source, d.target, r);
    if !Replaces(d.record) {
      PlainTransaction(q, items, v);
      MoveKeeps(v, born', q.source, d.target, r);
    } else {
      var original := ReplacingTransaction(q, items, v);
      OriginalUnmarked(seen, v, born, born', q, items, original);
      ReplaceKeeps(v, born', q.source, d.target, r, original.path);
      assert Replaced(Apply(v, d.writes), original.path, d.target);
    }
  }

  lemma {:induction false} OriginalUnmarked(
      seen: View, v: View, born: Births, born': Births, q: Request, items: seq<Item>, original: Item)
    requires ViewOk(seen, born) && ViewOk(v, born') && Lists(items, seen) && WellRead(q)
    requires Propose(q, items).Transaction? && Replaces(Propose(q, items).record)
    requires q.source in v && v[q.source] == q.record && SameLinks(q.record, Propose(q, items).record)
    requires original in items && original.record.fm.id == Propose(q, items).record.fm.supersedesId.value
    requires original.path.scope == PredecessorScope(q, Propose(q, items).record)
    requires !EffectivelySuperseded(original.record, Index(items))
    requires original.path in v && v[original.path] == original.record
    ensures Marks(v, q.source, Stored(Propose(q, items).record), original.path)
    ensures original.path != Propose(q, items).target
    ensures Stored(Linked(original.record, q.record.fm.id, q.trail)) == Linked(original.record, q.record.fm.id, q.trail)
  {
    hide Propose;
    var k :| 0 <= k < |items| && items[k] == original;
    VisibleExactly(seen, born, items, original.path);
    StripTrims(original.record.content);
    TransactionRecord(q, items);
  }
}
