// Promotions of records run as journal transactions over texts.
module Publication {
  import opened Base
  import opened Trees
  import R = Records
  import P = Promotion
  import opened Journal
  import opened CrashSafety

  // How paths are named and records read back.
  datatype Format = Format(name: R.Path -> Name, parse: Text -> R.Record)

  // The tree holds exactly the records of the view, each under its path's name.
  ghost predicate Denotes(f: Format, tree: Tree, view: P.View) {
    forall p :: Get(view, p) == if f.name(p) in tree then Some(f.parse(tree[f.name(p)])) else None
  }

  ghost predicate EncodesWrite(f: Format, w: Write<Name, Text>, r: Write<R.Path, R.Record>) {
    && w.key == f.name(r.key)
    && (r.value.None? <==> w.value.None?)
    && (r.value.Some? && w.value.Some? ==> f.parse(w.value.value) == r.value.value)
  }

  ghost predicate Encodes(f: Format, ws: Images, rs: P.Writes) {
    |ws| == |rs| && forall i | 0 <= i < |ws| :: EncodesWrite(f, ws[i], rs[i])
  }

  ghost predicate EncodesExpected(f: Format, ns: map<Name, R.Record>, ps: P.View) {
    && (forall p | p in ps :: f.name(p) in ns && ns[f.name(p)] == ps[p])
    && (forall n | n in ns :: exists p :: p in ps && f.name(p) == n)
  }

  lemma {:induction false} PutDenotes(
      f: Format, tree: Tree, view: P.View, w: Write<Name, Text>, r: Write<R.Path, R.Record>)
    requires Injective(f.name) && Denotes(f, tree, view) && EncodesWrite(f, w, r)
    ensures Denotes(f, Put(tree, w), Put(view, r))
  {
    forall p
      ensures Get(Put(view, r), p)
              == if f.name(p) in Put(tree, w) then Some(f.parse(Put(tree, w)[f.name(p)])) else None
    {
      assert Get(view, p) == if f.name(p) in tree then Some(f.parse(tree[f.name(p)])) else None;
      assert f.name(p) == f.name(r.key) ==> p == r.key;
    }
  }

  lemma {:induction false} ApplyDenotes(f: Format, tree: Tree, view: P.View, ws: Images, rs: P.Writes, n: nat)
    requires Injective(f.name) && Denotes(f, tree, view) && Encodes(f, ws, rs) && n <= |ws|
    ensures Denotes(f, ApplyTo(tree, ws, n), ApplyTo(view, rs, n))
  {
    if n > 0 {
      ApplyDenotes(f, tree, view, ws, rs, n - 1);
      PutDenotes(f, ApplyTo(tree, ws, n - 1), ApplyTo(view, rs, n - 1), ws[n - 1], rs[n - 1]);
    }
  }

  lemma {:induction false} ExpectedDenotes(f: Format, tree: Tree, view: P.View, ns: map<Name, R.Record>, ps: P.View)
    requires Denotes(f, tree, view) && EncodesExpected(f, ns, ps)
    ensures Holds(ns, f.parse, tree) <==> P.Expected(ps, view)
  {
    if Holds(ns, f.parse, tree) {
      forall p | p in ps ensures p in view && view[p] == ps[p] {
        assert Get(view, p) == if f.name(p) in tree then Some(f.parse(tree[f.name(p)])) else None;
      }
    }
    if P.Expected(ps, view) {
      forall n | n in ns ensures n in tree && f.parse(tree[n]) == ns[n] {
        var p :| p in ps && f.name(p) == n;
        assert Get(view, p) == if n in tree then Some(f.parse(tree[n])) else None;
      }
    }
  }

  // Under every fault schedule a promotion's transaction shows readers the
  // records before it or the records its compare-and-swap yields, and nothing
  // else; and it reports a conflict exactly for a comparison that fails.
  lemma {:induction false} PromotionIsAtomic<N>(
      f: Schedule, s: Store<N>, job: Job<R.Record, N>, form: Format, view: P.View, d: P.Decision)
    requires OrderedRemoval(f) && Valid(s) && Injective(form.name) && Denotes(form, s.View(), view)
    requires d.Transaction? && job.parse == form.parse
    requires Encodes(form, job.writes, d.writes) && EncodesExpected(form, job.expected, d.expected)
    ensures var (t, exit) := Persist(f, s, job);
            var outcome := P.Commit(view, d);
            && Valid(t)
            && (t.views == s.views || t.views == s.views + [t.View()])
            && (Denotes(form, t.View(), view) || (outcome.Ok? && Denotes(form, t.View(), outcome.value)))
            && (exit.Returned? ==> outcome.Ok? && Denotes(form, t.View(), outcome.value))
            && (exit.Conflict? ==> outcome.Err? && Denotes(form, t.View(), view))
            && (exit.Failed? ==> Denotes(form, t.View(), view))
  {
    CrashAtomicity(f, s, job);
    ApplyDenotes(form, s.View(), view, job.writes, d.writes, |job.writes|);
    ExpectedDenotes(form, s.View(), view, job.expected, d.expected);
  }
}
