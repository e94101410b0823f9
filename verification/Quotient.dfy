// A plan without blockers is a graph quotient: references lead to the image of what they led to.
module Quotient {
  import opened Base
  import opened Duplicates
  import opened Records

  // ----- the index of the remaining files --------------------------------------------------

  // The two keys of a removed file.
  ghost predicate RemovedKey(c: Setup, key: string) {
    exists p | p in c.repo :: c.Removed(p) && KeyOf(c, p, key)
  }

  predicate KeyOf(c: Setup, p: Path, key: string)
    requires p in c.repo
  {
    key == c.Id(p) || key == Qualified(p.scope, c.Id(p))
  }

  ghost predicate Distinct(c: Setup) {
    forall p | p in c.repo && c.KeepOf(p).Some? :: c.Unique(c.Id(p))
  }

  // A surviving file shares no key with a removed one.
  lemma {:induction false} KeysApart(c: Setup, p: Path)
    requires c.Sane() && Distinct(c) && c.Survives(p)
    ensures !RemovedKey(c, c.Id(p)) && !RemovedKey(c, Qualified(p.scope, c.Id(p)))
  {
    forall r | r in c.repo && c.Removed(r)
      ensures !KeyOf(c, r, c.Id(p)) && !KeyOf(c, r, Qualified(p.scope, c.Id(p)))
    {
      assert c.Unique(c.Id(r));
      assert c.Id(r) != c.Id(p);
      QualifiedNotBare(r.scope, c.Id(r), c.Id(p));
      QualifiedNotBare(p.scope, c.Id(p), c.Id(r));
      if Qualified(r.scope, c.Id(r)) == Qualified(p.scope, c.Id(p)) {
        QualifiedInjective(r.scope, c.Id(r), p.scope, c.Id(p));
      }
    }
  }

  // Scanning without the removed files finds the same, less their keys.
  ghost predicate LessRemoved(c: Setup, all: Found, rest: Found) {
    && rest.twice == all.twice
    && (forall k | k in rest.at :: k in all.at && rest.at[k] == all.at[k])
    && (forall k | k in all.at :: k in rest.at <==> !RemovedKey(c, k))
    && (forall k | k in all.twice :: !RemovedKey(c, k))
  }

  lemma {:induction false} ScanLessRemoved(c: Setup, order: seq<Path>, n: nat)
    requires c.Sane() && c.Indexed(order) && Distinct(c) && n <= |order|
    ensures LessRemoved(c, EnterFiles(order, n, c.repo), EnterFiles(order, n, c.AfterRepo()))
  {
    hide LessRemoved, RemovedKey, Setup.AfterRepo, Setup.KeepOf;
    if n == 0 {
      NothingScanned(c);
    } else {
      ScanLessRemoved(c, order, n - 1);
      var p := order[n - 1];
      var s, t := EnterFiles(order, n - 1, c.repo), EnterFiles(order, n - 1, c.AfterRepo());
      SurvivorsIn(c, p);
      if c.Survives(p) {
        KeysOutside(c, p);
        EnterSurvivor(c, s, t, p);
      } else if p in c.repo {
        EnteredFrom(c, order, n - 1, c.Id(p));
        EnterRemoved(c, s, t, p);
      }
    }
  }

  lemma {:induction false} SurvivorsIn(c: Setup, p: Path)
    ensures p in c.AfterRepo() <==> c.Survives(p)
  {
    hide Setup.After, Setup.KeepOf;
  }

  // No removed file has a key of one that survives.
  lemma {:induction false} KeysOutside(c: Setup, p: Path)
    requires c.Sane() && Distinct(c) && c.Survives(p)
    ensures !RemovedKey(c, c.Id(p)) && !RemovedKey(c, Qualified(p.scope, c.Id(p)))
  {
    hide Setup.KeepOf;
    KeysApart(c, p);
  }

  lemma {:induction false} NothingScanned(c: Setup)
    ensures LessRemoved(c, Found(map[], {}), Found(map[], {}))
  {
  }

  lemma {:induction false} EnterSurvivor(c: Setup, s: Found, t: Found, p: Path)
    requires LessRemoved(c, s, t) && c.Survives(p)
    requires !RemovedKey(c, c.Id(p)) && !RemovedKey(c, Qualified(p.scope, c.Id(p)))
    ensures LessRemoved(c, EnterFile(s, p, c.repo), EnterFile(t, p, c.AfterRepo()))
  {
    hide RemovedKey, Setup.KeepOf, Setup.Redirect, Setup.Stamped, Qualified;
    SameId(c, p);
  }

  // Redirection and stamping leave identity and standing alone.
  lemma {:induction false} SameId(c: Setup, p: Path)
    requires c.Survives(p)
    ensures p in c.AfterRepo() && c.AfterRepo()[p] == c.After(p)
    ensures c.After(p).record.fm.id == c.Id(p) && c.After(p).record.fm.status == c.Fm(p).status
  {
  }

  lemma {:induction false} EnterRemoved(c: Setup, s: Found, t: Found, p: Path)
    requires LessRemoved(c, s, t) && p in c.repo && c.Removed(p) && c.Id(p) !in s.at
    ensures LessRemoved(c, EnterFile(s, p, c.repo), t)
  {
    hide RemovedKey, Setup.KeepOf, Qualified;
    KeysRemoved(c, p);
  }

  lemma {:induction false} KeysRemoved(c: Setup, p: Path)
    requires p in c.repo && c.Removed(p)
    ensures RemovedKey(c, c.Id(p)) && RemovedKey(c, Qualified(p.scope, c.Id(p)))
    ensures Qualified(p.scope, c.Id(p)) != c.Id(p)
  {
    assert |Qualified(p.scope, c.Id(p))| > |c.Id(p)|;
    assert KeyOf(c, p, c.Id(p)) && KeyOf(c, p, Qualified(p.scope, c.Id(p)));
  }

  // A bare identifier is entered only for a file that has it.
  lemma {:induction false} EnteredFrom(c: Setup, order: seq<Path>, n: nat, id: string)
    requires c.Sane() && n <= |order| && Bare(id)
    ensures id in EnterFiles(order, n, c.repo).at ==>
              exists i :: 0 <= i < n && order[i] in c.repo && c.Id(order[i]) == id
  {
    if n > 0 {
      EnteredFrom(c, order, n - 1, id);
      var p := order[n - 1];
      if p in c.repo {
        QualifiedNotBare(p.scope, c.Id(p), id);
      }
    }
  }

  lemma {:induction false} IndexAfter(c: Setup, key: string)
    requires c.Sane() && Distinct(c)
    ensures Get(c.later, key) == if RemovedKey(c, key) then None else Get(c.before, key)
  {
    var order :| c.Indexed(order);
    ScanLessRemoved(c, order, |order|);
  }

  // ----- a file whose identifier is unique -------------------------------------------------

  ghost predicate Seen(order: seq<Path>, n: nat, p: Path)
    requires n <= |order|
  {
    exists i :: 0 <= i < n && order[i] == p
  }

  lemma {:induction false} UniqueEntered(c: Setup, order: seq<Path>, n: nat, p: Path, scope: string)
    requires c.Sane() && c.Indexed(order) && n <= |order| && p in c.repo && c.Unique(c.Id(p))
    ensures var s := EnterFiles(order, n, c.repo);
            && c.Id(p) !in s.twice && Qualified(scope, c.Id(p)) !in s.twice
            && Get(s.at, c.Id(p)) == (if Seen(order, n, p) then Some(p) else None)
            && Get(s.at, Qualified(scope, c.Id(p))) == (if Seen(order, n, p) && scope == p.scope then Some(p) else None)
  {
    hide Setup.AfterRepo, Setup.KeepOf, Locate;
    if n > 0 {
      UniqueEntered(c, order, n - 1, p, scope);
      var q := order[n - 1];
      assert Seen(order, n, p) <==> Seen(order, n - 1, p) || q == p;
      assert q == p ==> !Seen(order, n - 1, p);
      if q in c.repo {
        QualifiedNotBare(q.scope, c.Id(q), c.Id(p));
        QualifiedNotBare(scope, c.Id(p), c.Id(q));
        if Qualified(q.scope, c.Id(q)) == Qualified(scope, c.Id(p)) {
          QualifiedInjective(q.scope, c.Id(q), scope, c.Id(p));
        }
      }
    }
  }

  // It is found bare and under its own scope, and under no other.
  lemma {:induction false} UniqueFound(c: Setup, p: Path, scope: Option<string>)
    requires c.Sane() && p in c.repo && c.Unique(c.Id(p))
    ensures Resolve(c.before, scope, c.Id(p)) == if Truthy(scope) && scope.value != p.scope then None else Some(p)
  {
    var order :| c.Indexed(order);
    UniqueEntered(c, order, |order|, p, if Truthy(scope) then scope.value else "");
    var i :| 0 <= i < |order| && order[i] == p;
    assert Seen(order, |order|, p);
  }

  // ----- one reference ---------------------------------------------------------------------

  lemma {:induction false} RedirectsOf(c: Setup, target: string) returns (p: Path)
    requires c.Redirected() && target in c.redirects
    ensures p in c.repo && c.Removed(p) && c.Id(p) == target && c.redirects[target] == c.Id(c.KeepOf(p).value)
  {
    p :| p in c.repo && c.Removed(p) && c.Id(p) == target && c.redirects[target] == c.Id(c.KeepOf(p).value);
  }

  lemma {:induction false} KeptSurvives(c: Setup, p: Path)
    requires p in c.repo && c.KeepOf(p).Some?
    ensures var k := c.KeepOf(p).value;
            k in c.repo && c.Kept(k) && c.Survives(k) && k.scope == c.scope == p.scope
  {
  }

  // A redirected reference goes from the removed file to the kept one.
  lemma {:induction false} RedirectedLookup(c: Setup, target: string, scope: Option<string>)
    requires c.Sane() && Distinct(c) && c.Redirected() && c.Redirects(Some(target), scope)
    ensures var was := Resolve(c.before, scope, target);
            && was.Some? && c.Removed(was.value) && c.Id(was.value) == target
            && Resolve(c.later, scope, c.redirects[target]) == c.Image(was) == c.KeepOf(was.value)
            && c.Image(Resolve(c.before, scope, c.redirects[target])) == c.Image(was)
  {
    hide RemovedKey;
    var p := RedirectsOf(c, target);
    var k := c.KeepOf(p).value;
    KeptSurvives(c, p);
    UniqueFound(c, p, scope);
    UniqueFound(c, k, scope);
    KeysApart(c, k);
    IndexAfter(c, Key(scope, c.Id(k)));
  }

  // Any other keeps leading to the same file, unless its key was a removed file's.
  lemma {:induction false} OtherLookup(c: Setup, target: string, scope: Option<string>)
    requires c.Sane() && Distinct(c)
    ensures var was := Resolve(c.before, scope, target);
            && (!RemovedKey(c, Key(scope, target)) ==> Resolve(c.later, scope, target) == was == c.Image(was))
            && (RemovedKey(c, Key(scope, target)) ==>
                  Resolve(c.later, scope, target) == None && was.Some? && c.Removed(was.value))
  {
    IndexAfter(c, Key(scope, target));
    RemovedFound(c, Key(scope, target));
    hide RemovedKey;
  }

  // The keys of removed files are those that find one.
  lemma {:induction false} RemovedFound(c: Setup, key: string)
    requires c.Sane() && Distinct(c)
    ensures RemovedKey(c, key) <==> key in c.before && c.Removed(c.before[key])
  {
    hide Locate, Setup.KeepOf, Qualified;
    LocatedUnder(c, key);
    if RemovedKey(c, key) {
      var p :| p in c.repo && c.Removed(p) && KeyOf(c, p, key);
      BothKeysFind(c, p);
    }
  }

  lemma {:induction false} BothKeysFind(c: Setup, p: Path)
    requires c.Sane() && p in c.repo && c.Unique(c.Id(p))
    ensures Get(c.before, c.Id(p)) == Get(c.before, Qualified(p.scope, c.Id(p))) == Some(p)
  {
    var order :| c.Indexed(order);
    UniqueEntered(c, order, |order|, p, p.scope);
    SeenInOrder(c, order, p);
  }

  lemma {:induction false} SeenInOrder(c: Setup, order: seq<Path>, p: Path)
    requires c.Indexed(order) && p in c.repo
    ensures Seen(order, |order|, p)
  {
    var i :| 0 <= i < |order| && order[i] == p;
  }

  // Whatever a key finds has that key.
  lemma {:induction false} EnteredUnder(c: Setup, order: seq<Path>, n: nat, key: string)
    requires n <= |order|
    ensures var s := EnterFiles(order, n, c.repo);
            key in s.at ==> s.at[key] in c.repo && KeyOf(c, s.at[key], key)
  {
    if n > 0 {
      EnteredUnder(c, order, n - 1, key);
    }
  }

  lemma {:induction false} LocatedUnder(c: Setup, key: string)
    requires c.Sane()
    ensures key in c.before ==> c.before[key] in c.repo && KeyOf(c, c.before[key], key)
  {
    var order :| c.Indexed(order);
    EnteredUnder(c, order, |order|, key);
  }

  // ----- every reference of a file -----------------------------------------------------------

  lemma {:induction false} ClearIsDistinct(c: Setup)
    requires c.Clear()
    ensures Distinct(c)
  {
    forall p | p in c.repo && c.KeepOf(p).Some?
      ensures c.Unique(c.Id(p))
    {
      assert !c.Blocked(AmbiguousIdentity(p));
    }
  }

  // The k-th reference, before and after.
  function Was(c: Setup, p: Path, k: nat): Slot
    requires p in c.repo && k < |Slots(c.Fm(p))|
  {
    Slots(c.Fm(p))[k]
  }

  function Becomes(c: Setup, p: Path, k: nat): Slot
    requires p in c.repo && k < |Slots(c.Fm(p))|
  {
    SameSlots(c, p);
    Slots(c.After(p).record.fm)[k]
  }

  lemma {:induction false} SameSlots(c: Setup, p: Path)
    requires p in c.repo
    ensures |Slots(c.After(p).record.fm)| == |Slots(c.Fm(p))|
  {
  }

  lemma {:induction false} SlotRedirected(c: Setup, p: Path, k: nat)
    requires p in c.repo && k < |Slots(c.Fm(p))|
    ensures Becomes(c, p, k).field == Was(c, p, k).field
    ensures Becomes(c, p, k).target == c.NewTarget(Was(c, p, k).target, Was(c, p, k).scope)
    ensures Becomes(c, p, k).scope == Was(c, p, k).scope || (k == 0 && Was(c, p, k).scope == None && ScopeAppears(c, p))
  {
  }

  // Two different ancestors redirected to one file: the parent takes on the supersession's scope.
  predicate ScopeAppears(c: Setup, p: Path)
    requires p in c.repo
  {
    var fm := c.Fm(p);
    && fm.parentId != fm.supersedesId
    && c.NewTarget(fm.parentId, None) == c.NewTarget(fm.supersedesId, fm.supersedesScope)
    && Becomes(c, p, 0).scope == fm.supersedesScope
  }

  lemma {:induction false} StaysLive(c: Setup, p: Path, k: nat)
    requires c.Sane() && c.Redirected() && p in c.repo && k < |Slots(c.Fm(p))|
    ensures Was(c, p, k).Live() <==> Becomes(c, p, k).Live()
  {
    hide Slots, Setup.After, Setup.KeepOf, Was, Becomes;
    SlotRedirected(c, p, k);
    var s := Was(c, p, k);
    if c.Redirects(s.target, s.scope) {
      var q := RedirectsOf(c, s.target.value);
      KeptSurvives(c, q);
    }
  }

  // The reference leads to the image of the file it led to.
  ghost predicate LeadsToImage(c: Setup, p: Path, k: nat)
    requires p in c.repo && k < |Slots(c.Fm(p))|
  {
    var s, t := Was(c, p, k), Becomes(c, p, k);
    && t.field == s.field
    && (s.Live() <==> t.Live())
    && (s.Live() && t.Live() ==>
          Resolve(c.later, t.scope, t.target.value) == c.Image(Resolve(c.before, s.scope, s.target.value)))
  }

  ghost predicate Preserved(c: Setup, p: Path)
    requires p in c.repo
  {
    forall k | 0 <= k < |Slots(c.Fm(p))| :: LeadsToImage(c, p, k)
  }

  // It finds a removed file, but not in the way the planner compares targets and scopes.
  ghost predicate StrayAt(c: Setup, p: Path, k: nat)
    requires p in c.repo && k < |Slots(c.Fm(p))|
  {
    var s := Was(c, p, k);
    s.Live() && RemovedKey(c, Key(s.scope, s.target.value)) && !c.Redirects(s.target, s.scope)
  }

  // An untouched file holds such a reference; in a touched one it blocks the plan.
  ghost predicate Stray(c: Setup, p: Path)
    requires p in c.repo
  {
    !c.Changed(p) && exists k | 0 <= k < |Slots(c.Fm(p))| :: StrayAt(c, p, k)
  }

  lemma {:induction false} SameScopeSlot(c: Setup, p: Path, k: nat)
    requires c.Sane() && c.Redirected() && Distinct(c) && p in c.repo && k < |Slots(c.Fm(p))|
    requires Becomes(c, p, k).scope == Was(c, p, k).scope
    ensures LeadsToImage(c, p, k) <==> !StrayAt(c, p, k)
    ensures StrayAt(c, p, k) ==>
              && Becomes(c, p, k) == Was(c, p, k)
              && Resolve(c.later, Was(c, p, k).scope, Was(c, p, k).target.value) == None
              && Resolve(c.before, Was(c, p, k).scope, Was(c, p, k).target.value).Some?
  {
    StaysLive(c, p, k);
    SlotRedirected(c, p, k);
    hide Slots, Was, Becomes, RemovedKey, Resolve, Setup.KeepOf;
    var s := Was(c, p, k);
    if s.Live() {
      if c.Redirects(s.target, s.scope) {
        RedirectedLookup(c, s.target.value, s.scope);
      } else {
        OtherLookup(c, s.target.value, s.scope);
      }
    }
  }

  // ----- what the missing blockers rule out ---------------------------------------------------

  // A reference that dangles after the redirection of a changed file dangled before.
  lemma {:induction false} NoNewDangling(c: Setup, p: Path, k: nat)
    requires c.Clear() && c.Changed(p) && k < |Slots(c.Fm(p))|
    requires Becomes(c, p, k).Live() && Resolve(c.later, Becomes(c, p, k).scope, Becomes(c, p, k).target.value) == None
    ensures c.DangledBefore(c.Fm(p), EdgeOf(Becomes(c, p, k)))
  {
    assert !c.Blocked(NewlyUnresolved(p, Becomes(c, p, k).field));
    assert !c.NewlyDangles(p, Becomes(c, p, k).field, k);
  }

  lemma {:induction false} EdgeResolves(at: map<string, Path>, s: Slot, t: Slot)
    requires s.Live() && t.Live() && EdgeOf(s) == EdgeOf(t)
    ensures Resolve(at, s.scope, s.target.value) == Resolve(at, t.scope, t.target.value)
  {
  }

  lemma {:induction false} ChangedHasNoStray(c: Setup, p: Path, k: nat)
    requires c.Sane() && c.Redirected() && c.Clear() && c.Changed(p) && k < |Slots(c.Fm(p))|
    requires Becomes(c, p, k).scope == Was(c, p, k).scope
    ensures !StrayAt(c, p, k)
  {
    ClearIsDistinct(c);
    hide Slots, Setup.Clear, Setup.Changed, Resolve, EdgeOf, RemovedKey, Was, Becomes;
    SameScopeSlot(c, p, k);
    if StrayAt(c, p, k) {
      NoNewDangling(c, p, k);
      NothingDangled(c, p, Was(c, p, k));
    }
  }

  // A reference that found something did not dangle under its own edge.
  lemma {:induction false} NothingDangled(c: Setup, p: Path, s: Slot)
    requires p in c.repo && s.Live() && Resolve(c.before, s.scope, s.target.value).Some?
    ensures !c.DangledBefore(c.Fm(p), EdgeOf(s))
  {
    hide Slots, Resolve, EdgeOf;
    forall j | 0 <= j < |Slots(c.Fm(p))| && c.Dangles(c.Fm(p), j, c.before)
      ensures EdgeOf(Slots(c.Fm(p))[j]) != EdgeOf(s)
    {
      if EdgeOf(Slots(c.Fm(p))[j]) == EdgeOf(s) {
        EdgeResolves(c.before, Slots(c.Fm(p))[j], s);
      }
    }
  }

  // ----- the parent that takes on a scope -------------------------------------------------------

  lemma {:induction false} AppearsChanged(c: Setup, p: Path)
    requires c.Survives(p) && ScopeAppears(c, p)
    ensures c.Changed(p)
  {
    var fm := c.Fm(p);
    assert Slots(fm)[0] == Slot(Parent, fm.parentId, None);
    assert Slots(fm)[3] == Slot(Supersedes, fm.supersedesId, fm.supersedesScope);
    assert c.Redirects(Slots(fm)[0].target, Slots(fm)[0].scope) || c.Redirects(Slots(fm)[3].target, Slots(fm)[3].scope);
  }

  // The common target is a kept file, found under its own identifier.
  lemma {:induction false} AppearedTarget(c: Setup, p: Path) returns (k: Path)
    requires c.Sane() && c.Redirected() && Distinct(c) && p in c.repo && ScopeAppears(c, p) && c.Fm(p).parentId.Some?
    ensures k in c.repo && c.Kept(k) && c.Survives(k)
    ensures c.NewTarget(c.Fm(p).parentId, None) == Some(c.Id(k))
    ensures c.Image(Resolve(c.before, None, c.Fm(p).parentId.value)) == Some(k)
  {
    hide Resolve, Setup.KeepOf, Becomes;
    var fm := c.Fm(p);
    var q;
    if c.Redirects(fm.parentId, None) {
      RedirectedLookup(c, fm.parentId.value, None);
      q := RedirectsOf(c, fm.parentId.value);
      k := c.KeepOf(q).value;
      KeptSurvives(c, q);
      UniqueFound(c, k, None);
    } else {
      q := RedirectsOf(c, fm.supersedesId.value);
      k := c.KeepOf(q).value;
      KeptSurvives(c, q);
      UniqueFound(c, k, None);
    }
  }

  // Under the new scope too it finds that file: anything else would be newly unresolved.
  lemma {:induction false} AppearedFound(c: Setup, p: Path, k: Path)
    requires c.Sane() && c.Clear() && Distinct(c) && c.Survives(p) && ScopeAppears(c, p)
    requires k in c.repo && c.Kept(k) && Becomes(c, p, 0).target == Some(c.Id(k)) && Was(c, p, 0).scope == None
    ensures Resolve(c.later, Becomes(c, p, 0).scope, c.Id(k)) == Some(k)
  {
    AppearsChanged(c, p);
    hide Slots, Setup.Clear, Setup.Changed, RemovedKey, Was, Becomes, ScopeAppears;
    var t := Becomes(c, p, 0);
    KeysApart(c, k);
    UniqueFound(c, k, t.scope);
    IndexAfter(c, Key(t.scope, c.Id(k)));
    if Resolve(c.later, t.scope, c.Id(k)) == None {
      NoNewDangling(c, p, 0);
      ParentHadNoScope(c, p, EdgeOf(t));
    }
  }

  lemma {:induction false} ParentHadNoScope(c: Setup, p: Path, edge: (Field, string, string))
    requires p in c.repo && Was(c, p, 0).scope == None && edge.0 == Parent && c.DangledBefore(c.Fm(p), edge)
    ensures edge.2 == ""
  {
  }

  lemma {:induction false} AppearedSlot(c: Setup, p: Path)
    requires c.Sane() && c.Redirected() && c.Clear() && c.Survives(p)
    requires ScopeAppears(c, p) && Was(c, p, 0).scope == None
    ensures LeadsToImage(c, p, 0)
  {
    ClearIsDistinct(c);
    SlotRedirected(c, p, 0);
    StaysLive(c, p, 0);
    ParentSlot(c, p);
    hide Slots, Setup.Clear, Was, Becomes, ScopeAppears, Setup.KeepOf, Resolve;
    if Was(c, p, 0).Live() {
      var k := AppearedTarget(c, p);
      AppearedFound(c, p, k);
    }
  }

  lemma {:induction false} ParentSlot(c: Setup, p: Path)
    requires p in c.repo
    ensures Was(c, p, 0).target == c.Fm(p).parentId && Becomes(c, p, 0).field == Parent
  {
  }

  // ----- the quotient ------------------------------------------------------------------------

  lemma {:induction false} SlotPreserved(c: Setup, p: Path, k: nat)
    requires c.Sane() && c.Redirected() && c.Clear() && c.Survives(p) && k < |Slots(c.Fm(p))|
    ensures LeadsToImage(c, p, k) <==> !(StrayAt(c, p, k) && !c.Changed(p))
  {
    ClearIsDistinct(c);
    SlotRedirected(c, p, k);
    hide Slots, Setup.Clear, LeadsToImage, StrayAt, ScopeAppears, Setup.Changed, Was, Becomes;
    if Becomes(c, p, k).scope == Was(c, p, k).scope {
      SameScopeSlot(c, p, k);
      if c.Changed(p) {
        ChangedHasNoStray(c, p, k);
      }
    } else {
      AppearedSlot(c, p);
      AppearsChanged(c, p);
    }
  }

  // Every reference of a surviving file leads to the image of what it led to, and one that led
  // nowhere still does, exactly when the file is no untouched holder of a stray reference.
  lemma {:induction false} ReferencesPreserved(c: Setup, p: Path)
    requires c.Sane() && c.Redirected() && c.Clear() && c.Survives(p)
    ensures Preserved(c, p) <==> !Stray(c, p)
  {
    hide Slots, Setup.Clear, LeadsToImage, StrayAt;
    forall k | 0 <= k < |Slots(c.Fm(p))|
      ensures LeadsToImage(c, p, k) <==> !(StrayAt(c, p, k) && !c.Changed(p))
    {
      SlotPreserved(c, p, k);
    }
  }

  // For a target without a colon only one spelling strays: a removed identifier under an empty
  // scope, which the lookup takes for no scope and the comparison does not.
  lemma {:induction false} StrayIsEmptyScope(c: Setup, p: Path, k: nat)
    requires c.Sane() && c.Redirected() && c.scope != "" && p in c.repo && k < |Slots(c.Fm(p))|
    requires Was(c, p, k).target.Some? && Bare(Was(c, p, k).target.value)
    ensures StrayAt(c, p, k) <==> Was(c, p, k).scope == Some("") && Was(c, p, k).target.value in c.redirects
  {
    hide Slots, Was, Setup.KeepOf, Key;
    var s := Was(c, p, k);
    if s.target.value in c.redirects {
      var q := RedirectsOf(c, s.target.value);
      KeyMatches(c, q, s.scope, s.target.value);
    }
    forall q | q in c.repo && c.Removed(q) && KeyOf(c, q, Key(s.scope, s.target.value))
      ensures s.target.value in c.redirects && (Truthy(s.scope) ==> s.scope.value == c.scope)
    {
      KeyMatches(c, q, s.scope, s.target.value);
      InScope(c, q);
    }
  }

  lemma {:induction false} InScope(c: Setup, q: Path)
    requires q in c.repo && c.KeepOf(q).Some?
    ensures q.scope == c.scope
  {
  }

  lemma {:induction false} KeyMatches(c: Setup, q: Path, scope: Option<string>, target: string)
    requires q in c.repo && Bare(c.Id(q)) && Bare(target)
    ensures KeyOf(c, q, Key(scope, target)) <==> c.Id(q) == target && (Truthy(scope) ==> scope.value == q.scope)
  {
    QualifiedNotBare(q.scope, c.Id(q), target);
    if Truthy(scope) {
      QualifiedNotBare(scope.value, target, c.Id(q));
      if Qualified(scope.value, target) == Qualified(q.scope, c.Id(q)) {
        QualifiedInjective(scope.value, target, q.scope, c.Id(q));
      }
    }
  }
}
