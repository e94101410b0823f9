// The bounded readiness scan: an explicit stack over a directory tree, counting
// scopes and records and remembering the least record path.
module Readiness {
  import opened Base

  const MAX_TREE_ENTRIES: nat := 100_000

  // A directory lists its entries in any order; an unreadable one cannot be listed.
  datatype Node =
    | File(name: string)
    | Dir(name: string, readable: bool, children: seq<Node>)
    | Special(name: string)

  datatype Failure = TooLarge | Unreadable

  // ----- paths ------------------------------------------------------------------------

  function Join(prefix: string, name: string): string {
    if prefix == "" then name else prefix + "/" + name
  }

  // `Path.suffix == ".md"`: the last dot neither leads the name nor ends it.
  predicate IsRecord(name: string) {
    |name| > 3 && name[|name| - 3..] == ".md"
  }

  predicate IsScope(name: string) {
    name == "thoughts"
  }

  // The order of Python strings.
  predicate Less(a: string, b: string) {
    if b == "" then false
    else if a == "" then true
    else if a[0] == b[0] then Less(a[1..], b[1..])
    else a[0] < b[0]
  }

  lemma {:induction false} LessTransitive(a: string, b: string, c: string)
    requires Less(a, b) && Less(b, c)
    ensures Less(a, c)
  {
    if a != "" && a[0] == b[0] == c[0] {
      LessTransitive(a[1..], b[1..], c[1..]);
    }
  }

  lemma {:induction false} LessTotal(a: string, b: string)
    ensures a == b || Less(a, b) || Less(b, a)
    ensures !(Less(a, b) && Less(b, a)) && !Less(a, a)
  {
    if a != "" && b != "" && a[0] == b[0] {
      LessTotal(a[1..], b[1..]);
      assert a == [a[0]] + a[1..] && b == [b[0]] + b[1..];
    }
    if a != "" {
      LessTotal(a[1..], a[1..]);
    }
  }

  // ----- the recursive specification ------------------------------------------------------

  // What a part of the tree contributes: entries visited, outermost `thoughts`
  // directories, record paths below them, and whether all of it can be listed.
  datatype Sum = Sum(entries: nat, scopes: nat, keys: multiset<string>, readable: bool)

  function Plus(a: Sum, b: Sum): Sum {
    Sum(a.entries + b.entries, a.scopes + b.scopes, a.keys + b.keys, a.readable && b.readable)
  }

  lemma {:induction false} PlusAssoc(a: Sum, b: Sum, c: Sum)
    ensures Plus(Plus(a, b), c) == Plus(a, Plus(b, c))
  {
  }

  lemma {:induction false} PlusSwap(a: Sum, b: Sum, c: Sum)
    ensures Plus(Plus(a, b), c) == Plus(Plus(a, c), b)
  {
  }

  lemma {:induction false} PlusBounds(a: Sum, b: Sum)
    ensures Plus(a, b).entries >= a.entries && (Plus(a, b).readable <==> a.readable && b.readable)
  {
  }

  lemma {:induction false} PlusZero(a: Sum)
    ensures Plus(a, ZERO) == a && Plus(ZERO, a) == a
  {
  }

  const ZERO := Sum(0, 0, multiset{}, true)

  function EntrySum(e: Node, prefix: string, inside: bool): Sum
    decreases e, 1
  {
    var key := Join(prefix, e.name);
    match e
    case File(name) => Sum(1, 0, if inside && IsRecord(name) then multiset{key} else multiset{}, true)
    case Special(_) => Sum(1, 0, multiset{}, true)
    case Dir(name, _, _) =>
      var scope := !inside && IsScope(name);
      Plus(Sum(1, if scope then 1 else 0, multiset{}, true), DirSum(e, key, inside || scope))
  }

  function DirSum(d: Node, prefix: string, inside: bool): Sum
    requires d.Dir?
    decreases d, 0
  {
    if d.readable then SumTo(d.children, |d.children|, prefix, inside) else ZERO.(readable := false)
  }

  function SumTo(es: seq<Node>, n: nat, prefix: string, inside: bool): Sum
    requires n <= |es|
    decreases es, 2, n
  {
    if n == 0 then ZERO else Plus(SumTo(es, n - 1, prefix, inside), EntrySum(es[n - 1], prefix, inside))
  }

  // ----- listing order does not matter ------------------------------------------------------

  lemma {:induction false} SumPrefix(es: seq<Node>, more: seq<Node>, n: nat, prefix: string, inside: bool)
    requires n <= |es| && es <= more
    ensures SumTo(es, n, prefix, inside) == SumTo(more, n, prefix, inside)
  {
    if n > 0 {
      SumPrefix(es, more, n - 1, prefix, inside);
    }
  }

  lemma {:induction false} SumConcat(a: seq<Node>, b: seq<Node>, n: nat, prefix: string, inside: bool)
    requires n <= |b|
    ensures SumTo(a + b, |a| + n, prefix, inside) == Plus(SumTo(a, |a|, prefix, inside), SumTo(b, n, prefix, inside))
  {
    hide Plus, EntrySum;
    if n == 0 {
      SumPrefix(a, a + b, |a|, prefix, inside);
      PlusZero(SumTo(a, |a|, prefix, inside));
    } else {
      SumConcat(a, b, n - 1, prefix, inside);
      assert (a + b)[|a| + n - 1] == b[n - 1];
      PlusAssoc(SumTo(a, |a|, prefix, inside), SumTo(b, n - 1, prefix, inside), EntrySum(b[n - 1], prefix, inside));
    }
  }

  lemma {:induction false} SumOne(x: Node, prefix: string, inside: bool)
    ensures SumTo([x], 1, prefix, inside) == EntrySum(x, prefix, inside)
  {
    hide Plus, EntrySum;
    assert SumTo([x], 0, prefix, inside) == ZERO;
    PlusZero(EntrySum(x, prefix, inside));
  }

  // An entry's contribution can be taken out wherever it stands.
  lemma {:induction false} SumWithout(l: seq<Node>, x: Node, r: seq<Node>, prefix: string, inside: bool)
    ensures SumTo(l + [x] + r, |l| + 1 + |r|, prefix, inside)
            == Plus(SumTo(l + r, |l| + |r|, prefix, inside), EntrySum(x, prefix, inside))
  {
    hide Plus, EntrySum, SumTo;
    var lx := l + [x];
    SumConcat(l, r, |r|, prefix, inside);
    SumConcat(lx, r, |r|, prefix, inside);
    SumConcat(l, [x], 1, prefix, inside);
    SumOne(x, prefix, inside);
    PlusSwap(SumTo(l, |l|, prefix, inside), EntrySum(x, prefix, inside), SumTo(r, |r|, prefix, inside));
  }

  lemma {:induction false} Removed(l: seq<Node>, x: Node, r: seq<Node>)
    ensures multiset(l + [x] + r) == multiset(l + r) + multiset{x}
  {
  }

  // Any permutation of a listing contributes the same.
  lemma {:induction false} SumPermuted(a: seq<Node>, b: seq<Node>, prefix: string, inside: bool)
    requires multiset(a) == multiset(b)
    ensures |a| == |b| && SumTo(a, |a|, prefix, inside) == SumTo(b, |b|, prefix, inside)
    decreases |a|
  {
    hide Plus, EntrySum, SumTo;
    if a == [] {
      assert b == [] by {
        assert |multiset(b)| == 0;
      }
    } else {
      var rest, x := a[..|a| - 1], a[|a| - 1];
      assert a == rest + [x] + [];
      assert x in multiset(a);
      var l, r := SplitAt(b, x);
      SmallerPermuted(rest, x, l, r);
      SumPermuted(rest, l + r, prefix, inside);
      SumWithout(rest, x, [], prefix, inside);
      SumWithout(l, x, r, prefix, inside);
      assert rest + [] == rest;
    }
  }

  lemma {:induction false} SplitAt(b: seq<Node>, x: Node) returns (l: seq<Node>, r: seq<Node>)
    requires x in multiset(b)
    ensures b == l + [x] + r
  {
    var i :| 0 <= i < |b| && b[i] == x;
    l, r := b[..i], b[i + 1..];
  }

  lemma {:induction false} SmallerPermuted(rest: seq<Node>, x: Node, l: seq<Node>, r: seq<Node>)
    requires multiset(rest + [x] + []) == multiset(l + [x] + r)
    ensures multiset(rest) == multiset(l + r)
  {
    Removed(rest, x, []);
    Removed(l, x, r);
    assert rest + [] == rest;
    Cancel(multiset(rest), multiset(l + r), x);
  }

  // The same tree, its directories listed in other orders at every level.
  ghost predicate Relisted(a: Node, b: Node)
    decreases a
  {
    match a
    case Dir(name, readable, children) =>
      b.Dir? && b.name == name && b.readable == readable
      && exists mid: seq<Node> :: |mid| == |children| && multiset(mid) == multiset(b.children)
           && forall i | 0 <= i < |children| :: Relisted(children[i], mid[i])
    case _ => a == b
  }

  lemma {:induction false} RelistedSame(a: Node, b: Node, prefix: string, inside: bool)
    requires Relisted(a, b)
    ensures EntrySum(a, prefix, inside) == EntrySum(b, prefix, inside)
    ensures a.Dir? ==> DirSum(a, prefix, inside) == DirSum(b, prefix, inside)
    decreases a, 2
  {
    if a.Dir? {
      var mid: seq<Node> :| |mid| == |a.children| && multiset(mid) == multiset(b.children)
                            && forall i | 0 <= i < |a.children| :: Relisted(a.children[i], mid[i]);
      var key, into := Join(prefix, a.name), inside || IsScope(a.name);
      RelistedTo(a, a.children, mid, |mid|, prefix, inside);
      SumPermuted(mid, b.children, prefix, inside);
      RelistedTo(a, a.children, mid, |mid|, key, into);
      SumPermuted(mid, b.children, key, into);
    }
  }

  lemma {:induction false} RelistedTo(a: Node, es: seq<Node>, fs: seq<Node>, n: nat, prefix: string, inside: bool)
    requires a.Dir? && es == a.children && |es| == |fs| && n <= |es|
    requires forall i | 0 <= i < |es| :: Relisted(es[i], fs[i])
    ensures SumTo(es, n, prefix, inside) == SumTo(fs, n, prefix, inside)
    decreases a, 1, n
  {
    if n > 0 {
      RelistedTo(a, es, fs, n - 1, prefix, inside);
      RelistedSame(es[n - 1], fs[n - 1], prefix, inside);
    }
  }

  // ----- the least key -------------------------------------------------------------------------

  ghost predicate IsLeast(key: Option<string>, keys: multiset<string>) {
    if key.None? then keys == multiset{}
    else key.value in keys && forall k | k in keys :: !Less(k, key.value)
  }

  lemma {:induction false} LeastUnique(a: Option<string>, b: Option<string>, keys: multiset<string>)
    requires IsLeast(a, keys) && IsLeast(b, keys)
    ensures a == b
  {
    if a.Some? && b.Some? {
      LessTotal(a.value, b.value);
    }
  }

  lemma {:induction false} LeastGrows(prior: Option<string>, keys: multiset<string>, key: string)
    requires IsLeast(prior, keys)
    ensures IsLeast(if prior.None? || Less(key, prior.value) then Some(key) else prior, keys + multiset{key})
  {
    var least := if prior.None? || Less(key, prior.value) then Some(key) else prior;
    forall k | k in keys + multiset{key} ensures !Less(k, least.value) {
      LessTotal(key, key);
      if k in keys && prior.Some? && Less(key, prior.value) && Less(k, key) {
        LessTransitive(k, key, prior.value);
      }
    }
  }

  // The probe's answer does not depend on the order directories list entries in.
  lemma {:induction false} ListingOrderIrrelevant(a: Node, b: Node, x: Option<string>, y: Option<string>)
    requires a.Dir? && b.Dir? && Relisted(a, b)
    requires IsLeast(x, DirSum(a, "", false).keys) && IsLeast(y, DirSum(b, "", false).keys)
    ensures DirSum(a, "", false) == DirSum(b, "", false) && x == y
  {
    RelistedSame(a, b, "", false);
    LeastUnique(x, y, DirSum(a, "", false).keys);
  }

  // ----- sorting a listing ------------------------------------------------------------------------

  function Insert(e: Node, es: seq<Node>): seq<Node> {
    if es == [] || !Less(es[0].name, e.name) then [e] + es else [es[0]] + Insert(e, es[1..])
  }

  function SortByName(es: seq<Node>): seq<Node> {
    if es == [] then [] else Insert(es[0], SortByName(es[1..]))
  }

  lemma {:induction false} InsertAdds(e: Node, es: seq<Node>)
    ensures multiset(Insert(e, es)) == multiset(es) + multiset{e}
  {
    if es != [] && Less(es[0].name, e.name) {
      InsertAdds(e, es[1..]);
      assert es == [es[0]] + es[1..];
    }
  }

  lemma {:induction false} SortPermutes(es: seq<Node>)
    ensures multiset(SortByName(es)) == multiset(es)
  {
    if es != [] {
      SortPermutes(es[1..]);
      InsertAdds(es[0], SortByName(es[1..]));
      assert es == [es[0]] + es[1..];
    }
  }

  // ----- the stack --------------------------------------------------------------------------------

  datatype Frame = Frame(key: string, dir: Node)

  ghost predicate Dirs(stack: seq<Frame>) {
    forall i | 0 <= i < |stack| :: stack[i].dir.Dir?
  }

  // What the first n frames still have to contribute.
  ghost function StackSum(stack: seq<Frame>, n: nat, inside: bool): Sum
    requires n <= |stack| && Dirs(stack)
  {
    if n == 0 then ZERO else Plus(StackSum(stack, n - 1, inside), DirSum(stack[n - 1].dir, stack[n - 1].key, inside))
  }

  lemma {:induction false} StackPrefix(stack: seq<Frame>, more: seq<Frame>, n: nat, inside: bool)
    requires n <= |stack| && stack <= more && Dirs(more) && Dirs(stack)
    ensures StackSum(stack, n, inside) == StackSum(more, n, inside)
  {
    if n > 0 {
      StackPrefix(stack, more, n - 1, inside);
    }
  }

  lemma {:induction false} Pushed(stack: seq<Frame>, f: Frame, inside: bool)
    requires Dirs(stack) && f.dir.Dir?
    ensures StackSum(stack + [f], |stack| + 1, inside)
            == Plus(StackSum(stack, |stack|, inside), DirSum(f.dir, f.key, inside))
  {
    StackPrefix(stack, stack + [f], |stack|, inside);
  }

  // ----- the order of the scan -----------------------------------------------------------------

  // A directory on the way: how many entries it lists, or None if it cannot be listed.
  type Trace = seq<Option<nat>>

  function Fails(trace: Trace, count: nat): Result<nat, Failure> {
    if trace == [] then Ok(count)
    else if trace[0].None? then Err(Unreadable)
    else if count + trace[0].value > MAX_TREE_ENTRIES then Err(TooLarge)
    else Fails(trace[1..], count + trace[0].value)
  }

  // What is listed before the first directory that cannot be.
  function ListedBefore(trace: Trace): nat {
    if trace == [] || trace[0].None? then 0 else trace[0].value + ListedBefore(trace[1..])
  }

  lemma {:induction false} FailsExactly(trace: Trace, count: nat)
    requires count <= MAX_TREE_ENTRIES
    ensures Fails(trace, count) == Err(TooLarge) <==> count + ListedBefore(trace) > MAX_TREE_ENTRIES
    ensures Fails(trace, count) == Err(Unreadable) <==>
              count + ListedBefore(trace) <= MAX_TREE_ENTRIES && None in trace
  {
    if trace != [] && trace[0].Some? {
      assert None in trace <==> None in trace[1..];
      if count + trace[0].value <= MAX_TREE_ENTRIES {
        FailsExactly(trace[1..], count + trace[0].value);
      }
    }
  }

  lemma {:induction false} FailsAppend(a: Trace, b: Trace, count: nat)
    ensures Fails(a + b, count) == if Fails(a, count).Ok? then Fails(b, Fails(a, count).value) else Fails(a, count)
  {
    if a == [] {
      assert a + b == b;
    } else {
      assert (a + b)[1..] == a[1..] + b;
      if a[0].Some? && count + a[0].value <= MAX_TREE_ENTRIES {
        FailsAppend(a[1..], b, count + a[0].value);
      }
    }
  }

  // An entry of a sorted listing lies below its directory.
  lemma {:induction false} EntryBelow(d: Node, i: nat)
    requires d.Dir? && i < |SortByName(d.children)|
    ensures SortByName(d.children)[i] < d
  {
    SortPermutes(d.children);
    var e := SortByName(d.children)[i];
    assert e in multiset(d.children);
    var k :| 0 <= k < |d.children| && d.children[k] == e;
    assert d.children[k] < d;
  }

  // The directories below one, itself first, in the order they are listed.
  ghost function Listings(d: Node, inside: bool): Trace
    requires d.Dir?
    decreases d, 2, 0
  {
    if !d.readable then [None]
    else
      [Some(|d.children|)] + (if inside then [] else AtOnce(d, |SortByName(d.children)|)) + Later(d, 0, inside)
  }

  predicate ScannedAtOnce(e: Node) {
    e.Dir? && IsScope(e.name)
  }

  // Outside, `thoughts` directories among the first n entries are scanned on the spot, last first.
  ghost function AtOnce(d: Node, n: nat): Trace
    requires d.Dir? && n <= |SortByName(d.children)|
    decreases d, 1, n
  {
    if n == 0 then []
    else
      EntryBelow(d, n - 1);
      var e := SortByName(d.children)[n - 1];
      (if ScannedAtOnce(e) then Listings(e, true) else []) + AtOnce(d, n - 1)
  }

  // The other directories from the i-th entry on follow in order, each with all it holds.
  ghost function Later(d: Node, i: nat, inside: bool): Trace
    requires d.Dir? && i <= |SortByName(d.children)|
    decreases d, 1, |SortByName(d.children)| - i
  {
    if i == |SortByName(d.children)| then []
    else
      EntryBelow(d, i);
      var e := SortByName(d.children)[i];
      (if e.Dir? && (inside || !ScannedAtOnce(e)) then Listings(e, inside) else []) + Later(d, i + 1, inside)
  }

  // What a stack still has to list, its top first.
  ghost function Pending(stack: seq<Frame>, n: nat, inside: bool): Trace
    requires n <= |stack| && Dirs(stack)
  {
    if n == 0 then [] else Listings(stack[n - 1].dir, inside) + Pending(stack, n - 1, inside)
  }

  lemma {:induction false} PendingPrefix(stack: seq<Frame>, more: seq<Frame>, n: nat, inside: bool)
    requires n <= |stack| && stack <= more && Dirs(more) && Dirs(stack)
    ensures Pending(stack, n, inside) == Pending(more, n, inside)
  {
    hide Listings;
    if n > 0 {
      PendingPrefix(stack, more, n - 1, inside);
    }
  }

  lemma {:induction false} PendingTop(below: seq<Frame>, f: Frame, inside: bool)
    requires Dirs(below) && f.dir.Dir?
    ensures Dirs(below + [f])
    ensures Pending(below + [f], |below| + 1, inside) == Listings(f.dir, inside) + Pending(below, |below|, inside)
  {
    hide Listings;
    PendingPrefix(below, below + [f], |below|, inside);
  }

  // How a scan ends, with the entries counted by then.
  function Ended(r: Result<(), Failure>, entries: nat): Result<nat, Failure> {
    if r.Ok? then Ok(entries) else Err(r.error)
  }

  // After a directory's own listing come what is scanned on the spot and what follows.
  lemma {:induction false} ListingEnds(d: Node, inside: bool, rest: Trace, count: nat)
    requires d.Dir?
    ensures |SortByName(d.children)| == |d.children|
    ensures var es := SortByName(d.children);
            Fails(Listings(d, inside) + rest, count)
            == if !d.readable then Err(Unreadable)
               else if count + |es| > MAX_TREE_ENTRIES then Err(TooLarge)
               else Fails((if inside then [] else AtOnce(d, |es|)) + (Later(d, 0, inside) + rest), count + |es|)
  {
    hide AtOnce, Later, SortByName;
    var es := SortByName(d.children);
    SortPermutes(d.children);
    assert |es| == |multiset(es)| == |multiset(d.children)|;
    if d.readable {
      var after := (if inside then [] else AtOnce(d, |es|)) + (Later(d, 0, inside) + rest);
      var trace := Listings(d, inside) + rest;
      assert trace == [Some(|es|)] + after;
      assert trace[1..] == after;
    } else {
      assert (Listings(d, inside) + rest)[0] == None;
    }
  }

  // One more entry of the listing is classified, and pushed if it comes later.
  lemma {:induction false} LaterStep(
      d: Node, i: nat, inside: bool, f: Frame, below: seq<Frame>, stack: seq<Frame>, rest: Trace)
    requires d.Dir? && i < |SortByName(d.children)| && f.dir == SortByName(d.children)[i]
    requires Dirs(below) && Pending(below, |below|, inside) == Later(d, i + 1, inside) + rest
    requires stack == if f.dir.Dir? && (inside || !ScannedAtOnce(f.dir)) then below + [f] else below
    ensures Dirs(stack) && Pending(stack, |stack|, inside) == Later(d, i, inside) + rest
  {
    hide Listings, Pending, SortByName, ScannedAtOnce, Later;
    LaterSplits(d, i, inside);
    if f.dir.Dir? && (inside || !ScannedAtOnce(f.dir)) {
      PendingTop(below, f, inside);
      Regrouped(Listings(f.dir, inside), Later(d, i + 1, inside), rest);
    } else {
      NothingFirst(Later(d, i + 1, inside));
    }
  }

  lemma {:induction false} LaterSplits(d: Node, i: nat, inside: bool)
    requires d.Dir? && i < |SortByName(d.children)|
    ensures var e := SortByName(d.children)[i];
            Later(d, i, inside)
            == (if e.Dir? && (inside || !ScannedAtOnce(e)) then Listings(e, inside) else []) + Later(d, i + 1, inside)
  {
    hide Listings, SortByName, ScannedAtOnce;
  }

  lemma {:induction false} Regrouped(a: Trace, b: Trace, c: Trace)
    ensures a + (b + c) == (a + b) + c
  {
  }

  lemma {:induction false} AtOnceStep(d: Node, i: nat, rest: Trace, count: nat)
    requires d.Dir? && i < |SortByName(d.children)|
    ensures var e := SortByName(d.children)[i];
            var spot := Fails(if ScannedAtOnce(e) then Listings(e, true) else [], count);
            Fails(AtOnce(d, i + 1) + rest, count) == if spot.Ok? then Fails(AtOnce(d, i) + rest, spot.value) else spot
  {
    hide Listings, SortByName, Fails, AtOnce;
    var e := SortByName(d.children)[i];
    var spot: Trace := if ScannedAtOnce(e) then Listings(e, true) else [];
    AtOnceSplits(d, i);
    Regrouped(spot, AtOnce(d, i), rest);
    FailsAppend(spot, AtOnce(d, i) + rest, count);
  }

  lemma {:induction false} AtOnceSplits(d: Node, i: nat)
    requires d.Dir? && i < |SortByName(d.children)|
    ensures var e := SortByName(d.children)[i];
            AtOnce(d, i + 1) == (if ScannedAtOnce(e) then Listings(e, true) else []) + AtOnce(d, i)
  {
    hide Listings, SortByName;
  }

  lemma {:induction false} LaterNone(d: Node, inside: bool, rest: Trace)
    requires d.Dir?
    ensures Later(d, |SortByName(d.children)|, inside) + rest == rest
  {
    NothingFirst(rest);
  }

  lemma {:induction false} AtOnceNone(d: Node, rest: Trace)
    requires d.Dir?
    ensures AtOnce(d, 0) + rest == rest
  {
    NothingFirst(rest);
  }

  lemma {:induction false} FailsNone(count: nat, inside: bool)
    ensures Fails([], count) == Ok(count) && Pending([], 0, inside) == []
  {
  }

  lemma {:induction false} PendingOne(f: Frame, inside: bool)
    requires f.dir.Dir?
    ensures Pending([f], 1, inside) == Listings(f.dir, inside)
  {
    hide Listings;
    assert Pending([f], 0, inside) == [];
  }

  lemma {:induction false} PendingPopped(stack: seq<Frame>, inside: bool)
    requires Dirs(stack) && stack != []
    ensures var below, top := stack[..|stack| - 1], stack[|stack| - 1];
            Pending(stack, |stack|, inside) == Listings(top.dir, inside) + Pending(below, |below|, inside)
  {
    var below, top := stack[..|stack| - 1], stack[|stack| - 1];
    assert stack == below + [top];
    PendingTop(below, top, inside);
  }

  lemma {:induction false} NothingFirst(a: Trace)
    ensures [] + a == a
  {
  }

  // ----- the scan -------------------------------------------------------------------------------------

  class TreeProbe {
    var entries: nat
    var scopes: nat
    var records: nat
    var representative: Option<string>

    constructor ()
      ensures entries == scopes == records == 0 && representative == None
    {
      entries, scopes, records, representative := 0, 0, 0, None;
    }

    // The probe has accounted for exactly this much.
    ghost predicate Counted(s: Sum)
      reads this
    {
      entries == s.entries && scopes == s.scopes && records == |s.keys| && IsLeast(representative, s.keys)
    }

    // Lists a directory, counting every entry against the limit.
    method Entries(d: Node) returns (r: Result<seq<Node>, Failure>)
      requires d.Dir?
      modifies this`entries
      ensures !d.readable ==> r == Err(Unreadable) && entries == old(entries)
      ensures d.readable && old(entries) + |d.children| > MAX_TREE_ENTRIES && old(entries) <= MAX_TREE_ENTRIES
              ==> r == Err(TooLarge)
      ensures d.readable && old(entries) + |d.children| <= MAX_TREE_ENTRIES ==>
                r == Ok(SortByName(d.children)) && entries == old(entries) + |d.children|
    {
      if !d.readable {
        return Err(Unreadable);
      }
      for i := 0 to |d.children|
        invariant entries == old(entries) + i
        invariant i > 0 ==> entries <= MAX_TREE_ENTRIES
      {
        entries := entries + 1;
        if entries > MAX_TREE_ENTRIES {
          return Err(TooLarge);
        }
      }
      r := Ok(SortByName(d.children));
    }

    // Everything below one `thoughts` directory, depth first with a stack.
    method ScanThoughts(dir: Node, key: string, ghost done: Sum) returns (r: Result<(), Failure>)
      requires dir.Dir? && Counted(done) && done.entries <= MAX_TREE_ENTRIES
      modifies this
      ensures Scanned(r, done, Plus(done, DirSum(dir, key, true)))
      ensures Fails(Listings(dir, true), old(entries)) == Ended(r, entries)
    {
      hide Plus, DirSum, Listings, Pending, Fails;
      ghost var all, sofar := Plus(done, DirSum(dir, key, true)), done;
      var stack := [Frame(key, dir)];
      OneFrame(stack[0], true);
      PendingOne(stack[0], true);
      while stack != []
        invariant Dirs(stack)
        invariant Fails(Listings(dir, true), old(entries)) == Fails(Pending(stack, |stack|, true), entries)
        invariant Dirs(stack) && Counted(sofar) && sofar.entries <= MAX_TREE_ENTRIES
        invariant Plus(sofar, StackSum(stack, |stack|, true)) == all
        invariant sofar.readable == done.readable
        decreases all.entries + |stack| - sofar.entries
      {
        var current := stack[|stack| - 1];
        var below := stack[..|stack| - 1];
        Popped(stack, sofar, true);
        PendingPopped(stack, true);
        r, stack, sofar := VisitThoughts(current, below, sofar);
        if r.Err? {
          return;
        }
        PlusBounds(sofar, StackSum(stack, |stack|, true));
      }
      PlusZero(sofar);
      FailsNone(entries, true);
      r := Ok(());
    }

    // The outcome of scanning, given what was counted before and what there is.
    ghost predicate Scanned(r: Result<(), Failure>, done: Sum, all: Sum)
      reads this
    {
      && (r.Ok? ==> all.readable == done.readable && all.entries <= MAX_TREE_ENTRIES && Counted(all))
      && (r == Err(TooLarge) ==> all.entries > MAX_TREE_ENTRIES)
      && (r == Err(Unreadable) ==> !all.readable)
    }

    // One iteration of the inner scan: list a directory, push its directories,
    // count its records.
    method VisitThoughts(current: Frame, below: seq<Frame>, ghost done: Sum)
      returns (r: Result<(), Failure>, stack: seq<Frame>, ghost sofar: Sum)
      requires current.dir.Dir? && Dirs(below) && Counted(done) && done.entries <= MAX_TREE_ENTRIES
      modifies this
      ensures var all := Plus(Plus(done, DirSum(current.dir, current.key, true)), StackSum(below, |below|, true));
              && (r.Ok? ==>
                    && Dirs(stack) && Counted(sofar) && sofar.entries <= MAX_TREE_ENTRIES
                    && Plus(sofar, StackSum(stack, |stack|, true)) == all && sofar.readable == done.readable
                    && |stack| - sofar.entries < |below| + 1 - done.entries)
              && (r == Err(TooLarge) ==> all.entries > MAX_TREE_ENTRIES)
              && (r == Err(Unreadable) ==> !all.readable)
      ensures Fails(Listings(current.dir, true) + Pending(below, |below|, true), old(entries))
              == if r.Ok? then Fails(Pending(stack, |stack|, true), entries) else Err(r.error)
    {
      hide Plus, SumTo, DirSum, StackSum, SortByName, IsLeast, Listings, Pending, Later, AtOnce, Fails;
      ghost var rest := Pending(below, |below|, true);
      ListingEnds(current.dir, true, rest, entries);
      NothingFirst(Later(current.dir, 0, true) + rest);
      stack, sofar := below, done;
      ghost var all := Plus(Plus(done, DirSum(current.dir, current.key, true)), StackSum(below, |below|, true));
      var listing := Entries(current.dir);
      if listing.Err? {
        ListingFails(done, current, below, true);
        return Err(listing.error), stack, sofar;
      }
      var es := listing.value;
      ListingSum(done, current, below, true);
      LaterNone(current.dir, true, rest);
      var i := |es|;
      // `entries` already counts the whole listing; `sofar` follows the loop.
      while i > 0
        invariant 0 <= i <= |es| && Dirs(stack)
        invariant CountedAhead(sofar, i)
        invariant Plus(Plus(sofar, SumTo(es, i, current.key, true)), StackSum(stack, |stack|, true)) == all
        invariant sofar.readable == done.readable
        invariant |stack| + i <= |below| + |es| && sofar.entries - done.entries == |es| - i
        invariant Pending(stack, |stack|, true) == Later(current.dir, i, true) + rest
        invariant entries == old(entries) + |es|
      {
        i := i - 1;
        ghost var before := stack;
        stack, sofar := Classify(es, i, current.key, stack, sofar);
        LaterStep(current.dir, i, true, Frame(Join(current.key, es[i].name), es[i]), before, stack, rest);
      }
      ListingDone(sofar, es, current.key, stack, true);
      r := Ok(());
    }

    ghost predicate CountedAhead(s: Sum, ahead: nat)
      reads this
    {
      && entries == s.entries + ahead <= MAX_TREE_ENTRIES && scopes == s.scopes
      && records == |s.keys| && IsLeast(representative, s.keys)
    }

    method Classify(es: seq<Node>, i: nat, prefix: string, below: seq<Frame>, ghost done: Sum)
      returns (stack: seq<Frame>, ghost sofar: Sum)
      requires i < |es| && Dirs(below) && CountedAhead(done, i + 1)
      modifies this
      ensures Dirs(stack) && stack == if es[i].Dir? then below + [Frame(Join(prefix, es[i].name), es[i])] else below
      ensures CountedAhead(sofar, i) && sofar.entries == done.entries + 1 && sofar.readable == done.readable
      ensures Plus(Plus(sofar, SumTo(es, i, prefix, true)), StackSum(stack, |stack|, true))
              == Plus(Plus(done, SumTo(es, i + 1, prefix, true)), StackSum(below, |below|, true))
    {
      var e := es[i];
      var key := Join(prefix, e.name);
      stack := below;
      ghost var one := Sum(1, 0, multiset{}, true);
      if e.Dir? {
        stack := stack + [Frame(key, e)];
        Pushed(below, Frame(key, e), true);
      } else if e.File? && IsRecord(e.name) {
        records := records + 1;
        LeastGrows(representative, done.keys, key);
        if representative.None? || Less(key, representative.value) {
          representative := Some(key);
        }
        one := Sum(1, 0, multiset{key}, true);
      }
      sofar := Plus(done, one);
      Settle(done, one, es, i, prefix, below, stack);
    }

    // The outer scan: count each outermost `thoughts` directory and scan below it,
    // push every other directory.
    method ScanScopeTree(root: Node) returns (r: Result<(), Failure>)
      requires root.Dir? && entries == scopes == records == 0 && representative == None
      modifies this
      ensures Scanned(r, ZERO, DirSum(root, "", false))
      ensures var all := DirSum(root, "", false);
              && (r.Ok? <==> all.readable && all.entries <= 100_000)
              && (all.readable ==> (r == Err(TooLarge) <==> all.entries > 100_000))
      ensures var trace := Listings(root, false);
              && (r == Err(TooLarge) <==> ListedBefore(trace) > 100_000)
              && (r == Err(Unreadable) <==> ListedBefore(trace) <= 100_000 && None in trace)
    {
      hide Plus, DirSum, Listings, Pending, Fails, ListedBefore;
      FailsExactly(Listings(root, false), 0);
      ghost var all, sofar := DirSum(root, "", false), ZERO;
      var stack := [Frame("", root)];
      OneFrame(stack[0], false);
      PendingOne(stack[0], false);
      PlusZero(all);
      while stack != []
        invariant Dirs(stack) && Fails(Listings(root, false), 0) == Fails(Pending(stack, |stack|, false), entries)
        invariant Dirs(stack) && Counted(sofar) && sofar.entries <= MAX_TREE_ENTRIES
        invariant Plus(sofar, StackSum(stack, |stack|, false)) == all
        invariant sofar.readable
        decreases all.entries + |stack| - sofar.entries
      {
        var current := stack[|stack| - 1];
        var below := stack[..|stack| - 1];
        Popped(stack, sofar, false);
        PendingPopped(stack, false);
        r, stack, sofar := VisitScopes(current, below, sofar);
        if r.Err? {
          assert r.error.TooLarge? || r.error.Unreadable?;
          return;
        }
        PlusBounds(sofar, StackSum(stack, |stack|, false));
      }
      PlusZero(sofar);
      FailsNone(entries, false);
      r := Ok(());
    }

    method VisitScopes(current: Frame, below: seq<Frame>, ghost done: Sum)
      returns (r: Result<(), Failure>, stack: seq<Frame>, ghost sofar: Sum)
      requires current.dir.Dir? && Dirs(below) && Counted(done) && done.entries <= MAX_TREE_ENTRIES && done.readable
      modifies this
      ensures var all := Plus(Plus(done, DirSum(current.dir, current.key, false)), StackSum(below, |below|, false));
              && (r.Ok? ==>
                    && Dirs(stack) && Counted(sofar) && sofar.entries <= MAX_TREE_ENTRIES
                    && Plus(sofar, StackSum(stack, |stack|, false)) == all && sofar.readable
                    && |stack| - sofar.entries < |below| + 1 - done.entries)
              && (r == Err(TooLarge) ==> all.entries > MAX_TREE_ENTRIES)
              && (r == Err(Unreadable) ==> !all.readable)
      ensures Fails(Listings(current.dir, false) + Pending(below, |below|, false), old(entries))
              == if r.Ok? then Fails(Pending(stack, |stack|, false), entries) else Err(r.error)
    {
      hide Plus, SumTo, DirSum, StackSum, SortByName, IsLeast, Listings, Pending, Later, AtOnce, Fails, ScannedAtOnce;
      ghost var rest := Pending(below, |below|, false);
      ghost var after := Later(current.dir, 0, false) + rest;
      ghost var ends := Fails(Listings(current.dir, false) + rest, entries);
      ListingEnds(current.dir, false, rest, entries);
      stack, sofar := below, done;
      ghost var all := Plus(Plus(done, DirSum(current.dir, current.key, false)), StackSum(below, |below|, false));
      var listing := Entries(current.dir);
      if listing.Err? {
        ListingFails(done, current, below, false);
        return Err(listing.error), stack, sofar;
      }
      var es := listing.value;
      ListingSum(done, current, below, false);
      LaterNone(current.dir, false, rest);
      var i := |es|;
      while i > 0
        invariant 0 <= i <= |es| && Dirs(stack)
        invariant CountedAhead(sofar, i)
        invariant Plus(Plus(sofar, SumTo(es, i, current.key, false)), StackSum(stack, |stack|, false)) == all
        invariant sofar.readable
        invariant |stack| + i <= |below| + |es| && sofar.entries - done.entries >= |es| - i
        invariant Pending(stack, |stack|, false) == Later(current.dir, i, false) + rest
        invariant ends == Fails(AtOnce(current.dir, i) + after, entries)
      {
        i := i - 1;
        AtOnceStep(current.dir, i, after, entries);
        ghost var before := stack;
        r, stack, sofar := ClassifyScope(es, i, current.key, stack, sofar);
        if r.Err? {
          return;
        }
        LaterStep(current.dir, i, false, Frame(Join(current.key, es[i].name), es[i]), before, stack, rest);
      }
      AtOnceNone(current.dir, after);
      ListingDone(sofar, es, current.key, stack, false);
      r := Ok(());
    }

    method ClassifyScope(es: seq<Node>, i: nat, prefix: string, below: seq<Frame>, ghost done: Sum)
      returns (r: Result<(), Failure>, stack: seq<Frame>, ghost sofar: Sum)
      requires i < |es| && Dirs(below) && CountedAhead(done, i + 1) && done.readable
      modifies this
      ensures var all := Plus(Plus(done, SumTo(es, i + 1, prefix, false)), StackSum(below, |below|, false));
              && (r.Ok? ==>
                    && Dirs(stack) && CountedAhead(sofar, i)
                    && sofar.entries >= done.entries + 1 && sofar.readable
                    && Plus(Plus(sofar, SumTo(es, i, prefix, false)), StackSum(stack, |stack|, false)) == all)
              && (r == Err(TooLarge) ==> all.entries > MAX_TREE_ENTRIES)
              && (r == Err(Unreadable) ==> !all.readable)
      ensures r.Ok? ==>
                stack == if es[i].Dir? && !ScannedAtOnce(es[i]) then below + [Frame(Join(prefix, es[i].name), es[i])]
                         else below
      ensures Fails(if ScannedAtOnce(es[i]) then Listings(es[i], true) else [], old(entries)) == Ended(r, entries)
    {
      hide SumTo, DirSum, StackSum, IsScope, IsRecord, Join, Plus, IsLeast, Listings, Fails;
      var e := es[i];
      var key := Join(prefix, e.name);
      stack, r := below, Ok(());
      FailsNone(entries, false);
      if e.Dir? && IsScope(e.name) {
        scopes := scopes + 1;
        ghost var ahead := Sum(done.entries + 1 + i, done.scopes + 1, done.keys, true);
        r := ScanThoughts(e, key, ahead);
        sofar := Plus(Plus(done, Sum(1, 1, multiset{}, true)), DirSum(e, key, true));
        SettleThoughts(done, es, i, prefix, below);
        CountedThoughts(done, es, i, prefix, below);
      } else {
        if e.Dir? {
          stack := stack + [Frame(key, e)];
        }
        sofar := Plus(done, Sum(1, 0, multiset{}, true));
        PlusEntry(done);
        SettleScope(done, es, i, prefix, below, stack);
      }
    }
  }

  // A directory that cannot be listed, or whose listing is one too many.
  lemma {:induction false} ListingFails(done: Sum, f: Frame, below: seq<Frame>, inside: bool)
    requires f.dir.Dir? && Dirs(below)
    ensures var all := Plus(Plus(done, DirSum(f.dir, f.key, inside)), StackSum(below, |below|, inside));
            if f.dir.readable then all.entries >= done.entries + |f.dir.children| else !all.readable
  {
    AtLeastListed(f.dir.children, |f.dir.children|, f.key, inside);
    hide SumTo, StackSum;
  }

  // A listed directory contributes its sorted entries.
  lemma {:induction false} ListingSum(done: Sum, f: Frame, below: seq<Frame>, inside: bool)
    requires f.dir.Dir? && f.dir.readable && Dirs(below)
    ensures var es := SortByName(f.dir.children);
            && |es| == |f.dir.children|
            && Plus(Plus(done, SumTo(es, |es|, f.key, inside)), StackSum(below, |below|, inside))
               == Plus(Plus(done, DirSum(f.dir, f.key, inside)), StackSum(below, |below|, inside))
  {
    hide SumTo, StackSum, Plus, SortByName;
    var es := SortByName(f.dir.children);
    SortPermutes(f.dir.children);
    assert |es| == |multiset(es)| == |multiset(f.dir.children)|;
    SumPermuted(es, f.dir.children, f.key, inside);
  }

  lemma {:induction false} ListingDone(done: Sum, es: seq<Node>, key: string, stack: seq<Frame>, inside: bool)
    requires Dirs(stack)
    ensures Plus(Plus(done, SumTo(es, 0, key, inside)), StackSum(stack, |stack|, inside))
            == Plus(done, StackSum(stack, |stack|, inside))
  {
    hide StackSum, Plus;
    PlusZero(done);
  }

  lemma {:induction false} RegroupInto(done: Sum, one: Sum, rest: Sum, stack: Sum, deep: Sum)
    ensures Plus(Plus(Plus(Plus(done, one), deep), rest), stack) == Plus(Plus(done, Plus(rest, Plus(one, deep))), stack)
  {
  }

  // Moves an entry's own contribution from the listing to what is counted, and
  // what lies below it to the stack.
  lemma {:induction false} Regroup(done: Sum, one: Sum, rest: Sum, stack: Sum, deep: Sum)
    ensures Plus(Plus(Plus(done, one), rest), Plus(stack, deep)) == Plus(Plus(done, Plus(rest, Plus(one, deep))), stack)
  {
  }

  lemma {:induction false} InsideEntry(e: Node, prefix: string)
    ensures EntrySum(e, prefix, true)
            == Plus(Sum(1, 0, if e.File? && IsRecord(e.name) then multiset{Join(prefix, e.name)} else multiset{}, true),
                    if e.Dir? then DirSum(e, Join(prefix, e.name), true) else ZERO)
  {
    hide Plus, DirSum, IsScope, IsRecord, Join;
    PlusZero(Sum(1, 0, multiset{}, true));
    PlusZero(Sum(1, 0, multiset{Join(prefix, e.name)}, true));
  }

  lemma {:induction false} OutsideEntry(e: Node, prefix: string)
    ensures EntrySum(e, prefix, false)
            == Plus(Sum(1, if e.Dir? && IsScope(e.name) then 1 else 0, multiset{}, true),
                    if e.Dir? then DirSum(e, Join(prefix, e.name), IsScope(e.name)) else ZERO)
  {
    hide Plus, DirSum, IsScope, IsRecord, Join;
    PlusZero(Sum(1, 0, multiset{}, true));
    PlusZero(Sum(1, 0, multiset{Join(prefix, e.name)}, true));
  }

  // The accounting of `ClassifyScope` for an entry it does not scan at once.
  lemma {:induction false} SettleScope(
      done: Sum, es: seq<Node>, i: nat, prefix: string, below: seq<Frame>, stack: seq<Frame>)
    requires i < |es| && Dirs(below)
    requires var e, key := es[i], Join(prefix, es[i].name);
             !(e.Dir? && IsScope(e.name)) && stack == (if e.Dir? then below + [Frame(key, e)] else below)
    ensures Dirs(stack)
    ensures Plus(Plus(Plus(done, Sum(1, 0, multiset{}, true)), SumTo(es, i, prefix, false)),
                 StackSum(stack, |stack|, false))
            == Plus(Plus(done, SumTo(es, i + 1, prefix, false)), StackSum(below, |below|, false))
  {
    hide Plus, DirSum, EntrySum, IsScope, IsRecord, Join;
    var e, key, one := es[i], Join(prefix, es[i].name), Sum(1, 0, multiset{}, true);
    var deep := if e.Dir? then DirSum(e, key, false) else ZERO;
    var rest, under := SumTo(es, i, prefix, false), StackSum(below, |below|, false);
    OutsideEntry(e, prefix);
    PlusZero(under);
    if e.Dir? {
      Pushed(below, Frame(key, e), false);
    }
    Regroup(done, one, rest, under, deep);
    assert SumTo(es, i + 1, prefix, false) == Plus(rest, Plus(one, deep));
    assert StackSum(stack, |stack|, false) == Plus(under, deep);
  }

  // The accounting of a `thoughts` directory scanned at once.
  lemma {:induction false} SettleThoughts(done: Sum, es: seq<Node>, i: nat, prefix: string, below: seq<Frame>)
    requires i < |es| && Dirs(below) && es[i].Dir? && IsScope(es[i].name)
    ensures var deep := DirSum(es[i], Join(prefix, es[i].name), true);
            Plus(Plus(Plus(Plus(done, Sum(1, 1, multiset{}, true)), deep), SumTo(es, i, prefix, false)),
                 StackSum(below, |below|, false))
            == Plus(Plus(done, SumTo(es, i + 1, prefix, false)), StackSum(below, |below|, false))
  {
    hide Plus, DirSum, EntrySum, IsScope, IsRecord, Join;
    var one, deep := Sum(1, 1, multiset{}, true), DirSum(es[i], Join(prefix, es[i].name), true);
    OutsideEntry(es[i], prefix);
    RegroupInto(done, one, SumTo(es, i, prefix, false), StackSum(below, |below|, false), deep);
    assert SumTo(es, i + 1, prefix, false) == Plus(SumTo(es, i, prefix, false), Plus(one, deep));
  }

  // While a `thoughts` directory is scanned the whole listing around it is already counted.
  lemma {:induction false} CountedThoughts(done: Sum, es: seq<Node>, i: nat, prefix: string, below: seq<Frame>)
    requires i < |es| && Dirs(below) && es[i].Dir? && IsScope(es[i].name) && done.readable
    ensures var deep := DirSum(es[i], Join(prefix, es[i].name), true);
            var scanned := Plus(Sum(done.entries + 1 + i, done.scopes + 1, done.keys, true), deep);
            var sofar := Plus(Plus(done, Sum(1, 1, multiset{}, true)), deep);
            var all := Plus(Plus(done, SumTo(es, i + 1, prefix, false)), StackSum(below, |below|, false));
            && sofar == Sum(scanned.entries - i, scanned.scopes, scanned.keys, scanned.readable)
            && sofar.entries >= done.entries + 1
            && all.entries >= scanned.entries && (all.readable ==> scanned.readable)
  {
    hide SumTo, DirSum, StackSum, IsScope, IsRecord, Join;
    SettleThoughts(done, es, i, prefix, below);
    AtLeastListed(es, i, prefix, false);
  }

  lemma {:induction false} PlusEntry(done: Sum)
    ensures Plus(done, Sum(1, 0, multiset{}, true)) == done.(entries := done.entries + 1)
  {
  }

  // The accounting of `Classify`.
  lemma {:induction false} Settle(
      done: Sum, one: Sum, es: seq<Node>, i: nat, prefix: string, below: seq<Frame>, stack: seq<Frame>)
    requires i < |es| && Dirs(below)
    requires var e, key := es[i], Join(prefix, es[i].name);
             && stack == (if e.Dir? then below + [Frame(key, e)] else below)
             && one == Sum(1, 0, if e.File? && IsRecord(e.name) then multiset{key} else multiset{}, true)
    ensures Dirs(stack)
    ensures Plus(Plus(Plus(done, one), SumTo(es, i, prefix, true)), StackSum(stack, |stack|, true))
            == Plus(Plus(done, SumTo(es, i + 1, prefix, true)), StackSum(below, |below|, true))
  {
    hide Plus, DirSum, EntrySum, IsScope, IsRecord, Join;
    var e, key := es[i], Join(prefix, es[i].name);
    var deep := if e.Dir? then DirSum(e, key, true) else ZERO;
    var rest, under := SumTo(es, i, prefix, true), StackSum(below, |below|, true);
    InsideEntry(e, prefix);
    PlusZero(one);
    PlusZero(under);
    if e.Dir? {
      Pushed(below, Frame(key, e), true);
    }
    Regroup(done, one, rest, under, deep);
    assert SumTo(es, i + 1, prefix, true) == Plus(rest, Plus(one, deep));
    assert StackSum(stack, |stack|, true) == Plus(under, deep);
  }

  lemma {:induction false} OneFrame(f: Frame, inside: bool)
    requires f.dir.Dir?
    ensures Dirs([f]) && StackSum([f], 1, inside) == DirSum(f.dir, f.key, inside)
  {
    hide Plus, DirSum;
    assert StackSum([f], 0, inside) == ZERO;
    PlusZero(DirSum(f.dir, f.key, inside));
  }

  lemma {:induction false} Popped(stack: seq<Frame>, sofar: Sum, inside: bool)
    requires Dirs(stack) && stack != []
    ensures var below, top := stack[..|stack| - 1], stack[|stack| - 1];
            && Dirs(below) && top.dir.Dir?
            && Plus(sofar, StackSum(stack, |stack|, inside))
               == Plus(Plus(sofar, DirSum(top.dir, top.key, inside)), StackSum(below, |below|, inside))
  {
    var below, top := stack[..|stack| - 1], stack[|stack| - 1];
    StackPrefix(below, stack, |below|, inside);
    hide Plus, DirSum;
    PlusAssoc(sofar, StackSum(below, |below|, inside), DirSum(top.dir, top.key, inside));
    PlusSwap(sofar, StackSum(below, |below|, inside), DirSum(top.dir, top.key, inside));
  }

  lemma {:induction false} AtLeastListed(es: seq<Node>, n: nat, prefix: string, inside: bool)
    requires n <= |es|
    ensures SumTo(es, n, prefix, inside).entries >= n
  {
    if n > 0 {
      AtLeastListed(es, n - 1, prefix, inside);
    }
  }
}
