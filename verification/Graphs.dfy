// Chains through a partial function: following one optional link from every node.
module Graphs {
  import opened Base

  // Where n steps from x lead; a node without a link is where a chain ends.
  function Walk<T>(next: map<T, T>, x: T, n: nat): Option<T> {
    if n == 0 then Some(x)
    else
      var y := Walk(next, x, n - 1);
      if y.Some? && y.value in next then Some(next[y.value]) else None
  }

  ghost predicate OnCycle<T(!new)>(next: map<T, T>, x: T) {
    exists n: nat :: n > 0 && Walk(next, x, n) == Some(x)
  }

  ghost predicate Acyclic<T(!new)>(next: map<T, T>) {
    forall x :: !OnCycle(next, x)
  }

  // The walk from x repeats a node.
  ghost predicate Loops<T(!new)>(next: map<T, T>, x: T) {
    exists i: nat :: Walk(next, x, i).Some? && OnCycle(next, Walk(next, x, i).value)
  }

  // The `while` loop that follows a chain, remembering what it has seen.
  function Chase<T(==)>(next: map<T, T>, current: T, seen: set<T>): bool
    decreases next.Keys - seen
  {
    if current !in next then false
    else if current in seen then true
    else Chase(next, next[current], seen + {current})
  }

  method FindsLoop<T(==)>(next: map<T, T>, start: T) returns (found: bool)
    ensures found == Chase(next, start, {})
  {
    var current, seen := start, {};
    while current in next
      invariant Chase(next, start, {}) == Chase(next, current, seen)
      decreases next.Keys - seen
    {
      if current in seen {
        return true;
      }
      seen := seen + {current};
      current := next[current];
    }
    return false;
  }

  lemma {:induction false} WalkOn<T>(next: map<T, T>, x: T, m: nat, n: nat)
    ensures Walk(next, x, m).Some? ==> Walk(next, x, m + n) == Walk(next, Walk(next, x, m).value, n)
    ensures Walk(next, x, m).None? ==> Walk(next, x, m + n).None?
  {
    if n > 0 {
      WalkOn(next, x, m, n - 1);
    }
  }

  // Every node seen so far leads to the current one.
  ghost predicate Leads<T(!new)>(next: map<T, T>, seen: set<T>, current: T) {
    forall s | s in seen :: exists n: nat :: n > 0 && Walk(next, s, n) == Some(current)
  }

  lemma {:induction false} LeadsOn<T(!new)>(next: map<T, T>, seen: set<T>, current: T)
    requires Leads(next, seen, current) && current in next
    ensures Leads(next, seen + {current}, next[current])
  {
    forall s | s in seen + {current}
      ensures exists n: nat :: n > 0 && Walk(next, s, n) == Some(next[current])
    {
      assert Walk(next, current, 0 + 1) == Some(next[current]);
      if s in seen {
        var n: nat :| n > 0 && Walk(next, s, n) == Some(current);
        assert Walk(next, s, n + 1) == Some(next[current]);
      }
    }
  }

  lemma {:induction false} ChaseFinds<T(!new)>(next: map<T, T>, current: T, seen: set<T>)
    requires Leads(next, seen, current) && Chase(next, current, seen)
    ensures Loops(next, current)
    decreases next.Keys - seen
  {
    if current in seen {
      assert Walk(next, current, 0) == Some(current) && OnCycle(next, current);
    } else {
      LeadsOn(next, seen, current);
      ChaseFinds(next, next[current], seen + {current});
      var i: nat :| Walk(next, next[current], i).Some? && OnCycle(next, Walk(next, next[current], i).value);
      assert Walk(next, current, 1) == Some(next[current]);
      WalkOn(next, current, 1, i);
    }
  }

  // A chain that leaves the graph has no loop.
  lemma {:induction false} ChaseMisses<T(!new)>(next: map<T, T>, current: T, seen: set<T>) returns (end: nat)
    requires !Chase(next, current, seen)
    ensures Walk(next, current, end).Some? && Walk(next, current, end).value !in next
    decreases next.Keys - seen
  {
    if current !in next {
      end := 0;
    } else {
      end := ChaseMisses(next, next[current], seen + {current});
      assert Walk(next, current, 1) == Some(next[current]);
      WalkOn(next, current, 1, end);
      end := 1 + end;
    }
  }

  lemma {:induction false} CycleGoesOn<T(!new)>(next: map<T, T>, x: T, n: nat, rounds: nat)
    requires n > 0 && Walk(next, x, n) == Some(x)
    ensures Walk(next, x, n * rounds) == Some(x)
  {
    if rounds > 0 {
      CycleGoesOn(next, x, n, rounds - 1);
      WalkOn(next, x, n * (rounds - 1), n);
      assert n * rounds == n * (rounds - 1) + n;
    }
  }

  lemma {:induction false} LoopNeverEnds<T(!new)>(next: map<T, T>, x: T, end: nat)
    requires Loops(next, x) && Walk(next, x, end).Some?
    ensures Walk(next, x, end).value in next
  {
    var i: nat :| Walk(next, x, i).Some? && OnCycle(next, Walk(next, x, i).value);
    var c := Walk(next, x, i).value;
    var n: nat :| n > 0 && Walk(next, c, n) == Some(c);
    CycleGoesOn(next, c, n, end + 1);
    var far := n * (end + 1);
    assert far >= end + 1;
    WalkOn(next, x, i, far);
    assert Walk(next, x, i + far).Some?;
    WalkOn(next, x, end + 1, i + far - end - 1);
    assert Walk(next, x, end + 1).Some?;
  }

  // The loop reports a repetition exactly when the chain from the start runs into a cycle.
  lemma {:induction false} ChaseExact<T(!new)>(next: map<T, T>, start: T)
    ensures Chase(next, start, {}) <==> Loops(next, start)
  {
    if Chase(next, start, {}) {
      ChaseFinds(next, start, {});
    } else {
      var end := ChaseMisses(next, start, {});
      if Loops(next, start) {
        LoopNeverEnds(next, start, end);
      }
    }
  }

  // Two graphs that agree on every node a walk passes walk alike.
  lemma {:induction false} WalkAgrees<T>(a: map<T, T>, b: map<T, T>, x: T, n: nat)
    requires Walk(a, x, n).Some?
    requires forall k: nat | k < n && Walk(a, x, k).Some? ::
               Walk(a, x, k).value in b && Walk(a, x, k).value in a && b[Walk(a, x, k).value] == a[Walk(a, x, k).value]
    ensures Walk(b, x, n) == Walk(a, x, n)
  {
    if n > 0 {
      WalkAgrees(a, b, x, n - 1);
    }
  }

  // Changing some links of an acyclic graph, and dropping nodes, keeps it acyclic exactly when
  // no walk from a changed node finds a loop: a new cycle must pass a changed node.
  lemma {:induction false} ChangedWalksSuffice<T(!new)>(before: map<T, T>, after: map<T, T>, changed: set<T>)
    requires Acyclic(before)
    requires forall x | x in after && x !in changed :: x in before && before[x] == after[x]
    ensures Acyclic(after) <==> forall x | x in changed :: !Chase(after, x, {})
  {
    hide Chase, Loops, OnCycle;
    forall x
      ensures Chase(after, x, {}) <==> Loops(after, x)
    {
      ChaseExact(after, x);
    }
    forall x | OnCycle(after, x)
      ensures exists y :: y in changed && Loops(after, y)
    {
      var y := CycleMeetsChange(before, after, changed, x);
    }
    forall x | Loops(after, x)
      ensures exists y :: OnCycle(after, y)
    {
      var y := LoopHasCycle(after, x);
    }
  }

  lemma {:induction false} LoopHasCycle<T(!new)>(next: map<T, T>, x: T) returns (y: T)
    requires Loops(next, x)
    ensures OnCycle(next, y)
  {
    hide OnCycle;
    var i: nat :| Walk(next, x, i).Some? && OnCycle(next, Walk(next, x, i).value);
    y := Walk(next, x, i).value;
  }

  // A cycle that meets no changed node was there before.
  lemma {:induction false} CycleMeetsChange<T(!new)>(before: map<T, T>, after: map<T, T>, changed: set<T>, x: T)
    returns (y: T)
    requires Acyclic(before) && OnCycle(after, x)
    requires forall x | x in after && x !in changed :: x in before && before[x] == after[x]
    ensures y in changed && Loops(after, y)
  {
    var n: nat :| n > 0 && Walk(after, x, n) == Some(x);
    WalkDefined(after, x, n);
    if forall k: nat | k < n :: Walk(after, x, k).value !in changed {
      WalkAgrees(after, before, x, n);
      assert OnCycle(before, x);
    }
    var k: nat :| k < n && Walk(after, x, k).value in changed;
    y := Walk(after, x, k).value;
    WalkOn(after, x, k, n - k);
    assert Walk(after, y, n - k) == Some(x) && OnCycle(after, Walk(after, y, n - k).value);
  }

  lemma {:induction false} WalkDefined<T>(next: map<T, T>, x: T, n: nat)
    requires Walk(next, x, n).Some?
    ensures forall k: nat | k < n :: Walk(next, x, k).Some? && Walk(next, x, k).value in next
  {
    if n > 0 {
      WalkDefined(next, x, n - 1);
    }
  }
}
