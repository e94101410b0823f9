// Which records the readiness probe counts, by their paths, and the order it goes by.
module RecordPaths {
  import opened Base
  import opened Readiness

  // ----- order ---------------------------------------------------------------------------------

  // Where the two part, the first has ended or has the lesser character.
  lemma {:induction false} LessExactly(a: string, b: string)
    ensures Less(a, b) <==>
              exists k: nat :: k <= |a| && k < |b| && a[..k] == b[..k] && (k == |a| || a[k] < b[k])
  {
    if a != "" && b != "" && a[0] == b[0] {
      LessExactly(a[1..], b[1..]);
      forall k: nat | k <= |a[1..]| && k < |b[1..]|
        ensures a[1..][..k] == b[1..][..k] <==> a[..k + 1] == b[..k + 1]
      {
        assert a[..k + 1] == [a[0]] + a[1..][..k] && b[..k + 1] == [b[0]] + b[1..][..k];
      }
      if k: nat :| k <= |a[1..]| && k < |b[1..]| && a[1..][..k] == b[1..][..k]
                   && (k == |a[1..]| || a[1..][k] < b[1..][k])
      {
        assert k + 1 <= |a| && k + 1 < |b| && a[..k + 1] == b[..k + 1];
      }
      if k: nat :| k <= |a| && k < |b| && a[..k] == b[..k] && (k == |a| || a[k] < b[k]) {
        assert k > 0;
        assert a[1..][..k - 1] == b[1..][..k - 1];
      }
    } else {
      assert b != "" ==> a[..0] == b[..0];
      forall k: nat | a != "" && b != "" && 0 < k <= |a| && k < |b|
        ensures a[..k] != b[..k]
      {
        assert a[..k][0] != b[..k][0];
      }
    }
  }

  ghost predicate InOrder(es: seq<Node>) {
    forall i, j | 0 <= i < j < |es| :: !Less(es[j].name, es[i].name)
  }

  lemma {:induction false} InsertOrders(e: Node, es: seq<Node>)
    requires InOrder(es)
    ensures InOrder(Insert(e, es))
  {
    var more := Insert(e, es);
    if es != [] && Less(es[0].name, e.name) {
      InsertOrders(e, es[1..]);
      InsertAdds(e, es[1..]);
      LessTotal(es[0].name, e.name);
      forall j | 0 < j < |more|
        ensures !Less(more[j].name, es[0].name)
      {
        assert more[j] in multiset(Insert(e, es[1..]));
        assert more[j] == e || more[j] in es[1..];
      }
    } else if es != [] {
      forall j | 0 <= j < |es|
        ensures !Less(es[j].name, e.name)
      {
        LessTotal(es[0].name, es[j].name);
        if Less(es[0].name, es[j].name) && Less(es[j].name, e.name) {
          LessTransitive(es[0].name, es[j].name, e.name);
        }
      }
    }
  }

  // A listing is sorted by name before it is gone through.
  lemma {:induction false} SortOrders(es: seq<Node>)
    ensures InOrder(SortByName(es)) && multiset(SortByName(es)) == multiset(es)
  {
    SortPermutes(es);
    if es != [] {
      SortOrders(es[1..]);
      InsertOrders(es[0], SortByName(es[1..]));
    }
  }

  // ----- paths -----------------------------------------------------------------------------------

  // The names lead from the directory, through directories that can be listed, to a file.
  ghost predicate FileAt(d: Node, names: seq<string>)
    decreases |names|
  {
    && d.Dir? && d.readable && names != []
    && exists e | e in d.children :: e.name == names[0] && if |names| == 1 then e.File? else FileAt(e, names[1..])
  }

  ghost function Spell(prefix: string, names: seq<string>): string
    requires names != []
    decreases |names|
  {
    var key := if prefix == "" then names[0] else prefix + "/" + names[0];
    if |names| == 1 then key else Spell(key, names[1..])
  }

  // A Markdown file with a name of its own, below a directory called `thoughts`.
  ghost predicate Counted(names: seq<string>, inside: bool)
    requires names != []
  {
    var last := names[|names| - 1];
    && |last| > 3 && last[|last| - 3..] == ".md"
    && (inside || exists i | 0 <= i < |names| - 1 :: names[i] == "thoughts")
  }

  ghost predicate RecordKey(d: Node, prefix: string, inside: bool, key: string) {
    exists names :: FileAt(d, names) && Counted(names, inside) && key == Spell(prefix, names)
  }

  lemma {:induction false} KeysTo(d: Node, n: nat, prefix: string, inside: bool, key: string)
    requires d.Dir? && d.readable && n <= |d.children|
    ensures key in SumTo(d.children, n, prefix, inside).keys <==>
              exists i | 0 <= i < n :: key in EntrySum(d.children[i], prefix, inside).keys
    decreases n
  {
    hide EntrySum;
    if n > 0 {
      KeysTo(d, n - 1, prefix, inside, key);
    }
  }

  // The records the probe counts are those files, each under its path.
  lemma {:induction false} KeysExactly(d: Node, prefix: string, inside: bool, key: string)
    requires d.Dir?
    ensures key in DirSum(d, prefix, inside).keys <==> RecordKey(d, prefix, inside, key)
    decreases d, 0
  {
    hide SumTo, EntrySum, DirSum, Counted;
    if d.readable {
      KeysTo(d, |d.children|, prefix, inside, key);
      DirKeys(d, prefix, inside, key);
      forall e | e in d.children
        ensures key in EntrySum(e, prefix, inside).keys <==> EntryKey(e, prefix, inside, key)
      {
        EntryKeys(e, prefix, inside, key);
      }
      EntriesLead(d, prefix, inside, key);
    } else {
      NoKeys(d, prefix, inside);
    }
  }

  lemma {:induction false} NoKeys(d: Node, prefix: string, inside: bool)
    requires d.Dir? && !d.readable
    ensures DirSum(d, prefix, inside).keys == multiset{}
  {
  }

  lemma {:induction false} DirKeys(d: Node, prefix: string, inside: bool, key: string)
    requires d.Dir? && d.readable
    ensures DirSum(d, prefix, inside) == SumTo(d.children, |d.children|, prefix, inside)
  {
    hide SumTo;
  }

  // The entry is such a file, or leads to one.
  ghost predicate EntryKey(e: Node, prefix: string, inside: bool, key: string) {
    exists names | names != [] && names[0] == e.name ::
      && Counted(names, inside) && key == Spell(prefix, names)
      && if |names| == 1 then e.File? else FileAt(e, names[1..])
  }

  lemma {:induction false} EntriesLead(d: Node, prefix: string, inside: bool, key: string)
    requires d.Dir? && d.readable
    ensures RecordKey(d, prefix, inside, key) <==> exists e | e in d.children :: EntryKey(e, prefix, inside, key)
  {
    hide Counted, Spell;
    if names :| FileAt(d, names) && Counted(names, inside) && key == Spell(prefix, names) {
      var e :| e in d.children && e.name == names[0] && if |names| == 1 then e.File? else FileAt(e, names[1..]);
      assert EntryKey(e, prefix, inside, key);
    }
    if e :| e in d.children && EntryKey(e, prefix, inside, key) {
      var names :| names != [] && names[0] == e.name && Counted(names, inside) && key == Spell(prefix, names)
                   && if |names| == 1 then e.File? else FileAt(e, names[1..]);
      assert FileAt(d, names);
    }
  }

  lemma {:induction false} EntryKeys(e: Node, prefix: string, inside: bool, key: string)
    ensures key in EntrySum(e, prefix, inside).keys <==> EntryKey(e, prefix, inside, key)
    decreases e, 1
  {
    hide SumTo, DirSum, EntryKey, RecordKey;
    if e.Dir? {
      KeysExactly(e, Join(prefix, e.name), inside || e.name == "thoughts", key);
      DirEntryLeads(e, prefix, inside, key);
    } else {
      FileEntryLeads(e, prefix, inside, key);
    }
  }

  lemma {:induction false} FileEntryLeads(e: Node, prefix: string, inside: bool, key: string)
    requires !e.Dir?
    ensures EntryKey(e, prefix, inside, key) <==> e.File? && inside && IsRecord(e.name) && key == Join(prefix, e.name)
  {
    assert Counted([e.name], inside) <==> inside && IsRecord(e.name);
    assert Spell(prefix, [e.name]) == Join(prefix, e.name);
    if EntryKey(e, prefix, inside, key) {
      var names :| names != [] && names[0] == e.name && Counted(names, inside) && key == Spell(prefix, names)
                   && if |names| == 1 then e.File? else FileAt(e, names[1..]);
      assert names == [e.name];
    }
  }

  lemma {:induction false} DirEntryLeads(e: Node, prefix: string, inside: bool, key: string)
    requires e.Dir?
    ensures EntryKey(e, prefix, inside, key) <==>
              RecordKey(e, Join(prefix, e.name), inside || e.name == "thoughts", key)
  {
    hide Counted;
    var here, into := Join(prefix, e.name), inside || e.name == "thoughts";
    if names :| FileAt(e, names) && names != [] && Counted(names, into) && key == Spell(here, names) {
      CountedBelow(e.name, names, inside);
      var all := [e.name] + names;
      assert all[1..] == names && Spell(prefix, all) == key;
    }
    if names :| names != [] && names[0] == e.name && Counted(names, inside) && key == Spell(prefix, names)
                && if |names| == 1 then e.File? else FileAt(e, names[1..])
    {
      assert names == [e.name] + names[1..];
      CountedBelow(e.name, names[1..], inside);
      assert FileAt(e, names[1..]);
    }
  }

  lemma {:induction false} CountedBelow(name: string, names: seq<string>, inside: bool)
    requires names != []
    ensures Counted([name] + names, inside) <==> Counted(names, inside || name == "thoughts")
  {
    var all := [name] + names;
    assert all[|all| - 1] == names[|names| - 1] && all[0] == name;
    assert forall i | 0 <= i < |names| :: all[i + 1] == names[i];
    if i :| 0 <= i < |names| - 1 && names[i] == "thoughts" {
      assert all[i + 1] == "thoughts";
    }
  }
}
