// Thought records, their index, and which of them a reader may see.
module Records {
  import opened Base

  datatype SourceType = Observation | Inference | UserInput | ToolOutput | Decision

  datatype Status = Draft | Proposed | Approved | Rejected | Errored | Tombstoned

  datatype Json =
    | Null | Text(text: string) | Number(number: real) | List(items: seq<Json>) | Object(fields: map<string, Json>)

  datatype Relationship = Relationship(kind: string, target: string)

  datatype Metadata = Metadata(
    project: Option<string>, branch: Option<string>, tags: seq<string>, extra: map<string, Json>)

  datatype Frontmatter = Frontmatter(
    id: string,
    parentId: Option<string>,
    supersededBy: Option<string>, supersededScope: Option<string>,
    supersedesId: Option<string>, supersedesScope: Option<string>,
    agentId: string,
    confidence: real,
    sourceType: SourceType,
    status: Status,
    intentRef: Option<string>,
    createdAt: string,
    relationships: seq<Relationship>,
    metadata: Metadata)

  datatype Record = Record(fm: Frontmatter, content: string)

  // trails/<scope>/thoughts/<namespace>/<file>.md
  datatype Path = Path(scope: string, namespace: string, file: string)

  datatype Item = Item(path: Path, record: Record)

  // Python truthiness of an optional string.
  predicate Truthy(s: Option<string>) {
    s.Some? && s.value != ""
  }

  // ----- the index of a snapshot --------------------------------------------------

  function Qualified(scope: string, id: string): string {
    scope + ":" + id
  }

  datatype IndexState = IndexState(index: map<string, Record>, duplicates: set<string>)

  function Enter(s: IndexState, item: Item): IndexState {
    var id := item.record.fm.id;
    var index := s.index[Qualified(item.path.scope, id) := item.record];
    IndexState(index[id := item.record], if id in index then s.duplicates + {id} else s.duplicates)
  }

  function EnterAll(items: seq<Item>, n: nat): IndexState
    requires n <= |items|
  {
    if n == 0 then IndexState(map[], {}) else Enter(EnterAll(items, n - 1), items[n - 1])
  }

  // Records by qualified and, where unambiguous, by bare identifier.
  function Index(items: seq<Item>): map<string, Record> {
    var s := EnterAll(items, |items|);
    s.index - s.duplicates
  }

  // The loop of `record_index`.
  method BuildIndex(items: seq<Item>) returns (index: map<string, Record>)
    ensures index == Index(items)
  {
    index := map[];
    var duplicates := {};
    for i := 0 to |items|
      invariant IndexState(index, duplicates) == EnterAll(items, i)
    {
      var id := items[i].record.fm.id;
      index := index[Qualified(items[i].path.scope, id) := items[i].record];
      if id in index {
        duplicates := duplicates + {id};
      }
      index := index[id := items[i].record];
    }
    index := index - duplicates;
  }

  // ----- visibility ------------------------------------------------------------------

  datatype Mode = Governed | Authoring | History

  datatype Visibility = Visibility(
    mode: Mode, agentId: Option<string>, operator: bool, statuses: set<Status>, includeSuperseded: bool)
  {
    predicate Allows(record: Record, index: map<string, Record>) {
      && (mode.Governed? ==> record.fm.status == Approved)
      && (mode.Authoring? ==>
            && record.fm.status in (if statuses != {} then statuses else {Draft, Proposed})
            && agentId == Some(record.fm.agentId))
      && (mode.History? && statuses != {} ==> record.fm.status in statuses)
      && (includeSuperseded || !EffectivelySuperseded(record, index))
    }
  }

  const DEFAULT_VIEW := Visibility(Governed, None, false, {}, false)

  // The index key a backlink is looked up under; formatting an absent
  // identifier after a scope spells it "None".
  function SuccessorKey(record: Record): string {
    var link := record.fm.supersededBy;
    if Truthy(record.fm.supersededScope) then
      Qualified(record.fm.supersededScope.value, if link.Some? then link.value else "None")
    else if link.Some? then link.value else ""
  }

  // A backlink retires a record only if it names an approved successor.
  predicate EffectivelySuperseded(record: Record, index: map<string, Record>) {
    var key := SuccessorKey(record);
    key in index && index[key].fm.status == Approved
  }

  // ----- what the index answers ---------------------------------------------------------

  predicate Bare(id: string) {
    id != "" && ':' !in id
  }

  ghost predicate BareIds(items: seq<Item>) {
    forall i | 0 <= i < |items| :: Bare(items[i].record.fm.id)
  }

  lemma {:induction false} QualifiedInjective(scope: string, id: string, scope': string, id': string)
    requires Bare(id) && Bare(id') && Qualified(scope, id) == Qualified(scope', id')
    ensures scope == scope' && id == id'
  {
    var q := Qualified(scope, id);
    LastColon(scope, id);
    LastColon(scope', id');
    assert q[..|scope|] == scope && q[|scope| + 1..] == id;
    assert q[..|scope'|] == scope' && q[|scope'| + 1..] == id';
  }

  lemma {:induction false} LastColon(scope: string, id: string)
    requires Bare(id)
    ensures var q := Qualified(scope, id);
            q[|scope|] == ':' && forall k | |scope| < k < |q| :: q[k] != ':'
  {
    var q := Qualified(scope, id);
    assert forall k | |scope| < k < |q| :: q[k] == id[k - |scope| - 1];
  }

  lemma {:induction false} QualifiedNotBare(scope: string, id: string, bare: string)
    requires Bare(bare)
    ensures Qualified(scope, id) != bare
  {
    assert Qualified(scope, id)[|scope|] == ':';
  }

  ghost predicate Named(item: Item, scope: string, id: string) {
    item.path.scope == scope && item.record.fm.id == id
  }

  // The last of the first n items with a given scope and identifier.
  ghost function LastNamed(items: seq<Item>, n: nat, scope: string, id: string): Option<Record>
    requires n <= |items|
  {
    if n == 0 then None
    else if Named(items[n - 1], scope, id) then Some(items[n - 1].record)
    else LastNamed(items, n - 1, scope, id)
  }

  lemma {:induction false} QualifiedLookup(items: seq<Item>, n: nat, scope: string, id: string)
    requires n <= |items| && BareIds(items) && Bare(id)
    ensures Get(EnterAll(items, n).index, Qualified(scope, id)) == LastNamed(items, n, scope, id)
    ensures Qualified(scope, id) !in EnterAll(items, n).duplicates
  {
    if n > 0 {
      QualifiedLookup(items, n - 1, scope, id);
      var item := items[n - 1];
      QualifiedNotBare(scope, id, item.record.fm.id);
      if Qualified(item.path.scope, item.record.fm.id) == Qualified(scope, id) {
        QualifiedInjective(item.path.scope, item.record.fm.id, scope, id);
      }
    }
  }

  // How many of the first n items carry an identifier.
  ghost function Count(items: seq<Item>, n: nat, id: string): nat
    requires n <= |items|
  {
    if n == 0 then 0
    else Count(items, n - 1, id) + if items[n - 1].record.fm.id == id then 1 else 0
  }

  lemma {:induction false} BareLookup(items: seq<Item>, n: nat, id: string)
    requires n <= |items| && BareIds(items) && Bare(id)
    ensures id in EnterAll(items, n).index <==> Count(items, n, id) > 0
    ensures id in EnterAll(items, n).duplicates <==> Count(items, n, id) > 1
    ensures Count(items, n, id) > 0 ==>
              exists i :: 0 <= i < n && items[i].record.fm.id == id && EnterAll(items, n).index[id] == items[i].record
  {
    if n > 0 {
      BareLookup(items, n - 1, id);
      var item := items[n - 1];
      QualifiedNotBare(item.path.scope, item.record.fm.id, id);
    }
  }

  lemma {:induction false} CountOne(items: seq<Item>, n: nat, id: string)
    requires n <= |items|
    ensures Count(items, n, id) == 0 <==> forall i | 0 <= i < n :: items[i].record.fm.id != id
    ensures Count(items, n, id) <= 1 <==>
              forall i, j | 0 <= i < j < n :: items[i].record.fm.id != id || items[j].record.fm.id != id
  {
    if n > 0 {
      CountOne(items, n - 1, id);
      if items[n - 1].record.fm.id == id && Count(items, n - 1, id) > 0 {
        var i :| 0 <= i < n - 1 && items[i].record.fm.id == id;
        assert !(items[i].record.fm.id != id || items[n - 1].record.fm.id != id);
      }
    }
  }

  // The index answers a bare identifier exactly when one item carries it, and
  // then with that item; it answers a qualified one with the last such item.
  lemma {:induction false} IndexAnswers(items: seq<Item>, scope: string, id: string)
    requires BareIds(items) && Bare(id)
    ensures Get(Index(items), Qualified(scope, id)) == LastNamed(items, |items|, scope, id)
    ensures id in Index(items) <==> Count(items, |items|, id) == 1
    ensures id in Index(items) ==>
              exists i :: 0 <= i < |items| && items[i].record.fm.id == id && Index(items)[id] == items[i].record
  {
    QualifiedLookup(items, |items|, scope, id);
    BareLookup(items, |items|, id);
  }

  lemma {:induction false} LastNamedSome(items: seq<Item>, n: nat, scope: string, id: string)
    requires n <= |items|
    ensures LastNamed(items, n, scope, id).None? <==> forall i | 0 <= i < n :: !Named(items[i], scope, id)
    ensures LastNamed(items, n, scope, id).Some? ==>
              exists i ::
                0 <= i < n && Named(items[i], scope, id) && items[i].record == LastNamed(items, n, scope, id).value
  {
    if n > 0 {
      LastNamedSome(items, n - 1, scope, id);
      if Named(items[n - 1], scope, id) {
        assert items[n - 1].record == LastNamed(items, n, scope, id).value;
      }
    }
  }
}
