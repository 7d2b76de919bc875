/** The merge of facts: a fact is shared if every target has observed it with one
    and the same value, and a difference otherwise. */
module MatrixFacts {
  import opened Prelude
  import opened Ordering
  import opened Matrix

  datatype FactValue = FactValue(present: bool, signature: string)

  /** `values` has a value for every target; for one that did not observe the fact,
      the zero value. */
  datatype Difference = Difference(name: string, values: map<string, FactValue>)

  const ZERO := FactValue(false, "")

  /** Which kinds a summary includes. */
  type Kinds = string -> bool

  /** What a target says of a name: its last fact of that name. */
  function LastOf(facts: seq<Fact>, kinds: Kinds, name: string): Option<FactValue> {
    if facts == [] then None
    else
      var last := facts[|facts| - 1];
      if kinds(last.kind) && last.name == name then Some(FactValue(last.present, last.signature))
      else LastOf(facts[..|facts| - 1], kinds, name)
  }

  predicate Observed(targets: seq<Target>, kinds: Kinds, name: string) {
    exists t :: t in targets && LastOf(t.facts, kinds, name).Some?
  }

  /** Every target has observed the fact, and all alike. */
  predicate Agreed(targets: seq<Target>, kinds: Kinds, name: string) {
    forall t, u :: t in targets && u in targets ==>
      LastOf(t.facts, kinds, name).Some? && LastOf(t.facts, kinds, name) == LastOf(u.facts, kinds, name)
  }

  function ValueIn(t: Target, kinds: Kinds, name: string): FactValue {
    match LastOf(t.facts, kinds, name)
    case Some(v) => v
    case None => ZERO
  }

  ghost predicate ValuesOf(targets: seq<Target>, kinds: Kinds, name: string, values: map<string, FactValue>) {
    HasIds(targets, values) && forall t :: t in targets ==> values[t.id] == ValueIn(t, kinds, name)
  }

  function NamesOf(differences: seq<Difference>): seq<string> {
    Map(differences, (d: Difference) => d.name)
  }

  /** The state of the merge when the names `done` have been gone through. */
  ghost predicate FactsSoFar(targets: seq<Target>, kinds: Kinds, done: seq<string>, shared: seq<string>,
        differences: seq<Difference>) {
    && StrictlySorted(shared) && (forall n :: n in shared <==> n in done && Agreed(targets, kinds, n))
    && StrictlySorted(NamesOf(differences))
    && (forall n :: n in NamesOf(differences) <==> n in done && !Agreed(targets, kinds, n))
    && forall d :: d in differences ==> ValuesOf(targets, kinds, d.name, d.values)
  }

  ghost predicate FactsMerged(targets: seq<Target>, kinds: Kinds, shared: seq<string>, differences: seq<Difference>) {
    && StrictlySorted(shared) && (forall n :: n in shared <==> Observed(targets, kinds, n) && Agreed(targets, kinds, n))
    && StrictlySorted(NamesOf(differences))
    && (forall n :: n in NamesOf(differences) <==> Observed(targets, kinds, n) && !Agreed(targets, kinds, n))
    && forall d :: d in differences ==> ValuesOf(targets, kinds, d.name, d.values)
  }

  // ----- the values by name and target -----

  function With(table: map<string, FactValue>, id: string, v: Option<FactValue>): map<string, FactValue> {
    if v.Some? then table[id := v.value] else table
  }

  function Table(targets: seq<Target>, kinds: Kinds, name: string): map<string, FactValue> {
    if targets == [] then map[]
    else
      var last := targets[|targets| - 1];
      With(Table(targets[..|targets| - 1], kinds, name), last.id, LastOf(last.facts, kinds, name))
  }

  type Tables = map<string, map<string, FactValue>>

  function Lookup(tables: Tables, name: string): map<string, FactValue> {
    if name in tables then tables[name] else map[]
  }

  /** After some targets and some facts of the next. */
  ghost predicate TablesMatch(targets: seq<Target>, kinds: Kinds, id: string, facts: seq<Fact>, tables: Tables) {
    && (forall n :: Lookup(tables, n) == With(Table(targets, kinds, n), id, LastOf(facts, kinds, n)))
    && forall n :: n in tables ==> tables[n] != map[]
  }

  /** After some targets. */
  ghost predicate Completed(targets: seq<Target>, kinds: Kinds, tables: Tables) {
    forall id :: TablesMatch(targets, kinds, id, [], tables)
  }

  lemma AddFact(targets: seq<Target>, kinds: Kinds, id: string, facts: seq<Fact>, f: Fact, tables: Tables)
    requires TablesMatch(targets, kinds, id, facts, tables)
    ensures TablesMatch(targets, kinds, id, facts + [f],
                        if kinds(f.kind)
                            then tables[f.name := Lookup(tables, f.name)[id := FactValue(f.present, f.signature)]]
                                else tables)
  {
    hide Table;
    assert (facts + [f])[..|facts|] == facts;
    var v := FactValue(f.present, f.signature);
    var tables' := if kinds(f.kind) then tables[f.name := Lookup(tables, f.name)[id := v]] else tables;
    forall n ensures Lookup(tables', n) == With(Table(targets, kinds, n), id, LastOf(facts + [f], kinds, n)) {
      assert Lookup(tables, n) == With(Table(targets, kinds, n), id, LastOf(facts, kinds, n));
    }
    assert id in Lookup(tables, f.name)[id := v];
  }

  lemma TargetDone(targets: seq<Target>, kinds: Kinds, i: nat, tables: Tables)
    requires i < |targets| && TablesMatch(targets[..i], kinds, targets[i].id, targets[i].facts, tables)
    ensures Completed(targets[..i + 1], kinds, tables)
  {
    hide LastOf;
    assert targets[..i + 1][..i] == targets[..i];
    assert forall n :: LastOf([], kinds, n) == None by { NoFacts(kinds); }
  }

  lemma NoFacts(kinds: Kinds)
    ensures forall n :: LastOf([], kinds, n) == None
  {
  }

  method CollectFacts(targets: seq<Target>, kinds: Kinds) returns (tables: Tables)
    ensures forall n :: Lookup(tables, n) == Table(targets, kinds, n)
    ensures forall n :: n in tables ==> tables[n] != map[]
  {
    hide LastOf, Table, Lookup, TablesMatch;
    tables := map[];
    var i := 0;
    NoTables(kinds);
    while i < |targets|
      invariant 0 <= i <= |targets|
      invariant Completed(targets[..i], kinds, tables)
    {
      var t := targets[i];
      var k := 0;
      while k < |t.facts|
        invariant 0 <= k <= |t.facts|
        invariant TablesMatch(targets[..i], kinds, t.id, t.facts[..k], tables)
      {
        var f := t.facts[k];
        AddFact(targets[..i], kinds, t.id, t.facts[..k], f, tables);
        assert t.facts[..k + 1] == t.facts[..k] + [f];
        if kinds(f.kind) {
          tables := tables[f.name := Lookup(tables, f.name)[t.id := FactValue(f.present, f.signature)]];
        }
        k := k + 1;
      }
      assert t.facts[..k] == t.facts;
      TargetDone(targets, kinds, i, tables);
      i := i + 1;
    }
    assert targets[..i] == targets;
    TablesAre(targets, kinds, tables);
  }

  lemma NoTables(kinds: Kinds)
    ensures Completed([], kinds, map[])
  {
  }

  lemma {:induction false} TablesAre(targets: seq<Target>, kinds: Kinds, tables: Tables)
    requires Completed(targets, kinds, tables)
    ensures forall n :: Lookup(tables, n) == Table(targets, kinds, n)
    ensures forall n :: n in tables ==> tables[n] != map[]
  {
    hide Table, Lookup;
    assert TablesMatch(targets, kinds, "", [], tables);
    NoFacts(kinds);
    hide LastOf;
  }

  /** A table says of each target what its facts say. */
  ghost predicate TableIs(targets: seq<Target>, kinds: Kinds, name: string, table: map<string, FactValue>) {
    && (forall t :: t in targets ==> (t.id in table <==> LastOf(t.facts, kinds, name).Some?))
    && (forall t :: t in targets && t.id in table ==> Some(table[t.id]) == LastOf(t.facts, kinds, name))
    && forall id :: id in table ==> exists t :: t in targets && t.id == id
  }

  lemma {:induction false} TableOfMore(targets: seq<Target>, last: Target, kinds: Kinds, name: string,
        table: map<string, FactValue>)
    requires TableIs(targets, kinds, name, table) && forall t :: t in targets ==> t.id != last.id
    ensures TableIs(targets + [last], kinds, name, With(table, last.id, LastOf(last.facts, kinds, name)))
  {
    hide LastOf;
    var table' := With(table, last.id, LastOf(last.facts, kinds, name));
    forall id | id in table' ensures exists t :: t in targets + [last] && t.id == id {
      if id in table {
        var t :| t in targets && t.id == id;
        assert t in targets + [last];
      } else {
        assert last in targets + [last];
      }
    }
    forall t | t in targets + [last] ensures t in targets || t == last {}
    assert last.id !in table;
  }

  lemma {:induction false} TableOfTargets(targets: seq<Target>, kinds: Kinds, name: string)
    requires UniqueIds(targets)
    ensures TableIs(targets, kinds, name, Table(targets, kinds, name))
  {
    hide LastOf, TableIs;
    if targets == [] {
      NoTable(kinds, name);
    } else {
      var init, last := targets[..|targets| - 1], targets[|targets| - 1];
      TableOfTargets(init, kinds, name);
      assert targets == init + [last];
      forall t | t in init ensures t.id != last.id {
        var i :| 0 <= i < |init| && init[i] == t;
        assert targets[i] == t;
      }
      TableOfMore(init, last, kinds, name, Table(init, kinds, name));
    }
  }

  lemma NoTable(kinds: Kinds, name: string)
    ensures TableIs([], kinds, name, map[])
  {
  }

  lemma {:induction false} NamesAreObserved(targets: seq<Target>, kinds: Kinds, name: string)
    requires UniqueIds(targets)
    ensures Table(targets, kinds, name) != map[] <==> Observed(targets, kinds, name)
  {
    TableOfTargets(targets, kinds, name);
    var table := Table(targets, kinds, name);
    hide Table, LastOf;
    if table != map[] {
      var id :| id in table;
      var t :| t in targets && t.id == id;
      assert LastOf(t.facts, kinds, name).Some?;
    }
    if t :| t in targets && LastOf(t.facts, kinds, name).Some? {
      assert t.id in table;
    }
  }

  // ----- one name -----

  function ValueAt(table: map<string, FactValue>, id: string): FactValue {
    if id in table then table[id] else ZERO
  }

  /** The value of each target, and whether all have observed the same. */
  method CompareTargets(targets: seq<Target>, table: map<string, FactValue>)
      returns (values: map<string, FactValue>, shared: bool)
    requires targets != [] && UniqueIds(targets)
    ensures forall id :: id in values <==> exists t :: t in targets && t.id == id
    ensures forall t :: t in targets ==> values[t.id] == ValueAt(table, t.id)
    ensures shared <==> forall t :: t in targets ==> t.id in table && table[t.id] == ValueAt(table, targets[0].id)
  {
    hide ValueAt;
    values, shared := map[], true;
    var sharedValue := ZERO;
    var i := 0;
    while i < |targets|
      invariant 0 <= i <= |targets|
      invariant forall j :: 0 <= j < i ==>
            targets[j].id in values && values[targets[j].id] == ValueAt(table, targets[j].id)
      invariant forall id :: id in values ==> exists t :: t in targets && t.id == id
      invariant i > 0 ==> sharedValue == ValueAt(table, targets[0].id)
      invariant shared <==> forall j :: 0 <= j < i ==>
            targets[j].id in table && ValueAt(table, targets[j].id) == ValueAt(table, targets[0].id)
    {
      var t := targets[i];
      assert t in targets;
      var observed := t.id in table;
      var value := ValueAt(table, t.id);
      values := values[t.id := value];
      if i == 0 {
        sharedValue := value;
      } else if value != sharedValue {
        shared := false;
      }
      if !observed {
        shared := false;
      }
      i := i + 1;
    }
    InTable(table);
  }

  lemma InTable(table: map<string, FactValue>)
    ensures forall id :: id in table ==> ValueAt(table, id) == table[id]
  {
  }

  lemma {:induction false} ComparedIs(targets: seq<Target>, kinds: Kinds, name: string, values: map<string, FactValue>,
        shared: bool)
    requires targets != [] && UniqueIds(targets)
    requires forall id :: id in values <==> exists t :: t in targets && t.id == id
    requires var table := Table(targets, kinds, name);
             && (forall t :: t in targets ==> values[t.id] == ValueAt(table, t.id))
             && (shared <==> forall t :: t in targets ==> t.id in table && table[t.id] == ValueAt(table, targets[0].id))
    ensures ValuesOf(targets, kinds, name, values) && (shared <==> Agreed(targets, kinds, name))
  {
    TableOfTargets(targets, kinds, name);
    hide Table, LastOf;
    assert targets[0] in targets;
  }

  // ----- the merge -----

  method MergeFacts(targets: seq<Target>, kinds: Kinds) returns (shared: seq<string>, differences: seq<Difference>)
    requires UniqueIds(targets)
    ensures FactsMerged(targets, kinds, shared, differences)
  {
    hide *;
    shared, differences := [], [];
    if targets == [] {
      NoTargets(kinds);
      return;
    }
    var tables := CollectFacts(targets, kinds);
    var names := SortedKeys(tables.Keys);
    var i := 0;
    NoNames(targets, kinds);
    while i < |names|
      invariant 0 <= i <= |names|
      invariant FactsSoFar(targets, kinds, names[..i], shared, differences)
    {
      var values, agreed := CompareTargets(targets, tables[names[i]]);
      TableOfName(targets, kinds, tables, names[i]);
      ComparedIs(targets, kinds, names[i], values, agreed);
      if agreed {
        SharedFact(targets, kinds, names, i, shared, differences);
        shared := shared + [names[i]];
      } else {
        DifferentFact(targets, kinds, names, i, shared, differences, values);
        differences := differences + [Difference(names[i], values)];
      }
      i := i + 1;
    }
    assert names[..i] == names;
    AllNamesDone(targets, kinds, tables, names, shared, differences);
  }

  lemma {:induction false} TableOfName(targets: seq<Target>, kinds: Kinds, tables: Tables, name: string)
    requires name in tables && forall n :: Lookup(tables, n) == Table(targets, kinds, n)
    ensures tables[name] == Table(targets, kinds, name)
  {
    hide Table;
    assert Lookup(tables, name) == Table(targets, kinds, name);
  }

  lemma NoTargets(kinds: Kinds)
    ensures FactsMerged([], kinds, [], [])
  {
  }

  lemma NoNames(targets: seq<Target>, kinds: Kinds)
    ensures FactsSoFar(targets, kinds, [], [], [])
  {
  }

  lemma SharedFact(targets: seq<Target>, kinds: Kinds, names: seq<string>, i: nat, shared: seq<string>,
        differences: seq<Difference>)
    requires StrictlySorted(names) && i < |names| && Agreed(targets, kinds, names[i])
    requires FactsSoFar(targets, kinds, names[..i], shared, differences)
    ensures FactsSoFar(targets, kinds, names[..i + 1], shared + [names[i]], differences)
  {
    hide Agreed, ValuesOf, NamesOf;
    AppendKeepsOrder(names, i, shared);
    hide StrictlySorted;
    assert names[..i + 1] == names[..i] + [names[i]];
  }

  lemma DifferentFact(targets: seq<Target>, kinds: Kinds, names: seq<string>, i: nat, shared: seq<string>,
        differences: seq<Difference>, values: map<string, FactValue>)
    requires StrictlySorted(names) && i < |names| && !Agreed(targets, kinds, names[i])
        && ValuesOf(targets, kinds, names[i], values)
    requires FactsSoFar(targets, kinds, names[..i], shared, differences)
    ensures FactsSoFar(targets, kinds, names[..i + 1], shared, differences + [Difference(names[i], values)])
  {
    hide Agreed, ValuesOf;
    var d := Difference(names[i], values);
    assert NamesOf(differences + [d]) == NamesOf(differences) + [names[i]];
    AppendKeepsOrder(names, i, NamesOf(differences));
    hide StrictlySorted, NamesOf;
    assert names[..i + 1] == names[..i] + [names[i]];
  }

  lemma {:induction false} AllNamesDone(targets: seq<Target>, kinds: Kinds, tables: Tables, names: seq<string>,
        shared: seq<string>, differences: seq<Difference>)
    requires UniqueIds(targets) && FactsSoFar(targets, kinds, names, shared, differences)
    requires forall n :: Lookup(tables, n) == Table(targets, kinds, n)
    requires (forall n :: n in tables ==> tables[n] != map[]) && forall n :: n in names <==> n in tables.Keys
    ensures FactsMerged(targets, kinds, shared, differences)
  {
    hide Agreed, ValuesOf, NamesOf, StrictlySorted, Table, Observed;
    forall n ensures n in names <==> Observed(targets, kinds, n) {
      NamesAreObserved(targets, kinds, n);
      assert Lookup(tables, n) == Table(targets, kinds, n);
    }
  }

  // ----- what the merge of facts means -----

  /** A name that some target has observed is shared or a difference, and not both. */
  lemma FactsArePartitioned(targets: seq<Target>, kinds: Kinds, shared: seq<string>, differences: seq<Difference>,
        name: string)
    requires FactsMerged(targets, kinds, shared, differences)
    ensures Observed(targets, kinds, name) <==> name in shared || name in NamesOf(differences)
    ensures !(name in shared && name in NamesOf(differences))
  {
    hide Observed, Agreed, ValuesOf, NamesOf, StrictlySorted;
  }

  lemma SameValues(targets: seq<Target>, targets': seq<Target>, kinds: Kinds, name: string,
        values: map<string, FactValue>, values': map<string, FactValue>)
    requires forall t :: t in targets <==> t in targets'
    requires ValuesOf(targets, kinds, name, values) && ValuesOf(targets', kinds, name, values')
    ensures values == values'
  {
    hide ValueIn;
    forall id | id in values ensures id in values' && values[id] == values'[id] {
      var t :| t in targets && t.id == id;
      assert t in targets';
    }
    forall id | id in values' ensures id in values {
      var t :| t in targets' && t.id == id;
      assert t in targets;
    }
  }

  /** The merge of facts does not depend on the order of the targets. */
  lemma FactsIgnoreOrder(targets: seq<Target>, targets': seq<Target>, kinds: Kinds, shared: seq<string>,
        shared': seq<string>, differences: seq<Difference>, differences': seq<Difference>)
    requires multiset(targets) == multiset(targets')
    requires FactsMerged(targets, kinds, shared, differences) && FactsMerged(targets', kinds, shared', differences')
    ensures shared == shared' && differences == differences'
  {
    SameMembers(targets, targets');
    assert forall n :: Observed(targets, kinds, n) <==> Observed(targets', kinds, n);
    assert forall n :: Agreed(targets, kinds, n) <==> Agreed(targets', kinds, n);
    hide Observed, Agreed, ValuesOf, StrictlySorted;
    StrictOrderIsUnique(shared, shared');
    StrictOrderIsUnique(NamesOf(differences), NamesOf(differences'));
    assert |differences| == |NamesOf(differences)| && |differences'| == |NamesOf(differences')|;
    forall i | 0 <= i < |differences| ensures differences[i] == differences'[i] {
      assert NamesOf(differences)[i] == NamesOf(differences')[i];
      SameValues(targets, targets', kinds, differences[i].name, differences[i].values, differences'[i].values);
    }
  }
}
