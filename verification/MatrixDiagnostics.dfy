/** The merge of diagnostics: as for files, with a key in place of the path. */
module MatrixDiagnostics {
  import opened Prelude
  import opened Ordering
  import opened Matrix

  // ----- the key -----

  function Digits(n: nat): (s: string)
    ensures s != ""
  {
    if n < 10 then [('0' as int + n) as char] else Digits(n / 10) + [('0' as int + n % 10) as char]
  }

  /** `%010d` */
  function Padded(n: nat): string {
    var s := Digits(n);
    if |s| < 10 then seq(10 - |s|, _ => '0') + s else s
  }

  function Key(d: Diagnostic): string {
    d.severity + "\0"
        + (d.code + "\0" + (d.file + "\0" + (Padded(d.line) + "\0" + (Padded(d.column) + "\0" + d.message))))
  }

  /** The number a string of digits stands for. */
  function Value(s: string): int {
    if s == "" then 0 else 10 * Value(s[..|s| - 1]) + (s[|s| - 1] as int - '0' as int)
  }

  lemma {:induction false} DigitsStand(n: nat)
    ensures Value(Digits(n)) == n && '\0' !in Digits(n)
  {
    if n >= 10 {
      DigitsStand(n / 10);
      assert Digits(n)[..|Digits(n)| - 1] == Digits(n / 10);
    }
  }

  lemma {:induction false} LeadingZeros(k: nat, s: string)
    ensures Value(seq(k, _ => '0') + s) == Value(s)
  {
    var zeros := seq(k, _ => '0');
    if s == "" {
      assert zeros + s == zeros;
      if k > 0 {
        assert zeros[..k - 1] == seq(k - 1, _ => '0');
        LeadingZeros(k - 1, "");
        assert seq(k - 1, _ => '0') + "" == zeros[..k - 1];
      }
    } else {
      LeadingZeros(k, s[..|s| - 1]);
      assert (zeros + s)[..k + |s| - 1] == zeros + s[..|s| - 1];
    }
  }

  lemma PaddedStands(n: nat)
    ensures Value(Padded(n)) == n && '\0' !in Padded(n)
  {
    DigitsStand(n);
    var s := Digits(n);
    if |s| < 10 {
      LeadingZeros(10 - |s|, s);
    }
  }

  lemma SameUpToNul(a: string, b: string, x: string, y: string)
    requires '\0' !in a && '\0' !in b && a + "\0" + x == b + "\0" + y
    ensures a == b && x == y
  {
    var s := a + "\0" + x;
    assert s[|a|] == '\0' && s[|b|] == '\0';
    forall i | 0 <= i < |a| ensures s[i] == a[i] {}
    forall i | 0 <= i < |b| ensures s[i] == b[i] {}
    assert a == s[..|a|] && b == s[..|b|];
    assert x == s[|a| + 1..] && y == s[|b| + 1..];
  }

  predicate NulFree(d: Diagnostic) {
    '\0' !in d.severity && '\0' !in d.code && '\0' !in d.file
  }

  /** Diagnostics with one key differ at most in their evidence. */
  lemma KeyTellsApart(a: Diagnostic, b: Diagnostic)
    requires NulFree(a) && NulFree(b) && Key(a) == Key(b)
    ensures a == b.(evidence := a.evidence)
  {
    PaddedStands(a.line);
    PaddedStands(b.line);
    PaddedStands(a.column);
    PaddedStands(b.column);
    hide Padded, Value;
    var a4, b4 := Padded(a.column) + "\0" + a.message, Padded(b.column) + "\0" + b.message;
    var a3, b3 := Padded(a.line) + "\0" + a4, Padded(b.line) + "\0" + b4;
    var a2, b2 := a.file + "\0" + a3, b.file + "\0" + b3;
    SameUpToNul(a.severity, b.severity, a.code + "\0" + a2, b.code + "\0" + b2);
    SameUpToNul(a.code, b.code, a2, b2);
    SameUpToNul(a.file, b.file, a3, b3);
    SameUpToNul(Padded(a.line), Padded(b.line), a4, b4);
    SameUpToNul(Padded(a.column), Padded(b.column), a.message, b.message);
  }

  // ----- the order of the keys -----

  predicate AllDigits(s: string) {
    forall i :: 0 <= i < |s| ==> '0' <= s[i] <= '9'
  }

  lemma {:induction false} BeforeAppended(a: string, b: string, x: string, y: string)
    requires |a| == |b| && Before(a, b)
    ensures Before(a + x, b + y)
  {
    assert (a + x)[0] == a[0] && (b + y)[0] == b[0];
    if a[0] == b[0] {
      BeforeAppended(a[1..], b[1..], x, y);
      assert (a + x)[1..] == a[1..] + x && (b + y)[1..] == b[1..] + y;
    }
  }

  lemma {:induction false} BeforeBehind(p: string, x: string, y: string)
    requires Before(x, y)
    ensures Before(p + x, p + y)
  {
    if p == "" {
      assert p + x == x && p + y == y;
    } else {
      BeforeBehind(p[1..], x, y);
      assert (p + x)[1..] == p[1..] + x && (p + y)[1..] == p[1..] + y;
    }
  }

  /** Digits in equal number are ordered as the numbers they stand for. */
  lemma {:induction false} DigitsInOrder(s: string, t: string)
    requires |s| == |t| && AllDigits(s) && AllDigits(t) && Value(s) <= Value(t)
    ensures if Value(s) == Value(t) then s == t else Before(s, t)
  {
    if s != "" {
      var n := |s| - 1;
      assert s == s[..n] + [s[n]] && t == t[..n] + [t[n]];
      DigitsInOrder(s[..n], t[..n]);
      if Value(s[..n]) < Value(t[..n]) {
        BeforeAppended(s[..n], t[..n], [s[n]], [t[n]]);
      } else if s[n] < t[n] {
        BeforeBehind(s[..n], [s[n]], [t[n]]);
      }
    }
  }

  function Tens(k: nat): nat {
    if k == 0 then 1 else 10 * Tens(k - 1)
  }

  lemma {:induction false} FewDigits(n: nat, k: nat)
    requires n < Tens(k)
    ensures AllDigits(Digits(n)) && (k > 0 ==> |Digits(n)| <= k)
  {
    if n >= 10 {
      FewDigits(n / 10, k - 1);
    }
  }

  /** A line or a column takes ten places up to here. */
  const PLACES := 10_000_000_000

  lemma PaddedInOrder(a: nat, b: nat)
    requires a < b < PLACES
    ensures |Padded(a)| == |Padded(b)| && Before(Padded(a), Padded(b))
  {
    assert Tens(10) == PLACES;
    FewDigits(a, 10);
    FewDigits(b, 10);
    PaddedStands(a);
    PaddedStands(b);
    DigitsInOrder(Padded(a), Padded(b));
  }

  /** Diagnostics of one severity, code and file are ordered by line and then by column, as numbers. */
  lemma KeysInOrder(a: Diagnostic, b: Diagnostic)
    requires a.severity == b.severity && a.code == b.code && a.file == b.file
    requires b.line < PLACES && b.column < PLACES
    requires a.line < b.line || (a.line == b.line && a.column < b.column)
    ensures Before(Key(a), Key(b))
  {
    hide Padded, Before, Key;
    var a4, b4 := Padded(a.column) + "\0" + a.message, Padded(b.column) + "\0" + b.message;
    var a3, b3 := Padded(a.line) + "\0" + a4, Padded(b.line) + "\0" + b4;
    if a.line < b.line {
      PaddedInOrder(a.line, b.line);
      BeforeAppended(Padded(a.line), Padded(b.line), "\0" + a4, "\0" + b4);
      assert a3 == Padded(a.line) + ("\0" + a4) && b3 == Padded(b.line) + ("\0" + b4);
    } else {
      PaddedInOrder(a.column, b.column);
      BeforeAppended(Padded(a.column), Padded(b.column), "\0" + a.message, "\0" + b.message);
      assert a4 == Padded(a.column) + ("\0" + a.message) && b4 == Padded(b.column) + ("\0" + b.message);
      BeforeBehind(Padded(a.line) + "\0", a4, b4);
    }
    KeyFromLine(a, b, a3, b3);
  }

  lemma {:induction false} KeyFromLine(a: Diagnostic, b: Diagnostic, x: string, y: string)
    requires a.severity == b.severity && a.code == b.code && a.file == b.file && Before(x, y)
    requires x == Padded(a.line) + "\0" + (Padded(a.column) + "\0" + a.message)
    requires y == Padded(b.line) + "\0" + (Padded(b.column) + "\0" + b.message)
    ensures Before(Key(a), Key(b))
  {
    hide Padded, Before;
    BeforeBehind(a.file + "\0", x, y);
    BeforeBehind(a.code + "\0", a.file + "\0" + x, b.file + "\0" + y);
    BeforeBehind(a.severity + "\0", a.code + "\0" + (a.file + "\0" + x), b.code + "\0" + (b.file + "\0" + y));
    assert Key(a) == a.severity + "\0" + (a.code + "\0" + (a.file + "\0" + x));
    assert Key(b) == b.severity + "\0" + (b.code + "\0" + (b.file + "\0" + y));
  }

  // ----- the first diagnostic with a key -----

  function FirstWith(diagnostics: seq<Diagnostic>, key: string): (r: Option<Diagnostic>)
    ensures r.Some? ==> r.value in diagnostics && Key(r.value) == key
  {
    if diagnostics == [] then None
    else if Key(diagnostics[0]) == key then Some(diagnostics[0])
    else FirstWith(diagnostics[1..], key)
  }

  lemma {:induction false} FirstOfMore(diagnostics: seq<Diagnostic>, d: Diagnostic, key: string)
    ensures FirstWith(diagnostics + [d], key)
         == if FirstWith(diagnostics, key).Some? then FirstWith(diagnostics, key) else if Key(d) == key then Some(d)
             else None
  {
    hide Key;
    if diagnostics == [] {
      assert diagnostics + [d] == [d];
    } else {
      assert (diagnostics + [d])[1..] == diagnostics[1..] + [d];
      FirstOfMore(diagnostics[1..], d, key);
    }
  }

  lemma {:induction false} FoundIfThere(diagnostics: seq<Diagnostic>, key: string)
    ensures key in KeysIn(diagnostics) <==> FirstWith(diagnostics, key).Some?
  {
    hide Key;
    if diagnostics != [] {
      FoundIfThere(diagnostics[1..], key);
      assert KeysIn(diagnostics) == [Key(diagnostics[0])] + KeysIn(diagnostics[1..]);
    }
  }

  function KeysIn(diagnostics: seq<Diagnostic>): seq<string> {
    Map(diagnostics, Key)
  }

  // ----- the merge -----

  /** A target whose files are the keys of its diagnostics. */
  function KeyedTarget(t: Target): Target {
    t.(files := KeysIn(t.diagnostics))
  }

  function Keyed(targets: seq<Target>): seq<Target> {
    Map(targets, KeyedTarget)
  }

  function KeyedMap(only: map<string, seq<Diagnostic>>): map<string, seq<string>> {
    map id | id in only :: KeysIn(only[id])
  }

  /** Each diagnostic is the first of its key in the target. */
  predicate FirstIn(t: Target, list: seq<Diagnostic>) {
    forall d :: d in list ==> FirstWith(t.diagnostics, Key(d)) == Some(d)
  }

  ghost predicate AllFirst(targets: seq<Target>, shared: seq<Diagnostic>, only: map<string, seq<Diagnostic>>) {
    && (if targets == [] then shared == [] else FirstIn(targets[0], shared))
    && forall t :: t in targets && t.id in only ==> FirstIn(t, only[t.id])
  }

  /** By keys, the lists are those of files; the shared diagnostics are those of the
      first target. */
  ghost predicate DiagnosticsMerged(targets: seq<Target>, shared: seq<Diagnostic>, only: map<string, seq<Diagnostic>>) {
    FilesMerged(Keyed(targets), KeysIn(shared), KeyedMap(only)) && AllFirst(targets, shared, only)
  }

  /** A map holds the first diagnostic of each key. */
  predicate ItemsMatch(diagnostics: seq<Diagnostic>, items: map<string, Diagnostic>) {
    && (forall d :: d in diagnostics ==> Key(d) in items)
    && forall k :: k in items ==> FirstWith(diagnostics, k) == Some(items[k])
  }

  lemma {:induction false} ItemOf(diagnostics: seq<Diagnostic>, items: map<string, Diagnostic>, key: string)
    requires ItemsMatch(diagnostics, items)
    ensures key in items <==> key in KeysIn(diagnostics)
    ensures FirstWith(diagnostics, key) == if key in items then Some(items[key]) else None
  {
    hide Key;
    FoundIfThere(diagnostics, key);
  }

  lemma ItemsOfMore(diagnostics: seq<Diagnostic>, d: Diagnostic, items: map<string, Diagnostic>)
    requires ItemsMatch(diagnostics, items)
    ensures ItemsMatch(diagnostics + [d], if Key(d) in items then items else items[Key(d) := d])
  {
    hide Key;
    var r := if Key(d) in items then items else items[Key(d) := d];
    forall k | k in r ensures FirstWith(diagnostics + [d], k) == Some(r[k]) {
      ItemOf(diagnostics, items, k);
      FirstOfMore(diagnostics, d, k);
    }
  }

  predicate Itemised(targets: seq<Target>, byTarget: map<string, map<string, Diagnostic>>) {
    forall t :: t in targets ==> t.id in byTarget && ItemsMatch(t.diagnostics, byTarget[t.id])
  }

  method CollectItems(t: Target) returns (items: map<string, Diagnostic>)
    ensures ItemsMatch(t.diagnostics, items)
  {
    hide Key, ItemsMatch;
    items := map[];
    var i := 0;
    assert ItemsMatch([], items) by { NoItems(); }
    while i < |t.diagnostics|
      invariant 0 <= i <= |t.diagnostics|
      invariant ItemsMatch(t.diagnostics[..i], items)
    {
      var d := t.diagnostics[i];
      ItemsOfMore(t.diagnostics[..i], d, items);
      assert t.diagnostics[..i + 1] == t.diagnostics[..i] + [d];
      if Key(d) !in items {
        items := items[Key(d) := d];
      }
      i := i + 1;
    }
    assert t.diagnostics[..i] == t.diagnostics;
  }

  lemma NoItems()
    ensures ItemsMatch([], map[])
  {
  }

  method CollectDiagnostics(targets: seq<Target>)
      returns (byTarget: map<string, map<string, Diagnostic>>, all: set<string>, only: map<string, seq<Diagnostic>>)
    requires UniqueIds(targets)
    ensures Itemised(targets, byTarget) && ArePaths(Keyed(targets), all)
    ensures HasIds(Keyed(targets), only) && forall id :: id in only ==> only[id] == []
  {
    byTarget, all, only := map[], {}, map[];
    var i := 0;
    hide ItemsMatch, KeysIn;
    while i < |targets|
      invariant 0 <= i <= |targets|
      invariant Itemised(targets[..i], byTarget) && ArePaths(Keyed(targets[..i]), all)
      invariant HasIds(Keyed(targets[..i]), only) && forall id :: id in only ==> only[id] == []
    {
      var items := CollectItems(targets[i]);
      OneMoreItemised(targets, i, byTarget, items);
      OneMoreKeyed(targets, i, all, only, items);
      byTarget, all, only := byTarget[targets[i].id := items], all + items.Keys, only[targets[i].id := []];
      i := i + 1;
    }
    assert targets[..i] == targets;
  }

  lemma OneMoreItemised(targets: seq<Target>, i: nat, byTarget: map<string, map<string, Diagnostic>>,
        items: map<string, Diagnostic>)
    requires UniqueIds(targets) && i < |targets| && Itemised(targets[..i], byTarget)
        && ItemsMatch(targets[i].diagnostics, items)
    ensures Itemised(targets[..i + 1], byTarget[targets[i].id := items])
  {
    hide ItemsMatch;
    assert targets[..i + 1] == targets[..i] + [targets[i]];
    forall t | t in targets[..i] ensures t.id != targets[i].id {
      var j :| 0 <= j < i && targets[j] == t;
    }
  }

  lemma KeysOfItems(t: Target, items: map<string, Diagnostic>)
    requires ItemsMatch(t.diagnostics, items)
    ensures forall k :: k in items.Keys <==> k in KeysIn(t.diagnostics)
  {
    hide Key;
    forall k ensures k in items <==> k in KeysIn(t.diagnostics) {
      ItemOf(t.diagnostics, items, k);
    }
  }

  lemma OneMoreKeyed(targets: seq<Target>, i: nat, all: set<string>, only: map<string, seq<Diagnostic>>,
        items: map<string, Diagnostic>)
    requires UniqueIds(targets) && i < |targets| && ItemsMatch(targets[i].diagnostics, items)
    requires ArePaths(Keyed(targets[..i]), all) && HasIds(Keyed(targets[..i]), only)
    ensures ArePaths(Keyed(targets[..i + 1]), all + items.Keys)
    ensures HasIds(Keyed(targets[..i + 1]), only[targets[i].id := []])
  {
    KeysOfItems(targets[i], items);
    hide ItemsMatch, KeysIn;
    var t := KeyedTarget(targets[i]);
    assert Keyed(targets[..i + 1]) == Keyed(targets[..i]) + [t];
    PathsOfOneMore(Keyed(targets[..i]), t, all, items.Keys);
    IdsOfOneMore(Keyed(targets[..i]), t, only, []);
  }

  lemma PathsOfOneMore(targets: seq<Target>, t: Target, all: set<string>, files: set<string>)
    requires ArePaths(targets, all) && forall p :: p in files <==> p in t.files
    ensures ArePaths(targets + [t], all + files)
  {
    forall p | p in all + files ensures exists u :: u in targets + [t] && p in u.files {
      if p in all {
        var u :| u in targets && p in u.files;
        assert u in targets + [t];
      } else {
        assert t in targets + [t];
      }
    }
  }

  lemma IdsOfOneMore<V>(targets: seq<Target>, t: Target, only: map<string, V>, v: V)
    requires HasIds(targets, only)
    ensures HasIds(targets + [t], only[t.id := v])
  {
    var r := only[t.id := v];
    forall id | id in r ensures exists u :: u in targets + [t] && u.id == id {
      if id in only {
        var u :| u in targets && u.id == id;
        assert u in targets + [t];
      } else {
        assert t in targets + [t];
      }
    }
  }

  /** Whether every target has the key, and the diagnostic of the first. */
  method FindInAll(targets: seq<Target>, byTarget: map<string, map<string, Diagnostic>>, key: string)
      returns (inAll: bool, representative: Option<Diagnostic>)
    requires Itemised(targets, byTarget)
    ensures inAll <==> InEvery(Keyed(targets), key)
    ensures targets != [] ==> representative == FirstWith(targets[0].diagnostics, key)
  {
    inAll, representative := true, None;
    var i := 0;
    hide KeysIn, FirstWith, ItemsMatch, InEvery;
    while i < |targets|
      invariant 0 <= i <= |targets|
      invariant inAll <==> forall j :: 0 <= j < i ==> key in KeysIn(targets[j].diagnostics)
      invariant if i == 0 then representative == None else representative == FirstWith(targets[0].diagnostics, key)
    {
      var t := targets[i];
      ItemOf(t.diagnostics, byTarget[t.id], key);
      if key !in byTarget[t.id] {
        inAll := false;
      } else if i == 0 {
        representative := Some(byTarget[t.id][key]);
      }
      i := i + 1;
    }
    InEveryKeyed(targets, key);
  }

  lemma InEveryKeyed(targets: seq<Target>, key: string)
    ensures InEvery(Keyed(targets), key) <==> forall j :: 0 <= j < |targets| ==> key in KeysIn(targets[j].diagnostics)
  {
    hide KeysIn;
    forall j | 0 <= j < |targets| ensures Keyed(targets)[j] in Keyed(targets) {}
  }

  /** A list of a target, with its diagnostic of a key appended if it has one. */
  function WithItem(t: Target, key: string, list: seq<Diagnostic>): seq<Diagnostic> {
    match FirstWith(t.diagnostics, key)
    case Some(d) => list + [d]
    case None => list
  }

  ghost predicate ItemAppended(targets: seq<Target>, key: string, only: map<string, seq<Diagnostic>>,
        r: map<string, seq<Diagnostic>>) {
    && (forall id :: id in r <==> id in only)
    && forall t :: t in targets && t.id in only ==> r[t.id] == WithItem(t, key, only[t.id])
  }

  lemma WithItemIs(t: Target, items: map<string, Diagnostic>, key: string, list: seq<Diagnostic>)
    requires ItemsMatch(t.diagnostics, items)
    ensures WithItem(t, key, list) == if key in items then list + [items[key]] else list
  {
    ItemOf(t.diagnostics, items, key);
  }

  /** Appends the diagnostic with a key to the list of every target that has one. */
  method AppendItems(targets: seq<Target>, byTarget: map<string, map<string, Diagnostic>>,
        only: map<string, seq<Diagnostic>>, key: string)
      returns (r: map<string, seq<Diagnostic>>)
    requires UniqueIds(targets) && Itemised(targets, byTarget) && HasIds(Keyed(targets), only)
    ensures ItemAppended(targets, key, only, r)
  {
    r := only;
    var i := 0;
    NothingAppended(targets, key, only);
    hide *;
    while i < |targets|
      invariant 0 <= i <= |targets|
      invariant AppendedSoFar(targets, key, i, only, r)
    {
      var t := targets[i];
      AppendStep(targets, byTarget, key, i, only, r);
      if key in byTarget[t.id] {
        r := r[t.id := r[t.id] + [byTarget[t.id][key]]];
      }
      i := i + 1;
    }
    AllAppended(targets, key, only, r);
  }

  ghost predicate AppendedSoFar(targets: seq<Target>, key: string, i: nat, only: map<string, seq<Diagnostic>>,
        r: map<string, seq<Diagnostic>>)
    requires i <= |targets|
  {
    && (forall t :: t in targets ==> t.id in only)
    && (forall id :: id in r <==> id in only)
    && (forall j :: 0 <= j < i ==> r[targets[j].id] == WithItem(targets[j], key, only[targets[j].id]))
    && forall j :: i <= j < |targets| ==> r[targets[j].id] == only[targets[j].id]
  }

  lemma NothingAppended(targets: seq<Target>, key: string, only: map<string, seq<Diagnostic>>)
    requires HasIds(Keyed(targets), only)
    ensures AppendedSoFar(targets, key, 0, only, only)
  {
    forall t | t in targets ensures t.id in only {
      var i :| 0 <= i < |targets| && targets[i] == t;
      assert Keyed(targets)[i].id == t.id;
    }
  }

  lemma AppendStep(targets: seq<Target>, byTarget: map<string, map<string, Diagnostic>>, key: string, i: nat,
        only: map<string, seq<Diagnostic>>, r: map<string, seq<Diagnostic>>)
    requires UniqueIds(targets) && Itemised(targets, byTarget) && i < |targets|
        && AppendedSoFar(targets, key, i, only, r)
    ensures var id := targets[i].id;
            && id in byTarget && id in r
            && AppendedSoFar(targets, key, i + 1, only,
                if key in byTarget[id] then r[id := r[id] + [byTarget[id][key]]] else r)
  {
    var t := targets[i];
    assert t in targets && t.id in only && ItemsMatch(t.diagnostics, byTarget[t.id]);
    WithItemIs(t, byTarget[t.id], key, only[t.id]);
    hide WithItem, ItemsMatch, Itemised;
    forall j | 0 <= j < |targets| && j != i ensures targets[j].id != t.id {}
  }

  lemma AllAppended(targets: seq<Target>, key: string, only: map<string, seq<Diagnostic>>,
        r: map<string, seq<Diagnostic>>)
    requires AppendedSoFar(targets, key, |targets|, only, r)
    ensures ItemAppended(targets, key, only, r)
  {
    hide WithItem;
  }

  /** The state of the merge when the keys `done` have been gone through. */
  ghost predicate DiagnosticsSoFar(targets: seq<Target>, done: seq<string>, shared: seq<Diagnostic>,
        only: map<string, seq<Diagnostic>>) {
    && FilesSoFar(Keyed(targets), done, KeysIn(shared), KeyedMap(only))
    && AllFirst(targets, shared, only) && HasIds(Keyed(targets), only)
  }

  method MergeDiagnostics(targets: seq<Target>) returns (shared: seq<Diagnostic>, only: map<string, seq<Diagnostic>>)
    requires UniqueIds(targets)
    ensures DiagnosticsMerged(targets, shared, only)
  {
    hide *;
    shared, only := [], map[];
    if targets == [] {
      NoTargets();
      return;
    }
    var byTarget, all;
    byTarget, all, only := CollectDiagnostics(targets);
    var keys := SortedKeys(all);
    var i := 0;
    NothingKeyed(targets, only);
    while i < |keys|
      invariant 0 <= i <= |keys|
      invariant DiagnosticsSoFar(targets, keys[..i], shared, only)
    {
      var inAll, representative := FindInAll(targets, byTarget, keys[i]);
      if inAll {
        SharedStep(targets, keys, i, representative, shared, only);
        shared := shared + [representative.value];
      } else {
        IdsSoFar(targets, keys[..i], shared, only);
        var r := AppendItems(targets, byTarget, only, keys[i]);
        OwnStep(targets, keys, i, shared, only, r);
        only := r;
      }
      i := i + 1;
    }
    assert keys[..i] == keys;
    DoneByKey(targets, all, keys, shared, only);
  }

  lemma IdsSoFar(targets: seq<Target>, done: seq<string>, shared: seq<Diagnostic>, only: map<string, seq<Diagnostic>>)
    requires DiagnosticsSoFar(targets, done, shared, only)
    ensures HasIds(Keyed(targets), only)
  {
  }

  lemma SharedStep(targets: seq<Target>, keys: seq<string>, i: nat, d: Option<Diagnostic>, shared: seq<Diagnostic>,
        only: map<string, seq<Diagnostic>>)
    requires targets != [] && StrictlySorted(keys) && i < |keys| && InEvery(Keyed(targets), keys[i])
    requires DiagnosticsSoFar(targets, keys[..i], shared, only) && d == FirstWith(targets[0].diagnostics, keys[i])
    ensures d.Some? && DiagnosticsSoFar(targets, keys[..i + 1], shared + [d.value], only)
  {
    hide FilesSoFar, AllFirst, KeysIn, KeyedMap, Keyed, HasIds, FirstWith, InEvery, StrictlySorted;
    EveryHasIt(targets, keys[i]);
    SharedOneMore(Keyed(targets), keys, i, KeysIn(shared), KeyedMap(only));
    SharedItem(targets, keys[i], d, shared, only);
  }

  lemma OwnStep(targets: seq<Target>, keys: seq<string>, i: nat, shared: seq<Diagnostic>,
        only: map<string, seq<Diagnostic>>, r: map<string, seq<Diagnostic>>)
    requires StrictlySorted(keys) && i < |keys| && !InEvery(Keyed(targets), keys[i])
    requires DiagnosticsSoFar(targets, keys[..i], shared, only) && ItemAppended(targets, keys[i], only, r)
    ensures DiagnosticsSoFar(targets, keys[..i + 1], shared, r)
  {
    hide FilesSoFar, AllFirst, KeysIn, KeyedMap, Keyed, HasIds, InEvery, StrictlySorted, ItemAppended, Appended;
    AppendedByKey(targets, keys[i], only, r);
    OwnOneMore(Keyed(targets), keys, i, KeysIn(shared), KeyedMap(only), KeyedMap(r));
    OwnItems(targets, keys[i], shared, only, r);
  }

  lemma NoTargets()
    ensures DiagnosticsMerged([], [], map[])
  {
    assert KeysIn([]) == [] && KeyedMap(map[]) == map[];
  }

  lemma NothingKeyed(targets: seq<Target>, only: map<string, seq<Diagnostic>>)
    requires targets != [] && HasIds(Keyed(targets), only) && forall id :: id in only ==> only[id] == []
    ensures DiagnosticsSoFar(targets, [], [], only)
  {
    assert KeysIn([]) == [];
    assert HasIds(Keyed(targets), KeyedMap(only));
    NothingSoFar(Keyed(targets), KeyedMap(only));
  }

  lemma {:induction false} EveryHasIt(targets: seq<Target>, key: string)
    requires targets != [] && InEvery(Keyed(targets), key)
    ensures FirstWith(targets[0].diagnostics, key).Some?
  {
    hide KeysIn, FirstWith;
    assert Keyed(targets)[0] in Keyed(targets);
    FoundIfThere(targets[0].diagnostics, key);
  }

  lemma {:induction false} SharedItem(targets: seq<Target>, key: string, d: Option<Diagnostic>, shared: seq<Diagnostic>,
        only: map<string, seq<Diagnostic>>)
    requires targets != [] && AllFirst(targets, shared, only) && d == FirstWith(targets[0].diagnostics, key) && d.Some?
    ensures AllFirst(targets, shared + [d.value], only)
    ensures KeysIn(shared + [d.value]) == KeysIn(shared) + [key]
  {
    hide Key;
  }

  lemma WithItemByKey(t: Target, key: string, list: seq<Diagnostic>)
    ensures KeysIn(WithItem(t, key, list)) == if key in KeysIn(t.diagnostics) then KeysIn(list) + [key]
        else KeysIn(list)
  {
    FoundIfThere(t.diagnostics, key);
    var found := FirstWith(t.diagnostics, key);
    hide Key, FirstWith;
    if found.Some? {
      assert KeysIn(list + [found.value]) == KeysIn(list) + [Key(found.value)];
    }
  }

  lemma AppendedByKey(targets: seq<Target>, key: string, only: map<string, seq<Diagnostic>>,
        r: map<string, seq<Diagnostic>>)
    requires HasIds(Keyed(targets), only) && ItemAppended(targets, key, only, r)
    ensures Appended(Keyed(targets), key, KeyedMap(only), KeyedMap(r)) && HasIds(Keyed(targets), r)
  {
    hide KeysIn, WithItem;
    assert HasIds(Keyed(targets), KeyedMap(only)) && HasIds(Keyed(targets), KeyedMap(r));
    var only', r' := KeyedMap(only), KeyedMap(r);
    forall u | u in Keyed(targets) ensures r'[u.id] == if key in u.files then only'[u.id] + [key] else only'[u.id] {
      var i :| 0 <= i < |targets| && KeyedTarget(targets[i]) == u;
      assert r[u.id] == WithItem(targets[i], key, only[u.id]);
      WithItemByKey(targets[i], key, only[u.id]);
    }
  }

  lemma OwnItems(targets: seq<Target>, key: string, shared: seq<Diagnostic>, only: map<string, seq<Diagnostic>>,
        r: map<string, seq<Diagnostic>>)
    requires AllFirst(targets, shared, only) && ItemAppended(targets, key, only, r)
    ensures AllFirst(targets, shared, r)
  {
    hide Key;
    forall t | t in targets && t.id in r ensures FirstIn(t, r[t.id]) {
      assert FirstIn(t, only[t.id]);
    }
  }

  lemma DoneByKey(targets: seq<Target>, all: set<string>, keys: seq<string>, shared: seq<Diagnostic>,
        only: map<string, seq<Diagnostic>>)
    requires targets != [] && DiagnosticsSoFar(targets, keys, shared, only)
    requires ArePaths(Keyed(targets), all) && forall k :: k in keys <==> k in all
    ensures DiagnosticsMerged(targets, shared, only)
  {
    hide FilesSoFar, FilesMerged, AllFirst, KeysIn, KeyedMap;
    assert Keyed(targets) != [];
    AllGoneThrough(Keyed(targets), all, keys, KeysIn(shared), KeyedMap(only));
  }

  // ----- what the merge of diagnostics means -----

  /** By their keys, the diagnostics of a target are the shared ones and its own, and
      none is both; its own are diagnostics of the target itself. */
  lemma DiagnosticsArePartitioned(targets: seq<Target>, shared: seq<Diagnostic>, only: map<string, seq<Diagnostic>>,
        t: Target)
    requires DiagnosticsMerged(targets, shared, only) && t in targets && t.id in only
    ensures forall d :: d in t.diagnostics ==> Key(d) in KeysIn(shared) || Key(d) in KeysIn(only[t.id])
    ensures forall k :: !(k in KeysIn(shared) && k in KeysIn(only[t.id]))
    ensures StrictlySorted(KeysIn(shared)) && StrictlySorted(KeysIn(only[t.id]))
    ensures forall d :: d in only[t.id] ==> d in t.diagnostics
  {
    hide Key, StrictlySorted;
    var u := KeyedTarget(t);
    assert u in Keyed(targets) by {
      var i :| 0 <= i < |targets| && targets[i] == t;
      assert Keyed(targets)[i] == u;
    }
    FilesArePartitioned(Keyed(targets), KeysIn(shared), KeyedMap(only), u);
    assert OwnFiles(Keyed(targets), u, KeyedMap(only)[t.id]);
    hide FilesMerged;
    forall d | d in t.diagnostics ensures Key(d) in u.files {
      var i :| 0 <= i < |t.diagnostics| && t.diagnostics[i] == d;
      assert KeysIn(t.diagnostics)[i] == Key(d);
    }
    forall d | d in only[t.id] ensures d in t.diagnostics {
      assert FirstWith(t.diagnostics, Key(d)) == Some(d);
    }
  }

  /** The order of the targets does not matter for the keys of the lists. */
  lemma KeysIgnoreOrder(targets: seq<Target>, targets': seq<Target>, shared: seq<Diagnostic>, shared': seq<Diagnostic>,
        only: map<string, seq<Diagnostic>>, only': map<string, seq<Diagnostic>>)
    requires multiset(Keyed(targets)) == multiset(Keyed(targets'))
    requires DiagnosticsMerged(targets, shared, only) && DiagnosticsMerged(targets', shared', only')
    ensures KeysIn(shared) == KeysIn(shared') && KeyedMap(only) == KeyedMap(only')
  {
    hide FilesMerged, AllFirst, KeysIn, KeyedMap, Keyed;
    FilesIgnoreOrder(Keyed(targets), Keyed(targets'), KeysIn(shared), KeysIn(shared'), KeyedMap(only), KeyedMap(only'));
  }
}
