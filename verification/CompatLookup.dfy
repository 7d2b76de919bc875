/** The resolver with its cache: matches are kept in arrays that are sorted in place,
    and shared by all later usages of the same name. */
module CompatLookup {
  import opened Prelude
  import opened Ordering
  import opened Text
  import opened CompatSpec

  // ----- sorting twice is sorting once -----

  predicate InOrder(s: seq<Match>) {
    forall i, j :: 0 <= i < j < |s| ==> !Less(s[j], s[i])
  }

  lemma LessIsTransitive(a: Match, b: Match, c: Match)
    requires !Less(b, a) && !Less(c, b)
    ensures !Less(c, a)
  {
    BeforeIsTotal(a.path, b.path);
    BeforeIsTotal(b.path, c.path);
    if Before(a.path, b.path) && Before(b.path, c.path) {
      BeforeIsTransitive(a.path, b.path, c.path);
    }
    if a.path != c.path && Before(c.path, a.path) {
      if Before(a.path, c.path) {
        BeforeIsTransitive(a.path, c.path, a.path);
      }
      BeforeIsStrict(a.path);
    }
  }

  lemma LessIsStrict(a: Match, b: Match)
    requires Less(a, b)
    ensures !Less(b, a)
  {
    if a.path != b.path && Before(b.path, a.path) {
      BeforeIsTransitive(a.path, b.path, a.path);
      BeforeIsStrict(a.path);
    }
  }

  lemma {:induction false} InsertKeepsOrder(m: Match, s: seq<Match>)
    requires InOrder(s)
    ensures InOrder(Insert(m, s)) && forall x :: x in Insert(m, s) ==> x == m || x in s
  {
    hide Less;
    if s == [] {
    } else if !Less(s[0], m) {
      forall j | 0 <= j < |s| ensures !Less(s[j], m) {
        if j > 0 {
          LessIsTransitive(m, s[0], s[j]);
        }
      }
    } else {
      InsertKeepsOrder(m, s[1..]);
      LessIsStrict(s[0], m);
      var rest := Insert(m, s[1..]);
      forall j | 0 <= j < |rest| ensures !Less(rest[j], s[0]) {
        assert rest[j] in rest;
      }
    }
  }

  lemma {:induction false} SortPutsInOrder(s: seq<Match>)
    ensures InOrder(SortMatches(s))
  {
    if s != [] {
      SortPutsInOrder(s[1..]);
      InsertKeepsOrder(s[0], SortMatches(s[1..]));
    }
  }

  lemma {:induction false} SortKeepsSorted(s: seq<Match>)
    requires InOrder(s)
    ensures SortMatches(s) == s
  {
    if s != [] {
      hide Less;
      SortKeepsSorted(s[1..]);
      assert s == [s[0]] + s[1..];
      if s[1..] != [] {
        assert s[1..][0] == s[1];
      }
    }
  }

  /** Sorting the first few matches again changes nothing. */
  lemma SettleIsStable(m: seq<Match>)
    ensures Settle(Settle(m)) == Settle(m)
  {
    var k := Limit(|m|);
    var sorted := SortMatches(m[..k]);
    SortPutsInOrder(m[..k]);
    SortKeepsSorted(sorted);
    assert Settle(m)[..k] == sorted && Settle(m)[k..] == m[k..];
  }

  lemma {:induction false} InsertKeepsMatches(m: Match, s: seq<Match>)
    ensures multiset(Insert(m, s)) == multiset(s) + multiset{m}
  {
    hide Less;
    if s != [] && Less(s[0], m) {
      InsertKeepsMatches(m, s[1..]);
      assert s == [s[0]] + s[1..];
    }
  }

  lemma {:induction false} SortKeepsMatches(s: seq<Match>)
    ensures multiset(SortMatches(s)) == multiset(s)
  {
    if s != [] {
      SortKeepsMatches(s[1..]);
      InsertKeepsMatches(s[0], SortMatches(s[1..]));
      assert s == [s[0]] + s[1..];
    }
  }

  /** A fact is justified by what the snapshot finds: its evidence is the first few
      matches in order, its signature is that of the first of them, and it reports
      absence only of kinds of which the snapshot can prove it. */
  lemma FactIsJustified(snap: Snapshot, u: Usage, kind: Kind)
    requires LookupFact(snap, u, kind).Ok? && LookupFact(snap, u, kind).value.Some?
    ensures snap.find(kind, TrimSpace(u.name)).Ok?
    ensures var found := snap.find(kind, TrimSpace(u.name)).value;
            var f := LookupFact(snap, u, kind).value.value;
            && (f.present <==> found.matches != [])
            && (!f.present ==> found.known && kind != Mixin && kind != FrameType)
            && f.evidence.matchCount == |found.matches|
            && multiset(f.evidence.matches) == multiset(found.matches[..Limit(|found.matches|)])
            && InOrder(f.evidence.matches)
            && (f.present ==> f.evidence.matches != [] && f.signature == f.evidence.matches[0].signature)
  {
    hide TrimSpace, SortMatches, Less;
    var m := snap.find(kind, TrimSpace(u.name)).value.matches;
    var k := Limit(|m|);
    SortKeepsMatches(m[..k]);
    SortPutsInOrder(m[..k]);
    assert Settle(m)[..k] == SortMatches(m[..k]);
  }

  // ----- the cache -----

  datatype Resolution = Resolution(matches: array<Match>, known: bool)

  type CacheKey = (Kind, string)

  /** Sorts the first `k` matches where they are, and copies them. */
  method MatchEvidence(matches: array<Match>, k: nat) returns (values: seq<Match>)
    requires k == Limit(matches.Length)
    modifies matches
    ensures matches[..] == Settle(old(matches[..]))
    ensures values == matches[..k]
  {
    hide SortMatches;
    ghost var before := matches[..];
    assert before[..k] == matches[..k];
    var sorted := SortMatches(matches[..k]);
    var i := 0;
    while i < k
      invariant 0 <= i <= k
      invariant forall j :: 0 <= j < i ==> matches[j] == sorted[j]
      invariant forall j :: i <= j < matches.Length ==> matches[j] == before[j]
    {
      matches[i] := sorted[i];
      i := i + 1;
    }
    assert matches[..k] == sorted && matches[k..] == before[k..];
    assert matches[..] == matches[..k] + matches[k..];
    values := [];
    i := 0;
    while i < k
      invariant 0 <= i <= k && values == matches[..i]
    {
      values := values + [matches[i]];
      i := i + 1;
    }
  }

  class Resolver {
    const snap: Snapshot
    var cache: map<CacheKey, Resolution>

    constructor (snap: Snapshot)
      ensures this.snap == snap && Valid() && cache == map[]
    {
      this.snap := snap;
      cache := map[];
    }

    ghost function Arrays(): set<object>
      reads this
    {
      set key | key in cache :: cache[key].matches
    }

    /** The entry holds what the snapshot finds, up to the sorting of its first few
        matches. */
    ghost predicate Holds(key: CacheKey)
      requires key in cache
      reads this, cache[key].matches
    {
      && snap.find(key.0, key.1).Ok?
      && var found := snap.find(key.0, key.1).value;
         cache[key].known == found.known && Settle(cache[key].matches[..]) == Settle(found.matches)
    }

    ghost predicate Valid()
      reads this, Arrays()
    {
      && (forall key :: key in cache ==> Holds(key))
      && forall a, b :: a in cache && b in cache && a != b ==> cache[a].matches != cache[b].matches
    }

    /** The entry of a name, which is made if there is none. */
    method Resolve(kind: Kind, name: string) returns (r: Result<Resolution, string>)
      requires Valid()
      modifies this
      ensures Valid() && fresh(Arrays() - old(Arrays()))
      ensures r.Err? <==> snap.find(kind, name).Err?
      ensures r.Err? ==> r.error == snap.find(kind, name).error
      ensures r.Ok? ==> (kind, name) in cache && cache[(kind, name)] == r.value
    {
      hide Settle;
      var key := (kind, name);
      if key in cache {
        assert Holds(key);
        return Ok(cache[key]);
      }
      var answer := snap.find(kind, name);
      if answer.Err? {
        return Err(answer.error);
      }
      var resolution := ToResolution(answer.value);
      cache := cache[key := resolution];
      return Ok(resolution);
    }

    /** Whatever has been looked up before, a lookup gives what a lookup without a
        cache gives. */
    method Lookup(u: Usage, kind: Kind) returns (r: Result<Option<Fact>, string>)
      requires Valid()
      modifies this, Arrays()
      ensures Valid() && fresh(Arrays() - old(Arrays()))
      ensures r == LookupFact(snap, u, kind)
    {
      hide Settle;
      var name := TrimSpace(u.name);
      var resolved := Resolve(kind, name);
      if resolved.Err? {
        return Err(resolved.error);
      }
      var resolution := resolved.value;
      assert Holds((kind, name));
      ghost var found := snap.find(kind, name).value;
      var n := resolution.matches.Length;
      assert n == |Settle(resolution.matches[..])| == |found.matches|;
      if n == 0 && (!resolution.known || kind == Mixin || kind == FrameType) {
        return Ok(None);
      }
      SettleIsStable(resolution.matches[..]);
      var evidence := MatchEvidence(resolution.matches, Limit(n));
      var signature := if n > 0 then resolution.matches[0].signature else "";
      r := Ok(Some(Fact(kind, name, n > 0, signature,
          Evidence(LocationOf(u), n, n > EVIDENCE_LIMIT, evidence, n == 0))));
    }

    method ToResolution(found: Found) returns (resolution: Resolution)
      ensures fresh(resolution.matches) && resolution.matches[..] == found.matches && resolution.known == found.known
    {
      if found.matches == [] {
        var none := new Match[0];
        return Resolution(none, found.known);
      }
      var m := new Match[|found.matches|](i requires 0 <= i < |found.matches| => found.matches[i]);
      assert m[..] == found.matches;
      return Resolution(m, found.known);
    }
  }

  // ----- all usages -----

  lemma {:induction false} ReportFails(snap: Snapshot, usages: seq<Usage>, i: nat, n: nat)
    requires i <= n <= |usages| && ReportOf(snap, usages, i).Err?
    ensures ReportOf(snap, usages, n) == ReportOf(snap, usages, i)
  {
    hide Judge;
    if i < n {
      ReportFails(snap, usages, i, n - 1);
    }
  }

  lemma ReportOneMore(snap: Snapshot, usages: seq<Usage>, i: nat, report: Report)
    requires i < |usages| && ReportOf(snap, usages, i) == Ok(report)
    ensures ReportOf(snap, usages, i + 1)
         == match Judge(snap, usages[i]) case Err(e) => Err(e) case Ok(v) => Ok(Add(report, v))
  {
    hide Judge;
  }

  /** `LookupCompatibility`: the usages in order, then the declared interface unless a
      usage names it. */
  method LookupCompatibility(snap: Snapshot, usages: seq<Usage>, interfaceValue: string)
      returns (r: Result<Report, string>)
    ensures r == LookupAll(snap, usages, interfaceValue)
  {
    hide LookupFact, TrimSpace, ReportOf, Judge, JudgeInterface, NamesInterface;
    var facts: seq<Fact>, unresolved: seq<Unresolved> := [], [];
    var interfaceSeen := false;
    var resolver := new Resolver(snap);
    var i := 0;
    assert ReportOf(snap, usages, 0) == Ok(Report([], [])) by { NothingReported(snap, usages); }
    while i < |usages|
      invariant 0 <= i <= |usages|
      invariant resolver.snap == snap && resolver.Valid() && fresh(resolver) && fresh(resolver.Arrays())
      invariant ReportOf(snap, usages, i) == Ok(Report(facts, unresolved))
      invariant interfaceSeen <==> exists j :: 0 <= j < i && NamesInterface(snap, usages[j], interfaceValue)
    {
      var u := usages[i];
      var verdict := JudgeUsage(resolver, u);
      if NamesInterface(snap, u, interfaceValue) {
        interfaceSeen := true;
      }
      ReportOneMore(snap, usages, i, Report(facts, unresolved));
      if verdict.Err? {
        ReportFails(snap, usages, i + 1, |usages|);
        return Err(verdict.error);
      }
      match verdict.value {
        case Resolved(fact) => facts := facts + [fact];
        case Open(u) => unresolved := unresolved + [u];
      }
      i := i + 1;
    }
    SeenByIndex(snap, usages, interfaceValue);
    var value := TrimSpace(interfaceValue);
    if value != "" && !interfaceSeen {
      var verdict := JudgeDeclared(resolver, value);
      if verdict.Err? {
        return Err(verdict.error);
      }
      match verdict.value {
        case Resolved(fact) => facts := facts + [fact];
        case Open(u) => unresolved := unresolved + [u];
      }
    }
    r := Ok(Report(facts, unresolved));
  }

  lemma {:induction false} NothingReported(snap: Snapshot, usages: seq<Usage>)
    ensures ReportOf(snap, usages, 0) == Ok(Report([], []))
  {
  }

  /** The declared interface, looked up by itself. */
  method JudgeDeclared(resolver: Resolver, value: string) returns (r: Result<Verdict, string>)
    requires resolver.Valid()
    modifies resolver, resolver.Arrays()
    ensures r == JudgeInterface(resolver.snap, value)
  {
    hide LookupFact, TrimSpace;
    var fact := resolver.Lookup(InterfaceUsage(value), Interface);
    if fact.Err? {
      return Err(fact.error);
    }
    if fact.value.Some? {
      return Ok(Resolved(fact.value.value));
    }
    return Ok(Open(UnresolvedUsage(InterfaceUsage(value), NoInterfaceEvidence)));
  }

  /** The body of the loop over the usages. */
  method JudgeUsage(resolver: Resolver, u: Usage) returns (r: Result<Verdict, string>)
    requires resolver.Valid()
    modifies resolver, resolver.Arrays()
    ensures resolver.Valid() && fresh(resolver.Arrays() - old(resolver.Arrays()))
    ensures r == Judge(resolver.snap, u)
  {
    hide LookupFact, NormalizeKind, TrimSpace;
    var kind := NormalizeKind(resolver.snap, u.kind);
    if kind.None? {
      return Ok(Open(UnresolvedUsage(u, UnsupportedKind)));
    }
    if TrimSpace(u.name) == "" {
      return Ok(Open(UnresolvedUsage(u, EmptyReference)));
    }
    var fact := resolver.Lookup(u, kind.value);
    if fact.Err? {
      return Err(fact.error);
    }
    if fact.value.None? {
      return Ok(Open(UnresolvedUsage(u, Unproven)));
    }
    if resolver.snap.candidate(TrimSpace(u.kind)) && !fact.value.value.present {
      return Ok(Open(UnresolvedUsage(u, NotAnApi)));
    }
    return Ok(Resolved(fact.value.value));
  }

  lemma SeenByIndex(snap: Snapshot, usages: seq<Usage>, interfaceValue: string)
    ensures InterfaceSeen(snap, usages, interfaceValue)
        <==> exists j :: 0 <= j < |usages| && NamesInterface(snap, usages[j], interfaceValue)
  {
    hide NamesInterface;
  }
}
