/** Strings in code point order, and sorting by a comparison. */
module Ordering {
  import opened Prelude

  /** `a < b` on strings. */
  predicate Before(a: string, b: string) {
    b != "" && (a == "" || a[0] < b[0] || (a[0] == b[0] && Before(a[1..], b[1..])))
  }

  lemma {:induction false} BeforeIsTotal(a: string, b: string)
    ensures a == b || Before(a, b) || Before(b, a)
  {
    if a != "" && b != "" && a[0] == b[0] {
      BeforeIsTotal(a[1..], b[1..]);
      if a[1..] == b[1..] {
        assert a == [a[0]] + a[1..] && b == [b[0]] + b[1..];
      }
    }
  }

  lemma {:induction false} BeforeIsTransitive(a: string, b: string, c: string)
    requires Before(a, b) && Before(b, c)
    ensures Before(a, c)
  {
    if a != "" && a[0] == b[0] == c[0] {
      BeforeIsTransitive(a[1..], b[1..], c[1..]);
    }
  }

  lemma {:induction false} BeforeIsStrict(a: string)
    ensures !Before(a, a)
  {
    if a != "" {
      BeforeIsStrict(a[1..]);
    }
  }

  /** No element comes before one that it follows. */
  predicate Sorted<T>(s: seq<T>, less: (T, T) -> bool) {
    forall i, j :: 0 <= i < j < |s| ==> !less(s[j], s[i])
  }

  /** Any result a sort may give. */
  predicate SortOf<T(==)>(s: seq<T>, r: seq<T>, less: (T, T) -> bool) {
    multiset(r) == multiset(s) && Sorted(r, less)
  }

  /** Elements that neither comes before the other are the same. */
  predicate Separated<T(==)>(s: seq<T>, less: (T, T) -> bool) {
    forall x, y :: x in s && y in s && !less(x, y) && !less(y, x) ==> x == y
  }

  lemma SameMembers<T>(a: seq<T>, b: seq<T>)
    requires multiset(a) == multiset(b)
    ensures forall x :: x in a <==> x in b
  {
    forall x ensures x in a <==> x in b {
      assert x in a <==> x in multiset(a);
      assert x in b <==> x in multiset(b);
    }
  }

  lemma RestsMatch<T>(a: seq<T>, b: seq<T>)
    requires a != [] && b != [] && a[0] == b[0] && multiset(a) == multiset(b)
    ensures multiset(a[1..]) == multiset(b[1..])
  {
    assert a == [a[0]] + a[1..] && b == [b[0]] + b[1..];
    assert multiset(a[1..]) == multiset(a) - multiset{a[0]};
    assert multiset(b[1..]) == multiset(b) - multiset{b[0]};
  }

  /** A sort has one result if the comparison tells all elements apart. */
  lemma {:induction false} SortIsUnique<T>(a: seq<T>, b: seq<T>, less: (T, T) -> bool)
    requires multiset(a) == multiset(b) && Sorted(a, less) && Sorted(b, less) && Separated(a, less)
    ensures a == b
  {
    SameMembers(a, b);
    if a == [] {
      assert |multiset(b)| == 0;
    } else {
      assert b != [];
      FirstIsLeast(a, b[0], less);
      FirstIsLeast(b, a[0], less);
      assert a[0] == b[0];
      RestsMatch(a, b);
      assert a == [a[0]] + a[1..] && b == [b[0]] + b[1..];
      SortIsUnique(a[1..], b[1..], less);
    }
  }

  lemma FirstIsLeast<T>(s: seq<T>, x: T, less: (T, T) -> bool)
    requires Sorted(s, less) && x in s
    ensures x == s[0] || !less(x, s[0])
  {
  }

  // ----- strings -----

  predicate StrictlySorted(keys: seq<string>) {
    forall i, j :: 0 <= i < j < |keys| ==> Before(keys[i], keys[j])
  }

  /** A strictly sorted list is known by its members. */
  lemma {:induction false} StrictOrderIsUnique(a: seq<string>, b: seq<string>)
    requires StrictlySorted(a) && StrictlySorted(b) && forall k :: k in a <==> k in b
    ensures a == b
  {
    if a == [] {
      assert forall i :: 0 <= i < |b| ==> b[i] in b;
    } else {
      assert a[0] in b && b != [] && b[0] in a;
      LeastIsFirst(a, b);
      forall k ensures k in a[1..] <==> k in b[1..] {
        NotRepeated(a, k);
        NotRepeated(b, k);
      }
      StrictOrderIsUnique(a[1..], b[1..]);
      assert a == [a[0]] + a[1..] && b == [b[0]] + b[1..];
    }
  }

  lemma NotRepeated(a: seq<string>, k: string)
    requires StrictlySorted(a) && a != []
    ensures k in a[1..] <==> k in a && k != a[0]
  {
    BeforeIsStrict(k);
    forall i | 1 <= i < |a| ensures a[i] == k ==> k != a[0] {
      assert Before(a[0], a[i]);
    }
  }

  lemma LeastIsFirst(a: seq<string>, b: seq<string>)
    requires StrictlySorted(a) && StrictlySorted(b) && a != [] && b != [] && a[0] in b && b[0] in a
    ensures a[0] == b[0]
  {
    if a[0] != b[0] {
      var i :| 0 <= i < |b| && b[i] == a[0];
      var j :| 0 <= j < |a| && a[j] == b[0];
      assert Before(b[0], b[i]) && Before(a[0], a[j]);
      BeforeIsTransitive(a[0], b[0], a[0]);
      BeforeIsStrict(a[0]);
    }
  }

  function InsertString(key: string, keys: seq<string>): (r: seq<string>)
    ensures multiset(r) == multiset(keys) + multiset{key}
  {
    if keys == [] || !Before(keys[0], key) then [key] + keys
    else
      assert keys == [keys[0]] + keys[1..];
      [keys[0]] + InsertString(key, keys[1..])
  }

  /** `sort.Strings`. */
  function SortStrings(keys: seq<string>): (r: seq<string>)
    ensures multiset(r) == multiset(keys)
  {
    if keys == [] then []
    else
      assert keys == [keys[0]] + keys[1..];
      InsertString(keys[0], SortStrings(keys[1..]))
  }

  predicate Ascending(keys: seq<string>) {
    forall i, j :: 0 <= i < j < |keys| ==> keys[i] == keys[j] || Before(keys[i], keys[j])
  }

  lemma {:induction false} InsertIsSorted(key: string, keys: seq<string>)
    requires Ascending(keys)
    ensures Ascending(InsertString(key, keys))
  {
    var r := InsertString(key, keys);
    if keys == [] {
    } else if !Before(keys[0], key) {
      BeforeIsTotal(keys[0], key);
      forall i | 0 <= i < |keys| ensures key == keys[i] || Before(key, keys[i]) {
        if i > 0 && Before(key, keys[0]) && Before(keys[0], keys[i]) {
          BeforeIsTransitive(key, keys[0], keys[i]);
        }
      }
    } else {
      InsertIsSorted(key, keys[1..]);
      var rest := InsertString(key, keys[1..]);
      forall j | 0 <= j < |rest| ensures keys[0] == rest[j] || Before(keys[0], rest[j]) {
        assert rest[j] in multiset(rest);
        assert rest[j] == key || rest[j] in keys[1..];
      }
    }
  }

  lemma {:induction false} SortStringsIsSorted(keys: seq<string>)
    ensures Ascending(SortStrings(keys))
  {
    if keys != [] {
      SortStringsIsSorted(keys[1..]);
      InsertIsSorted(keys[0], SortStrings(keys[1..]));
    }
  }

  lemma DistinctBySort(a: seq<string>, b: seq<string>)
    requires multiset(a) == multiset(b) && Distinct(a)
    ensures Distinct(b)
  {
    forall i, j | 0 <= i < j < |b| ensures b[i] != b[j] {
      if b[i] == b[j] {
        assert b == b[..j] + [b[j]] + b[j + 1..];
        assert b[i] in b[..j];
        assert multiset(b)[b[i]] >= 2;
        OnceEach(a, b[i]);
        assert false;
      }
    }
  }

  lemma {:induction false} OnceEach(a: seq<string>, k: string)
    requires Distinct(a)
    ensures multiset(a)[k] <= 1
  {
    if a != [] {
      assert a == [a[0]] + a[1..];
      OnceEach(a[1..], k);
      if k == a[0] {
        assert k !in a[1..];
      }
    }
  }

  /** The keys of a map or a set, collected in no particular order and sorted. */
  method SortedKeys(values: set<string>) returns (keys: seq<string>)
    ensures StrictlySorted(keys) && forall k :: k in keys <==> k in values
  {
    keys := [];
    var left := values;
    while left != {}
      invariant left <= values
      invariant forall k :: k in keys <==> k in values && k !in left
      invariant Distinct(keys)
      decreases left
    {
      var k :| k in left;
      keys := keys + [k];
      left := left - {k};
    }
    hide SortStrings;
    SameMembers(keys, SortStrings(keys));
    SortStringsIsSorted(keys);
    DistinctBySort(keys, SortStrings(keys));
    keys := SortStrings(keys);
  }

  /** At `k` the strings first differ, or `a` ends there. */
  predicate DifferAt(a: string, b: string, k: nat) {
    k <= |a| && k < |b| && a[..k] == b[..k] && (k == |a| || a[k] < b[k])
  }

  /** The order is that of the first place where two strings differ. */
  lemma {:induction false} BeforeIsLexicographic(a: string, b: string)
    ensures Before(a, b) <==> exists k: nat :: DifferAt(a, b, k)
  {
    if b == "" {
    } else if a == "" {
      assert DifferAt(a, b, 0);
    } else if a[0] != b[0] {
      assert a[0] < b[0] ==> DifferAt(a, b, 0);
      forall k: nat | k > 0 ensures !DifferAt(a, b, k) {
        assert k <= |a| && k < |b| ==> a[..k][0] == a[0] && b[..k][0] == b[0];
      }
    } else {
      BeforeIsLexicographic(a[1..], b[1..]);
      if k: nat :| DifferAt(a[1..], b[1..], k) {
        assert a[..k + 1] == [a[0]] + a[1..][..k] && b[..k + 1] == [b[0]] + b[1..][..k];
        assert DifferAt(a, b, k + 1);
      }
      if k: nat :| DifferAt(a, b, k) {
        assert k > 0;
        assert a[1..][..k - 1] == a[..k][1..] && b[1..][..k - 1] == b[..k][1..];
        assert DifferAt(a[1..], b[1..], k - 1);
      }
    }
  }
}
