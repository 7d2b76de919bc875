/** Small datatypes shared by every model in this project. */
module Prelude {

  datatype Option<+T> = None | Some(value: T)

  datatype Result<+T, +E> = Ok(value: T) | Err(error: E)

  /** The elements of `s` that satisfy `p`, in order. */
  function Filter<T>(s: seq<T>, p: T -> bool): (r: seq<T>)
    ensures |r| <= |s|
    ensures forall x | x in s :: x in r <==> p(x)
    ensures forall x | x in r :: x in s
  {
    if s == [] then []
    else (if p(s[0]) then [s[0]] else []) + Filter(s[1..], p)
  }

  lemma {:induction false} FilterConcat<T>(a: seq<T>, b: seq<T>, p: T -> bool)
    ensures Filter(a + b, p) == Filter(a, p) + Filter(b, p)
  {
    if a == [] {
      assert a + b == b;
    } else {
      assert (a + b)[1..] == a[1..] + b;
      FilterConcat(a[1..], b, p);
    }
  }

  /** `f` applied to every element, in order. */
  function Map<T, U>(s: seq<T>, f: T -> U): (r: seq<U>)
    ensures |r| == |s|
    ensures forall i :: 0 <= i < |s| ==> r[i] == f(s[i])
  {
    seq(|s|, i requires 0 <= i < |s| => f(s[i]))
  }

  lemma MapConcat<T, U>(a: seq<T>, b: seq<T>, f: T -> U)
    ensures Map(a + b, f) == Map(a, f) + Map(b, f)
  {
  }

  lemma ConcatAssociative<T>(a: seq<T>, b: seq<T>, c: seq<T>)
    ensures a + (b + c) == a + b + c
  {
  }

  predicate Distinct<T(==)>(s: seq<T>) {
    forall i, j :: 0 <= i < j < |s| ==> s[i] != s[j]
  }

  /** How often `x` occurs in `s`. */
  function Count<T(==)>(s: seq<T>, x: T): nat {
    multiset(s)[x]
  }

  lemma CountConcat<T>(a: seq<T>, b: seq<T>, x: T)
    ensures Count(a + b, x) == Count(a, x) + Count(b, x)
  {
    assert multiset(a + b) == multiset(a) + multiset(b);
  }

  /** `r` are the elements of `s` at the positions `at`, which ascend. */
  predicate Picks<T(==)>(s: seq<T>, r: seq<T>, at: seq<nat>) {
    && |r| == |at|
    && (forall j :: 0 <= j < |at| ==> at[j] < |s| && r[j] == s[at[j]])
    && forall i, j :: 0 <= i < j < |at| ==> at[i] < at[j]
  }

  /** A filter keeps what satisfies it, where it stands. */
  lemma {:induction false} FilterPicks<T>(s: seq<T>, p: T -> bool) returns (at: seq<nat>)
    ensures Picks(s, Filter(s, p), at)
    ensures forall k: nat :: k in at <==> k < |s| && p(s[k])
  {
    if s == [] {
      at := [];
    } else {
      var rest := FilterPicks(s[1..], p);
      at := (if p(s[0]) then [0] else []) + Map(rest, (k: nat) => k + 1);
      PicksOneMore(s, p, rest, at);
    }
  }

  lemma {:induction false} PicksOneMore<T>(s: seq<T>, p: T -> bool, rest: seq<nat>, at: seq<nat>)
    requires s != [] && Picks(s[1..], Filter(s[1..], p), rest)
    requires forall k: nat :: k in rest <==> k < |s| - 1 && p(s[1..][k])
    requires at == (if p(s[0]) then [0] else []) + Map(rest, (k: nat) => k + 1)
    ensures Picks(s, Filter(s, p), at) && forall k: nat :: k in at <==> k < |s| && p(s[k])
  {
    var moved := Map(rest, (k: nat) => k + 1);
    var kept := Filter(s[1..], p);
    PicksMoved(s, kept, rest);
    if p(s[0]) {
      PicksFirst(s, kept, moved);
    } else {
      assert [] + moved == moved && [] + kept == kept;
    }
    hide Picks, Filter;
    forall k: nat ensures k in at <==> k < |s| && p(s[k]) {
      InOneMore(p(s[0]), rest, k);
    }
  }

  lemma InOneMore(first: bool, rest: seq<nat>, k: nat)
    ensures k in (if first then [0] else []) + Map(rest, (n: nat) => n + 1) <==>
              if k == 0 then first else (k - 1) in rest
  {
    if k > 0 {
      MovedIn(rest, k - 1);
    }
  }

  lemma PicksFirst<T>(s: seq<T>, kept: seq<T>, moved: seq<nat>)
    requires s != [] && Picks(s, kept, moved) && 0 !in moved
    ensures Picks(s, [s[0]] + kept, [0] + moved)
  {
  }

  lemma PicksMoved<T>(s: seq<T>, kept: seq<T>, rest: seq<nat>)
    requires s != [] && Picks(s[1..], kept, rest)
    ensures Picks(s, kept, Map(rest, (k: nat) => k + 1)) && 0 !in Map(rest, (k: nat) => k + 1)
  {
  }

  lemma MovedIn(s: seq<nat>, k: nat)
    ensures k + 1 in Map(s, (n: nat) => n + 1) <==> k in s
  {
    if k in s {
      var j :| 0 <= j < |s| && s[j] == k;
      assert Map(s, (n: nat) => n + 1)[j] == k + 1;
    }
  }
}
