/** Work in progress at several workers: what each will still add to a list, and
    the law that recorded, owed and unsent work is together all the work. */
module Conservation {
  import opened Prelude

  /** How many `x` the workers owe together. */
  ghost function Owed<W, T>(workers: seq<W>, owes: W -> seq<T>, x: T): nat {
    if workers == [] then 0 else Count(owes(workers[0]), x) + Owed(workers[1..], owes, x)
  }

  /** What is recorded, what workers owe and what is still to be sent is together
      what the jobs give. */
  ghost predicate Balanced<W, T>(list: seq<T>, workers: seq<W>, owes: W -> seq<T>, rest: seq<T>, all: seq<T>, x: T) {
    Count(list, x) + Owed(workers, owes, x) + Count(rest, x) == Count(all, x)
  }

  ghost predicate AllBalanced<W, T(!new)>(list: seq<T>, workers: seq<W>, owes: W -> seq<T>, rest: seq<T>, all: seq<T>) {
    forall x :: Balanced(list, workers, owes, rest, all, x)
  }

  lemma {:induction false} OwedChange<W, T>(workers: seq<W>, w: nat, v: W, owes: W -> seq<T>, x: T)
    requires w < |workers|
    ensures Owed(workers[w := v], owes, x) + Count(owes(workers[w]), x) == Owed(workers, owes, x) + Count(owes(v), x)
  {
    hide Count;
    if w == 0 {
      assert workers[0 := v][1..] == workers[1..];
    } else {
      assert workers[w := v][1..] == workers[1..][w - 1 := v];
      OwedChange(workers[1..], w - 1, v, owes, x);
    }
  }

  lemma {:induction false} NothingOwed<W, T>(workers: seq<W>, owes: W -> seq<T>, x: T)
    requires forall w :: 0 <= w < |workers| ==> owes(workers[w]) == []
    ensures Owed(workers, owes, x) == 0
  {
    if workers != [] {
      NothingOwed(workers[1..], owes, x);
    }
  }

  /** Worker `w` becomes `v`, and what it owes less is appended to the list. */
  lemma ListRecorded<W, T(!new)>(workers: seq<W>, w: nat, v: W, owes: W -> seq<T>,
                                           list: seq<T>, added: seq<T>, rest: seq<T>, all: seq<T>)
    requires w < |workers| && owes(workers[w]) == added + owes(v) && AllBalanced(list, workers, owes, rest, all)
    ensures AllBalanced(list + added, workers[w := v], owes, rest, all)
  {
    hide Owed, Count;
    var list', workers' := list + added, workers[w := v];
    forall x ensures Balanced(list', workers', owes, rest, all, x) {
      assert Balanced(list, workers, owes, rest, all, x);
      OwedChange(workers, w, v, owes, x);
      CountConcat(list, added, x);
      CountConcat(added, owes(v), x);
    }
  }

  /** Worker `w` becomes `v`, and what it owes more is no longer to be sent. */
  lemma ListSent<W, T(!new)>(workers: seq<W>, w: nat, v: W, owes: W -> seq<T>,
                                       list: seq<T>, rest: seq<T>, all: seq<T>)
    requires w < |workers| && owes(workers[w]) == [] && AllBalanced(list, workers, owes, owes(v) + rest, all)
    ensures AllBalanced(list, workers[w := v], owes, rest, all)
  {
    hide Owed;
    var workers' := workers[w := v];
    forall x ensures Balanced(list, workers', owes, rest, all, x) {
      assert Balanced(list, workers, owes, owes(v) + rest, all, x);
      OwedChange(workers, w, v, owes, x);
      CountConcat(owes(v), rest, x);
    }
  }

  lemma NothingYet<W, T(!new)>(workers: seq<W>, owes: W -> seq<T>, all: seq<T>)
    requires forall w :: 0 <= w < |workers| ==> owes(workers[w]) == []
    ensures AllBalanced([], workers, owes, all, all)
  {
    forall x ensures Balanced([], workers, owes, all, all, x) {
      NothingOwed(workers, owes, x);
    }
  }

  lemma SettledIsAll<W, T(!new)>(list: seq<T>, workers: seq<W>, owes: W -> seq<T>, all: seq<T>)
    requires forall w :: 0 <= w < |workers| ==> owes(workers[w]) == []
    requires AllBalanced(list, workers, owes, [], all)
    ensures multiset(list) == multiset(all)
  {
    forall x ensures multiset(list)[x] == multiset(all)[x] {
      NothingOwed(workers, owes, x);
      assert Balanced(list, workers, owes, [], all, x);
    }
  }

  function AllOwed<W, T>(workers: seq<W>, owes: W -> seq<T>): seq<T> {
    if workers == [] then [] else owes(workers[0]) + AllOwed(workers[1..], owes)
  }

  lemma {:induction false} OwedIsCounted<W, T>(workers: seq<W>, owes: W -> seq<T>, x: T)
    ensures Count(AllOwed(workers, owes), x) == Owed(workers, owes, x)
  {
    if workers != [] {
      OwedIsCounted(workers[1..], owes, x);
      CountConcat(owes(workers[0]), AllOwed(workers[1..], owes), x);
    }
  }

  /** The law on lengths. */
  lemma {:induction false} BalancedLengths<W, T(!new)>(list: seq<T>, workers: seq<W>, owes: W -> seq<T>, rest: seq<T>,
      all: seq<T>)
    requires AllBalanced(list, workers, owes, rest, all)
    ensures |list| + |AllOwed(workers, owes)| + |rest| == |all|
  {
    var owed := AllOwed(workers, owes);
    var sum := list + owed + rest;
    forall x ensures multiset(sum)[x] == multiset(all)[x] {
      assert Balanced(list, workers, owes, rest, all, x);
      OwedIsCounted(workers, owes, x);
      CountConcat(list, owed, x);
      CountConcat(list + owed, rest, x);
    }
    assert multiset(sum) == multiset(all);
    assert |multiset(sum)| == |sum| && |multiset(all)| == |all|;
  }
}
