/** The merge of the results of several targets (internal/validator/matrix.go).
    Target ids are distinct: the only caller refuses a matrix in which they are not. */
module Matrix {
  import opened Prelude
  import opened Ordering

  datatype Diagnostic = Diagnostic(severity: string, code: string, file: string, line: nat, column: nat,
      message: string,
                                     evidence: string)

  datatype Fact = Fact(kind: string, name: string, present: bool, signature: string)

  datatype Target = Target(id: string, files: seq<string>, diagnostics: seq<Diagnostic>, facts: seq<Fact>)

  predicate UniqueIds(targets: seq<Target>) {
    forall i, j :: 0 <= i < j < |targets| ==> targets[i].id != targets[j].id
  }

  // ----- files -----

  predicate InEvery(targets: seq<Target>, path: string) {
    forall t :: t in targets ==> path in t.files
  }

  /** The list of a target holds, in order, its files that some target has not. */
  ghost predicate OwnFiles(targets: seq<Target>, t: Target, own: seq<string>) {
    StrictlySorted(own) && forall p :: p in own <==> p in t.files && !InEvery(targets, p)
  }

  ghost predicate FilesMerged(targets: seq<Target>, shared: seq<string>, only: map<string, seq<string>>) {
    && StrictlySorted(shared) && (forall p :: p in shared <==> targets != [] && InEvery(targets, p))
    && HasIds(targets, only)
    && forall t :: t in targets ==> OwnFiles(targets, t, only[t.id])
  }

  /** The id of every target, and no other, is a key. */
  ghost predicate HasIds<V>(targets: seq<Target>, only: map<string, V>) {
    forall id :: id in only <==> exists t :: t in targets && t.id == id
  }

  ghost predicate HasFiles(targets: seq<Target>, byTarget: map<string, set<string>>) {
    forall t :: t in targets ==> t.id in byTarget && forall p :: p in byTarget[t.id] <==> p in t.files
  }

  ghost predicate ArePaths(targets: seq<Target>, all: set<string>) {
    forall p :: p in all <==> exists t :: t in targets && p in t.files
  }

  /** The state of the merge when the paths `done` have been gone through. */
  ghost predicate FilesSoFar(targets: seq<Target>, done: seq<string>, shared: seq<string>,
        only: map<string, seq<string>>) {
    && (forall p :: p in shared <==> p in done && InEvery(targets, p))
    && HasIds(targets, only) && StrictlySorted(shared)
    && forall t :: t in targets ==> StrictlySorted(only[t.id]) && forall p :: p in only[t.id] <==>
          p in done && p in t.files && !InEvery(targets, p)
  }

  /** The files of each target as a set, and all their paths. */
  method CollectFiles(targets: seq<Target>)
      returns (byTarget: map<string, set<string>>, all: set<string>, only: map<string, seq<string>>)
    requires UniqueIds(targets)
    ensures HasFiles(targets, byTarget) && ArePaths(targets, all)
    ensures HasIds(targets, only) && forall id :: id in only ==> only[id] == []
  {
    byTarget, all, only := map[], {}, map[];
    var i := 0;
    while i < |targets|
      invariant 0 <= i <= |targets|
      invariant HasFiles(targets[..i], byTarget) && ArePaths(targets[..i], all)
      invariant HasIds(targets[..i], only) && forall id :: id in only ==> only[id] == []
    {
      var target := targets[i];
      var files := CollectPaths(target);
      assert targets[..i + 1] == targets[..i] + [target];
      OneMoreCollected(targets, i, byTarget, all, only, files);
      byTarget, all, only := byTarget[target.id := files], all + files, only[target.id := []];
      i := i + 1;
    }
    assert targets[..i] == targets;
  }

  lemma OneMoreCollected(targets: seq<Target>, i: nat, byTarget: map<string, set<string>>, all: set<string>,
        only: map<string, seq<string>>, files: set<string>)
    requires UniqueIds(targets) && i < |targets| && HasFiles(targets[..i], byTarget) && ArePaths(targets[..i], all)
    requires HasIds(targets[..i], only) && forall p :: p in files <==> p in targets[i].files
    ensures HasFiles(targets[..i] + [targets[i]], byTarget[targets[i].id := files])
    ensures ArePaths(targets[..i] + [targets[i]], all + files)
    ensures HasIds(targets[..i] + [targets[i]], only[targets[i].id := []])
  {
    var target := targets[i];
    forall t | t in targets[..i] ensures t.id != target.id {
      var j :| 0 <= j < i && targets[j] == t;
    }
    forall p | p in all + files ensures exists t :: t in targets[..i] + [target] && p in t.files {
      if p in all {
        var t :| t in targets[..i] && p in t.files;
        assert t in targets[..i] + [target];
      } else {
        assert target in targets[..i] + [target];
      }
    }
    var only' := only[target.id := []];
    forall id | id in only' ensures exists t :: t in targets[..i] + [target] && t.id == id {
      if id in only {
        var t :| t in targets[..i] && t.id == id;
        assert t in targets[..i] + [target];
      } else {
        assert target in targets[..i] + [target];
      }
    }
  }

  method CollectPaths(t: Target) returns (files: set<string>)
    ensures forall p :: p in files <==> p in t.files
  {
    files := {};
    var i := 0;
    while i < |t.files|
      invariant 0 <= i <= |t.files|
      invariant forall p :: p in files <==> p in t.files[..i]
    {
      files := files + {t.files[i]};
      i := i + 1;
    }
    assert t.files[..i] == t.files;
  }

  method IsInAll(targets: seq<Target>, byTarget: map<string, set<string>>, path: string) returns (inAll: bool)
    requires HasFiles(targets, byTarget)
    ensures inAll <==> InEvery(targets, path)
  {
    inAll := true;
    var i := 0;
    while i < |targets|
      invariant 0 <= i <= |targets| && inAll
      invariant forall t :: t in targets[..i] ==> path in t.files
    {
      if path !in byTarget[targets[i].id] {
        assert targets[i] in targets && path !in targets[i].files;
        return false;
      }
      i := i + 1;
    }
    assert targets[..i] == targets;
  }

  ghost predicate Appended(targets: seq<Target>, path: string, only: map<string, seq<string>>,
        r: map<string, seq<string>>) {
    && HasIds(targets, only) && HasIds(targets, r)
    && forall t :: t in targets ==> r[t.id] == if path in t.files then only[t.id] + [path] else only[t.id]
  }

  /** Appends a path to the list of every target that has it. */
  method AppendToOwners(targets: seq<Target>, byTarget: map<string, set<string>>, only: map<string, seq<string>>,
        path: string)
      returns (r: map<string, seq<string>>)
    requires UniqueIds(targets)
    requires HasFiles(targets, byTarget)
    requires HasIds(targets, only)
    ensures Appended(targets, path, only, r)
  {
    r := only;
    var i := 0;
    while i < |targets|
      invariant 0 <= i <= |targets|
      invariant forall id :: id in r <==> id in only
      invariant forall j :: 0 <= j < i ==>
            r[targets[j].id] == if path in targets[j].files then only[targets[j].id] + [path] else only[targets[j].id]
      invariant forall j :: i <= j < |targets| ==> r[targets[j].id] == only[targets[j].id]
    {
      var t := targets[i];
      if path in byTarget[t.id] {
        r := r[t.id := r[t.id] + [path]];
      }
      i := i + 1;
    }
  }

  method MergeFiles(targets: seq<Target>) returns (shared: seq<string>, only: map<string, seq<string>>)
    requires UniqueIds(targets)
    ensures FilesMerged(targets, shared, only)
  {
    shared, only := [], map[];
    if targets == [] {
      assert HasIds(targets, only);
      return;
    }
    var byTarget, all;
    byTarget, all, only := CollectFiles(targets);
    var keys := SortedKeys(all);
    var i := 0;
    hide InEvery, StrictlySorted, FilesSoFar, FilesMerged, HasIds, HasFiles, ArePaths, Appended;
    NothingSoFar(targets, only);
    while i < |keys|
      invariant 0 <= i <= |keys|
      invariant FilesSoFar(targets, keys[..i], shared, only)
    {
      var inAll := IsInAll(targets, byTarget, keys[i]);
      if inAll {
        SharedOneMore(targets, keys, i, shared, only);
        shared := shared + [keys[i]];
      } else {
        var r := AppendToOwners(targets, byTarget, only, keys[i]);
        OwnOneMore(targets, keys, i, shared, only, r);
        only := r;
      }
      i := i + 1;
    }
    assert keys[..i] == keys;
    AllGoneThrough(targets, all, keys, shared, only);
  }

  lemma NothingSoFar(targets: seq<Target>, only: map<string, seq<string>>)
    requires HasIds(targets, only) && forall id :: id in only ==> only[id] == []
    ensures FilesSoFar(targets, [], [], only)
  {
  }

  lemma AppendKeepsOrder(keys: seq<string>, i: nat, own: seq<string>)
    requires StrictlySorted(keys) && i < |keys| && StrictlySorted(own) && forall p :: p in own ==> p in keys[..i]
    ensures StrictlySorted(own + [keys[i]])
  {
    forall k | 0 <= k < |own| ensures Before(own[k], keys[i]) {
      assert own[k] in keys[..i];
    }
  }

  lemma SharedOneMore(targets: seq<Target>, keys: seq<string>, i: nat, shared: seq<string>,
        only: map<string, seq<string>>)
    requires StrictlySorted(keys) && i < |keys| && InEvery(targets, keys[i])
        && FilesSoFar(targets, keys[..i], shared, only)
    ensures FilesSoFar(targets, keys[..i + 1], shared + [keys[i]], only)
  {
    hide InEvery;
    AppendKeepsOrder(keys, i, shared);
    hide StrictlySorted;
    assert keys[..i + 1] == keys[..i] + [keys[i]];
  }

  lemma OwnOneMore(targets: seq<Target>, keys: seq<string>, i: nat, shared: seq<string>, only: map<string, seq<string>>,
        r: map<string, seq<string>>)
    requires StrictlySorted(keys) && i < |keys| && !InEvery(targets, keys[i])
        && FilesSoFar(targets, keys[..i], shared, only)
    requires Appended(targets, keys[i], only, r)
    ensures FilesSoFar(targets, keys[..i + 1], shared, r)
  {
    hide InEvery;
    assert keys[..i + 1] == keys[..i] + [keys[i]];
    forall t | t in targets
      ensures StrictlySorted(r[t.id]) && forall p :: p in r[t.id] <==>
            p in keys[..i + 1] && p in t.files && !InEvery(targets, p)
    {
      if keys[i] in t.files {
        AppendKeepsOrder(keys, i, only[t.id]);
      }
    }
  }

  lemma AllGoneThrough(targets: seq<Target>, all: set<string>, keys: seq<string>, shared: seq<string>,
        only: map<string, seq<string>>)
    requires targets != [] && FilesSoFar(targets, keys, shared, only)
    requires ArePaths(targets, all) && forall p :: p in keys <==> p in all
    ensures FilesMerged(targets, shared, only)
  {
    hide StrictlySorted;
    assert targets[0] in targets;
  }

  // ----- what the merge of files means -----

  /** The files of a target are the shared ones and its own, and none is both. */
  lemma FilesArePartitioned(targets: seq<Target>, shared: seq<string>, only: map<string, seq<string>>, t: Target)
    requires FilesMerged(targets, shared, only) && t in targets
    ensures forall p :: p in t.files <==> p in shared || p in only[t.id]
    ensures forall p :: !(p in shared && p in only[t.id])
  {
    hide StrictlySorted;
    assert OwnFiles(targets, t, only[t.id]);
  }

  /** The merge of files does not depend on the order of the targets. */
  lemma FilesIgnoreOrder(targets: seq<Target>, targets': seq<Target>, shared: seq<string>, shared': seq<string>,
        only: map<string, seq<string>>, only': map<string, seq<string>>)
    requires multiset(targets) == multiset(targets')
    requires FilesMerged(targets, shared, only) && FilesMerged(targets', shared', only')
    ensures shared == shared' && only == only'
  {
    SameMembers(targets, targets');
    assert forall p :: InEvery(targets, p) <==> InEvery(targets', p);
    assert targets == [] <==> targets' == [] by {
      assert |targets| == |multiset(targets)| && |targets'| == |multiset(targets')|;
    }
    hide StrictlySorted, InEvery;
    StrictOrderIsUnique(shared, shared');
    forall id | id in only ensures id in only' && only[id] == only'[id] {
      var t :| t in targets && t.id == id;
      assert t in targets' && OwnFiles(targets, t, only[t.id]) && OwnFiles(targets', t, only'[t.id]);
      StrictOrderIsUnique(only[id], only'[id]);
    }
    forall id | id in only' ensures id in only {
      var t :| t in targets' && t.id == id;
    }
  }
}
