/** The objects of internal/store/branch.go: the content database shared by the
    branches of a source, and the store of one branch.  Their transactions are
    proved to compute the table functions of `ContentSpec`. */
module ContentStore {
  import opened Prelude
  import opened Text
  import opened ContentSpec

  class SharedContent {
    var contents: seq<ContentRow>
    var aliases: map<Alias, nat>
    var strings: seq<string>
    var facts: seq<Row>

    constructor ()
      ensures State() == EMPTY_CONTENT
    {
      contents, aliases, strings, facts := [], map[], [], [];
    }

    ghost function State(): Content
      reads this
    {
      Content(contents, aliases, strings, facts)
    }

    /** The dictionary as it is loaded at the start of a merge. */
    method LoadStrings() returns (ids: map<string, nat>)
      ensures forall v :: v in ids <==> v in strings
      ensures forall v :: v in ids ==> ids[v] == FindString(strings, v)
    {
      ids := map[];
      var i := 0;
      while i < |strings|
        invariant 0 <= i <= |strings|
        invariant forall v :: v in ids <==> v in strings[..i]
        invariant forall v :: v in ids ==> ids[v] == FindString(strings[..i], v)
      {
        assert strings[..i + 1][..i] == strings[..i];
        ids := ids[strings[i] := i + 1];
        i := i + 1;
      }
      assert strings[..i] == strings;
    }

    /** The id of a string, which is inserted if it is new. */
    method StringId(value: string, ids: map<string, nat>) returns (id: nat, ids': map<string, nat>)
      requires forall v :: v in ids <==> v in strings
      requires forall v :: v in ids ==> ids[v] == FindString(strings, v)
      modifies this`strings
      ensures strings == AddString(old(strings), value) && id == FindString(strings, value) > 0
      ensures forall v :: v in ids' <==> v in strings
      ensures forall v :: v in ids' ==> ids'[v] == FindString(strings, v)
      ensures forall v :: v in old(strings) ==> FindString(strings, v) == FindString(old(strings), v)
    {
      if value in ids {
        FoundIfPresent(strings, value);
        return ids[value], ids;
      }
      FoundIfPresent(strings, value);
      ghost var before := strings;
      strings := strings + [value];
      id := |strings|;
      ids' := ids[value := id];
      assert strings[..|before|] == before;
    }

    method InsertRows(m: Merge, batch: seq<Fact>, ids: map<string, nat>) returns (ids': map<string, nat>)
      requires forall v :: v in ids <==> v in strings
      requires forall v :: v in ids ==> ids[v] == FindString(strings, v)
      modifies this`strings, this`facts
      ensures forall v :: v in ids' <==> v in strings
      ensures forall v :: v in ids' ==> ids'[v] == FindString(strings, v)
      ensures Tables(strings, facts) == InsertFacts(m, Tables(old(strings), old(facts)), batch, |batch|)
    {
      hide FindString, Stored, Encode, AddStrings;
      ids' := ids;
      var i := 0;
      while i < |batch|
        invariant 0 <= i <= |batch|
        invariant forall v :: v in ids' <==> v in strings
        invariant forall v :: v in ids' ==> ids'[v] == FindString(strings, v)
        invariant Tables(strings, facts) == InsertFacts(m, Tables(old(strings), old(facts)), batch, i)
      {
        var f := batch[i];
        if Carries(m, f.path) {
          var body := Stored(f.item.body);
          var row;
          row, ids' := EncodeRow(body, ids');
          facts := facts + [Row(m.pathContent[f.path], f.item.requiredRole, row)];
        }
        i := i + 1;
      }
    }

    /** One row's string columns, each looked up or inserted in turn. */
    method EncodeRow(body: Body<string>, ids: map<string, nat>) returns (row: Body<nat>, ids': map<string, nat>)
      requires forall v :: v in ids <==> v in strings
      requires forall v :: v in ids ==> ids[v] == FindString(strings, v)
      modifies this`strings
      ensures forall v :: v in ids' <==> v in strings
      ensures forall v :: v in ids' ==> ids'[v] == FindString(strings, v)
      ensures strings == AddStrings(old(strings), StringsOf(body)) && row == Encode(strings, body)
    {
      hide FindString;
      var a, b, c;
      ghost var s0 := strings;
      match body {
        case Symbol(name, qualified, signature, kind, line, endLine) =>
          a, ids' := StringId(name, ids);
          ghost var s1 := strings;
          b, ids' := StringId(qualified, ids');
          ghost var s2 := strings;
          c, ids' := StringId(signature, ids');
          ThreeStrings(s0, name, qualified, signature);
          row := Symbol(a, b, c, kind, line, endLine);
        case Edge(source, target, kind, confidence, line) =>
          a, ids' := StringId(source, ids);
          b, ids' := StringId(target, ids');
          TwoStrings(s0, source, target);
          row := Edge(a, b, kind, confidence, line);
        case Xml(name, kind, attributes, line) =>
          a, ids' := StringId(name, ids);
          b, ids' := StringId(kind, ids');
          c, ids' := StringId(attributes, ids');
          ThreeStrings(s0, name, kind, attributes);
          row := Xml(a, b, c, line);
        case Toc(key, value, line) =>
          ids' := ids;
          row := Toc(key, value, line);
        case Doc(name, kind, text, line) =>
          a, ids' := StringId(name, ids);
          assert [name][1..] == [];
          row := Doc(a, kind, text, line);
        case AssetRef(kind, value, normalized, line) =>
          ids' := ids;
          row := AssetRef(kind, value, normalized, line);
      }
    }

    /** The loop over the files of a merge. */
    method MergeFileRows(files: seq<FileFact>) returns (m: Merge)
      ensures m == MergeFiles(State(), files, |files|)
    {
      hide MergeFile;
      m := Merge(contents, aliases, map[], {}, map[]);
      var i := 0;
      while i < |files|
        invariant 0 <= i <= |files|
        invariant m == MergeFiles(State(), files, i)
      {
        m := MergeFileRow(m, files[i]);
        i := i + 1;
      }
    }

    method MergeFileRow(before: Merge, f: FileFact) returns (m: Merge)
      ensures m == MergeFile(before, f)
    {
      m := before;
      var inserted := false;
      if FindContent(m.contents, f.contentHash, f.language) == 0 {
        m := m.(contents := m.contents + [ContentRow(f.contentHash, f.language, f.astHash, f.size)]);
        inserted := true;
      }
      var id := FindContent(m.contents, f.contentHash, f.language);
      if inserted {
        m := m.(created := m.created + {id}, factPath := m.factPath[id := f.path]);
      }
      m := m.(pathContent := m.pathContent[f.path := id]);
      if f.gitOid != "" && Alias(f.gitOid, f.language) !in m.aliases {
        m := m.(aliases := m.aliases[Alias(f.gitOid, f.language) := id]);
      }
    }

    /** The merge transaction. */
    method MergeBatch(batch: Batch) returns (ids: map<string, nat>)
      modifies this
      ensures (State(), ids) == PublishContent(old(State()), batch)
    {
      hide FindString, MergeFiles, InsertFacts;
      var strings' := LoadStrings();
      var m := MergeFileRows(batch.files);
      ghost var t := Tables(strings, facts);
      strings' := InsertRows(m, batch.symbols, strings');
      strings' := InsertRows(m, batch.edges, strings');
      strings' := InsertRows(m, batch.xml, strings');
      strings' := InsertRows(m, batch.toc, strings');
      strings' := InsertRows(m, batch.search, strings');
      strings' := InsertRows(m, batch.assetRefs, strings');
      InsertTables(m, t, batch);
      contents, aliases := m.contents, m.aliases;
      ids := m.pathContent;
    }
  }

  class BranchStore {
    const content: SharedContent
    var ready: set<string>
    var files: map<Placed, Member>
    var contents: set<nat>
    var fullText: map<nat, string>
    var active: string

    constructor (content: SharedContent)
      ensures this.content == content && State() == EMPTY_BRANCH
    {
      this.content := content;
      ready, files, contents, fullText, active := {}, map[], {}, map[], "";
    }

    ghost function State(): Branch
      reads this
    {
      Branch(ready, files, contents, fullText, active)
    }

    method PlaceSnapshot(snapshot: string, batch: seq<FileFact>, ids: map<string, nat>)
        returns (r: Result<map<Placed, Member>, PublishError>)
      ensures r == PlaceFiles(files, snapshot, batch, ids, |batch|)
    {
      var placed := map p | p in files && p.snapshot != snapshot :: files[p];
      var i := 0;
      while i < |batch|
        invariant 0 <= i <= |batch|
        invariant PlaceFiles(files, snapshot, batch, ids, i) == Ok(placed)
      {
        var f := batch[i];
        var id := if f.path in ids then ids[f.path] else 0;
        if id == 0 || Placed(snapshot, f.path) in placed {
          PlacingFails(files, snapshot, batch, ids, i + 1, |batch|);
          return Err(if id == 0 then MissingMapping(f.path) else DuplicatePath(f.path));
        }
        placed := placed[Placed(snapshot, f.path) := Member(id, f.role)];
        i := i + 1;
      }
      r := Ok(placed);
    }

    /** The search documents of one content, row by row; a text that was dropped is
        read from the object store. */
    method AddContent(c: Content, id: nat, objects: map<string, string>, before: map<nat, string>)
        returns (r: Result<map<nat, string>, PublishError>)
      ensures r.Ok? <==> !ObjectsMissing(c, {id}, objects) && !Clashes(c, {id}, before)
      ensures r.Ok? ==> r.value == before + DocTexts(c, objects, {id})
      ensures r.Err? ==> CanFail(c, {id}, objects, before, r.error)
    {
      hide DocsOf, DocTexts, DocsBefore, DocTextAt, DocText, HashOf, ObjectsMissing, Clashes;
      var text := before;
      var i := 0;
      NoneBefore(c, objects, id);
      while i < |c.facts|
        invariant 0 <= i <= |c.facts|
        invariant NoneMissing(c, id, objects, i) && DocsBefore(c, id, i) !! before.Keys
        invariant text == before + TextsBefore(c, objects, id, i)
      {
        var row := c.facts[i];
        DocsOneMore(c, id, i);
        TextsOneMore(c, objects, id, i, before);
        if row.content == id && row.body.Doc? {
          if NeedsObject(row) && HashOf(c, id) !in objects {
            RowFails(c, id, objects, before, i);
            return Err(MissingObject);
          }
          if i + 1 in text {
            RowFails(c, id, objects, before, i);
            return Err(DuplicateDocument);
          }
          text := text[i + 1 := DocText(c, objects, row)];
        }
        assert NoneMissing(c, id, objects, i + 1) by { NoneMissingStep(c, id, objects, i); }
        i := i + 1;
      }
      AllDocsBefore(c, objects, id, before);
      r := Ok(text);
    }

    /** The search documents of the added contents, content by content in no
        particular order. */
    method AddDocuments(c: Content, added: set<nat>, objects: map<string, string>)
        returns (r: Result<map<nat, string>, PublishError>)
      ensures r.Ok? <==> !ObjectsMissing(c, added, objects) && !Clashes(c, added, fullText)
      ensures r.Ok? ==> r.value == fullText + DocTexts(c, objects, added)
      ensures r.Err? ==> CanFail(c, added, objects, fullText, r.error)
    {
      hide ObjectsMissing, DocTexts, DocsOf, Clashes;
      NoDocs(c, objects, fullText);
      var remaining := added;
      ghost var done: set<nat> := {};
      var text := fullText;
      while remaining != {}
        invariant done + remaining == added && done !! remaining
        invariant !Clashes(c, done, fullText) && !ObjectsMissing(c, done, objects)
        invariant text == fullText + DocTexts(c, objects, done)
        decreases remaining
      {
        var id :| id in remaining;
        TextsOfOneMore(c, objects, done, id);
        MapsAdd(fullText, DocTexts(c, objects, done), DocTexts(c, objects, {id}));
        ClashesOneMore(c, done, id, fullText);
        MissingOneMore(c, done, id, objects);
        ClashesWithAdded(c, objects, done, id, fullText);
        var next := AddContent(c, id, objects, text);
        if next.Err? {
          FailureGrows(c, id, added, objects, fullText);
          return Err(next.error);
        }
        text := next.value;
        MoveOne(added, done, remaining, id);
        remaining := remaining - {id};
        done := done + {id};
      }
      assert done == added;
      r := Ok(text);
    }

    /** Both transactions of a publish.  If the branch transaction fails it is rolled
        back; what was merged into the shared tables stays. */
    method PublishSnapshot(snapshot: string, batch: Batch, objects: map<string, string>)
        returns (r: Result<(), PublishError>)
      modifies this, content
      ensures var (c, ids) := PublishContent(old(content.State()), batch);
              var b := PublishBranch(old(State()), c, snapshot, batch.files, ids, objects);
              && content.State() == c
              && State() == (if b.Ok? then b.value else old(State()))
              && (r.Ok? <==> b.Ok?)
              && (b.Err? ==> r == Err(b.error)
                             || (b.error.MissingObject? && r == Err(DuplicateDocument)
                                 && Clashes(c, ids.Values - old(contents) - {0}, old(fullText))))
    {
      hide PublishContent, PlaceFiles, ObjectsMissing, Clashes, DocTexts;
      var ids := content.MergeBatch(batch);
      var placed := PlaceSnapshot(snapshot, batch.files, ids);
      if placed.Err? {
        return Err(placed.error);
      }
      var view := Content(content.contents, content.aliases, content.strings, content.facts);
      var added := ids.Values - contents - {0};
      var text := AddDocuments(view, added, objects);
      if text.Err? {
        return Err(text.error);
      }
      files := placed.value;
      contents := contents + added;
      fullText := text.value;
      ready := ready + {snapshot};
      active := snapshot;
      r := Ok(());
    }
  }

  /** Which error the loop over some contents can meet. */
  predicate CanFail(c: Content, ids: set<nat>, objects: map<string, string>, text: map<nat, string>, e: PublishError) {
    || (e == MissingObject && ObjectsMissing(c, ids, objects))
    || (e == DuplicateDocument && Clashes(c, ids, text))
  }

  predicate NoneMissing(c: Content, id: nat, objects: map<string, string>, n: nat)
    requires n <= |c.facts|
  {
    forall i :: 0 <= i < n && c.facts[i].content == id && NeedsObject(c.facts[i]) ==> HashOf(c, id) in objects
  }

  function DocsBefore(c: Content, id: nat, n: nat): set<nat>
    requires n <= |c.facts|
  {
    set i | 0 <= i < n && c.facts[i].body.Doc? && c.facts[i].content == id :: i + 1
  }

  function TextsBefore(c: Content, objects: map<string, string>, id: nat, n: nat): map<nat, string>
    requires n <= |c.facts|
  {
    map d | d in DocsBefore(c, id, n) :: DocTextAt(c, objects, d)
  }

  lemma DocsOneMore(c: Content, id: nat, n: nat)
    requires n < |c.facts|
    ensures DocsBefore(c, id, n + 1)
         == DocsBefore(c, id, n) + if c.facts[n].body.Doc? && c.facts[n].content == id then {n + 1} else {}
    ensures n + 1 !in DocsBefore(c, id, n)
  {
  }

  lemma AllDocsBefore(c: Content, objects: map<string, string>, id: nat, before: map<nat, string>)
    ensures DocsBefore(c, id, |c.facts|) == DocsOf(c, {id})
    ensures TextsBefore(c, objects, id, |c.facts|) == DocTexts(c, objects, {id})
    ensures Clashes(c, {id}, before) <==> !(DocsBefore(c, id, |c.facts|) !! before.Keys)
    ensures ObjectsMissing(c, {id}, objects) <==> !NoneMissing(c, id, objects, |c.facts|)
  {
    assert DocsBefore(c, id, |c.facts|) == DocsOf(c, {id});
    if !NoneMissing(c, id, objects, |c.facts|) {
      var i :| 0 <= i < |c.facts| && c.facts[i].content == id && NeedsObject(c.facts[i]) && HashOf(c, id) !in objects;
      assert c.facts[i].content in {id};
    }
  }

  lemma NoneBefore(c: Content, objects: map<string, string>, id: nat)
    ensures NoneMissing(c, id, objects, 0) && DocsBefore(c, id, 0) == {} && TextsBefore(c, objects, id, 0) == map[]
  {
  }

  lemma TextsOneMore(c: Content, objects: map<string, string>, id: nat, n: nat, before: map<nat, string>)
    requires n < |c.facts|
    ensures var texts, texts' := TextsBefore(c, objects, id, n), TextsBefore(c, objects, id, n + 1);
            if c.facts[n].body.Doc? && c.facts[n].content == id
            then before + texts' == (before + texts)[n + 1 := DocText(c, objects, c.facts[n])]
                 && (n + 1 in before + texts <==> n + 1 in before)
            else texts' == texts
  {
    DocsOneMore(c, id, n);
    if c.facts[n].body.Doc? && c.facts[n].content == id {
      TextAdded(c, objects, id, n);
      MapsUpdate(before, TextsBefore(c, objects, id, n), n + 1, DocText(c, objects, c.facts[n]));
    }
  }

  lemma TextAdded(c: Content, objects: map<string, string>, id: nat, n: nat)
    requires n < |c.facts| && c.facts[n].body.Doc? && c.facts[n].content == id
    ensures n + 1 !in TextsBefore(c, objects, id, n)
    ensures TextsBefore(c, objects, id, n + 1)
        == TextsBefore(c, objects, id, n)[n + 1 := DocText(c, objects, c.facts[n])]
  {
    DocsOneMore(c, id, n);
    hide DocsBefore, DocText;
  }

  lemma MapsUpdate(a: map<nat, string>, b: map<nat, string>, d: nat, text: string)
    ensures a + b[d := text] == (a + b)[d := text]
  {
  }

  lemma NoneMissingStep(c: Content, id: nat, objects: map<string, string>, n: nat)
    requires n < |c.facts| && NoneMissing(c, id, objects, n)
    requires c.facts[n].content == id && NeedsObject(c.facts[n]) ==> HashOf(c, id) in objects
    ensures NoneMissing(c, id, objects, n + 1)
  {
  }

  lemma RowFails(c: Content, id: nat, objects: map<string, string>, before: map<nat, string>, i: nat)
    requires i < |c.facts| && c.facts[i].content == id && c.facts[i].body.Doc?
    ensures NeedsObject(c.facts[i]) && HashOf(c, id) !in objects ==> ObjectsMissing(c, {id}, objects)
    ensures i + 1 in before ==> Clashes(c, {id}, before)
  {
    assert c.facts[i].content in {id};
    assert i + 1 in DocsOf(c, {id});
  }

  lemma MissingOneMore(c: Content, ids: set<nat>, id: nat, objects: map<string, string>)
    ensures ObjectsMissing(c, ids + {id}, objects)
        <==> ObjectsMissing(c, ids, objects) || ObjectsMissing(c, {id}, objects)
  {
  }

  /** The documents of different contents do not get in each other's way. */
  lemma ClashesWithAdded(c: Content, objects: map<string, string>, done: set<nat>, id: nat, text: map<nat, string>)
    requires id !in done
    ensures Clashes(c, {id}, text + DocTexts(c, objects, done)) <==> Clashes(c, {id}, text)
  {
    assert DocsOf(c, {id}) !! DocsOf(c, done);
  }

  lemma FailureGrows(c: Content, id: nat, more: set<nat>, objects: map<string, string>, text: map<nat, string>)
    requires id in more
    ensures Clashes(c, {id}, text) ==> Clashes(c, more, text)
    ensures ObjectsMissing(c, {id}, objects) ==> ObjectsMissing(c, more, objects)
  {
    if Clashes(c, {id}, text) {
      ClashesGrow(c, {id}, more, text);
    }
  }

  lemma DocsOfOneMore(c: Content, ids: set<nat>, id: nat)
    ensures DocsOf(c, ids + {id}) == DocsOf(c, ids) + DocsOf(c, {id})
  {
  }

  lemma TextsOfOneMore(c: Content, objects: map<string, string>, ids: set<nat>, id: nat)
    ensures DocTexts(c, objects, ids + {id}) == DocTexts(c, objects, ids) + DocTexts(c, objects, {id})
  {
    DocsOfOneMore(c, ids, id);
  }

  lemma MapsAdd(a: map<nat, string>, b: map<nat, string>, c: map<nat, string>)
    ensures a + b + c == a + (b + c)
  {
  }

  lemma MoveOne(all: set<nat>, done: set<nat>, remaining: set<nat>, id: nat)
    requires done + remaining == all && id in remaining
    ensures done + {id} + (remaining - {id}) == all
  {
  }

  lemma NoDocs(c: Content, objects: map<string, string>, text: map<nat, string>)
    ensures DocTexts(c, objects, {}) == map[] && !Clashes(c, {}, text) && !ObjectsMissing(c, {}, objects)
  {
    assert DocsOf(c, {}) == {};
  }

  lemma ClashesOneMore(c: Content, ids: set<nat>, id: nat, text: map<nat, string>)
    ensures Clashes(c, ids + {id}, text) <==> Clashes(c, ids, text) || Clashes(c, {id}, text)
  {
    DocsOfOneMore(c, ids, id);
  }

  lemma ClashesGrow(c: Content, ids: set<nat>, more: set<nat>, text: map<nat, string>)
    requires ids <= more && Clashes(c, ids, text)
    ensures Clashes(c, more, text)
  {
    var d :| d in DocsOf(c, ids) && d in text;
    assert d in DocsOf(c, more);
  }

  lemma {:induction false} FoundIfPresent(strings: seq<string>, value: string)
    ensures FindString(strings, value) > 0 <==> value in strings
  {
  }

  lemma {:induction false} TwoStrings(s: seq<string>, a: string, b: string)
    ensures AddStrings(s, [a, b]) == AddString(AddString(s, a), b)
  {
    assert [a, b][1..] == [b] && [b][1..] == [];
    assert AddStrings(AddString(s, a), [b]) == AddString(AddString(s, a), b);
  }

  lemma {:induction false} ThreeStrings(s: seq<string>, a: string, b: string, c: string)
    ensures AddStrings(s, [a, b, c]) == AddString(AddString(AddString(s, a), b), c)
  {
    assert [a, b, c][1..] == [b, c];
    TwoStrings(AddString(s, a), b, c);
  }

  lemma {:induction false} InsertSplit(m: Merge, t: Tables, a: seq<Fact>, b: seq<Fact>, n: nat)
    requires n <= |b|
    ensures InsertFacts(m, t, a + b, |a| + n) == InsertFacts(m, InsertFacts(m, t, a, |a|), b, n)
  {
    if n == 0 {
      InsertPrefix(m, t, a, b, |a|);
    } else {
      InsertSplit(m, t, a, b, n - 1);
    }
  }

  lemma {:induction false} InsertPrefix(m: Merge, t: Tables, a: seq<Fact>, b: seq<Fact>, n: nat)
    requires n <= |a|
    ensures InsertFacts(m, t, a + b, n) == InsertFacts(m, t, a, n)
  {
    if n > 0 {
      InsertPrefix(m, t, a, b, n - 1);
    }
  }

  function InsertAll(m: Merge, t: Tables, facts: seq<Fact>): Tables {
    InsertFacts(m, t, facts, |facts|)
  }

  /** Table after table is the same as all facts in one go. */
  lemma InsertTables(m: Merge, t: Tables, batch: Batch)
    ensures InsertAll(m, t, FactsOf(batch))
         == InsertAll(m,
             InsertAll(m, InsertAll(m, InsertAll(m, InsertAll(m, InsertAll(m, t, batch.symbols), batch.edges),
              batch.xml), batch.toc), batch.search), batch.assetRefs)
  {
    var s1 := batch.symbols + batch.edges;
    var s2 := s1 + batch.xml;
    var s3 := s2 + batch.toc;
    var s4 := s3 + batch.search;
    InsertSplit(m, t, batch.symbols, batch.edges, |batch.edges|);
    InsertSplit(m, t, s1, batch.xml, |batch.xml|);
    InsertSplit(m, t, s2, batch.toc, |batch.toc|);
    InsertSplit(m, t, s3, batch.search, |batch.search|);
    InsertSplit(m, t, s4, batch.assetRefs, |batch.assetRefs|);
  }

  lemma {:induction false} PlacingFails(files: map<Placed, Member>, snapshot: string, batch: seq<FileFact>,
        ids: map<string, nat>, n: nat, k: nat)
    requires n <= k <= |batch| && PlaceFiles(files, snapshot, batch, ids, n).Err?
    ensures PlaceFiles(files, snapshot, batch, ids, k) == PlaceFiles(files, snapshot, batch, ids, n)
  {
    if n < k {
      PlacingFails(files, snapshot, batch, ids, n, k - 1);
    }
  }
}
