/** Parsing printed documentation gives back what was printed. */
module GeneratedTheorems {
  import opened Prelude
  import opened GeneratedApi
  import opened GeneratedPrint
  import opened GeneratedText

  /** `part` stands in the printed lines from `at` on. */
  predicate PartAt(printed: seq<Line>, at: nat, part: seq<Line>) {
    at + |part| <= |printed| && printed[at..at + |part|] == part
  }

  lemma PartOfPart(printed: seq<Line>, at: nat, a: seq<Line>, b: seq<Line>)
    requires PartAt(printed, at, a + b)
    ensures PartAt(printed, at, a) && PartAt(printed, at + |a|, b)
  {
    var whole := printed[at..at + |a + b|];
    assert whole == a + b;
    assert printed[at..at + |a|] == whole[..|a|];
    assert printed[at + |a|..at + |a| + |b|] == whole[|a|..];
  }

  lemma LooksAt(lines: seq<Scanned>, printed: seq<Line>, at: nat, part: seq<Line>, i: nat)
    requires AllLook(lines, printed) && PartAt(printed, at, part) && i < |part|
    ensures at + i < |lines| && Looks(lines[at + i], part[i])
  {
    assert printed[at..at + |part|][i] == printed[at + i];
  }

  lemma SliceLooks(lines: seq<Scanned>, printed: seq<Line>, at: nat, part: seq<Line>)
    requires AllLook(lines, printed) && PartAt(printed, at, part)
    ensures at + |part| <= |lines| && AllLook(lines[at..at + |part|], part)
  {
    hide Looks;
    forall i | 0 <= i < |part| ensures Looks(lines[at..at + |part|][i], part[i]) {
      LooksAt(lines, printed, at, part, i);
    }
  }

  lemma LookParts(lines: seq<Scanned>, a: seq<Line>, b: seq<Line>)
    requires AllLook(lines, a + b)
    ensures |lines| == |a| + |b| && lines == lines[..|a|] + lines[|a|..]
    ensures AllLook(lines[..|a|], a) && AllLook(lines[|a|..], b)
  {
    hide Looks;
    forall i | 0 <= i < |b| ensures Looks(lines[|a|..][i], b[i]) {
      assert Looks(lines[|a| + i], (a + b)[|a| + i]);
    }
    forall i | 0 <= i < |a| ensures Looks(lines[..|a|][i], a[i]) {
      assert Looks(lines[i], (a + b)[i]);
    }
  }

  // ----- the end of a block -----

  lemma {:induction false} ThroughNested(lines: seq<Scanned>, printed: seq<Line>, at: nat, part: seq<Line>, k: nat,
        nameLine: nat)
    requires AllLook(lines, printed) && PartAt(printed, at, part) && Nested(part) && k <= |part| && nameLine <= |lines|
    ensures TableEnd(lines, at, 1, true, nameLine) == TableEnd(lines, at + k, 1 + Net(part[..k]), true, nameLine)
  {
    if k == 0 {
      assert part[..0] == [];
    } else {
      ThroughNested(lines, printed, at, part, k - 1, nameLine);
      LooksAt(lines, printed, at, part, k - 1);
      assert part[..k][..k - 1] == part[..k - 1];
      assert Net(part[..k]) == Net(part[..k - 1]) + Turn(part[k - 1]);
    }
  }

  /** A block ends at its closing line. */
  lemma {:induction false} BlockEnds(lines: seq<Scanned>, printed: seq<Line>, at: nat, o: Line, inner: seq<Line>,
        c: Line, nameLine: nat)
    requires AllLook(lines, printed) && PartAt(printed, at, [o] + inner + [c]) && Nested(inner) && nameLine <= |lines|
    requires Turn(o) == 1 && Turn(c) == -1
    ensures TableEnd(lines, at, 0, false, nameLine) == at + |inner| + 2
  {
    LooksAt(lines, printed, at, [o] + inner + [c], 0);
    LooksAt(lines, printed, at, [o] + inner + [c], |inner| + 1);
    PartOfPart(printed, at, [o] + inner, [c]);
    PartOfPart(printed, at, [o], inner);
    assert TableEnd(lines, at, 0, false, nameLine) == TableEnd(lines, at + 1, 1, true, nameLine);
    ThroughNested(lines, printed, at + 1, inner, |inner|, nameLine);
    assert inner[..|inner|] == inner;
  }

  /** The table around a name that stands in the second line of a block. */
  lemma BlockOfName(lines: seq<Scanned>, printed: seq<Line>, at: nat, o: Line, inner: seq<Line>, c: Line)
    requires AllLook(lines, printed) && PartAt(printed, at, [o] + inner + [c]) && Nested(inner)
    requires Turn(o) == 1 && Turn(c) == -1 && inner != [] && inner[0].NameLine?
    ensures at + 2 <= |lines| && FindTableEnd(lines, at + 2) == at + |inner| + 2
  {
    var all := [o] + inner + [c];
    assert all[1] == inner[0];
    LooksAt(lines, printed, at, all, 0);
    LooksAt(lines, printed, at, all, 1);
    assert TableStart(lines, at + 1) == at;
    BlockEnds(lines, printed, at, o, inner, c, at + 2);
  }

  // ----- the sections of a member -----

  lemma {:induction false} ReadConcat(r: Reading, a: seq<Scanned>, b: seq<Scanned>)
    ensures ReadLines(r, a + b) == ReadLines(ReadLines(r, a), b)
  {
    if b == [] {
      assert a + b == a;
    } else {
      assert (a + b)[..|a + b| - 1] == a + b[..|b| - 1];
      ReadConcat(r, a, b[..|b| - 1]);
    }
  }

  /** Lines that start no section. */
  predicate Mute(l: Line) {
    !l.SectionLine? && !l.NilLine?
  }

  lemma {:induction false} ReadMute(r: Reading, lines: seq<Scanned>, printed: seq<Line>)
    requires AllLook(lines, printed) && r.active.None? && forall i :: 0 <= i < |printed| ==> Mute(printed[i])
    ensures ReadLines(r, lines) == r
  {
    if lines != [] {
      var n := |lines| - 1;
      assert Looks(lines[n], printed[n]);
      ReadMute(r, lines[..n], printed[..n]);
    }
  }

  lemma {:induction false} ReadOne(r: Reading, line: seq<Scanned>)
    requires |line| == 1
    ensures ReadLines(r, line) == ReadLine(r, line[0])
  {
    assert line[..0] == [];
  }

  function AddParams(before: Sections, s: Section, fields: seq<Field>): Sections {
    if fields == [] then before else before[s := Params(before, s) + ParamsOf(fields)]
  }

  lemma ReadField(r: Reading, l: Scanned, before: Sections, fields: seq<Field>, f: Field)
    requires r.active.Some? && r.depth == 1 && r.sections == AddParams(before, r.active.value, fields)
    requires Looks(l, FieldLine(f))
    ensures ReadLine(r, l) == r.(sections := AddParams(before, r.active.value, fields + [f]))
  {
    var s := r.active.value;
    assert ParamsOf(fields + [f]) == ParamsOf(fields) + [f.param];
    ConcatAssociative(Params(before, s), ParamsOf(fields), [f.param]);
    if fields == [] {
      assert ParamsOf(fields) == [] && Params(before, s) + [] == Params(before, s);
    }
    assert Params(r.sections, s) + [f.param] == Params(before, s) + ParamsOf(fields + [f]);
    assert r.sections[s := Params(r.sections, s) + [f.param]] == AddParams(before, s, fields + [f]);
  }

  lemma {:induction false} ReadFields(r: Reading, lines: seq<Scanned>, fields: seq<Field>)
    requires r.active.Some? && r.depth == 1 && AllLook(lines, FieldLines(fields))
    ensures ReadLines(r, lines) == r.(sections := AddParams(r.sections, r.active.value, fields))
  {
    if fields != [] {
      var n := |fields| - 1;
      assert FieldLines(fields) == FieldLines(fields[..n]) + [FieldLine(fields[n])];
      LookParts(lines, FieldLines(fields[..n]), [FieldLine(fields[n])]);
      hide ReadLine, Looks, AddParams;
      ReadFields(r, lines[..n], fields[..n]);
      assert Looks(lines[n..][0], FieldLine(fields[n]));
      ReadField(ReadLines(r, lines[..n]), lines[n], r.sections, fields[..n], fields[n]);
      assert fields == fields[..n] + [fields[n]];
    }
  }

  lemma {:induction false} OpenIsRead(r: Reading, line: seq<Scanned>, s: Section)
    requires r.active.None? && AllLook(line, [SectionLine(s)])
    ensures ReadLines(r, line) == r.(active := Some(s), depth := 1)
  {
    assert Looks(line[0], SectionLine(s));
    ReadOne(r, line);
  }

  lemma {:induction false} CloseIsRead(r: Reading, line: seq<Scanned>)
    requires r.active.Some? && r.depth == 1 && AllLook(line, [CloseLine])
    ensures ReadLines(r, line) == r.(active := None, depth := 0)
  {
    assert Looks(line[0], CloseLine);
    ReadOne(r, line);
  }

  /** A reading between sections: the depth of the last one is not looked at. */
  predicate Read(r: Reading, sections: Sections) {
    r.active.None? && r.sections == sections
  }

  /** A section with its brace on its own line is read. */
  lemma {:induction false} ReadListed(r: Reading, lines: seq<Scanned>, s: Section, fields: seq<Field>)
    requires r.active.None? && AllLook(lines, [SectionLine(s)] + FieldLines(fields) + [CloseLine])
    ensures Read(ReadLines(r, lines), AddParams(r.sections, s, fields))
  {
    var o, inner := [SectionLine(s)], FieldLines(fields);
    hide FieldLines, Looks, AllLook, ReadLines, AddParams;
    LookParts(lines, o + inner, [CloseLine]);
    var open, close := lines[..|o + inner|], lines[|o + inner|..];
    LookParts(open, o, inner);
    ReadConcat(r, open, close);
    ReadConcat(r, open[..1], open[1..]);
    OpenIsRead(r, open[..1], s);
    ReadFields(ReadLines(r, open[..1]), open[1..], fields);
    CloseIsRead(ReadLines(r, open), close);
  }

  lemma {:induction false} NilIsRead(r: Reading, lines: seq<Scanned>, s: Section)
    requires r.active.None? && AllLook(lines, [NilLine(s)])
    ensures Read(ReadLines(r, lines), r.sections[s := []])
  {
    assert Looks(lines[0], NilLine(s));
    ReadOne(r, lines);
  }

  predicate AllMute(lines: seq<Line>) {
    forall i :: 0 <= i < |lines| ==> Mute(lines[i])
  }

  lemma {:induction false} SplitIsMute(section: Section, fields: seq<Field>)
    ensures AllMute(ItemLines(Listed(section, OnNextLine, fields))) && AllMute(ItemLines(Absent(section, OnNextLine)))
  {
  }

  /** The lines of an item, read between sections, declare what the item declares. */
  lemma {:induction false} ReadItem(r: Reading, lines: seq<Scanned>, item: Item)
    requires r.active.None? && AllLook(lines, ItemLines(item))
    ensures Read(ReadLines(r, lines), Declare(r.sections, item))
    decreases item
  {
    match item {
      case Listed(s, OnItsLine, fields) =>
        hide FieldLines, AllLook, ReadLines;
        ReadListed(r, lines, s, fields);
      case Absent(s, OnItsLine) =>
        hide AllLook, ReadLines;
        NilIsRead(r, lines, s);
      case Listed(s, OnNextLine, fields) =>
        SplitIsMute(s, fields);
        hide AllLook, ItemLines;
        ReadMute(r, lines, ItemLines(item));
      case Absent(s, OnNextLine) =>
        SplitIsMute(s, []);
        hide AllLook, ItemLines;
        ReadMute(r, lines, ItemLines(item));
      case Block(head, items) =>
        hide AllLook, ReadLines, ItemsLines, DeclareAll;
        ReadBetween(r, lines, [OpeningLine(head)], items);
      case Inner(m) =>
        hide AllLook, ReadLines, ItemsLines, DeclareAll;
        var top := [OpeningLine(""), NameLine(m.name), TypeLine(m.typeName)];
        assert MemberLines(m) == top + ItemsLines(m.items) + [CloseLine];
        ReadBetween(r, lines, top, m.items);
      case _ => ReadMute(r, lines, ItemLines(item));
    }
  }

  lemma {:induction false} ReadBetween(r: Reading, lines: seq<Scanned>, top: seq<Line>, items: seq<Item>)
    requires r.active.None? && AllLook(lines, top + ItemsLines(items) + [CloseLine]) && AllMute(top)
    ensures Read(ReadLines(r, lines), DeclareAll(r.sections, items))
    decreases items, 1
  {
    assert AllMute([CloseLine]);
    var a, b, c := top, ItemsLines(items), [CloseLine];
    hide AllLook, ReadLines, ItemsLines, DeclareAll;
    LookParts(lines, a + b, c);
    var ab := lines[..|a + b|];
    LookParts(ab, a, b);
    ReadConcat(r, ab, lines[|a + b|..]);
    ReadConcat(r, ab[..|a|], ab[|a|..]);
    ReadMute(r, ab[..|a|], a);
    ReadItems(r, ab[|a|..], items);
    ReadMute(ReadLines(r, ab), lines[|a + b|..], c);
  }

  lemma {:induction false} ReadItems(r: Reading, lines: seq<Scanned>, items: seq<Item>)
    requires r.active.None? && AllLook(lines, ItemsLines(items))
    ensures Read(ReadLines(r, lines), DeclareAll(r.sections, items))
    decreases items, 0
  {
    if items != [] {
      var init, last := items[..|items| - 1], items[|items| - 1];
      hide AllLook, ReadLines, ItemLines, Declare;
      LookParts(lines, ItemsLines(init), ItemLines(last));
      var n := |ItemsLines(init)|;
      ReadConcat(r, lines[..n], lines[n..]);
      ReadItems(r, lines[..n], init);
      ReadItem(ReadLines(r, lines[..n]), lines[n..], last);
    }
  }

  // ----- the literal name of a member -----

  lemma {:induction false} LiteralOfParts(a: seq<Scanned>, b: seq<Scanned>)
    ensures LiteralIn(a + b) == if LiteralIn(a).Some? then LiteralIn(a) else LiteralIn(b)
  {
    if a == [] {
      assert a + b == b;
    } else {
      assert (a + b)[1..] == a[1..] + b;
      LiteralOfParts(a[1..], b);
    }
  }

  predicate NoLiteral(lines: seq<Line>) {
    forall i :: 0 <= i < |lines| ==> !lines[i].LiteralLine?
  }

  lemma {:induction false} NoLiterals(lines: seq<Scanned>, printed: seq<Line>)
    requires AllLook(lines, printed) && NoLiteral(printed)
    ensures LiteralIn(lines) == None
  {
    if lines != [] {
      assert Looks(lines[0], printed[0]);
      forall i | 0 <= i < |lines| - 1 ensures Looks(lines[1..][i], printed[1..][i]) {
        assert Looks(lines[i + 1], printed[i + 1]);
      }
      NoLiterals(lines[1..], printed[1..]);
    }
  }

  lemma {:induction false} LiteralOfItem(lines: seq<Scanned>, item: Item)
    requires AllLook(lines, ItemLines(item))
    ensures LiteralIn(lines) == LiteralOf(item)
    decreases item
  {
    match item {
      case Literal(value) => assert Looks(lines[0], LiteralLine(value));
      case Block(head, items) =>
        hide AllLook, LiteralIn, ItemsLines, LiteralOfAll;
        LiteralBetween(lines, [OpeningLine(head)], items);
      case Inner(m) =>
        hide AllLook, LiteralIn, ItemsLines, LiteralOfAll;
        var top := [OpeningLine(""), NameLine(m.name), TypeLine(m.typeName)];
        assert MemberLines(m) == top + ItemsLines(m.items) + [CloseLine];
        LiteralBetween(lines, top, m.items);
      case _ => NoLiterals(lines, ItemLines(item));
    }
  }

  lemma {:induction false} LiteralBetween(lines: seq<Scanned>, top: seq<Line>, items: seq<Item>)
    requires AllLook(lines, top + ItemsLines(items) + [CloseLine]) && NoLiteral(top)
    ensures LiteralIn(lines) == LiteralOfAll(items)
    decreases items, 1
  {
    assert NoLiteral([CloseLine]);
    var a, b, c := top, ItemsLines(items), [CloseLine];
    hide AllLook, LiteralIn, ItemsLines, LiteralOfAll;
    LookParts(lines, a + b, c);
    var ab := lines[..|a + b|];
    LookParts(ab, a, b);
    LiteralOfParts(ab, lines[|a + b|..]);
    LiteralOfParts(ab[..|a|], ab[|a|..]);
    NoLiterals(ab[..|a|], a);
    LiteralOfItems(ab[|a|..], items);
    NoLiterals(lines[|a + b|..], c);
  }

  lemma {:induction false} LiteralOfItems(lines: seq<Scanned>, items: seq<Item>)
    requires AllLook(lines, ItemsLines(items))
    ensures LiteralIn(lines) == LiteralOfAll(items)
    decreases items, 0
  {
    if items != [] {
      var init, last := items[..|items| - 1], items[|items| - 1];
      hide AllLook, LiteralIn, ItemLines, LiteralOf;
      LookParts(lines, ItemsLines(init), ItemLines(last));
      var n := |ItemsLines(init)|;
      LiteralOfParts(lines[..n], lines[n..]);
      LiteralOfItems(lines[..n], init);
      LiteralOfItem(lines[n..], last);
    }
  }

  // ----- the symbols of a member -----

  /** The lines of a member from its name to its last brace. */
  function MemberRest(m: Member): seq<Line> {
    [NameLine(m.name), TypeLine(m.typeName)] + ItemsLines(m.items) + [CloseLine]
  }

  lemma {:induction false} MemberEnds(lines: seq<Scanned>, printed: seq<Line>, at: nat, m: Member)
    requires AllLook(lines, printed) && PartAt(printed, at, MemberLines(m))
    ensures |MemberLines(m)| == 1 + |MemberRest(m)| && |MemberRest(m)| >= 3
    ensures at + 1 + |MemberRest(m)| <= |lines| && FindTableEnd(lines, at + 2) == at + |MemberLines(m)|
    ensures AllLook(lines[at + 1..at + |MemberLines(m)|], MemberRest(m))
  {
    hide Looks, AllLook, ItemsLines, Nested, PartAt, FindTableEnd;
    BodyIsNested(m);
    BlockOfName(lines, printed, at, OpeningLine(""), MemberBody(m), CloseLine);
    assert MemberLines(m) == [OpeningLine("")] + MemberRest(m);
    PartOfPart(printed, at, [OpeningLine("")], MemberRest(m));
    SliceLooks(lines, printed, at + 1, MemberRest(m));
  }

  lemma {:induction false} RestIsRead(lines: seq<Scanned>, m: Member)
    requires AllLook(lines, MemberRest(m))
    ensures ReadLines(NOTHING_READ, lines).sections == DeclareAll(map[], m.items)
    ensures LiteralIn(lines) == LiteralOfAll(m.items)
  {
    hide AllLook, ReadLines, LiteralIn, ItemsLines, DeclareAll, LiteralOfAll;
    ReadBetween(NOTHING_READ, lines, [NameLine(m.name), TypeLine(m.typeName)], m.items);
    LiteralBetween(lines, [NameLine(m.name), TypeLine(m.typeName)], m.items);
  }

  lemma SymbolsOfTable(lines: seq<Scanned>, name: string, namespace: string, kind: string, nameLine: nat, endLine: nat)
    requires 0 < nameLine <= |lines| && endLine == FindTableEnd(lines, nameLine) && nameLine - 1 <= endLine
        && namespace != ""
    ensures var within := lines[nameLine - 1..endLine];
            MemberSymbols(lines, name, namespace, kind, nameLine)
              == Some(MemberEntry(name, namespace + "." + name, kind, LiteralIn(within), nameLine, endLine,
                                  ReadLines(NOTHING_READ, within).sections))
  {
    hide FindTableEnd, LiteralIn, MemberEntry, ReadLines;
  }

  /** The symbols of a printed member: its names, its lines, its parameters. */
  lemma {:induction false} MemberIsFound(lower: string -> string, lines: seq<Scanned>, printed: seq<Line>, at: nat,
        m: Member, namespace: string)
    requires AllLook(lines, printed) && PartAt(printed, at, MemberLines(m)) && namespace != ""
    ensures at + 2 <= |lines| && at + |MemberLines(m)| <= |lines|
    ensures MemberSymbols(lines, m.name, namespace, lower(m.typeName), at + 2) == Some(EntryOf(lower, namespace, m, at))
  {
    hide AllLook, PartAt, MemberLines, MemberRest, MemberSymbols, FindTableEnd, ReadLines, LiteralIn, MemberEntry,
        DeclareAll;
    MemberEnds(lines, printed, at, m);
    var end := at + |MemberLines(m)|;
    RestIsRead(lines[at + 1..end], m);
    SymbolsOfTable(lines, m.name, namespace, lower(m.typeName), at + 2, end);
  }

  // ----- the machine over a document -----

  lemma {:induction false} RunConcat(lower: string -> string, lines: seq<Scanned>, i: nat, k: nat, j: nat, st: State,
        mid: State)
    requires i <= k <= j <= |lines| && Consistent(st, i) && Run(lower, lines, i, k, st) == Some(mid)
    ensures Consistent(mid, k) && Run(lower, lines, i, j, st) == Run(lower, lines, k, j, mid)
    decreases j - k
  {
    hide Step;
    if k < j {
      RunConcat(lower, lines, i, k, j - 1, st, mid);
    }
  }

  /** Lines that say nothing to the machine. */
  predicate Quiet(l: Line) {
    !l.NamespaceLine? && !l.NameLine? && !l.TypeLine?
  }

  predicate AllQuiet(lines: seq<Line>) {
    forall i :: 0 <= i < |lines| ==> Quiet(lines[i])
  }

  lemma {:induction false} RunQuiet(lower: string -> string, lines: seq<Scanned>, printed: seq<Line>, at: nat,
        part: seq<Line>, k: nat, st: State)
    requires AllLook(lines, printed) && PartAt(printed, at, part) && k <= |part| && Consistent(st, at) && AllQuiet(part)
    ensures at + |part| <= |lines| && Run(lower, lines, at, at + k, st) == Some(st)
  {
    if k > 0 {
      RunQuiet(lower, lines, printed, at, part, k - 1, st);
      LooksAt(lines, printed, at, part, k - 1);
    }
  }

  /** Between members: no name is pending. */
  predicate Between(st: State, namespace: string, found: Index) {
    st.name == "" && st.namespace == namespace && st.symbols == found.symbols && st.edges == found.edges
  }

  lemma QuietLooks(s: Scanned, l: Line)
    requires Looks(s, l) && Quiet(l)
    ensures s.namespace.None? && s.name.None? && s.typeName.None?
  {
  }

  lemma NameIsSeen(s: Scanned, name: string)
    requires Looks(s, NameLine(name))
    ensures s.namespace.None? && s.name == Some(name)
  {
  }

  lemma TypeIsSeen(s: Scanned, typeName: string)
    requires Looks(s, TypeLine(typeName))
    ensures s.namespace.None? && s.name.None? && s.typeName == Some(typeName)
  {
  }

  lemma NamespaceIsSeen(s: Scanned, namespace: string)
    requires Looks(s, NamespaceLine(namespace))
    ensures s.namespace == Some(namespace)
  {
  }

  /** The first two lines of a block, and its type. */
  lemma {:induction false} RunNamed(lower: string -> string, lines: seq<Scanned>, printed: seq<Line>, at: nat, o: Line,
        name: string, typeName: string, st: State)
    requires AllLook(lines, printed) && PartAt(printed, at, [o, NameLine(name), TypeLine(typeName)]) && Quiet(o)
    requires Consistent(st, at)
    ensures at + 2 < |lines| && Looks(lines[at + 2], TypeLine(typeName))
    ensures Run(lower, lines, at, at + 2, st) == Some(st.(name := name, nameLine := at + 2))
  {
    var part := [o, NameLine(name), TypeLine(typeName)];
    LooksAt(lines, printed, at, part, 0);
    LooksAt(lines, printed, at, part, 1);
    LooksAt(lines, printed, at, part, 2);
    hide Looks, PartAt, AllLook;
    QuietLooks(lines[at], o);
    NameIsSeen(lines[at + 1], name);
    assert Run(lower, lines, at, at, st) == Some(st);
    assert Run(lower, lines, at, at + 1, st) == Some(st);
  }

  lemma StepMember(lower: string -> string, lines: seq<Scanned>, i: nat, st: State, typeName: string,
        added: seq<Symbol>)
    requires i < |lines| && Consistent(st, i) && st.name != "" && st.namespace != "" && lower(typeName) != "system"
    requires lines[i].namespace.None? && lines[i].name.None? && lines[i].typeName == Some(typeName)
    requires MemberSymbols(lines, st.name, st.namespace, lower(typeName), st.nameLine) == Some(added)
    ensures Step(lower, lines, i, st)
         == Some(st.(name := "", symbols := st.symbols + added,
                     edges := st.edges + [Edge(st.namespace, st.namespace + "." + st.name, st.nameLine)]))
  {
    hide MemberSymbols, FindTableEnd;
  }

  lemma RunOneMore(lower: string -> string, lines: seq<Scanned>, i: nat, j: nat, st: State, mid: State)
    requires i <= j < |lines| && Consistent(st, i) && Run(lower, lines, i, j, st) == Some(mid)
    ensures Consistent(mid, j) && Run(lower, lines, i, j + 1, st) == Step(lower, lines, j, mid)
  {
    hide Step;
  }

  lemma JoinAssociative(a: Index, b: Index, c: Index)
    ensures Join(Join(a, b), c) == Join(a, Join(b, c))
  {
    ConcatAssociative(a.symbols, b.symbols, c.symbols);
    ConcatAssociative(a.edges, b.edges, c.edges);
  }

  lemma JoinNothing(a: Index)
    ensures Join(a, NOTHING) == a
  {
  }

  ghost predicate Finds(lower: string -> string, lines: seq<Scanned>, from: nat, to: nat, st: State, namespace: string,
        found: Index, more: Index)
    requires from <= to <= |lines| && Consistent(st, from)
  {
    var r := Run(lower, lines, from, to, st);
    r.Some? && Between(r.value, namespace, Join(found, more))
  }

  /** Two parts of a document, one after the other. */
  lemma {:induction false} FindsBoth(lower: string -> string, lines: seq<Scanned>, i: nat, k: nat, j: nat, st: State,
        namespace: string, found: Index, first: Index, second: Index)
    requires i <= k <= j <= |lines| && Consistent(st, i) && Finds(lower, lines, i, k, st, namespace, found, first)
    requires var mid := Run(lower, lines, i, k, st).value;
             Finds(lower, lines, k, j, mid, namespace, Join(found, first), second)
    ensures Finds(lower, lines, i, j, st, namespace, found, Join(first, second))
  {
    hide Run;
    RunConcat(lower, lines, i, k, j, st, Run(lower, lines, i, k, st).value);
    JoinAssociative(found, first, second);
  }

  lemma FindsQuiet(lower: string -> string, lines: seq<Scanned>, printed: seq<Line>, at: nat, part: seq<Line>,
        st: State, namespace: string, found: Index)
    requires AllLook(lines, printed) && PartAt(printed, at, part) && AllQuiet(part) && Between(st, namespace, found)
    ensures at + |part| <= |lines| && Finds(lower, lines, at, at + |part|, st, namespace, found, NOTHING)
  {
    hide Run, AllLook, PartAt, AllQuiet;
    RunQuiet(lower, lines, printed, at, part, |part|, st);
    JoinNothing(found);
  }

  /** The first three lines of a member. */
  lemma {:induction false} RunMemberTop(lower: string -> string, lines: seq<Scanned>, printed: seq<Line>, at: nat,
        m: Member, namespace: string, found: Index, st: State)
    requires AllLook(lines, printed) && PartAt(printed, at, MemberLines(m)) && namespace != ""
    requires m.name != "" && lower(m.typeName) != "system" && Between(st, namespace, found)
    ensures at + 3 <= |lines|
    ensures Finds(lower, lines, at, at + 3, st, namespace, found,
                  Index(EntryOf(lower, namespace, m, at), [Edge(namespace, namespace + "." + m.name, at + 2)]))
  {
    var first := [OpeningLine(""), NameLine(m.name), TypeLine(m.typeName)];
    hide ItemsLines, MemberSymbols, EntryOf, Looks, Quiet, AllLook, PartAt, Run, Step;
    assert MemberLines(m) == first + (ItemsLines(m.items) + [CloseLine]);
    PartOfPart(printed, at, first, ItemsLines(m.items) + [CloseLine]);
    MemberIsFound(lower, lines, printed, at, m, namespace);
    OpeningIsQuiet("");
    RunNamed(lower, lines, printed, at, OpeningLine(""), m.name, m.typeName, st);
    TypeIsSeen(lines[at + 2], m.typeName);
    var named := st.(name := m.name, nameLine := at + 2);
    RunOneMore(lower, lines, at, at + 2, st, named);
    StepMember(lower, lines, at + 2, named, m.typeName, EntryOf(lower, namespace, m, at));
  }

  lemma OpeningIsQuiet(head: string)
    ensures Quiet(OpeningLine(head)) && AllQuiet([OpeningLine(head)]) && AllQuiet([CloseLine])
    ensures forall tail :: AllQuiet([FootLine(tail)])
  {
  }

  lemma {:induction false} RunMember(lower: string -> string, lines: seq<Scanned>, printed: seq<Line>, at: nat,
        m: Member, namespace: string, found: Index, st: State)
    requires AllLook(lines, printed) && PartAt(printed, at, MemberLines(m)) && MemberOk(lower, m) && namespace != ""
    requires Between(st, namespace, found)
    ensures at + |MemberLines(m)| <= |lines|
    ensures Finds(lower, lines, at, at + |MemberLines(m)|, st, namespace, found,
        ExpectedMember(lower, namespace, m, at))
    decreases m, 0
  {
    var first := [OpeningLine(""), NameLine(m.name), TypeLine(m.typeName)];
    hide ItemsLines, EntryOf, AllLook, PartAt, Run, ItemOk, ExpectedItems;
    RunMemberTop(lower, lines, printed, at, m, namespace, found, st);
    assert MemberLines(m) == first + (ItemsLines(m.items) + [CloseLine]);
    PartOfPart(printed, at, first, ItemsLines(m.items) + [CloseLine]);
    var mid := Run(lower, lines, at, at + 3, st).value;
    var own := Index(EntryOf(lower, namespace, m, at), [Edge(namespace, namespace + "." + m.name, at + 2)]);
    RunClosed(lower, lines, printed, at + 3, m.items, CloseLine, namespace, Join(found, own), mid);
    FindsBoth(lower, lines, at, at + 3, at + |MemberLines(m)|, st, namespace, found, own,
              ExpectedItems(lower, namespace, m.items, at + 3));
  }

  /** Items, and the line that closes their block. */
  lemma {:induction false} RunClosed(lower: string -> string, lines: seq<Scanned>, printed: seq<Line>, at: nat,
        items: seq<Item>, close: Line, namespace: string, found: Index, st: State)
    requires AllLook(lines, printed) && PartAt(printed, at, ItemsLines(items) + [close]) && AllQuiet([close])
    requires namespace != "" && Between(st, namespace, found) && forall i :: i in items ==> ItemOk(lower, i)
    ensures at + |ItemsLines(items)| + 1 <= |lines|
    ensures Finds(lower, lines, at, at + |ItemsLines(items)| + 1, st, namespace, found,
                  ExpectedItems(lower, namespace, items, at))
    decreases items, 1
  {
    hide ItemsLines, AllLook, PartAt, Run, ItemOk, ExpectedItems, AllQuiet;
    PartOfPart(printed, at, ItemsLines(items), [close]);
    RunItems(lower, lines, printed, at, items, namespace, found, st);
    var k := at + |ItemsLines(items)|;
    var more := ExpectedItems(lower, namespace, items, at);
    var mid := Run(lower, lines, at, k, st).value;
    FindsQuiet(lower, lines, printed, k, [close], mid, namespace, Join(found, more));
    FindsBoth(lower, lines, at, k, k + 1, st, namespace, found, more, NOTHING);
    JoinNothing(more);
  }

  lemma {:induction false} ItemIsQuiet(item: Item)
    requires !item.Block? && !item.Inner?
    ensures AllQuiet(ItemLines(item))
  {
  }

  lemma {:induction false} RunItem(lower: string -> string, lines: seq<Scanned>, printed: seq<Line>, at: nat,
        item: Item, namespace: string, found: Index, st: State)
    requires AllLook(lines, printed) && PartAt(printed, at, ItemLines(item)) && ItemOk(lower, item) && namespace != ""
    requires Between(st, namespace, found)
    ensures at + |ItemLines(item)| <= |lines|
    ensures Finds(lower, lines, at, at + |ItemLines(item)|, st, namespace, found,
        ExpectedItem(lower, namespace, item, at))
    decreases item
  {
    hide AllLook, PartAt, Run, MemberLines, ItemsLines, ExpectedMember, ExpectedItems, AllQuiet;
    match item {
      case Block(head, items) =>
        RunBlock(lower, lines, printed, at, head, items, namespace, found, st);
      case Inner(m) =>
        RunMember(lower, lines, printed, at, m, namespace, found, st);
      case _ =>
        ItemIsQuiet(item);
        FindsQuiet(lower, lines, printed, at, ItemLines(item), st, namespace, found);
    }
  }

  lemma {:induction false} RunBlock(lower: string -> string, lines: seq<Scanned>, printed: seq<Line>, at: nat,
        head: string, items: seq<Item>, namespace: string, found: Index, st: State)
    requires AllLook(lines, printed) && PartAt(printed, at, [OpeningLine(head)] + ItemsLines(items) + [CloseLine])
    requires namespace != "" && Between(st, namespace, found) && forall i :: i in items ==> ItemOk(lower, i)
    ensures at + 2 + |ItemsLines(items)| <= |lines|
    ensures Finds(lower, lines, at, at + 2 + |ItemsLines(items)|, st, namespace, found,
                  ExpectedItems(lower, namespace, items, at + 1))
    decreases items, 2
  {
    hide ItemsLines, AllLook, PartAt, Run, ItemOk, ExpectedItems, AllQuiet;
    var rest := ItemsLines(items) + [CloseLine];
    assert [OpeningLine(head)] + ItemsLines(items) + [CloseLine] == [OpeningLine(head)] + rest;
    PartOfPart(printed, at, [OpeningLine(head)], rest);
    OpeningIsQuiet(head);
    FindsQuiet(lower, lines, printed, at, [OpeningLine(head)], st, namespace, found);
    var mid := Run(lower, lines, at, at + 1, st).value;
    JoinNothing(found);
    RunClosed(lower, lines, printed, at + 1, items, CloseLine, namespace, found, mid);
    FindsBoth(lower, lines, at, at + 1, at + 2 + |ItemsLines(items)|, st, namespace, found, NOTHING,
              ExpectedItems(lower, namespace, items, at + 1));
    NothingJoin(ExpectedItems(lower, namespace, items, at + 1));
  }

  lemma NothingJoin(a: Index)
    ensures Join(NOTHING, a) == a
  {
  }

  lemma {:induction false} RunItems(lower: string -> string, lines: seq<Scanned>, printed: seq<Line>, at: nat,
        items: seq<Item>, namespace: string, found: Index, st: State)
    requires AllLook(lines, printed) && PartAt(printed, at, ItemsLines(items)) && namespace != ""
    requires Between(st, namespace, found) && forall i :: i in items ==> ItemOk(lower, i)
    ensures at + |ItemsLines(items)| <= |lines|
    ensures Finds(lower, lines, at, at + |ItemsLines(items)|, st, namespace, found,
        ExpectedItems(lower, namespace, items, at))
    decreases items, 0
  {
    hide AllLook, PartAt, Run, ItemLines, ExpectedItem, ItemOk, AllQuiet;
    if items == [] {
      EmptyIsQuiet();
      FindsQuiet(lower, lines, printed, at, [], st, namespace, found);
    } else {
      var init, last := items[..|items| - 1], items[|items| - 1];
      PartOfPart(printed, at, ItemsLines(init), ItemLines(last));
      RunItems(lower, lines, printed, at, init, namespace, found, st);
      var k := at + |ItemsLines(init)|;
      var mid := Run(lower, lines, at, k, st).value;
      var more := ExpectedItems(lower, namespace, init, at);
      RunItem(lower, lines, printed, k, last, namespace, Join(found, more), mid);
      FindsBoth(lower, lines, at, k, k + |ItemLines(last)|, st, namespace, found, more,
          ExpectedItem(lower, namespace, last, k));
    }
  }

  lemma EmptyIsQuiet()
    ensures AllQuiet([])
  {
  }

  // ----- a table -----

  lemma TableEnds(lines: seq<Scanned>, printed: seq<Line>, at: nat, t: Table)
    requires AllLook(lines, printed) && PartAt(printed, at, TableLines(t))
    ensures at + 2 <= at + |TableLines(t)| <= |lines| && FindTableEnd(lines, at + 2) == at + |TableLines(t)|
  {
    hide Looks, AllLook, ItemsLines, Nested, PartAt, FindTableEnd;
    TableInnerIsNested(t);
    BlockOfName(lines, printed, at, OpeningLine(t.head), TableHeader(t) + ItemsLines(t.items), FootLine(t.tail));
  }

  lemma StepSystem(lower: string -> string, lines: seq<Scanned>, i: nat, st: State)
    requires i < |lines| && Consistent(st, i) && st.name != "" && lower("System") == "system"
    requires lines[i].namespace.None? && lines[i].name.None? && lines[i].typeName == Some("System")
    ensures Step(lower, lines, i, st)
         == Some(st.(namespace := st.name, name := "",
                     symbols := st.symbols + [Symbol(st.name, st.name, "api-system", st.nameLine,
                                                     FindTableEnd(lines, st.nameLine), st.name)]))
  {
    hide FindTableEnd, MemberSymbols;
  }

  /** The namespace line of a table, if it has one. */
  lemma {:induction false} RunNamespace(lower: string -> string, lines: seq<Scanned>, printed: seq<Line>, at: nat,
        namespace: Option<string>, st: State)
    requires AllLook(lines, printed) && PartAt(printed, at, NamespaceLines(namespace)) && Consistent(st, at)
    ensures at + |NamespaceLines(namespace)| <= |lines|
    ensures Run(lower, lines, at, at + |NamespaceLines(namespace)|, st)
         == Some(if namespace.Some? then st.(namespace := namespace.value) else st)
  {
    if namespace.Some? {
      LooksAt(lines, printed, at, NamespaceLines(namespace), 0);
      hide Looks;
      NamespaceIsSeen(lines[at], namespace.value);
      assert Run(lower, lines, at, at, st) == Some(st);
    }
  }

  lemma TableParts(printed: seq<Line>, at: nat, t: Table)
    requires PartAt(printed, at, TableLines(t))
    ensures PartAt(printed, at, [OpeningLine(t.head), NameLine(t.name), TypeLine("System")])
    ensures PartAt(printed, at + 3, NamespaceLines(t.namespace))
        && |TableHeader(t)| == 2 + |NamespaceLines(t.namespace)|
    ensures PartAt(printed, at + 1 + |TableHeader(t)|, ItemsLines(t.items) + [FootLine(t.tail)])
    ensures |TableLines(t)| == 1 + |TableHeader(t)| + |ItemsLines(t.items)| + 1
  {
    var first, names := [OpeningLine(t.head), NameLine(t.name), TypeLine("System")], NamespaceLines(t.namespace);
    var rest := ItemsLines(t.items) + [FootLine(t.tail)];
    hide ItemsLines, PartAt;
    assert TableLines(t) == first + (names + rest);
    PartOfPart(printed, at, first, names + rest);
    PartOfPart(printed, at + 3, names, rest);
  }

  function SystemOf(t: Table, at: nat): Index {
    Index([Symbol(t.name, t.name, "api-system", at + 2, at + |TableLines(t)|, t.name)], [])
  }

  /** The name, the type and the namespace of a table. */
  lemma RunHeader(lower: string -> string, lines: seq<Scanned>, printed: seq<Line>, at: nat, t: Table, found: Index,
        st: State)
    requires AllLook(lines, printed) && PartAt(printed, at, TableLines(t)) && t.name != ""
        && lower("System") == "system"
    requires Between(st, st.namespace, found)
    ensures at + 1 + |TableHeader(t)| <= |lines|
    ensures Finds(lower, lines, at, at + 1 + |TableHeader(t)|, st, NamespaceOf(t), found, SystemOf(t, at))
  {
    hide FindTableEnd, PartAt, AllLook, Looks, TableLines, TableHeader, Run, Step, Quiet;
    TableParts(printed, at, t);
    TableEnds(lines, printed, at, t);
    OpeningIsQuiet(t.head);
    RunNamed(lower, lines, printed, at, OpeningLine(t.head), t.name, "System", st);
    TypeIsSeen(lines[at + 2], "System");
    var named := st.(name := t.name, nameLine := at + 2);
    RunOneMore(lower, lines, at, at + 2, st, named);
    StepSystem(lower, lines, at + 2, named);
    var system := Step(lower, lines, at + 2, named).value;
    RunNamespace(lower, lines, printed, at + 3, t.namespace, system);
    RunConcat(lower, lines, at, at + 3, at + 3 + |NamespaceLines(t.namespace)|, st, system);
    assert found.edges + [] == found.edges;
  }

  lemma RunTable(lower: string -> string, lines: seq<Scanned>, printed: seq<Line>, at: nat, t: Table, found: Index,
        st: State)
    requires AllLook(lines, printed) && PartAt(printed, at, TableLines(t)) && TableOk(lower, t)
        && lower("System") == "system"
    requires Between(st, st.namespace, found)
    ensures at + |TableLines(t)| <= |lines|
    ensures Finds(lower, lines, at, at + |TableLines(t)|, st, NamespaceOf(t), found, ExpectedTable(lower, t, at))
  {
    hide Run, AllLook, PartAt, ItemsLines, TableLines, TableHeader, ExpectedItems, ItemOk, AllQuiet;
    TableParts(printed, at, t);
    RunHeader(lower, lines, printed, at, t, found, st);
    var k := at + 1 + |TableHeader(t)|;
    var mid := Run(lower, lines, at, k, st).value;
    OpeningIsQuiet(t.head);
    RunClosed(lower, lines, printed, k, t.items, FootLine(t.tail), NamespaceOf(t), Join(found, SystemOf(t, at)), mid);
    FindsBoth(lower, lines, at, k, at + |TableLines(t)|, st, NamespaceOf(t), found, SystemOf(t, at),
              ExpectedItems(lower, NamespaceOf(t), t.items, k));
  }

  lemma LooseIsQuiet(texts: seq<string>)
    ensures AllQuiet(LooseLines(texts))
  {
  }

  /** The lines above a table, and the table. */
  lemma RunWithAbove(lower: string -> string, lines: seq<Scanned>, printed: seq<Line>, at: nat, t: Table, found: Index,
        st: State)
    requires AllLook(lines, printed) && PartAt(printed, at, LooseLines(t.above) + TableLines(t)) && TableOk(lower, t)
    requires lower("System") == "system" && Between(st, st.namespace, found)
    ensures at + |t.above| + |TableLines(t)| <= |lines|
    ensures Finds(lower, lines, at, at + |t.above| + |TableLines(t)|, st, NamespaceOf(t), found,
                  ExpectedTable(lower, t, at + |t.above|))
  {
    hide Run, AllLook, PartAt, TableLines, TableOk, ExpectedTable, AllQuiet;
    PartOfPart(printed, at, LooseLines(t.above), TableLines(t));
    LooseIsQuiet(t.above);
    RunQuiet(lower, lines, printed, at, LooseLines(t.above), |t.above|, st);
    var k := at + |t.above|;
    RunTable(lower, lines, printed, k, t, found, st);
    RunConcat(lower, lines, at, k, k + |TableLines(t)|, st, st);
  }

  lemma {:induction false} RunTables(lower: string -> string, lines: seq<Scanned>, printed: seq<Line>,
        tables: seq<Table>)
    requires AllLook(lines, printed) && PartAt(printed, 0, TablesLines(tables)) && lower("System") == "system"
    requires forall t :: t in tables ==> TableOk(lower, t)
    ensures |TablesLines(tables)| <= |lines|
    ensures var r := Run(lower, lines, 0, |TablesLines(tables)|, START);
            r.Some? && Between(r.value, r.value.namespace, Expected(lower, tables))
  {
    hide Run, AllLook, PartAt, TableLines, ExpectedTable, TableOk, AllQuiet;
    if tables == [] {
      EmptyIsQuiet();
      RunQuiet(lower, lines, printed, 0, [], 0, START);
    } else {
      var init, last := tables[..|tables| - 1], tables[|tables| - 1];
      PartOfPart(printed, 0, TablesLines(init), LooseLines(last.above) + TableLines(last));
      RunTables(lower, lines, printed, init);
      var k := |TablesLines(init)|;
      var mid := Run(lower, lines, 0, k, START).value;
      RunWithAbove(lower, lines, printed, k, last, Expected(lower, init), mid);
      RunConcat(lower, lines, 0, k, k + |last.above| + |TableLines(last)|, START, mid);
    }
  }

  /** Parsing a printed document gives back its systems and members, however deep they
      are nested: names, kinds, qualified names, literal event names, the lines of
      their tables, and full signatures. */
  lemma ParseInvertsPrint(lower: string -> string, lines: seq<Scanned>, d: Document)
    requires AllLook(lines, DocumentLines(d)) && lower("System") == "system"
    requires forall t :: t in d.tables ==> TableOk(lower, t)
    ensures Parse(lower, lines) == Some((Expected(lower, d.tables).symbols, Expected(lower, d.tables).edges))
  {
    hide Run, TableOk, TablesLines, Looks, Expected, AllQuiet;
    var printed, n := DocumentLines(d), |TablesLines(d.tables)|;
    assert PartAt(printed, 0, TablesLines(d.tables) + LooseLines(d.below));
    PartOfPart(printed, 0, TablesLines(d.tables), LooseLines(d.below));
    RunTables(lower, lines, printed, d.tables);
    var mid := Run(lower, lines, 0, n, START).value;
    LooseIsQuiet(d.below);
    RunQuiet(lower, lines, printed, n, LooseLines(d.below), |d.below|, mid);
    RunConcat(lower, lines, 0, n, |lines|, START, mid);
  }

  // ----- the text of a document -----

  predicate ItemNamed(item: Item)
    decreases item
  {
    match item
    case Literal(value) => IsName(value)
    case Loose(text) => LineOk(LooseLine(text))
    case Listed(_, _, fields) => forall f :: f in fields ==> FieldOk(f)
    case Absent(_, _) => true
    case Block(head, items) => LineOk(OpeningLine(head)) && forall i :: i in items ==> ItemNamed(i)
    case Inner(m) => MemberNamed(m)
  }

  predicate MemberNamed(m: Member)
    decreases m
  {
    IsName(m.name) && IsName(m.typeName) && forall i :: i in m.items ==> ItemNamed(i)
  }

  predicate LooseOk(texts: seq<string>) {
    forall t :: t in texts ==> LineOk(LooseLine(t))
  }

  predicate TableNamed(t: Table) {
    && LooseOk(t.above) && LineOk(OpeningLine(t.head)) && IsName(t.name)
    && (t.namespace.Some? ==> IsName(t.namespace.value)) && Bare(t.tail)
    && forall i :: i in t.items ==> ItemNamed(i)
  }

  predicate AllOk(lines: seq<Line>) {
    forall i :: 0 <= i < |lines| ==> LineOk(lines[i])
  }

  lemma OkConcat(a: seq<Line>, b: seq<Line>)
    requires AllOk(a) && AllOk(b)
    ensures AllOk(a + b)
  {
    hide LineOk;
  }

  lemma OkAround(top: seq<Line>, inner: seq<Line>, close: Line)
    requires AllOk(top) && AllOk(inner) && LineOk(close)
    ensures AllOk(top + inner + [close])
  {
    hide LineOk;
  }

  /** An opening brace alone, and a `nil`, set no key. */
  lemma SmallLinesAreOk()
    ensures LineOk(OpeningLine("")) && LineOk(LooseLine("nil,"))
  {
    hide *;
    assert "" + "{" == "{";
    BraceUnkeyed("{");
    NothingIsBare();
    HeadIsOk("");
    NilIsUnkeyed();
    SmallBalances();
    LooseIsOk("nil,");
  }

  lemma NothingIsBare()
    ensures Flush("") && Bare("") && Flush("nil,")
  {
    assert "nil,"[0] == 'n';
  }

  lemma NilIsUnkeyed()
    ensures Unkeyed("nil,")
  {
    assert "nil,"[0] == 'n' && "Namespace"[0] == "Name"[0] == 'N' && "Type"[0] == 'T' && "LiteralName"[0] == 'L';
    assert "Arguments"[0] == 'A' && "Returns"[0] == 'R' && "Payload"[0] == 'P';
  }

  lemma {:induction false} SectionIsOk(section: Section, brace: Brace, fields: seq<Field>)
    requires forall f :: f in fields ==> FieldOk(f)
    ensures AllOk(ItemLines(Listed(section, brace, fields))) && AllOk(ItemLines(Absent(section, brace)))
  {
    SmallLinesAreOk();
    assert AllOk(FieldLines(fields)) by {
      hide FieldOk;
      forall i | 0 <= i < |fields| ensures LineOk(FieldLines(fields)[i]) {
        assert fields[i] in fields;
      }
    }
    SectionTopIsOk(section, brace);
    assert LineOk(CloseLine);
    hide AllOk, LineOk, FieldLines, SectionTop, SectionNil, FieldOk;
    OkAround(SectionTop(section, brace), FieldLines(fields), CloseLine);
  }

  lemma SectionTopIsOk(section: Section, brace: Brace)
    ensures AllOk(SectionTop(section, brace)) && AllOk(SectionNil(section, brace))
  {
    SmallLinesAreOk();
    assert LineOk(SectionLine(section)) && LineOk(NilLine(section)) && LineOk(SplitLine(section));
    hide LineOk;
  }

  lemma {:induction false} ItemIsOk(item: Item)
    requires ItemNamed(item)
    ensures AllOk(ItemLines(item))
    decreases item
  {
    hide LineOk, FieldOk, IsName;
    match item {
      case Literal(value) => LiteralIsOk(value);
      case Loose(text) =>
      case Listed(section, brace, fields) => SectionIsOk(section, brace, fields);
      case Absent(section, brace) => SectionIsOk(section, brace, []);
      case Block(head, items) =>
        ItemsAreOk(items);
        CloseIsOk();
        OkAround([OpeningLine(head)], ItemsLines(items), CloseLine);
      case Inner(m) => MemberIsOk(m);
    }
  }

  lemma LiteralIsOk(value: string)
    requires IsName(value)
    ensures LineOk(LiteralLine(value))
  {
  }

  lemma CloseIsOk()
    ensures LineOk(CloseLine)
  {
  }

  lemma NamesAreOk(name: string, typeName: string)
    requires IsName(name) && IsName(typeName)
    ensures AllOk([NameLine(name), TypeLine(typeName)])
  {
  }

  lemma {:induction false} ItemsAreOk(items: seq<Item>)
    requires forall i :: i in items ==> ItemNamed(i)
    ensures AllOk(ItemsLines(items))
    decreases items
  {
    hide ItemNamed, ItemLines;
    if items != [] {
      var init, last := items[..|items| - 1], items[|items| - 1];
      ItemsAreOk(init);
      ItemIsOk(last);
      hide AllOk;
      OkConcat(ItemsLines(init), ItemLines(last));
    }
  }

  lemma {:induction false} MemberIsOk(m: Member)
    requires MemberNamed(m)
    ensures AllOk(MemberLines(m))
    decreases m, 0
  {
    hide AllOk, LineOk, IsName, ItemsLines, ItemNamed;
    ItemsAreOk(m.items);
    CloseIsOk();
    NamesAreOk(m.name, m.typeName);
    OpeningIsOk();
    OkConcat([NameLine(m.name), TypeLine(m.typeName)], ItemsLines(m.items));
    OkAround([OpeningLine("")], [NameLine(m.name), TypeLine(m.typeName)] + ItemsLines(m.items), CloseLine);
  }

  lemma OpeningIsOk()
    ensures AllOk([OpeningLine("")])
  {
    SmallLinesAreOk();
    hide LineOk;
  }

  lemma LooseLinesAreOk(texts: seq<string>)
    requires LooseOk(texts)
    ensures AllOk(LooseLines(texts))
  {
    hide LineOk;
    forall i | 0 <= i < |texts| ensures LineOk(LooseLines(texts)[i]) {
      assert texts[i] in texts;
    }
  }

  lemma TableIsOk(t: Table)
    requires TableNamed(t)
    ensures AllOk(LooseLines(t.above) + TableLines(t))
  {
    assert AllOk(TableHeader(t)) by { HeaderIsOk(t); }
    assert AllOk([OpeningLine(t.head)]) && LineOk(FootLine(t.tail));
    hide AllOk, LineOk, IsName, ItemsLines, ItemNamed, Bare, TableHeader;
    LooseLinesAreOk(t.above);
    ItemsAreOk(t.items);
    OkConcat(TableHeader(t), ItemsLines(t.items));
    OkAround([OpeningLine(t.head)], TableHeader(t) + ItemsLines(t.items), FootLine(t.tail));
    OkConcat(LooseLines(t.above), TableLines(t));
  }

  lemma HeaderIsOk(t: Table)
    requires TableNamed(t)
    ensures AllOk(TableHeader(t))
  {
    assert IsName("System");
    hide IsName;
  }

  lemma {:induction false} TablesAreOk(tables: seq<Table>)
    requires forall t :: t in tables ==> TableNamed(t)
    ensures AllOk(TablesLines(tables))
  {
    hide TableNamed, TableLines;
    if tables != [] {
      var init, last := tables[..|tables| - 1], tables[|tables| - 1];
      TablesAreOk(init);
      TableIsOk(last);
      hide AllOk;
      OkConcat(TablesLines(init), LooseLines(last.above) + TableLines(last));
    }
  }

  /** The text of printed lines, each with an indentation of its own. */
  predicate PrintedAs(lines: seq<string>, indents: seq<string>, printed: seq<Line>) {
    && |lines| == |indents| == |printed|
    && forall i :: 0 <= i < |lines| ==> Indent(indents[i]) && lines[i] == indents[i] + Text(printed[i])
  }

  lemma TextLooks(lines: seq<string>, indents: seq<string>, printed: seq<Line>)
    requires PrintedAs(lines, indents, printed) && AllOk(printed)
    ensures AllLook(Map(lines, Scan), printed)
  {
    hide Scan, Text, Indent, LineOk, Looks;
    forall i | 0 <= i < |lines| ensures Looks(Map(lines, Scan)[i], printed[i]) {
      PrintedLooks(printed[i], indents[i]);
    }
  }

  /** Parsing the text of a document, however it is indented, gives back what was
      printed. */
  lemma ParseInvertsText(lower: string -> string, lines: seq<string>, indents: seq<string>, d: Document)
    requires PrintedAs(lines, indents, DocumentLines(d)) && lower("System") == "system"
    requires forall t :: t in d.tables ==> TableOk(lower, t) && TableNamed(t)
    requires LooseOk(d.below)
    ensures Parse(lower, Map(lines, Scan)) == Some((Expected(lower, d.tables).symbols, Expected(lower, d.tables).edges))
  {
    hide PrintedAs, Scan, TablesLines, Parse, Expected, TableOk, TableNamed, AllLook, AllOk;
    TablesAreOk(d.tables);
    LooseLinesAreOk(d.below);
    OkConcat(TablesLines(d.tables), LooseLines(d.below));
    TextLooks(lines, indents, DocumentLines(d));
    ParseInvertsPrint(lower, Map(lines, Scan), d);
  }
}
