/** Documentation tables, the lines they are printed as, and what the parser of
    `GeneratedApi` must find in them. */
module GeneratedPrint {
  import opened Prelude
  import opened GeneratedApi

  // ----- documents -----

  /** As `Mixin = "ItemLocationMixin"`. */
  datatype Attribute = Attribute(key: string, value: string)

  /** The table of one parameter, on a line of its own: a gap behind its brace,
      attributes before `Nilable`, and whatever follows that. */
  datatype Field = Field(param: Param, gap: string, attributes: seq<Attribute>, rest: string)

  /** Where a section has its brace, or its `nil`. */
  datatype Brace = OnItsLine | OnNextLine

  /** What stands in a table: a literal name; a line that means nothing here, as an
      attribute, a string, a remark or a blank line; a section with its parameters or
      with `nil`; a block under any other key; or the table of a member. */
  datatype Item =
    | Literal(value: string)
    | Loose(text: string)
    | Listed(section: Section, brace: Brace, fields: seq<Field>)
    | Absent(section: Section, brace: Brace)
    | Block(head: string, items: seq<Item>)
    | Inner(member: Member)

  /** A function, an event, a structure or another member of a system. */
  datatype Member = Member(name: string, typeName: string, items: seq<Item>)

  /** The table of a system, with the loose lines above it; `head` is what stands
      before its brace and `tail` what follows its last one. */
  datatype Table = Table(
    above: seq<string>, head: string, name: string, namespace: Option<string>, items: seq<Item>, tail: string)

  datatype Document = Document(tables: seq<Table>, below: seq<string>)

  // ----- printed lines -----

  datatype Line =
    | OpeningLine(head: string)
    | CloseLine
    | FootLine(tail: string)
    | NameLine(value: string)
    | TypeLine(value: string)
    | LiteralLine(value: string)
    | NamespaceLine(value: string)
    | SectionLine(section: Section)
    | NilLine(section: Section)
    | SplitLine(section: Section)
    | FieldLine(field: Field)
    | LooseLine(text: string)

  /** The braces a line opens more than it closes. */
  function Turn(l: Line): int {
    match l
    case OpeningLine(_) => 1
    case SectionLine(_) => 1
    case CloseLine => -1
    case FootLine(_) => -1
    case _ => 0
  }

  /** What the parser sees of a printed line. */
  predicate Looks(s: Scanned, l: Line) {
    && s.namespace == (if l.NamespaceLine? then Some(l.value) else None)
    && s.name == (if l.NameLine? then Some(l.value) else None)
    && s.typeName == (if l.TypeLine? then Some(l.value) else None)
    && s.literal == (if l.LiteralLine? then Some(l.value) else None)
    && s.section == (if l.SectionLine? then Some(SectionStart(l.section, false))
                     else if l.NilLine? then Some(SectionStart(l.section, true)) else None)
    && (l.FieldLine? ==> s.field == Some(l.field.param)) && (l.CloseLine? ==> s.field == None)
    && s.opens - s.closes == Turn(l) && (Turn(l) == 1 ==> s.opens > 0) && (l.NameLine? ==> s.opens == 0)
  }

  predicate AllLook(lines: seq<Scanned>, printed: seq<Line>) {
    |lines| == |printed| && forall i :: 0 <= i < |lines| ==> Looks(lines[i], printed[i])
  }

  function LooseLines(texts: seq<string>): seq<Line> {
    Map(texts, (t: string) => LooseLine(t))
  }

  function FieldLines(fields: seq<Field>): seq<Line> {
    Map(fields, (f: Field) => FieldLine(f))
  }

  function SectionTop(section: Section, brace: Brace): seq<Line> {
    match brace
    case OnItsLine => [SectionLine(section)]
    case OnNextLine => [SplitLine(section), OpeningLine("")]
  }

  function SectionNil(section: Section, brace: Brace): seq<Line> {
    match brace
    case OnItsLine => [NilLine(section)]
    case OnNextLine => [SplitLine(section), LooseLine("nil,")]
  }

  function ItemLines(item: Item): seq<Line>
    decreases item
  {
    match item
    case Literal(value) => [LiteralLine(value)]
    case Loose(text) => [LooseLine(text)]
    case Listed(section, brace, fields) => SectionTop(section, brace) + FieldLines(fields) + [CloseLine]
    case Absent(section, brace) => SectionNil(section, brace)
    case Block(head, items) => [OpeningLine(head)] + ItemsLines(items) + [CloseLine]
    case Inner(m) => MemberLines(m)
  }

  function ItemsLines(items: seq<Item>): seq<Line>
    decreases items
  {
    if items == [] then [] else ItemsLines(items[..|items| - 1]) + ItemLines(items[|items| - 1])
  }

  function MemberLines(m: Member): seq<Line>
    decreases m
  {
    [OpeningLine("")] + ([NameLine(m.name), TypeLine(m.typeName)] + ItemsLines(m.items)) + [CloseLine]
  }

  function NamespaceLines(namespace: Option<string>): seq<Line> {
    if namespace.Some? then [NamespaceLine(namespace.value)] else []
  }

  function TableHeader(t: Table): seq<Line> {
    [NameLine(t.name), TypeLine("System")] + NamespaceLines(t.namespace)
  }

  /** A system's table from its first brace to its last. */
  function TableLines(t: Table): seq<Line> {
    [OpeningLine(t.head)] + (TableHeader(t) + ItemsLines(t.items)) + [FootLine(t.tail)]
  }

  function TablesLines(tables: seq<Table>): seq<Line> {
    if tables == [] then []
    else
      var last := tables[|tables| - 1];
      TablesLines(tables[..|tables| - 1]) + (LooseLines(last.above) + TableLines(last))
  }

  function DocumentLines(d: Document): seq<Line> {
    TablesLines(d.tables) + LooseLines(d.below)
  }

  // ----- what is to be indexed -----

  function ParamsOf(fields: seq<Field>): seq<Param> {
    Map(fields, (f: Field) => f.param)
  }

  /** The parameters that an item declares, on top of those declared before it.  A
      section whose brace or `nil` is not on its own line declares nothing. */
  function Declare(before: Sections, item: Item): Sections
    decreases item
  {
    match item
    case Listed(s, OnItsLine, fields) =>
      if fields == [] then before else before[s := Params(before, s) + ParamsOf(fields)]
    case Absent(s, OnItsLine) => before[s := []]
    case Block(_, items) => DeclareAll(before, items)
    case Inner(m) => DeclareAll(before, m.items)
    case _ => before
  }

  function DeclareAll(before: Sections, items: seq<Item>): Sections
    decreases items
  {
    if items == [] then before else Declare(DeclareAll(before, items[..|items| - 1]), items[|items| - 1])
  }

  /** The first literal name. */
  function LiteralOf(item: Item): Option<string>
    decreases item
  {
    match item
    case Literal(value) => Some(value)
    case Block(_, items) => LiteralOfAll(items)
    case Inner(m) => LiteralOfAll(m.items)
    case _ => None
  }

  function LiteralOfAll(items: seq<Item>): Option<string>
    decreases items
  {
    if items == [] then None
    else
      var first := LiteralOfAll(items[..|items| - 1]);
      if first.Some? then first else LiteralOf(items[|items| - 1])
  }

  /** The symbols of a member itself: its table opens on line `at + 1`, its name stands
      on the next line, and it ends with its closing brace. */
  function EntryOf(lower: string -> string, namespace: string, m: Member, at: nat): seq<Symbol> {
    MemberEntry(m.name, namespace + "." + m.name, lower(m.typeName), LiteralOfAll(m.items), at + 2,
                at + |MemberLines(m)|, DeclareAll(map[], m.items))
  }

  /** Symbols and edges, in order. */
  datatype Index = Index(symbols: seq<Symbol>, edges: seq<Edge>)

  const NOTHING := Index([], [])

  function Join(a: Index, b: Index): Index {
    Index(a.symbols + b.symbols, a.edges + b.edges)
  }

  /** What an item that is printed behind `at` lines adds to the index. */
  function ExpectedItem(lower: string -> string, namespace: string, item: Item, at: nat): Index
    decreases item
  {
    match item
    case Block(_, items) => ExpectedItems(lower, namespace, items, at + 1)
    case Inner(m) => ExpectedMember(lower, namespace, m, at)
    case _ => NOTHING
  }

  function ExpectedItems(lower: string -> string, namespace: string, items: seq<Item>, at: nat): Index
    decreases items
  {
    if items == [] then NOTHING
    else
      var init := items[..|items| - 1];
      Join(ExpectedItems(lower, namespace, init, at),
           ExpectedItem(lower, namespace, items[|items| - 1], at + |ItemsLines(init)|))
  }

  /** A member, and then the members inside it. */
  function ExpectedMember(lower: string -> string, namespace: string, m: Member, at: nat): Index
    decreases m
  {
    Join(Index(EntryOf(lower, namespace, m, at), [Edge(namespace, namespace + "." + m.name, at + 2)]),
         ExpectedItems(lower, namespace, m.items, at + 3))
  }

  function NamespaceOf(t: Table): string {
    if t.namespace.Some? then t.namespace.value else t.name
  }

  function ExpectedTable(lower: string -> string, t: Table, at: nat): Index {
    Join(Index([Symbol(t.name, t.name, "api-system", at + 2, at + |TableLines(t)|, t.name)], []),
         ExpectedItems(lower, NamespaceOf(t), t.items, at + 1 + |TableHeader(t)|))
  }

  function Expected(lower: string -> string, tables: seq<Table>): Index {
    if tables == [] then NOTHING
    else
      var init, last := tables[..|tables| - 1], tables[|tables| - 1];
      Join(Expected(lower, init), ExpectedTable(lower, last, |TablesLines(init)| + |last.above|))
  }

  // ----- well-formed documents -----

  /** Every member in an item has a name, and none is itself a system. */
  predicate ItemOk(lower: string -> string, item: Item)
    decreases item
  {
    match item
    case Block(_, items) => forall i :: i in items ==> ItemOk(lower, i)
    case Inner(m) => MemberOk(lower, m)
    case _ => true
  }

  predicate MemberOk(lower: string -> string, m: Member)
    decreases m
  {
    m.name != "" && lower(m.typeName) != "system" && forall i :: i in m.items ==> ItemOk(lower, i)
  }

  predicate TableOk(lower: string -> string, t: Table) {
    t.name != "" && NamespaceOf(t) != "" && forall i :: i in t.items ==> ItemOk(lower, i)
  }

  // ----- braces -----

  function Net(lines: seq<Line>): int {
    if lines == [] then 0 else Net(lines[..|lines| - 1]) + Turn(lines[|lines| - 1])
  }

  /** Every brace that is closed was opened before, and all are closed. */
  predicate Nested(lines: seq<Line>) {
    Net(lines) == 0 && forall k :: 0 <= k <= |lines| ==> Net(lines[..k]) >= 0
  }

  lemma {:induction false} NetConcat(a: seq<Line>, b: seq<Line>)
    ensures Net(a + b) == Net(a) + Net(b)
  {
    if b == [] {
      assert a + b == a;
    } else {
      assert (a + b)[..|a + b| - 1] == a + b[..|b| - 1];
      NetConcat(a, b[..|b| - 1]);
    }
  }

  lemma NestedConcat(a: seq<Line>, b: seq<Line>)
    requires Nested(a) && Nested(b)
    ensures Nested(a + b)
  {
    NetConcat(a, b);
    forall k | 0 <= k <= |a + b| ensures Net((a + b)[..k]) >= 0 {
      if k <= |a| {
        assert (a + b)[..k] == a[..k];
      } else {
        assert (a + b)[..k] == a + b[..k - |a|];
        NetConcat(a, b[..k - |a|]);
      }
    }
  }

  lemma NetOne(l: Line)
    ensures Net([l]) == Turn(l)
  {
    assert [l][..0] == [];
  }

  lemma NestedBlock(o: Line, inner: seq<Line>, c: Line)
    requires Nested(inner) && Turn(o) == 1 && Turn(c) == -1
    ensures Nested([o] + inner + [c])
  {
    var all := [o] + inner + [c];
    NetOne(o);
    NetOne(c);
    NetConcat([o], inner);
    NetConcat([o] + inner, [c]);
    forall k | 0 <= k <= |all| ensures Net(all[..k]) >= 0 {
      if k == |all| {
        assert all[..k] == all;
      } else if k > 0 {
        assert all[..k] == [o] + inner[..k - 1];
        NetConcat([o], inner[..k - 1]);
      }
    }
  }

  lemma {:induction false} FlatNet(lines: seq<Line>)
    requires forall i :: 0 <= i < |lines| ==> Turn(lines[i]) == 0
    ensures Net(lines) == 0
  {
    if lines != [] {
      FlatNet(lines[..|lines| - 1]);
    }
  }

  lemma NestedFlat(lines: seq<Line>)
    requires forall i :: 0 <= i < |lines| ==> Turn(lines[i]) == 0
    ensures Nested(lines)
  {
    forall k | 0 <= k <= |lines| ensures Net(lines[..k]) == 0 {
      FlatNet(lines[..k]);
    }
    assert lines[..|lines|] == lines;
  }

  lemma {:induction false} SectionIsNested(section: Section, brace: Brace, fields: seq<Field>)
    ensures Nested(ItemLines(Listed(section, brace, fields)))
  {
    var inner := FieldLines(fields);
    NestedFlat(inner);
    NestedFlat([SplitLine(section)]);
    hide Nested, FieldLines;
    if brace == OnItsLine {
      NestedBlock(SectionLine(section), inner, CloseLine);
    } else {
      NestedBlock(OpeningLine(""), inner, CloseLine);
      NestedConcat([SplitLine(section)], [OpeningLine("")] + inner + [CloseLine]);
      assert SectionTop(section, brace) + inner + [CloseLine]
          == [SplitLine(section)] + ([OpeningLine("")] + inner + [CloseLine]);
    }
  }

  lemma {:induction false} ItemIsNested(item: Item)
    ensures Nested(ItemLines(item))
    decreases item
  {
    hide Nested;
    match item {
      case Listed(section, brace, fields) => SectionIsNested(section, brace, fields);
      case Block(head, items) =>
        ItemsAreNested(items);
        NestedBlock(OpeningLine(head), ItemsLines(items), CloseLine);
      case Inner(m) =>
        BodyIsNested(m);
        NestedBlock(OpeningLine(""), MemberBody(m), CloseLine);
      case _ => NestedFlat(ItemLines(item));
    }
  }

  lemma {:induction false} ItemsAreNested(items: seq<Item>)
    ensures Nested(ItemsLines(items))
    decreases items
  {
    hide Nested, ItemLines;
    if items == [] {
      NestedFlat([]);
    } else {
      var init, last := items[..|items| - 1], items[|items| - 1];
      ItemsAreNested(init);
      ItemIsNested(last);
      NestedConcat(ItemsLines(init), ItemLines(last));
    }
  }

  /** The lines between the braces of a member. */
  function MemberBody(m: Member): seq<Line> {
    [NameLine(m.name), TypeLine(m.typeName)] + ItemsLines(m.items)
  }

  /** The braces of a member close where it ends, whatever its items nest. */
  lemma {:induction false} BodyIsNested(m: Member)
    ensures Nested(MemberBody(m))
    decreases m, 0
  {
    hide Nested, ItemsLines;
    ItemsAreNested(m.items);
    NestedFlat([NameLine(m.name), TypeLine(m.typeName)]);
    NestedConcat([NameLine(m.name), TypeLine(m.typeName)], ItemsLines(m.items));
  }

  lemma TableInnerIsNested(t: Table)
    ensures Nested(TableHeader(t) + ItemsLines(t.items))
  {
    NestedFlat(TableHeader(t));
    hide Nested, ItemsLines;
    ItemsAreNested(t.items);
    NestedConcat(TableHeader(t), ItemsLines(t.items));
  }
}
