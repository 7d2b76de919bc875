/** Which sections of a documentation table the parser sees: those whose brace stands
    on their own line. */
module GeneratedBraces {
  import opened Prelude
  import opened GeneratedApi
  import opened GeneratedPrint
  import opened GeneratedText
  import opened GeneratedTheorems

  predicate Mentions(item: Item, section: Section)
    decreases item
  {
    match item
    case Listed(s, _, _) => s == section
    case Absent(s, _) => s == section
    case Block(_, items) => exists i :: i in items && Mentions(i, section)
    case Inner(m) => exists i :: i in m.items && Mentions(i, section)
    case _ => false
  }

  lemma {:induction false} OthersDeclareNothing(before: Sections, item: Item, section: Section)
    requires !Mentions(item, section)
    ensures Params(Declare(before, item), section) == Params(before, section)
    decreases item
  {
    match item {
      case Block(_, items) => NoneDeclares(before, items, section);
      case Inner(m) => NoneDeclares(before, m.items, section);
      case _ =>
    }
  }

  lemma {:induction false} NoneDeclares(before: Sections, items: seq<Item>, section: Section)
    requires forall i :: i in items ==> !Mentions(i, section)
    ensures Params(DeclareAll(before, items), section) == Params(before, section)
    decreases items
  {
    hide Mentions, Declare;
    if items != [] {
      var init, last := items[..|items| - 1], items[|items| - 1];
      NoneDeclares(before, init, section);
      OthersDeclareNothing(DeclareAll(before, init), last, section);
    }
  }

  /** The k-th item is the only one about its section. */
  predicate Sole(items: seq<Item>, k: nat) {
    && k < |items| && items[k].Listed?
    && forall j :: 0 <= j < |items| && j != k ==> !Mentions(items[j], items[k].section)
  }

  /** The parameters of a section, if its brace is where the parser looks for it. */
  function Seen(item: Item): seq<Param>
    requires item.Listed?
  {
    match item.brace
    case OnItsLine => ParamsOf(item.fields)
    case OnNextLine => []
  }

  lemma {:induction false} SoleIsSeen(items: seq<Item>, k: nat)
    requires Sole(items, k)
    ensures Params(DeclareAll(map[], items), items[k].section) == Seen(items[k])
  {
    var n, section := |items| - 1, items[k].section;
    var init, last := items[..n], items[n];
    hide Mentions;
    if k == n {
      forall i | i in init ensures !Mentions(i, section) {
        var j :| 0 <= j < n && init[j] == i;
        assert items[j] == i;
      }
      NoneDeclares(map[], init, section);
      assert [] + ParamsOf(last.fields) == ParamsOf(last.fields);
    } else {
      assert init[k] == items[k];
      SoleIsSeen(init, k);
      hide DeclareAll, Declare, Params;
      OthersDeclareNothing(DeclareAll(map[], init), last, section);
      DeclareLast(items);
    }
  }

  lemma {:induction false} DeclareLast(items: seq<Item>)
    requires items != []
    ensures DeclareAll(map[], items) == Declare(DeclareAll(map[], items[..|items| - 1]), items[|items| - 1])
  {
  }

  /** Of a member that is printed with each section's brace on the section's line or on
      the next one, the parser has the parameters of a section if and only if its brace
      stands on its own line (or there are none). */
  lemma {:induction false} BraceDecides(lines: seq<string>, indents: seq<string>, m: Member, k: nat)
    requires PrintedAs(lines, indents, MemberRest(m)) && MemberNamed(m) && Sole(m.items, k)
    ensures var sections := ReadLines(NOTHING_READ, Map(lines, Scan)).sections;
            var item := m.items[k];
            && Params(sections, item.section) == Seen(item)
            && (Params(sections, item.section) == ParamsOf(item.fields) <==> item.brace.OnItsLine? || item.fields == [])
  {
    hide PrintedAs, Scan, AllOk, AllLook, Sole, ReadLines, DeclareAll, MemberNamed, Params;
    RestIsOk(m);
    TextLooks(lines, indents, MemberRest(m));
    RestIsRead(Map(lines, Scan), m);
    SoleIsSeen(m.items, k);
  }

  lemma {:induction false} RestIsOk(m: Member)
    requires MemberNamed(m)
    ensures AllOk(MemberRest(m))
  {
    hide MemberNamed, LineOk;
    MemberIsOk(m);
    assert MemberLines(m) == [OpeningLine("")] + MemberRest(m);
    forall i | 0 <= i < |MemberRest(m)| ensures LineOk(MemberRest(m)[i]) {
      assert MemberLines(m)[i + 1] == MemberRest(m)[i];
    }
  }

  /** What that means for the signature: the parameters are in it, or they are lost. */
  lemma SignatureHasSeen(m: Member, k: nat, name: string, kind: string)
    requires Sole(m.items, k)
    ensures var sections, seen := DeclareAll(map[], m.items), ParamsText(Seen(m.items[k]));
            var signature := Signature(sections, name, kind);
            match m.items[k].section {
              case Arguments => kind in {"function", "scriptobject"} ==> name + "(" + seen + ")" <= signature
              case Payload => kind == "event" ==> signature == name + "(" + seen + ")"
              case Returns => kind in {"function", "scriptobject"} ==>
                signature == name + "(" + ParamsText(Params(sections, Arguments)) + ")"
                             + if Seen(m.items[k]) == [] then "" else " -> " + seen
            }
  {
    hide Mentions, DeclareAll, Params, ParamsText, Signature;
    var sections := DeclareAll(map[], m.items);
    SoleIsSeen(m.items, k);
    if kind == "event" {
      EventSignature(sections, name, kind);
    } else if kind in {"function", "scriptobject"} {
      FunctionSignature(sections, name, kind);
    }
  }

  lemma FunctionSignature(sections: Sections, name: string, kind: string)
    requires kind in {"function", "scriptobject"}
    ensures Signature(sections, name, kind)
         == name + "(" + ParamsText(Params(sections, Arguments)) + ")"
            + if Params(sections, Returns) == [] then "" else " -> " + ParamsText(Params(sections, Returns))
  {
    hide ParamsText, Params;
  }

  lemma EventSignature(sections: Sections, name: string, kind: string)
    requires kind == "event"
    ensures Signature(sections, name, kind) == name + "(" + ParamsText(Params(sections, Payload)) + ")"
  {
    assert "event"[0] == 'e' && "function"[0] == 'f' && "scriptobject"[0] == 's';
    hide ParamsText, Params;
  }

  // ----- a signature that is lost -----

  const FIELD := Field(Param("a", "n", false), "", [], "")

  function ExampleMember(brace: Brace): Member {
    Member("F", "Function", [Listed(Arguments, brace, [FIELD])])
  }

  function ExampleTable(brace: Brace): Table {
    Table([], "X:Add(", "C", None, [Inner(ExampleMember(brace))], ")")
  }

  function Example(brace: Brace): Document {
    Document([ExampleTable(brace)], [])
  }

  lemma {:induction false} ItemsOfOne(item: Item)
    ensures ItemsLines([item]) == ItemLines(item)
  {
    assert [item][..0] == [] && ItemsLines([]) == [];
    assert [] + ItemLines(item) == ItemLines(item);
  }

  lemma TablesOfOne(t: Table)
    ensures TablesLines([t]) == LooseLines(t.above) + TableLines(t)
  {
    assert [t][..0] == [] && TablesLines([]) == [];
    assert [] + (LooseLines(t.above) + TableLines(t)) == LooseLines(t.above) + TableLines(t);
  }

  lemma ExampleSectionLines()
    ensures ItemsLines(ExampleMember(OnNextLine).items)
        == [SplitLine(Arguments), OpeningLine(""), FieldLine(FIELD), CloseLine]
  {
    ItemsOfOne(ExampleMember(OnNextLine).items[0]);
    assert FieldLines([FIELD]) == [FieldLine(FIELD)];
  }

  lemma ExampleMemberLines()
    ensures ItemsLines(ExampleTable(OnNextLine).items)
         == [OpeningLine(""), NameLine("F"), TypeLine("Function"), SplitLine(Arguments), OpeningLine(""),
             FieldLine(FIELD),
             CloseLine, CloseLine]
  {
    ExampleSectionLines();
    hide ItemsLines;
    ItemsOfOne(Inner(ExampleMember(OnNextLine)));
  }

  lemma ExampleLines()
    ensures DocumentLines(Example(OnNextLine))
         == [OpeningLine("X:Add("), NameLine("C"), TypeLine("System"), OpeningLine(""), NameLine("F"),
             TypeLine("Function"),
             SplitLine(Arguments), OpeningLine(""), FieldLine(FIELD), CloseLine, CloseLine, FootLine(")")]
  {
    ExampleMemberLines();
    hide ItemsLines, TablesLines;
    TablesOfOne(ExampleTable(OnNextLine));
    assert LooseLines([]) == [];
  }

  const EXAMPLE_TEXT := [
    "X:Add({", "Name = \"C\",", "Type = \"System\",", "{", "Name = \"F\",", "Type = \"Function\",",
    "Arguments =", "{", "{Name = \"a\", Type = \"n\", Nilable = false},", "},", "},", "})"]

  lemma ExampleNilableText()
    ensures NilableText(FIELD) == "Nilable = false},"
  {
    assert FlagText(false) + ("" + "},") == "false},";
    assert "Nilable" + (" = " + "false},") == "Nilable = false},";
  }

  lemma ExampleTypeText(more: string)
    ensures AttributeText("Type", InQuotes("n"), more) == "Type = \"n\", " + more
  {
    assert InQuotes("n") == "\"n\"";
    assert "Type" + (" = " + ("\"n\"" + (", " + more))) == "Type = \"n\", " + more;
  }

  lemma ExampleNameText(more: string)
    ensures "{" + ("" + AttributeText("Name", InQuotes("a"), more)) == "{Name = \"a\", " + more
  {
    assert InQuotes("a") == "\"a\"";
    assert "{" + ("" + ("Name" + (" = " + ("\"a\"" + (", " + more))))) == "{Name = \"a\", " + more;
  }

  lemma ExampleParts()
    ensures Text(FieldLine(FIELD)) == "{" + ("" + AttributeText("Name", InQuotes("a"), TypedText(FIELD)))
    ensures TypedText(FIELD) == AttributeText("Type", InQuotes("n"), NilableText(FIELD))
  {
    hide AttributeText, InQuotes, NilableText;
  }

  lemma Join3()
    ensures "{Name = \"a\", " + ("Type = \"n\", " + "Nilable = false},")
        == "{Name = \"a\", Type = \"n\", Nilable = false},"
  {
  }

  lemma ExampleFieldText()
    ensures Text(FieldLine(FIELD)) == "{Name = \"a\", Type = \"n\", Nilable = false},"
  {
    hide *;
    ExampleParts();
    ExampleNilableText();
    ExampleTypeText(NilableText(FIELD));
    ExampleNameText(TypedText(FIELD));
    Join3();
  }

  lemma ExampleNameTexts()
    ensures Text(NameLine("C")) == "Name = \"C\"," && Text(NameLine("F")) == "Name = \"F\","
  {
    assert InQuotes("C") + "," == "\"C\"," && InQuotes("F") + "," == "\"F\",";
  }

  lemma ExampleTypeTexts()
    ensures Text(TypeLine("System")) == "Type = \"System\","
  {
    assert InQuotes("System") + "," == "\"System\",";
  }

  lemma ExampleKindTexts()
    ensures Text(TypeLine("Function")) == "Type = \"Function\","
  {
    assert InQuotes("Function") + "," == "\"Function\",";
  }

  lemma ExampleBraceTexts()
    ensures Text(OpeningLine("X:Add(")) == "X:Add({" && Text(OpeningLine("")) == "{"
    ensures Text(SplitLine(Arguments)) == "Arguments =" && Text(CloseLine) == "}," && Text(FootLine(")")) == "})"
  {
  }

  lemma Unindented(text: seq<string>, printed: seq<Line>)
    requires |text| == |printed| && forall i :: 0 <= i < |text| ==> text[i] == Text(printed[i])
    ensures PrintedAs(text, seq(|text|, _ => ""), printed)
  {
    hide Text;
    forall i | 0 <= i < |text| ensures text[i] == "" + Text(printed[i]) {
    }
  }

  lemma ExamplePrinted()
    ensures PrintedAs(EXAMPLE_TEXT, seq(|EXAMPLE_TEXT|, _ => ""), DocumentLines(Example(OnNextLine)))
  {
    hide DocumentLines, Text, Indent, PrintedAs;
    ExampleLines();
    ExampleFieldText();
    ExampleNameTexts();
    ExampleTypeTexts();
    ExampleKindTexts();
    ExampleBraceTexts();
    Unindented(EXAMPLE_TEXT, DocumentLines(Example(OnNextLine)));
  }

  lemma ExampleIsOk(lower: string -> string)
    requires lower("Function") == "function"
    ensures TableOk(lower, ExampleTable(OnNextLine)) && TableNamed(ExampleTable(OnNextLine))
  {
    assert "function"[0] == 'f' && "system"[0] == 's';
    ExampleNames();
    ExampleHead();
    ExampleField();
    hide LineOk, IsName, FieldOk, Bare;
  }

  lemma ExampleNames()
    ensures IsName("C") && IsName("F") && IsName("Function") && IsName("a") && IsName("n") && Bare(")")
        && Balance("") == 0
  {
  }

  lemma ExampleHead()
    ensures LineOk(OpeningLine("X:Add("))
  {
    assert "X:Add({"[0] == 'X' && "X:Add(" + "{" == "X:Add({";
    OtherStart("X:Add({");
  }

  lemma ExampleField()
    ensures FieldOk(FIELD)
  {
    ExampleNames();
    hide IsName, Balance;
  }

  lemma OtherStart(s: string)
    requires s != "" && s[0] == 'X'
    ensures Unkeyed(s)
  {
    assert "Namespace"[0] == "Name"[0] == 'N' && "Type"[0] == 'T' && "LiteralName"[0] == 'L';
    assert "Arguments"[0] == 'A' && "Returns"[0] == 'R' && "Payload"[0] == 'P';
  }

  lemma ExampleExpected(lower: string -> string)
    requires lower("Function") == "function"
    ensures var found := Expected(lower, Example(OnNextLine).tables).symbols;
            |found| == 2 && found[1].name == "F" && found[1].signature == "C.F()"
  {
    var t := ExampleTable(OnNextLine);
    var at := 1 + |TableHeader(t)|;
    ExpectedTables(lower, t);
    ExpectedOfOne(lower, ExampleMember(OnNextLine), at);
    ExampleEntry(lower, at);
    hide ExpectedMember, ExpectedItems, EntryOf, Expected, TableLines;
  }

  lemma {:induction false} ExpectedTables(lower: string -> string, t: Table)
    requires t.above == []
    ensures Expected(lower, [t]) == ExpectedTable(lower, t, 0)
  {
    hide ExpectedTable;
    assert [t][..0] == [] && TablesLines([]) == [];
    NothingJoin(ExpectedTable(lower, t, 0));
  }

  lemma {:induction false} ExpectedOfOne(lower: string -> string, m: Member, at: nat)
    ensures ExpectedItems(lower, "C", [Inner(m)], at) == ExpectedMember(lower, "C", m, at)
  {
    hide ExpectedMember;
    assert [Inner(m)][..0] == [] && ItemsLines([]) == [];
  }

  lemma {:induction false} ExampleEntry(lower: string -> string, at: nat)
    requires lower("Function") == "function"
    ensures var found := ExpectedMember(lower, "C", ExampleMember(OnNextLine), at).symbols;
            |found| == 1 && found[0].name == "F" && found[0].signature == "C.F()"
  {
    var items := ExampleMember(OnNextLine).items;
    assert items[..0] == [] && DeclareAll(map[], items) == map[];
    assert ExpectedItems(lower, "C", items, at + 3) == NOTHING;
    assert Signature(map[], "C.F", "function") == "C.F()";
    assert "C" + "." + "F" == "C.F" && "function"[0] == 'f' && "event"[0] == 'e';
    hide Signature;
  }

  /** A function whose arguments have their brace on the next line is indexed without
      arguments. */
  lemma LostSignature(lower: string -> string)
    requires lower("System") == "system" && lower("Function") == "function"
    ensures var r := Parse(lower, Map(EXAMPLE_TEXT, Scan));
            r.Some? && |r.value.0| == 2 && r.value.0[1].name == "F" && r.value.0[1].signature == "C.F()"
  {
    ExampleIsOk(lower);
    ExamplePrinted();
    ExampleExpected(lower);
    hide Parse, Scan, PrintedAs, DocumentLines, TableOk, TableNamed, Expected, ExampleTable;
    ParseInvertsText(lower, EXAMPLE_TEXT, seq(|EXAMPLE_TEXT|, _ => ""), Example(OnNextLine));
  }
}
