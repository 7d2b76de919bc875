/** The text of documentation lines: what the parser's patterns take from a line, and
    that they take from a printed line what was printed. */
module GeneratedText {
  import opened Prelude
  import opened GeneratedApi
  import opened GeneratedPrint

  // ----- the patterns -----

  /** `\s` */
  predicate IsBlank(c: char) {
    c == ' ' || c == '\t' || c == '\n' || c == '\r' || c == '\U{000C}'
  }

  /** `\w` */
  predicate IsWord(c: char) {
    '0' <= c <= '9' || 'A' <= c <= 'Z' || 'a' <= c <= 'z' || c == '_'
  }

  predicate IsQuote(c: char) {
    c == '"' || c == '\''
  }

  function SkipBlanks(s: string): string {
    if s != "" && IsBlank(s[0]) then SkipBlanks(s[1..]) else s
  }

  function Unquoted(s: string): string {
    if s == "" || IsQuote(s[0]) then "" else [s[0]] + Unquoted(s[1..])
  }

  /** `["']([^"']+)["']` */
  function Quoted(s: string): Option<string> {
    if s == "" || !IsQuote(s[0]) then None
    else
      var value := Unquoted(s[1..]);
      if value == "" || |value| + 1 >= |s| then None else Some(value)
  }

  /** What follows `\s*=\s*`. */
  function AfterEquals(s: string): Option<string> {
    var t := SkipBlanks(s);
    if t == "" || t[0] != '=' then None else Some(SkipBlanks(t[1..]))
  }

  function Then<T, U>(o: Option<T>, f: T -> Option<U>): Option<U> {
    match o
    case None => None
    case Some(v) => f(v)
  }

  /** A key with its quoted value, at the start of a text. */
  function Assigned(s: string, key: string): Option<string> {
    if key <= s then Then(AfterEquals(s[|key|..]), Quoted) else None
  }

  function SectionName(section: Section): string {
    match section
    case Arguments => "Arguments"
    case Returns => "Returns"
    case Payload => "Payload"
  }

  function OpenOf(section: Section, s: string): Option<SectionStart> {
    if "nil" <= s then Some(SectionStart(section, true))
    else if s != "" && s[0] == '{' then Some(SectionStart(section, false))
    else None
  }

  function SectionOf(s: string, section: Section): Option<SectionStart> {
    if SectionName(section) <= s then Then(AfterEquals(s[|SectionName(section)|..]), (t: string) => OpenOf(section, t))
        else None
  }

  function SectionAt(s: string): Option<SectionStart> {
    if SectionOf(s, Arguments).Some? then SectionOf(s, Arguments)
    else if SectionOf(s, Returns).Some? then SectionOf(s, Returns)
    else SectionOf(s, Payload)
  }

  /** The first match of a pattern at a word boundary. */
  function Search<T>(s: string, inWord: bool, at: string -> Option<T>): Option<T> {
    if !inWord && at(s).Some? then at(s)
    else if s == "" then None
    else Search(s[1..], IsWord(s[0]), at)
  }

  function FlagOf(s: string): Option<bool> {
    if "true" <= s then Some(true) else if "false" <= s then Some(false) else None
  }

  function NilableAt(s: string): Option<bool> {
    if "Nilable" <= s then Then(AfterEquals(s[7..]), FlagOf) else None
  }

  function NameAt(s: string): Option<string> {
    Assigned(s, "Name")
  }

  function TypeAt(s: string): Option<string> {
    Assigned(s, "Type")
  }

  function FieldAt(s: string): Option<Param> {
    var name, valueType := Search(s, false, NameAt), Search(s, false, TypeAt);
    if name.None? || valueType.None? then None
    else Some(Param(name.value, valueType.value, Search(s, false, NilableAt) == Some(true)))
  }

  function Scan(text: string): Scanned {
    var s := SkipBlanks(text);
    Scanned(Assigned(s, "Namespace"), Assigned(s, "Name"), Assigned(s, "Type"), Assigned(s, "LiteralName"),
            SectionAt(s), FieldAt(text), Count(text, '{'), Count(text, '}'))
  }

  // ----- printed text -----

  predicate IsKey(s: string) {
    s != "" && forall i :: 0 <= i < |s| ==> IsWord(s[i])
  }

  /** A value that can stand in quotes. */
  predicate IsName(s: string) {
    s != "" && Bare(s) && forall i :: 0 <= i < |s| ==> !IsQuote(s[i]) && s[i] != '='
  }

  predicate Bare(s: string) {
    forall i :: 0 <= i < |s| ==> s[i] != '{' && s[i] != '}'
  }

  predicate Indent(s: string) {
    forall i :: 0 <= i < |s| ==> s[i] == ' ' || s[i] == '\t'
  }

  /** The braces a text opens more than it closes. */
  function Balance(s: string): int {
    Count(s, '{') - Count(s, '}')
  }

  /** A key, an equals sign and a text. */
  function KeyText(key: string, text: string): string {
    key + (" = " + text)
  }

  function InQuotes(v: string): string {
    "\"" + (v + "\"")
  }

  function AttributeText(key: string, value: string, more: string): string {
    KeyText(key, value + (", " + more))
  }

  function AttributesText(attributes: seq<Attribute>, more: string): string {
    if attributes == [] then more
    else AttributeText(attributes[0].key, attributes[0].value, AttributesText(attributes[1..], more))
  }

  function FlagText(nilable: bool): string {
    if nilable then "true" else "false"
  }

  function NilableText(f: Field): string {
    KeyText("Nilable", FlagText(f.param.nilable) + (f.rest + "},"))
  }

  function TypedText(f: Field): string {
    AttributeText("Type", InQuotes(f.param.valueType), AttributesText(f.attributes, NilableText(f)))
  }

  function NamedText(f: Field): string {
    AttributeText("Name", InQuotes(f.param.name), TypedText(f))
  }

  /** `{Name = "n", Type = "t", Nilable = true},` */
  function FieldText(f: Field): string {
    "{" + (f.gap + NamedText(f))
  }

  function Text(l: Line): string {
    match l
    case OpeningLine(head) => head + "{"
    case CloseLine => "},"
    case FootLine(tail) => "}" + tail
    case NameLine(v) => KeyText("Name", InQuotes(v) + ",")
    case TypeLine(v) => KeyText("Type", InQuotes(v) + ",")
    case LiteralLine(v) => KeyText("LiteralName", InQuotes(v) + ",")
    case NamespaceLine(v) => KeyText("Namespace", InQuotes(v) + ",")
    case SectionLine(section) => KeyText(SectionName(section), "{")
    case NilLine(section) => KeyText(SectionName(section), "nil,")
    case SplitLine(section) => SectionName(section) + " ="
    case FieldLine(f) => FieldText(f)
    case LooseLine(text) => text
  }

  // ----- which texts are meant -----

  /** The text starts with the key and an equals sign. */
  predicate Assigns(s: string, key: string) {
    key <= s && AfterEquals(s[|key|..]).Some?
  }

  /** The text starts with none of the keys of the parser. */
  predicate Unkeyed(s: string) {
    && !Assigns(s, "Namespace") && !Assigns(s, "Name") && !Assigns(s, "Type") && !Assigns(s, "LiteralName")
    && !Assigns(s, "Arguments") && !Assigns(s, "Returns") && !Assigns(s, "Payload")
  }

  predicate Flush(s: string) {
    s == "" || !IsBlank(s[0])
  }

  predicate AttributeOk(a: Attribute) {
    IsKey(a.key) && a.key != "Nilable" && '=' !in a.value && Balance(a.value) == 0
  }

  predicate FieldOk(f: Field) {
    && IsName(f.param.name) && IsName(f.param.valueType) && Indent(f.gap)
    && (forall a :: a in f.attributes ==> AttributeOk(a)) && Balance(f.rest) == 0
  }

  /** A loose line may be anything that is balanced and sets no key of the parser, and
      so may the text before a brace that has no braces itself. */
  predicate LineOk(l: Line) {
    match l
    case OpeningLine(head) => Flush(head) && Bare(head) && Unkeyed(head + "{")
    case FootLine(tail) => Bare(tail)
    case NameLine(v) => IsName(v)
    case TypeLine(v) => IsName(v)
    case LiteralLine(v) => IsName(v)
    case NamespaceLine(v) => IsName(v)
    case FieldLine(f) => FieldOk(f)
    case LooseLine(text) => Flush(text) && Unkeyed(text) && Balance(text) == 0
    case _ => true
  }

  // ----- indentation -----

  lemma {:induction false} BlanksSkipped(indent: string, s: string)
    requires Indent(indent)
    ensures SkipBlanks(indent + s) == SkipBlanks(s)
  {
    if indent == "" {
      assert indent + s == s;
    } else {
      assert (indent + s)[1..] == indent[1..] + s;
      BlanksSkipped(indent[1..], s);
    }
  }

  lemma {:induction false} IndentSearched<T>(indent: string, s: string, at: string -> Option<T>)
    requires Indent(indent) && forall t :: t != "" && IsBlank(t[0]) ==> at(t).None?
    ensures Search(indent + s, false, at) == Search(s, false, at)
  {
    if indent == "" {
      assert indent + s == s;
    } else {
      assert (indent + s)[1..] == indent[1..] + s;
      IndentSearched(indent[1..], s, at);
    }
  }

  lemma BlankStartsNothing(t: string)
    requires t != "" && IsBlank(t[0])
    ensures NameAt(t).None? && TypeAt(t).None? && NilableAt(t).None?
  {
    assert "Name"[0] == 'N' && "Type"[0] == 'T' && "Nilable"[0] == 'N';
  }

  /** However a line is indented, it is seen as if it were not. */
  lemma IndentDrops(indent: string, s: string)
    requires Indent(indent)
    ensures Scan(indent + s) == Scan(s)
  {
    BlanksSkipped(indent, s);
    forall t: string | t != "" && IsBlank(t[0]) ensures NameAt(t).None? && TypeAt(t).None? && NilableAt(t).None? {
      BlankStartsNothing(t);
    }
    IndentSearched(indent, s, NameAt);
    IndentSearched(indent, s, TypeAt);
    IndentSearched(indent, s, NilableAt);
    CountConcat(indent, s, '{');
    CountConcat(indent, s, '}');
    assert Count(indent, '{') == 0 && Count(indent, '}') == 0;
  }

  // ----- a key and its value -----

  lemma {:induction false} UnquotedName(v: string, rest: string)
    requires forall i :: 0 <= i < |v| ==> !IsQuote(v[i])
    requires rest != "" && IsQuote(rest[0])
    ensures Unquoted(v + rest) == v
  {
    if v == "" {
      assert v + rest == rest;
    } else {
      assert (v + rest)[1..] == v[1..] + rest;
      UnquotedName(v[1..], rest);
      assert v == [v[0]] + v[1..];
    }
  }

  lemma QuotedName(v: string, more: string)
    requires IsName(v)
    ensures Quoted(InQuotes(v) + more) == Some(v)
  {
    var s, rest := InQuotes(v) + more, "\"" + more;
    assert s[0] == '"' && s[1..] == v + rest && rest[0] == '"';
    UnquotedName(v, rest);
  }

  lemma {:induction false} SkipOne(c: char, s: string)
    requires IsBlank(c)
    ensures SkipBlanks([c] + s) == SkipBlanks(s)
  {
    assert ([c] + s)[1..] == s;
  }

  lemma EqualsSkipped(s: string)
    requires s != "" && !IsBlank(s[0])
    ensures AfterEquals(" = " + s) == Some(s)
  {
    var t := " = " + s;
    assert t == [' '] + ("= " + s);
    SkipOne(' ', "= " + s);
    assert ("= " + s)[0] == '=' && ("= " + s)[1..] == [' '] + s;
    SkipOne(' ', s);
  }

  lemma AssignedText(key: string, v: string, more: string)
    requires IsName(v)
    ensures Assigned(KeyText(key, InQuotes(v) + more), key) == Some(v)
  {
    var quoted := InQuotes(v) + more;
    var s := KeyText(key, quoted);
    assert key <= s && s[|key|..] == " = " + quoted;
    assert quoted[0] == '"';
    EqualsSkipped(quoted);
    QuotedName(v, more);
  }

  /** What is no assignment is seen by no pattern. */
  lemma NotAssigned(s: string, key: string)
    requires !Assigns(s, key)
    ensures Assigned(s, key) == None
  {
  }

  lemma NoSection(s: string)
    requires !Assigns(s, "Arguments") && !Assigns(s, "Returns") && !Assigns(s, "Payload")
    ensures SectionAt(s) == None
  {
  }

  /** A key that is followed by a blank is no other key. */
  lemma OtherKey(key: string, more: string, other: string)
    requires IsKey(key) && IsKey(other) && key != other && more != "" && more[0] == ' '
    ensures !Assigns(key + more, other)
  {
    var s := key + more;
    if |other| > |key| {
      assert s[|key|] == ' ' && IsWord(other[|key|]);
    } else if other <= s && |other| < |key| {
      assert s[|other|..][0] == key[|other|];
      assert SkipBlanks(s[|other|..]) == s[|other|..];
    }
  }

  lemma KeysAreKeys()
    ensures IsKey("Namespace") && IsKey("Name") && IsKey("Type") && IsKey("LiteralName") && IsKey("Nilable")
    ensures forall section :: IsKey(SectionName(section))
  {
  }

  lemma KeysDiffer()
    ensures "Name" != "Namespace" && "Name" != "Type" && "Name" != "LiteralName" && "Name" != "Nilable"
    ensures "Type" != "Namespace" && "Type" != "LiteralName" && "Type" != "Nilable" && "Namespace" != "LiteralName"
    ensures "Namespace" != "Arguments" && "Namespace" != "Returns" && "Namespace" != "Payload"
    ensures "Name" != "Arguments" && "Name" != "Returns" && "Name" != "Payload"
    ensures "Type" != "Arguments" && "Type" != "Returns" && "Type" != "Payload"
    ensures "LiteralName" != "Arguments" && "LiteralName" != "Returns" && "LiteralName" != "Payload"
    ensures "Arguments" != "Returns" && "Arguments" != "Payload" && "Returns" != "Payload"
  {
    assert "Namespace"[0] == 'N' && "Name"[0] == 'N' && "Type"[0] == 'T' && "LiteralName"[0] == 'L';
    assert "Nilable"[1] == 'i' && "Arguments"[0] == 'A' && "Returns"[0] == 'R' && "Payload"[0] == 'P';
  }

  /** What the patterns at the start of a line take from it. */
  ghost predicate Keys(s: string, namespace: Option<string>, name: Option<string>, typeName: Option<string>,
        literal: Option<string>, section: Option<SectionStart>) {
    && Assigned(s, "Namespace") == namespace && Assigned(s, "Name") == name && Assigned(s, "Type") == typeName
    && Assigned(s, "LiteralName") == literal && SectionAt(s) == section
  }

  lemma UnkeyedKeys(s: string)
    requires Unkeyed(s)
    ensures Keys(s, None, None, None, None, None)
  {
    NoSection(s);
  }

  /** The text of a key that is not one of the parser's. */
  lemma OtherKeyUnkeyed(key: string, more: string)
    requires IsKey(key) && more != "" && more[0] == ' '
    requires key !in {"Namespace", "Name", "Type", "LiteralName", "Arguments", "Returns", "Payload"}
    ensures Unkeyed(key + more)
  {
    KeysAreKeys();
    assert IsKey(SectionName(Arguments)) && IsKey(SectionName(Returns)) && IsKey(SectionName(Payload));
    hide Assigns, IsKey;
    OtherKey(key, more, "Namespace");
    OtherKey(key, more, "Name");
    OtherKey(key, more, "Type");
    OtherKey(key, more, "LiteralName");
    OtherKey(key, more, "Arguments");
    OtherKey(key, more, "Returns");
    OtherKey(key, more, "Payload");
  }

  datatype NameKey = Namespace | Name | Type | LiteralName

  function NameKeyText(k: NameKey): string {
    match k
    case Namespace => "Namespace"
    case Name => "Name"
    case Type => "Type"
    case LiteralName => "LiteralName"
  }

  lemma NameKeys(k: NameKey, v: string, more: string)
    requires IsName(v)
    ensures Keys(KeyText(NameKeyText(k), InQuotes(v) + more), if k == Namespace then Some(v) else None,
                 if k == Name then Some(v) else None, if k == Type then Some(v) else None,
                 if k == LiteralName then Some(v) else None, None)
  {
    var key := NameKeyText(k);
    var rest := " = " + (InQuotes(v) + more);
    var s := key + rest;
    AssignedText(key, v, more);
    KeysAreKeys();
    KeysDiffer();
    assert IsKey(SectionName(Arguments)) && IsKey(SectionName(Returns)) && IsKey(SectionName(Payload));
    hide Assigns, Assigned, IsKey, SectionAt, InQuotes;
    OtherKey(key, rest, "Arguments");
    OtherKey(key, rest, "Returns");
    OtherKey(key, rest, "Payload");
    NoSection(s);
    if k != Namespace { OtherKey(key, rest, "Namespace"); NotAssigned(s, "Namespace"); }
    if k != Name { OtherKey(key, rest, "Name"); NotAssigned(s, "Name"); }
    if k != Type { OtherKey(key, rest, "Type"); NotAssigned(s, "Type"); }
    if k != LiteralName { OtherKey(key, rest, "LiteralName"); NotAssigned(s, "LiteralName"); }
  }

  /** A line that starts with a section, whatever follows its key. */
  lemma SectionKeys(section: Section, more: string)
    requires more != "" && more[0] == ' '
    ensures var s := SectionName(section) + more;
            Keys(s, None, None, None, None, SectionOf(s, section))
  {
    var key := SectionName(section);
    var s := key + more;
    KeysAreKeys();
    KeysDiffer();
    assert IsKey(SectionName(Arguments)) && IsKey(SectionName(Returns)) && IsKey(SectionName(Payload));
    hide Assigns, Assigned, IsKey, AfterEquals;
    OtherKey(key, more, "Namespace");
    OtherKey(key, more, "Name");
    OtherKey(key, more, "Type");
    OtherKey(key, more, "LiteralName");
    NotAssigned(s, "Namespace");
    NotAssigned(s, "Name");
    NotAssigned(s, "Type");
    NotAssigned(s, "LiteralName");
    forall other | other != section ensures SectionOf(s, other) == None {
      OtherKey(key, more, SectionName(other));
      NoSuchSection(s, other);
    }
  }

  lemma NoSuchSection(s: string, section: Section)
    requires !Assigns(s, SectionName(section))
    ensures SectionOf(s, section) == None
  {
  }

  lemma OpenedSection(section: Section, empty: bool)
    ensures SectionOf(KeyText(SectionName(section), SectionRest(empty)), section) == Some(SectionStart(section, empty))
  {
    var name, rest := SectionName(section), SectionRest(empty);
    var s := KeyText(name, rest);
    assert name <= s && s[|name|..] == " = " + rest;
    assert rest[0] == if empty then 'n' else '{';
    EqualsSkipped(rest);
    assert empty ==> rest[..3] == "nil";
    assert !empty ==> "nil"[0] != rest[0];
  }

  /** Nothing follows the equals sign: no brace, and no `nil`. */
  lemma SplitSection(section: Section)
    ensures SectionOf(SectionName(section) + " =", section) == None
  {
    var name := SectionName(section);
    var s := name + " =";
    assert name <= s && s[|name|..] == " =";
    SkipOne(' ', "=");
    assert [' '] + "=" == " =" && "="[1..] == "" && SkipBlanks("=") == "=" && SkipBlanks("") == "";
    assert AfterEquals(" =") == Some("");
  }

  // ----- braces -----

  lemma BareBalance(s: string)
    requires Bare(s)
    ensures Count(s, '{') == 0 && Count(s, '}') == 0 && Balance(s) == 0
  {
  }

  lemma BalanceConcat(a: string, b: string)
    ensures Balance(a + b) == Balance(a) + Balance(b)
    ensures Count(a + b, '{') == Count(a, '{') + Count(b, '{')
  {
    CountConcat(a, b, '{');
    CountConcat(a, b, '}');
  }

  lemma KeyBalance(key: string, text: string)
    requires Bare(key)
    ensures Balance(KeyText(key, text)) == Balance(text)
    ensures Count(KeyText(key, text), '{') == Count(text, '{')
  {
    BareBalance(key);
    BareBalance(" = ");
    hide Balance, Bare, Count;
    BalanceConcat(" = ", text);
    BalanceConcat(key, " = " + text);
  }

  lemma QuotesBalance(v: string, more: string)
    requires IsName(v)
    ensures Balance(InQuotes(v) + more) == Balance(more) && Count(InQuotes(v) + more, '{') == Count(more, '{')
    ensures Balance(InQuotes(v)) == 0
  {
    assert Bare(InQuotes(v));
    BareBalance(InQuotes(v));
    BalanceConcat(InQuotes(v), more);
  }

  lemma AttributeBalance(key: string, value: string, more: string)
    requires IsKey(key) && Balance(value) == 0
    ensures Balance(AttributeText(key, value, more)) == Balance(more)
  {
    assert Bare(key);
    BareBalance(", ");
    hide Balance, Bare, IsKey;
    KeyBalance(key, value + (", " + more));
    BalanceConcat(value, ", " + more);
    BalanceConcat(", ", more);
  }

  lemma {:induction false} AttributesBalance(attributes: seq<Attribute>, more: string)
    requires forall a :: a in attributes ==> AttributeOk(a)
    ensures Balance(AttributesText(attributes, more)) == Balance(more)
  {
    hide Balance;
    if attributes != [] {
      AttributesBalance(attributes[1..], more);
      assert AttributeOk(attributes[0]);
      AttributeBalance(attributes[0].key, attributes[0].value, AttributesText(attributes[1..], more));
    }
  }

  lemma SmallBalances()
    ensures Balance("{") == 1 && Balance("}") == -1 && Balance("},") == -1 && Balance("nil,") == 0
    ensures Count("{", '{') == 1 && Count("nil,", '{') == 0
  {
  }

  lemma FlagBalance(nilable: bool)
    ensures Balance(FlagText(nilable)) == 0
  {
    BareBalance(FlagText(nilable));
  }

  lemma KeysAreBare(section: Section)
    ensures Bare("Nilable") && Bare("Name") && Bare("Type") && Bare(SectionName(section))
  {
  }

  lemma NilableIs(f: Field)
    ensures NilableText(f) == KeyText("Nilable", FlagText(f.param.nilable) + (f.rest + "},"))
  {
  }

  lemma NilableBalance(f: Field)
    requires Balance(f.rest) == 0
    ensures Balance(NilableText(f)) == -1
  {
    hide *;
    var flag := FlagText(f.param.nilable);
    NilableIs(f);
    SmallBalances();
    KeysAreBare(Arguments);
    FlagBalance(f.param.nilable);
    BalanceConcat(f.rest, "},");
    BalanceConcat(flag, f.rest + "},");
    KeyBalance("Nilable", flag + (f.rest + "},"));
  }

  lemma TypedBalance(f: Field)
    requires FieldOk(f)
    ensures Balance(TypedText(f)) == -1
  {
    NilableBalance(f);
    AttributesBalance(f.attributes, NilableText(f));
    KeysAreKeys();
    hide Balance, IsKey, AttributesText, NilableText, AttributeText, InQuotes;
    QuotesBalance(f.param.valueType, "");
    AttributeBalance("Type", InQuotes(f.param.valueType), AttributesText(f.attributes, NilableText(f)));
  }

  lemma NamedBalance(f: Field)
    requires FieldOk(f)
    ensures Balance(NamedText(f)) == -1
  {
    TypedBalance(f);
    KeysAreKeys();
    hide Balance, IsKey, TypedText, AttributeText, InQuotes;
    QuotesBalance(f.param.name, "");
    AttributeBalance("Name", InQuotes(f.param.name), TypedText(f));
  }

  lemma GapBalance(f: Field)
    requires FieldOk(f)
    ensures Balance(f.gap) == 0
  {
    assert Indent(f.gap);
    hide FieldOk, Balance;
    BareBalance(f.gap);
  }

  lemma FieldIs(f: Field)
    ensures FieldText(f) == "{" + (f.gap + NamedText(f))
  {
  }

  lemma FieldBalance(f: Field)
    requires FieldOk(f)
    ensures Balance(FieldText(f)) == 0
  {
    hide *;
    NamedBalance(f);
    FieldIs(f);
    GapBalance(f);
    SmallBalances();
    BalanceConcat(f.gap, NamedText(f));
    BalanceConcat("{", f.gap + NamedText(f));
  }

  // ----- the field of a parameter -----

  /** The pattern needs a key and an equals sign behind it. */
  ghost predicate Keyed<T>(at: string -> Option<T>, key: string) {
    forall t :: at(t).Some? ==> Assigns(t, key)
  }

  lemma PatternsAreKeyed()
    ensures Keyed(NameAt, "Name") && Keyed(TypeAt, "Type") && Keyed(NilableAt, "Nilable")
  {
  }

  /** A pattern does not match where its first letter does not stand. */
  lemma {:induction false} SearchPast<T>(a: string, s: string, inWord: bool, at: string -> Option<T>, key: string)
    requires Keyed(at, key) && key != "" && a != "" && key[0] !in a
    ensures Search(a + s, inWord, at) == Search(s, IsWord(a[|a| - 1]), at)
  {
    var t := a + s;
    assert t[0] == a[0] && t[1..] == a[1..] + s;
    assert at(t).None? by {
      assert !(key <= t);
    }
    if a[1..] == "" {
      assert a[1..] + s == s;
    } else {
      SearchPast(a[1..], s, IsWord(a[0]), at, key);
    }
  }

  /** Within a word no pattern is tried. */
  lemma {:induction false} SearchInWord<T>(v: string, s: string, at: string -> Option<T>)
    requires forall i :: 0 <= i < |v| ==> IsWord(v[i])
    ensures Search(v + s, true, at) == Search(s, true, at) || (v + s == "" && v == "")
  {
    if v == "" {
      assert v + s == s;
    } else {
      assert (v + s)[1..] == v[1..] + s;
      SearchInWord(v[1..], s, at);
    }
  }

  /** No equals sign comes before the comma. */
  lemma {:induction false} NoEqualsBefore(v: string, rest: string)
    requires '=' !in v && rest != "" && rest[0] == ','
    ensures AfterEquals(v + rest).None?
  {
    var t := v + rest;
    if v == "" {
      assert t == rest && SkipBlanks(rest) == rest;
    } else if IsBlank(v[0]) {
      assert t[1..] == v[1..] + rest;
      NoEqualsBefore(v[1..], rest);
    } else {
      assert SkipBlanks(t) == t && t[0] == v[0] && v[0] in v;
    }
  }

  lemma NoMatchInValue<T>(v: string, rest: string, at: string -> Option<T>, key: string)
    requires Keyed(at, key) && IsKey(key) && '=' !in v && rest != "" && rest[0] == ','
    ensures at(v + rest).None?
  {
    var t := v + rest;
    if |key| > |v| {
      assert t[|v|] == ',' && IsWord(key[|v|]);
    } else if key <= t {
      assert t[|key|..] == v[|key|..] + rest;
      NoEqualsBefore(v[|key|..], rest);
    }
  }

  /** A value is passed over. */
  lemma {:induction false} SearchValue<T>(v: string, rest: string, inWord: bool, at: string -> Option<T>, key: string)
      returns (w: bool)
    requires Keyed(at, key) && IsKey(key) && '=' !in v && rest != "" && rest[0] == ','
    ensures Search(v + rest, inWord, at) == Search(rest, w, at)
    decreases |v|
  {
    if v == "" {
      assert v + rest == rest;
      w := inWord;
    } else {
      NoMatchInValue(v, rest, at, key);
      assert (v + rest)[1..] == v[1..] + rest && '=' !in v[1..];
      w := SearchValue(v[1..], rest, IsWord(v[0]), at, key);
    }
  }

  /** An attribute with another key is passed over. */
  lemma {:induction false} SkipAttribute<T>(key: string, value: string, more: string, at: string -> Option<T>,
        wanted: string)
    requires Keyed(at, wanted) && IsKey(wanted) && IsKey(key) && key != wanted && '=' !in value
    ensures Search(AttributeText(key, value, more), false, at) == Search(more, false, at)
  {
    var rest := ", " + more;
    var tail := " = " + (value + rest);
    var s := key + tail;
    OtherKey(key, tail, wanted);
    assert at(s).None?;
    assert s[1..] == key[1..] + tail;
    SearchInWord(key[1..], tail, at);
    SearchPast(" = ", value + rest, true, at, wanted);
    var w := SearchValue(value, rest, false, at, wanted);
    SearchPast(", ", more, w, at, wanted);
  }

  lemma {:induction false} SkipAttributes<T>(attributes: seq<Attribute>, more: string, at: string -> Option<T>)
    requires Keyed(at, "Nilable") && forall a :: a in attributes ==> AttributeOk(a)
    ensures Search(AttributesText(attributes, more), false, at) == Search(more, false, at)
  {
    if attributes != [] {
      var a := attributes[0];
      KeysAreKeys();
      assert AttributeOk(a);
      hide IsKey, Search, Keyed;
      SkipAttribute(a.key, a.value, AttributesText(attributes[1..], more), at, "Nilable");
      SkipAttributes(attributes[1..], more, at);
    }
  }

  lemma {:induction false} SearchFound<T>(s: string, at: string -> Option<T>)
    requires at(s).Some?
    ensures Search(s, false, at) == at(s)
  {
  }

  lemma FlagFound(f: Field)
    ensures NilableAt(NilableText(f)) == Some(f.param.nilable)
  {
    var flag := FlagText(f.param.nilable) + (f.rest + "},");
    var s := KeyText("Nilable", flag);
    assert flag[0] == (if f.param.nilable then 't' else 'f');
    assert "Nilable" <= s && s[7..] == " = " + flag;
    EqualsSkipped(flag);
    assert f.param.nilable ==> flag[..4] == "true";
    assert !f.param.nilable ==> flag[..5] == "false" && "true"[0] == 't';
  }

  lemma QuotesHaveNoEquals(v: string)
    requires IsName(v)
    ensures '=' !in InQuotes(v)
  {
  }

  /** Nothing is found before the first attribute. */
  lemma SearchField<T>(f: Field, at: string -> Option<T>, key: string)
    requires Keyed(at, key) && IsKey(key) && Indent(f.gap)
    ensures Search(FieldText(f), false, at)
         == Search(NamedText(f), false, at)
  {
    var s := NamedText(f);
    assert FieldText(f) == ("{" + f.gap) + s;
    assert !IsWord('{') && !IsWord(' ') && !IsWord('\t');
    SearchPast("{" + f.gap, s, false, at, key);
  }

  lemma NameFound(f: Field)
    requires FieldOk(f)
    ensures Search(FieldText(f), false, NameAt) == Some(f.param.name)
  {
    PatternsAreKeyed();
    KeysAreKeys();
    SearchField(f, NameAt, "Name");
    AssignedText("Name", f.param.name, ", " + TypedText(f));
    SearchFound(AttributeText("Name", InQuotes(f.param.name), TypedText(f)), NameAt);
  }

  lemma TypeFound(f: Field)
    requires FieldOk(f)
    ensures Search(FieldText(f), false, TypeAt) == Some(f.param.valueType)
  {
    PatternsAreKeyed();
    KeysAreKeys();
    KeysDiffer();
    QuotesHaveNoEquals(f.param.name);
    hide Search, Keyed, IsKey, TypedText, InQuotes;
    SearchField(f, TypeAt, "Type");
    SkipAttribute("Name", InQuotes(f.param.name), TypedText(f), TypeAt, "Type");
    var rest := AttributesText(f.attributes, NilableText(f));
    TypedFound(f.param.valueType, rest);
    assert TypedText(f) == AttributeText("Type", InQuotes(f.param.valueType), rest) by { TypedIs(f); }
  }

  lemma TypedIs(f: Field)
    ensures TypedText(f)
        == AttributeText("Type", InQuotes(f.param.valueType), AttributesText(f.attributes, NilableText(f)))
  {
  }

  lemma TypedFound(v: string, more: string)
    requires IsName(v)
    ensures Search(AttributeText("Type", InQuotes(v), more), false, TypeAt) == Some(v)
  {
    AssignedText("Type", v, ", " + more);
    SearchFound(AttributeText("Type", InQuotes(v), more), TypeAt);
  }

  lemma NilableFound(f: Field)
    requires FieldOk(f)
    ensures Search(FieldText(f), false, NilableAt) == Some(f.param.nilable)
  {
    PatternsAreKeyed();
    KeysAreKeys();
    KeysDiffer();
    QuotesHaveNoEquals(f.param.name);
    QuotesHaveNoEquals(f.param.valueType);
    TypedIs(f);
    hide Search, Keyed, IsKey, TypedText, InQuotes, NilableText, NilableAt, AttributesText;
    SearchField(f, NilableAt, "Nilable");
    SkipAttribute("Name", InQuotes(f.param.name), TypedText(f), NilableAt, "Nilable");
    var rest := AttributesText(f.attributes, NilableText(f));
    SkipAttribute("Type", InQuotes(f.param.valueType), rest, NilableAt, "Nilable");
    SkipAttributes(f.attributes, NilableText(f), NilableAt);
    FlagFound(f);
    SearchFound(NilableText(f), NilableAt);
  }

  /** A parameter is read with its name, its type and whether it may be nil, whatever
      attributes stand beside them. */
  lemma FieldFound(f: Field)
    requires FieldOk(f)
    ensures FieldAt(FieldText(f)) == Some(f.param)
  {
    NameFound(f);
    TypeFound(f);
    NilableFound(f);
    hide Search, FieldText;
  }

  lemma NoField()
    ensures FieldAt("},") == None
  {
    PatternsAreKeyed();
    assert "}," + "" == "},";
    SearchPast("},", "", false, NameAt, "Name");
    assert NameAt("").None?;
  }

  // ----- every line -----

  /** What the patterns take from a text without blanks before it, its field and its
      braces decide how it is seen. */
  lemma SeenAs(s: string, l: Line, k: Scanned)
    requires Flush(s) && Keys(s, k.namespace, k.name, k.typeName, k.literal, k.section)
    requires k.opens == Count(s, '{') && k.closes == Count(s, '}') && k.field == FieldAt(s) && Looks(k, l)
    ensures Looks(Scan(s), l)
  {
    assert SkipBlanks(s) == s;
    assert Scan(s) == k;
  }

  lemma KeyIsFlush(key: string, more: string)
    requires IsKey(key)
    ensures Flush(key + more)
  {
    assert (key + more)[0] == key[0];
  }

  lemma NameLooks(k: NameKey, v: string, l: Line)
    requires IsName(v)
    requires l == match k { case Namespace => NamespaceLine(v) case Name => NameLine(v)
                            case Type => TypeLine(v) case LiteralName => LiteralLine(v) }
    ensures Looks(Scan(KeyText(NameKeyText(k), InQuotes(v) + ",")), l)
  {
    hide *;
    var s := KeyText(NameKeyText(k), InQuotes(v) + ",");
    var seen := Scanned(if k == Namespace then Some(v) else None, if k == Name then Some(v) else None,
                        if k == Type then Some(v) else None, if k == LiteralName then Some(v) else None, None,
                        FieldAt(s), Count(s, '{'), Count(s, '}'));
    NameKeys(k, v, ",");
    NameBraces(k, v);
    NameSeen(k, v, l, seen);
    SeenAs(s, l, seen);
  }

  lemma NameSeen(k: NameKey, v: string, l: Line, seen: Scanned)
    requires l == match k { case Namespace => NamespaceLine(v) case Name => NameLine(v)
                            case Type => TypeLine(v) case LiteralName => LiteralLine(v) }
    requires seen == Scanned(if k == Namespace then Some(v) else None, if k == Name then Some(v) else None,
                             if k == Type then Some(v) else None, if k == LiteralName then Some(v) else None, None,
                             seen.field, 0, 0)
    ensures Looks(seen, l)
  {
  }

  lemma NameBraces(k: NameKey, v: string)
    requires IsName(v)
    ensures var s := KeyText(NameKeyText(k), InQuotes(v) + ",");
            Flush(s) && Count(s, '{') == 0 && Count(s, '}') == 0
  {
    hide *;
    var key, quoted := NameKeyText(k), InQuotes(v) + ",";
    NameKeyStarts(k);
    CommaIsBare();
    QuotesBalance(v, ",");
    KeyBalance(key, quoted);
    KeyTextIs(key, quoted);
    KeyIsFlush(key, " = " + quoted);
    BalanceIs(KeyText(key, quoted));
  }

  lemma CommaIsBare()
    ensures Balance(",") == 0 && Count(",", '{') == 0
  {
  }

  lemma KeyTextIs(key: string, text: string)
    ensures KeyText(key, text) == key + (" = " + text)
  {
  }

  lemma BalanceIs(s: string)
    ensures Balance(s) == Count(s, '{') - Count(s, '}')
  {
  }

  lemma NameKeyStarts(k: NameKey)
    ensures Bare(NameKeyText(k)) && IsKey(NameKeyText(k))
  {
  }

  lemma SectionStarts(section: Section)
    ensures Bare(SectionName(section)) && IsKey(SectionName(section))
  {
  }

  function SectionRest(empty: bool): string {
    if empty then "nil," else "{"
  }

  /** A section is seen with its brace or its `nil` on its own line. */
  lemma SectionLooks(section: Section, empty: bool)
    ensures Looks(Scan(KeyText(SectionName(section), SectionRest(empty))),
        if empty then NilLine(section) else SectionLine(section))
  {
    hide *;
    var s := KeyText(SectionName(section), SectionRest(empty));
    var k := Scanned(None, None, None, None, Some(SectionStart(section, empty)), FieldAt(s), Count(s, '{'),
        Count(s, '}'));
    SectionKeys(section, " = " + SectionRest(empty));
    KeyTextIs(SectionName(section), SectionRest(empty));
    OpenedSection(section, empty);
    SectionBraces(section, empty);
    BalanceIs(s);
    SectionSeen(section, empty, k);
    SeenAs(s, if empty then NilLine(section) else SectionLine(section), k);
  }

  lemma SectionSeen(section: Section, empty: bool, k: Scanned)
    requires k.opens - k.closes == (if empty then 0 else 1) && k.opens == if empty then 0 else 1
    requires k == Scanned(None, None, None, None, Some(SectionStart(section, empty)), k.field, k.opens, k.closes)
    ensures Looks(k, if empty then NilLine(section) else SectionLine(section))
  {
  }

  lemma SectionBraces(section: Section, empty: bool)
    ensures var s := KeyText(SectionName(section), SectionRest(empty));
            && Flush(s) && Balance(s) == (if empty then 0 else 1) && Count(s, '{') == if empty then 0 else 1
  {
    SmallBalances();
    SectionStarts(section);
    KeyIsFlush(SectionName(section), " = " + SectionRest(empty));
    hide Count, SectionName, Balance, Bare, IsKey;
    KeyBalance(SectionName(section), SectionRest(empty));
  }

  /** A section whose brace or `nil` stands on the next line is not seen. */
  lemma SplitLooks(section: Section)
    ensures Looks(Scan(SectionName(section) + " ="), SplitLine(section))
  {
    hide *;
    var s := SectionName(section) + " =";
    var k := Scanned(None, None, None, None, None, FieldAt(s), Count(s, '{'), Count(s, '}'));
    SplitBraces(section);
    SplitSection(section);
    SectionKeys(section, " =");
    SplitSeen(section, k);
    SeenAs(s, SplitLine(section), k);
  }

  lemma SplitSeen(section: Section, k: Scanned)
    requires k == Scanned(None, None, None, None, None, k.field, k.opens, k.closes) && k.opens == k.closes
    ensures Looks(k, SplitLine(section))
  {
  }

  lemma SplitBraces(section: Section)
    ensures var s := SectionName(section) + " ="; Flush(s) && Count(s, '{') == Count(s, '}')
  {
    hide *;
    SectionStarts(section);
    EqualsIsBare();
    BareBalance(SectionName(section));
    KeyIsFlush(SectionName(section), " =");
    BalanceConcat(SectionName(section), " =");
    BalanceIs(SectionName(section) + " =");
  }

  lemma EqualsIsBare()
    ensures Balance(" =") == 0
  {
  }

  lemma UnkeyedLooks(s: string, l: Line)
    requires Flush(s) && Unkeyed(s) && Balance(s) == Turn(l) && (Turn(l) == 1 ==> Count(s, '{') > 0)
    requires l.OpeningLine? || l.LooseLine? || l.FootLine? || (l.CloseLine? && FieldAt(s) == None)
          || (l.FieldLine? && FieldAt(s) == Some(l.field.param))
    ensures Looks(Scan(s), l)
  {
    UnkeyedKeys(s);
    hide FieldAt, Keys, Count, Unkeyed;
    SeenAs(s, l, Scanned(None, None, None, None, None, FieldAt(s), Count(s, '{'), Count(s, '}')));
  }

  lemma BraceUnkeyed(s: string)
    requires s != "" && s[0] in ['{', '}']
    ensures Unkeyed(s)
  {
    assert "Namespace"[0] == "Name"[0] == 'N' && "Type"[0] == 'T' && "LiteralName"[0] == 'L';
    assert "Arguments"[0] == 'A' && "Returns"[0] == 'R' && "Payload"[0] == 'P';
  }

  lemma OpeningLooks(head: string)
    requires LineOk(OpeningLine(head))
    ensures Looks(Scan(head + "{"), OpeningLine(head))
  {
    var s := head + "{";
    BareBalance(head);
    BalanceConcat(head, "{");
    assert Balance("{") == 1 && Count("{", '{') == 1;
    assert Flush(s);
    hide Unkeyed, Balance, Count;
    UnkeyedLooks(s, OpeningLine(head));
  }

  lemma FootLooks(tail: string)
    requires Bare(tail)
    ensures Looks(Scan("}" + tail), FootLine(tail))
  {
    var s := "}" + tail;
    BareBalance(tail);
    BalanceConcat("}", tail);
    assert Balance("}") == -1;
    assert s[0] == '}';
    BraceUnkeyed(s);
    hide Unkeyed, Balance;
    UnkeyedLooks(s, FootLine(tail));
  }

  lemma CloseLooks()
    ensures Looks(Scan("},"), CloseLine)
  {
    assert Balance("},") == -1 && "},"[0] == '}';
    BraceUnkeyed("},");
    NoField();
    hide Unkeyed, Balance;
    UnkeyedLooks("},", CloseLine);
  }

  lemma FieldLooks(f: Field)
    requires FieldOk(f)
    ensures Looks(Scan(FieldText(f)), FieldLine(f))
  {
    hide *;
    FieldTurns(f);
    FieldStarts(f);
    FieldFound(f);
    FieldBalance(f);
    UnkeyedLooks(FieldText(f), FieldLine(f));
  }

  lemma FieldTurns(f: Field)
    ensures Turn(FieldLine(f)) == 0
  {
  }

  lemma FieldStarts(f: Field)
    ensures Flush(FieldText(f)) && Unkeyed(FieldText(f))
  {
    hide NamedText;
    BraceUnkeyed(FieldText(f));
  }

  /** Every printed line, however it is indented, is seen as what was printed. */
  lemma PrintedLooks(l: Line, indent: string)
    requires LineOk(l) && Indent(indent)
    ensures Looks(Scan(indent + Text(l)), l)
  {
    hide Scan, Looks, IsName, Bare, Unkeyed, FieldOk;
    IndentDrops(indent, Text(l));
    match l {
      case OpeningLine(head) => OpeningLooks(head);
      case CloseLine => CloseLooks();
      case FootLine(tail) => FootLooks(tail);
      case NameLine(v) => NameLooks(Name, v, l);
      case TypeLine(v) => NameLooks(Type, v, l);
      case LiteralLine(v) => NameLooks(LiteralName, v, l);
      case NamespaceLine(v) => NameLooks(Namespace, v, l);
      case SectionLine(section) => SectionLooks(section, false);
      case NilLine(section) => SectionLooks(section, true);
      case SplitLine(section) => SplitLooks(section);
      case FieldLine(f) => FieldLooks(f);
      case LooseLine(text) => UnkeyedLooks(text, l);
    }
  }

  /** Any other key may be set on a line, or head a block. */
  lemma OtherKeysAreLoose(key: string, value: string)
    requires IsKey(key)
    requires key !in {"Namespace", "Name", "Type", "LiteralName", "Arguments", "Returns", "Payload"}
    ensures Balance(value) == 0 ==> LineOk(LooseLine(KeyText(key, value)))
    ensures LineOk(LooseLine(key + " =")) && LineOk(OpeningLine(key + " = "))
  {
    hide *;
    var head := key + " = ";
    KeyIsBare(key);
    KeyIsFlush(key, " =");
    KeyIsFlush(key, " = ");
    KeyIsFlush(key, " = " + value);
    OtherKeyUnkeyed(key, " =");
    OtherKeyUnkeyed(key, " = " + value);
    OtherKeyUnkeyed(key, " = " + "{");
    assert head + "{" == key + (" = " + "{");
    KeyTextIs(key, value);
    KeyBalance(key, value);
    LooseIsOk(KeyText(key, value));
    LooseIsOk(key + " =");
    HeadIsOk(head);
  }

  lemma KeyIsBare(key: string)
    requires IsKey(key)
    ensures Bare(key) && Bare(key + " = ") && Balance(key + " =") == 0
  {
    BareBalance(key + " =");
  }

  lemma LooseIsOk(text: string)
    requires Flush(text) && Unkeyed(text)
    ensures Balance(text) == 0 ==> LineOk(LooseLine(text))
  {
  }

  lemma HeadIsOk(head: string)
    requires Flush(head) && Bare(head) && Unkeyed(head + "{")
    ensures LineOk(OpeningLine(head))
  {
  }

  // ----- the parser on texts -----

  /** The parser on the lines of a file. */
  method ParseFile(lower: string -> string, lines: seq<string>) returns (r: Option<(seq<Symbol>, seq<Edge>)>)
    ensures r == Parse(lower, Map(lines, Scan))
  {
    hide Scan, Parse;
    r := ParseGeneratedAPI(lower, Map(lines, Scan));
  }

  lemma KeysAreScanned(s: string, k: Scanned)
    requires Flush(s) && Keys(s, k.namespace, k.name, k.typeName, k.literal, k.section)
    ensures var r := Scan(s);
            && r.namespace == k.namespace && r.name == k.name && r.typeName == k.typeName && r.literal == k.literal
            && r.opens == Count(s, '{') && r.closes == Count(s, '}')
  {
    assert SkipBlanks(s) == s;
  }

  lemma UnkeyedScanned(s: string)
    requires Flush(s) && Unkeyed(s)
    ensures var r := Scan(s);
            && r.namespace.None? && r.name.None? && r.typeName.None?
            && r.opens == Count(s, '{') && r.closes == Count(s, '}')
  {
    UnkeyedKeys(s);
    hide Keys, Scan, Unkeyed;
    KeysAreScanned(s, Scanned(None, None, None, None, None, None, 0, 0));
  }

  lemma EmptyTableScanned()
    ensures var r := Scan("x = {}"); r.namespace.None? && r.name.None? && r.typeName.None? && r.opens == r.closes == 1
  {
    hide *;
    EmptyTableText();
    OtherKeyUnkeyed("x", " = {}");
    UnkeyedScanned("x = {}");
  }

  lemma EmptyTableText()
    ensures "x" + " = {}" == "x = {}" && IsKey("x") && " = {}"[0] == ' ' && Flush("x = {}")
    ensures Count("x = {}", '{') == 1 && Count("x = {}", '}') == 1
    ensures "x" !in {"Namespace", "Name", "Type", "LiteralName", "Arguments", "Returns", "Payload"}
  {
    assert |"x"| == 1;
  }

  lemma BlankScanned()
    ensures var r := Scan(""); r.namespace.None? && r.name.None? && r.typeName.None? && r.opens == r.closes == 0
  {
    hide Scan;
    UnkeyedScanned("");
  }

  lemma KeyScanned(k: NameKey, v: string)
    requires IsName(v)
    ensures var r := Scan(KeyText(NameKeyText(k), InQuotes(v)));
            && r.namespace == (if k == Namespace then Some(v) else None)
            && r.name == (if k == Name then Some(v) else None)
            && r.typeName == (if k == Type then Some(v) else None) && r.opens == 0
  {
    hide *;
    var key := NameKeyText(k);
    var s := KeyText(key, InQuotes(v));
    NameKeys(k, v, "");
    assert InQuotes(v) + "" == InQuotes(v);
    NameKeyStarts(k);
    KeyTextIs(key, InQuotes(v));
    KeyIsFlush(key, " = " + InQuotes(v));
    KeyBalance(key, InQuotes(v));
    QuotesBalance(v, "");
    NothingCounted();
    KeysAreScanned(s, Scanned(if k == Namespace then Some(v) else None, if k == Name then Some(v) else None,
                              if k == Type then Some(v) else None, if k == LiteralName then Some(v) else None, None,
                                  None, 0, 0));
  }

  lemma NothingCounted()
    ensures Count("", '{') == 0
  {
  }

  /** The text of a file on which the parser fails: a closed table, a blank line, and
      then an event. */
  lemma ClosedTableBeforeEvent(lower: string -> string)
    requires lower("Event") == "event"
    ensures Parse(lower, Map(["x = {}", "", "Name = \"A\"", "Type = \"Event\""], Scan)) == None
  {
    hide *;
    EmptyTableScanned();
    BlankScanned();
    NamedAScanned();
    EventScanned();
    MapFour("x = {}", "", "Name = \"A\"", "Type = \"Event\"");
    var lines := Map(["x = {}", "", "Name = \"A\"", "Type = \"Event\""], Scan);
    NameUnderClosedTable(lower, lines);
    ParseSurvives(lower, lines);
  }

  lemma MapFour(a: string, b: string, c: string, d: string)
    ensures Map([a, b, c, d], Scan) == [Scan(a), Scan(b), Scan(c), Scan(d)]
  {
  }

  lemma NamedAScanned()
    ensures var r := Scan("Name = \"A\""); r.namespace.None? && r.name == Some("A") && r.opens == 0
  {
    hide *;
    NamedAText();
    KeyScanned(Name, "A");
  }

  lemma NamedAText()
    ensures KeyText(NameKeyText(Name), InQuotes("A")) == "Name = \"A\"" && IsName("A")
  {
  }

  lemma EventScanned()
    ensures var r := Scan("Type = \"Event\""); r.namespace.None? && r.name.None? && r.typeName == Some("Event")
  {
    hide *;
    EventText();
    KeyScanned(Type, "Event");
  }

  lemma EventText()
    ensures KeyText(NameKeyText(Type), InQuotes("Event")) == "Type = \"Event\"" && IsName("Event")
  {
  }

  lemma NameUnderClosedTable(lower: string -> string, lines: seq<Scanned>)
    requires |lines| == 4 && forall i :: 0 <= i < 4 ==> lines[i].namespace.None?
    requires lines[0].name.None? && lines[0].typeName.None? && lines[0].opens == lines[0].closes == 1
    requires lines[1].name.None? && lines[1].typeName.None? && lines[1].opens == lines[1].closes == 0
    requires lines[2].name == Some("A") && lines[2].opens == 0
    requires lines[3].name.None? && lines[3].typeName == Some("Event") && lower("Event") == "event"
    ensures FatalEvent(lower, lines, 3)
  {
    assert PendingLine(lines, 3) == 3;
    assert TableStart(lines, 0) == 0 && TableStart(lines, 1) == 0 && TableStart(lines, 2) == 0;
    assert ClosesIn(lines, 0, 1) == 1;
  }
}
