/** How a printed member is indexed, in terms of what is printed: its symbols and
    the text of its signature. */
module GeneratedIndex {
  import opened Prelude
  import opened GeneratedApi
  import opened GeneratedPrint
  import opened GeneratedTheorems

  // ----- the text of a signature -----

  /** `name: type`, with a `?` behind the name of a parameter that may be nil. */
  predicate Shows(text: string, p: Param) {
    var mark := if p.nilable then ['?', ':', ' '] else [':', ' '];
    text == p.name + mark + p.valueType
  }

  /** `texts` with a comma and a space between each two. */
  function Commas(texts: seq<string>): string {
    if texts == [] then []
    else if |texts| == 1 then texts[0]
    else texts[0] + [',', ' '] + Commas(texts[1..])
  }

  /** A list of parameters: the text of each, in order. */
  ghost predicate Lists(text: string, params: seq<Param>) {
    exists texts: seq<string> :: Listing(text, params, texts)
  }

  predicate Listing(text: string, params: seq<Param>, texts: seq<string>) {
    |texts| == |params| && (forall i :: 0 <= i < |params| ==> Shows(texts[i], params[i])) && text == Commas(texts)
  }

  lemma {:induction false} CommasAtEnd(texts: seq<string>, last: string)
    requires texts != []
    ensures Commas(texts + [last]) == Commas(texts) + [',', ' '] + last
  {
    var all := texts + [last];
    if |texts| > 1 {
      assert all[1..] == texts[1..] + [last];
      CommasAtEnd(texts[1..], last);
    } else {
      assert all[1..] == [last] && all[0] == texts[0];
    }
  }

  lemma ParamIsShown(p: Param)
    ensures Shows(ParamText(p), p)
  {
    assert ": " == [':', ' '] && "?" == ['?'];
  }

  lemma {:induction false} ParamsAreListed(params: seq<Param>)
    ensures Listing(ParamsText(params), params, Map(params, ParamText))
  {
    var texts := Map(params, ParamText);
    forall i | 0 <= i < |params| ensures Shows(texts[i], params[i]) {
      ParamIsShown(params[i]);
    }
    if |params| > 1 {
      var init, last := params[..|params| - 1], params[|params| - 1];
      ParamsAreListed(init);
      assert texts == Map(init, ParamText) + [ParamText(last)];
      CommasAtEnd(Map(init, ParamText), ParamText(last));
      assert ", " == [',', ' '];
    }
  }

  /** The signature of a member that is called `name` in it: a function has its
      arguments, and its returns if it has any; an event has its payload; and any
      other member is just named. */
  ghost predicate SignatureReads(signature: string, name: string, kind: string, sections: Sections) {
    if kind == "function" || kind == "scriptobject" then
      exists taken, given ::
        && Lists(taken, Params(sections, Arguments)) && Lists(given, Params(sections, Returns))
        && signature == name + ['('] + taken + [')']
                        + if Params(sections, Returns) == [] then [] else [' ', '-', '>', ' '] + given
    else if kind == "event" then
      exists payload :: Lists(payload, Params(sections, Payload)) && signature == name + ['('] + payload + [')']
    else signature == name
  }

  lemma SignatureIsRead(sections: Sections, name: string, kind: string)
    ensures SignatureReads(Signature(sections, name, kind), name, kind, sections)
  {
    hide Lists, Params, ParamsText;
    forall s: Section ensures Lists(ParamsText(Params(sections, s)), Params(sections, s)) {
      IsListed(Params(sections, s));
    }
    assert "(" == ['('] && ")" == [')'] && " -> " == [' ', '-', '>', ' '] && "" == [];
  }

  lemma {:induction false} IsListed(params: seq<Param>)
    ensures Lists(ParamsText(params), params)
  {
    ParamsAreListed(params);
  }

  // ----- the literal name of an event -----

  /** The first literal name printed in the table of a member. */
  ghost predicate FirstLiteral(m: Member, literal: string) {
    exists k: nat :: k < |ItemsLines(m.items)| && ItemsLines(m.items)[k] == LiteralLine(literal)
        && NoLiteral(ItemsLines(m.items)[..k])
  }

  /** What the parser may see of a printed line. */
  function Sight(l: Line): (s: Scanned)
    ensures Looks(s, l)
  {
    Scanned(
      if l.NamespaceLine? then Some(l.value) else None,
      if l.NameLine? then Some(l.value) else None,
      if l.TypeLine? then Some(l.value) else None,
      if l.LiteralLine? then Some(l.value) else None,
      if l.SectionLine? then Some(SectionStart(l.section, false))
      else if l.NilLine? then Some(SectionStart(l.section, true)) else None,
      if l.FieldLine? then Some(l.field.param) else None,
      if Turn(l) == 1 then 1 else 0,
      if Turn(l) == -1 then 1 else 0)
  }

  lemma {:induction false} LiteralIsFirst(lines: seq<Line>, literal: string)
    ensures LiteralIn(Map(lines, Sight)) == Some(literal) <==>
              exists k: nat :: k < |lines| && lines[k] == LiteralLine(literal) && NoLiteral(lines[..k])
  {
    var seen := Map(lines, Sight);
    if lines != [] {
      assert Looks(seen[0], lines[0]);
      if lines[0].LiteralLine? {
        assert lines[..0] == [];
        assert NoLiteral(lines[..0]);
        forall k: nat | 0 < k < |lines| ensures !NoLiteral(lines[..k]) {
          assert lines[..k][0] == lines[0];
        }
      } else {
        assert seen[1..] == Map(lines[1..], Sight);
        LiteralIsFirst(lines[1..], literal);
        forall k: nat | k < |lines| - 1 ensures NoLiteral(lines[1..][..k]) <==> NoLiteral(lines[..k + 1]) {
          assert lines[..k + 1] == [lines[0]] + lines[1..][..k];
        }
        if k: nat :| k < |lines| && lines[k] == LiteralLine(literal) && NoLiteral(lines[..k]) {
          assert lines[1..][k - 1] == lines[k];
        }
      }
    }
  }

  lemma {:induction false} LiteralOfMember(m: Member, literal: string)
    ensures LiteralOfAll(m.items) == Some(literal) <==> FirstLiteral(m, literal)
  {
    var lines := ItemsLines(m.items);
    var seen := Map(lines, Sight);
    assert AllLook(seen, lines);
    LiteralOfItems(seen, m.items);
    LiteralIsFirst(lines, literal);
  }

  // ----- the symbols -----

  /** An event with another literal name is indexed twice, under its own name and under
      the literal one, with the literal name in the signature. */
  lemma {:induction false} EventHasItsAlias(lower: string -> string, lines: seq<Scanned>, printed: seq<Line>, at: nat,
        m: Member, namespace: string, literal: string)
    requires AllLook(lines, printed) && PartAt(printed, at, MemberLines(m)) && namespace != ""
    requires lower(m.typeName) == "event" && FirstLiteral(m, literal) && literal != m.name
    ensures at + 2 <= |lines|
    ensures var symbols := MemberSymbols(lines, m.name, namespace, "event", at + 2);
            var endLine := at + |MemberLines(m)|;
            exists signature ::
              && symbols == Some([Symbol(m.name, namespace + ['.'] + m.name, "api-event", at + 2, endLine, signature),
                                  Symbol(literal, literal, "api-event", at + 2, endLine, signature)])
              && SignatureReads(signature, literal, "event", DeclareAll(map[], m.items))
  {
    hide AllLook, PartAt, MemberLines, MemberSymbols, FirstLiteral, Signature, SignatureReads, DeclareAll;
    MemberIsFound(lower, lines, printed, at, m, namespace);
    LiteralOfMember(m, literal);
    SignatureIsRead(DeclareAll(map[], m.items), literal, "event");
    assert "." == ['.'] && "api-" + "event" == "api-event";
  }

  /** Any other member is indexed once, by its kind and with its qualified name in the
      signature, unless it is an event with its own name as the literal one. */
  lemma {:induction false} MemberHasOneSymbol(lower: string -> string, lines: seq<Scanned>, printed: seq<Line>, at: nat,
        m: Member, namespace: string)
    requires AllLook(lines, printed) && PartAt(printed, at, MemberLines(m)) && namespace != ""
    requires lower(m.typeName) == "event" ==> forall literal :: FirstLiteral(m, literal) ==> literal == m.name
    ensures at + 2 <= |lines|
    ensures var kind, qualified := lower(m.typeName), namespace + ['.'] + m.name;
            var shown := if kind == "event" && FirstLiteral(m, m.name) then m.name else qualified;
            exists signature ::
              && MemberSymbols(lines, m.name, namespace, kind, at + 2)
                 == Some([Symbol(m.name, qualified, "api-" + kind, at + 2, at + |MemberLines(m)|, signature)])
              && SignatureReads(signature, shown, kind, DeclareAll(map[], m.items))
  {
    hide AllLook, PartAt, MemberLines, MemberSymbols, FirstLiteral, Signature, SignatureReads, DeclareAll;
    MemberIsFound(lower, lines, printed, at, m, namespace);
    var kind := lower(m.typeName);
    var own := LiteralOfAll(m.items);
    LiteralOfMember(m, m.name);
    if own.Some? {
      LiteralOfMember(m, own.value);
    }
    assert "." == ['.'];
    var shown := if kind == "event" && FirstLiteral(m, m.name) then m.name else namespace + "." + m.name;
    SignatureIsRead(DeclareAll(map[], m.items), shown, kind);
  }
}
