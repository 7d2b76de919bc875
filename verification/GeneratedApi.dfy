/** The parser of generated API documentation (internal/indexer/parse.go): a machine
    over lines that sees names, types, sections and braces. */
module GeneratedApi {
  import opened Prelude

  datatype Section = Arguments | Returns | Payload

  datatype Param = Param(name: string, valueType: string, nilable: bool)

  /** The start of a section; it may be `nil` instead of a table. */
  datatype SectionStart = SectionStart(section: Section, empty: bool)

  /** All that the parser takes from one line. */
  datatype Scanned = Scanned(
    namespace: Option<string>, name: Option<string>, typeName: Option<string>, literal: Option<string>,
    section: Option<SectionStart>, field: Option<Param>, opens: nat, closes: nat)

  datatype Symbol = Symbol(name: string, qualified: string, kind: string, line: nat, endLine: nat, signature: string)

  /** "contains", from a namespace to a member. */
  datatype Edge = Edge(source: string, target: string, line: nat)

  // ----- the end of a table -----

  /** The nearest line with an opening brace at or above a line. */
  function TableStart(lines: seq<Scanned>, at: nat): (r: nat)
    requires at < |lines|
    ensures r <= at
  {
    if at > 0 && lines[at].opens == 0 then TableStart(lines, at - 1) else at
  }

  function TableEnd(lines: seq<Scanned>, i: nat, depth: int, seen: bool, nameLine: nat): (r: nat)
    requires i <= |lines| && nameLine <= |lines|
    ensures r <= |lines|
    decreases |lines| - i
  {
    if i == |lines| then nameLine
    else
      var depth' := depth + lines[i].opens - lines[i].closes;
      var seen' := seen || lines[i].opens > 0;
      if seen' && depth' <= 0 then i + 1 else TableEnd(lines, i + 1, depth', seen', nameLine)
  }

  /** The last line of the table around a name, by its braces. */
  function FindTableEnd(lines: seq<Scanned>, nameLine: nat): (r: nat)
    requires 0 < nameLine <= |lines|
    ensures r <= |lines|
  {
    TableEnd(lines, TableStart(lines, nameLine - 1), 0, false, nameLine)
  }

  method FindLuaTableEnd(lines: seq<Scanned>, nameLine: nat) returns (r: nat)
    requires 0 < nameLine <= |lines|
    ensures r == FindTableEnd(lines, nameLine)
  {
    var start := nameLine - 1;
    while start > 0 && lines[start].opens == 0
      invariant 0 <= start < |lines|
      invariant TableStart(lines, start) == TableStart(lines, nameLine - 1)
    {
      start := start - 1;
    }
    var depth, seen := 0, false;
    var i := start;
    while i < |lines|
      invariant start <= i <= |lines|
      invariant TableEnd(lines, i, depth, seen, nameLine) == FindTableEnd(lines, nameLine)
    {
      depth := depth + lines[i].opens;
      depth := depth - lines[i].closes;
      if lines[i].opens > 0 {
        seen := true;
      }
      if seen && depth <= 0 {
        return i + 1;
      }
      i := i + 1;
    }
    return nameLine;
  }

  // ----- signatures -----

  type Sections = map<Section, seq<Param>>

  function Params(sections: Sections, s: Section): seq<Param> {
    if s in sections then sections[s] else []
  }

  /** The section being read, the braces open in it, and the parameters so far. */
  datatype Reading = Reading(active: Option<Section>, depth: int, sections: Sections)

  const NOTHING_READ := Reading(None, 0, map[])

  function ReadLine(r: Reading, l: Scanned): Reading {
    if r.active.None? then
      match l.section
      case None => r
      case Some(SectionStart(s, true)) => r.(sections := r.sections[s := []])
      case Some(SectionStart(s, false)) => r.(active := Some(s), depth := l.opens - l.closes)
    else
      var s := r.active.value;
      var sections := if l.field.Some? then r.sections[s := Params(r.sections, s) + [l.field.value]] else r.sections;
      var depth := r.depth + l.opens - l.closes;
      Reading(if depth <= 0 then None else Some(s), depth, sections)
  }

  function ReadLines(r: Reading, lines: seq<Scanned>): Reading {
    if lines == [] then r else ReadLine(ReadLines(r, lines[..|lines| - 1]), lines[|lines| - 1])
  }

  function ParamText(p: Param): string {
    p.name + (if p.nilable then "?" else "") + ": " + p.valueType
  }

  /** `strings.Join(…, ", ")` of the parameters. */
  function ParamsText(params: seq<Param>): string {
    if params == [] then ""
    else if |params| == 1 then ParamText(params[0])
    else ParamsText(params[..|params| - 1]) + ", " + ParamText(params[|params| - 1])
  }

  function Signature(sections: Sections, name: string, kind: string): string {
    if kind == "function" || kind == "scriptobject" then
      name + "(" + ParamsText(Params(sections, Arguments)) + ")"
      + (if Params(sections, Returns) == [] then "" else " -> " + ParamsText(Params(sections, Returns)))
    else if kind == "event" then name + "(" + ParamsText(Params(sections, Payload)) + ")"
    else name
  }

  method ApiSignature(lines: seq<Scanned>, nameLine: nat, endLine: nat, name: string, kind: string)
      returns (signature: string)
    requires 0 < nameLine && nameLine - 1 <= endLine <= |lines|
    ensures signature == Signature(ReadLines(NOTHING_READ, lines[nameLine - 1..endLine]).sections, name, kind)
  {
    hide Signature;
    var sections: Sections := map[];
    var active: Option<Section> := None;
    var depth := 0;
    var line := nameLine - 1;
    assert lines[nameLine - 1..line] == [];
    while line < endLine
      invariant nameLine - 1 <= line <= endLine
      invariant Reading(active, depth, sections) == ReadLines(NOTHING_READ, lines[nameLine - 1..line])
    {
      var l := lines[line];
      var read := lines[nameLine - 1..line + 1];
      assert read[..|read| - 1] == lines[nameLine - 1..line] && read[|read| - 1] == l;
      line := line + 1;
      if active.None? {
        if l.section.None? {
          continue;
        }
        if l.section.value.empty {
          sections := sections[l.section.value.section := []];
          continue;
        }
        active := Some(l.section.value.section);
        depth := l.opens - l.closes;
        continue;
      }
      if l.field.Some? {
        sections := sections[active.value := Params(sections, active.value) + [l.field.value]];
      }
      depth := depth + l.opens - l.closes;
      if depth <= 0 {
        active := None;
      }
    }
    return Signature(sections, name, kind);
  }

  // ----- the machine over the lines -----

  /** The first literal name in some lines. */
  function LiteralIn(lines: seq<Scanned>): Option<string> {
    if lines == [] then None
    else if lines[0].literal.Some? then lines[0].literal
    else LiteralIn(lines[1..])
  }

  method FindLiteral(lines: seq<Scanned>, lo: nat, hi: nat) returns (r: Option<string>)
    requires lo <= hi <= |lines|
    ensures r == LiteralIn(lines[lo..hi])
  {
    var i := lo;
    while i < hi
      invariant lo <= i <= hi
      invariant LiteralIn(lines[i..hi]) == LiteralIn(lines[lo..hi])
    {
      assert lines[i..hi][1..] == lines[i + 1..hi];
      if lines[i].literal.Some? {
        return lines[i].literal;
      }
      i := i + 1;
    }
    return None;
  }

  datatype State = State(name: string, namespace: string, nameLine: nat, symbols: seq<Symbol>, edges: seq<Edge>)

  const START := State("", "", 0, [], [])

  function Qualify(namespace: string, name: string): string {
    if namespace == "" then name else namespace + "." + name
  }

  /** How a member is indexed: an event that has another literal name also under it,
      and with it in its signature. */
  function MemberEntry(name: string, qualified: string, kind: string, literal: Option<string>, line: nat, endLine: nat,
        sections: Sections): seq<Symbol>
  {
    var alias := if kind == "event" then literal else None;
    var indexed := if alias.Some? then alias.value else name;
    var signature := Signature(sections, if alias.Some? then alias.value else qualified, kind);
    var symbol := Symbol(name, qualified, "api-" + kind, line, endLine, signature);
    if indexed == name then [symbol]
    else [symbol, Symbol(indexed, indexed, "api-event", line, endLine, signature)]
  }

  /** The symbols of a named member that is no system; none if the lines of an event
      end before its name, which is out of the range of the slice. */
  function MemberSymbols(lines: seq<Scanned>, name: string, namespace: string, kind: string,
        nameLine: nat): Option<seq<Symbol>>
    requires 0 < nameLine <= |lines|
  {
    var endLine := FindTableEnd(lines, nameLine);
    if kind == "event" && endLine < nameLine - 1 then None
    else
      var within := if nameLine - 1 <= endLine then lines[nameLine - 1..endLine] else [];
      Some(MemberEntry(name, Qualify(namespace, name), kind, LiteralIn(within), nameLine, endLine,
                       ReadLines(NOTHING_READ, within).sections))
  }

  /** The name in the state is on a line that was read. */
  predicate Consistent(st: State, i: nat) {
    st.name != "" ==> 0 < st.nameLine <= i
  }

  /** One line; None if the parser does not survive it. */
  function Step(lower: string -> string, lines: seq<Scanned>, i: nat, st: State): (r: Option<State>)
    requires i < |lines| && Consistent(st, i)
    ensures r.Some? ==> Consistent(r.value, i + 1)
  {
    var l := lines[i];
    if l.namespace.Some? then Some(st.(namespace := l.namespace.value))
    else if l.name.Some? then Some(st.(name := l.name.value, nameLine := i + 1))
    else if l.typeName.None? || st.name == "" then Some(st)
    else
      var kind := lower(l.typeName.value);
      if kind == "system" then
        Some(st.(namespace := st.name, name := "",
                 symbols := st.symbols
                     + [Symbol(st.name, st.name, "api-system", st.nameLine, FindTableEnd(lines, st.nameLine),
                         st.name)]))
      else
        match MemberSymbols(lines, st.name, st.namespace, kind, st.nameLine)
        case None => None
        case Some(added) =>
          Some(st.(name := "", symbols := st.symbols + added,
                   edges := if st.namespace == "" then st.edges
                            else st.edges + [Edge(st.namespace, Qualify(st.namespace, st.name), st.nameLine)]))
  }

  /** The lines from `i` to `j`. */
  function Run(lower: string -> string, lines: seq<Scanned>, i: nat, j: nat, st: State): (r: Option<State>)
    requires i <= j <= |lines| && Consistent(st, i)
    ensures r.Some? ==> Consistent(r.value, j)
    decreases j - i
  {
    if i == j then Some(st)
    else
      match Run(lower, lines, i, j - 1, st)
      case None => None
      case Some(before) => Step(lower, lines, j - 1, before)
  }

  /** What is indexed for a file. */
  function Parse(lower: string -> string, lines: seq<Scanned>): Option<(seq<Symbol>, seq<Edge>)> {
    match Run(lower, lines, 0, |lines|, START)
    case None => None
    case Some(st) => Some((st.symbols, st.edges))
  }

  method AddMember(lines: seq<Scanned>, name: string, namespace: string, kind: string, nameLine: nat)
      returns (r: Option<seq<Symbol>>)
    requires 0 < nameLine <= |lines|
    ensures r == MemberSymbols(lines, name, namespace, kind, nameLine)
  {
    hide FindTableEnd, ReadLines, Signature, LiteralIn;
    var qualified := name;
    if namespace != "" {
      qualified := namespace + "." + name;
    }
    var endLine := FindLuaTableEnd(lines, nameLine);
    var indexedName, signatureName := name, qualified;
    if kind == "event" {
      if endLine < nameLine - 1 {
        return None;
      }
      var literal := FindLiteral(lines, nameLine - 1, endLine);
      if literal.Some? {
        indexedName, signatureName := literal.value, literal.value;
      }
    }
    var signature;
    if nameLine - 1 <= endLine {
      signature := ApiSignature(lines, nameLine, endLine, signatureName, kind);
    } else {
      signature := Signature(ReadLines(NOTHING_READ, []).sections, signatureName, kind);
    }
    var symbols := [Symbol(name, qualified, "api-" + kind, nameLine, endLine, signature)];
    if indexedName != name {
      symbols := symbols + [Symbol(indexedName, indexedName, "api-event", nameLine, endLine, signature)];
      assert symbols == [symbols[0], symbols[1]];
    }
    return Some(symbols);
  }

  lemma {:induction false} RunFails(lower: string -> string, lines: seq<Scanned>, i: nat, n: nat)
    requires i <= n <= |lines| && Run(lower, lines, 0, i, START).None?
    ensures Run(lower, lines, 0, n, START).None?
  {
    hide Step;
    if i < n {
      RunFails(lower, lines, i, n - 1);
    }
  }

  method ParseGeneratedAPI(lower: string -> string, lines: seq<Scanned>) returns (r: Option<(seq<Symbol>, seq<Edge>)>)
    ensures r == Parse(lower, lines)
  {
    hide FindTableEnd, MemberSymbols;
    var symbols: seq<Symbol>, edges: seq<Edge> := [], [];
    var name, namespace, nameLine := "", "", 0;
    var i := 0;
    while i < |lines|
      invariant 0 <= i <= |lines|
      invariant Run(lower, lines, 0, i, START) == Some(State(name, namespace, nameLine, symbols, edges))
    {
      var l := lines[i];
      ghost var before := Run(lower, lines, 0, i, START).value;
      assert Consistent(before, i);
      i := i + 1;
      if l.namespace.Some? {
        namespace := l.namespace.value;
        continue;
      }
      if l.name.Some? {
        name, nameLine := l.name.value, i;
        continue;
      }
      if l.typeName.None? || name == "" {
        continue;
      }
      var kind := lower(l.typeName.value);
      if kind == "system" {
        namespace := name;
        var endLine := FindLuaTableEnd(lines, nameLine);
        symbols := symbols + [Symbol(name, name, "api-system", nameLine, endLine, name)];
      } else {
        var added := AddMember(lines, name, namespace, kind, nameLine);
        if added.None? {
          RunFails(lower, lines, i, |lines|);
          return None;
        }
        symbols := symbols + added.value;
        if namespace != "" {
          edges := edges + [Edge(namespace, namespace + "." + name, nameLine)];
        }
      }
      name := "";
    }
    return Some((symbols, edges));
  }

  // ----- when a table ends before its name -----

  /** The closing braces of the lines from `lo` to before `hi`. */
  function ClosesIn(lines: seq<Scanned>, lo: nat, hi: nat): nat
    requires lo <= hi <= |lines|
    decreases hi - lo
  {
    if lo == hi then 0 else lines[lo].closes + ClosesIn(lines, lo + 1, hi)
  }

  /** The nearest line above a name that opens braces has them closed again before
      the line just above the name. */
  predicate ClosedAbove(lines: seq<Scanned>, nameLine: nat)
    requires 0 < nameLine <= |lines|
  {
    var start := TableStart(lines, nameLine - 1);
    start + 2 < nameLine && 0 < lines[start].opens <= ClosesIn(lines, start, nameLine - 2)
  }

  lemma {:induction false} NothingOpens(lines: seq<Scanned>, at: nat)
    requires at < |lines|
    ensures var start := TableStart(lines, at); forall i :: start < i <= at ==> lines[i].opens == 0
    ensures TableStart(lines, at) == 0 || lines[TableStart(lines, at)].opens > 0
  {
    if at > 0 && lines[at].opens == 0 {
      NothingOpens(lines, at - 1);
    }
  }

  /** With no braces opened from `i` on, the end comes before `to` exactly if enough
      are closed before it. */
  lemma {:induction false} EndComesBefore(lines: seq<Scanned>, i: nat, stop: nat, depth: int, nameLine: nat)
    requires i <= stop < nameLine <= |lines| && forall k :: i <= k < stop ==> lines[k].opens == 0
    requires depth > 0
    ensures TableEnd(lines, i, depth, true, nameLine) <= stop <==> depth <= ClosesIn(lines, i, stop)
    decreases stop - i
  {
    if i < stop {
      if depth > lines[i].closes {
        EndComesBefore(lines, i + 1, stop, depth - lines[i].closes, nameLine);
      } else {
        assert TableEnd(lines, i, depth, true, nameLine) == i + 1;
      }
    } else {
      EndIsBeyond(lines, i, depth, nameLine);
    }
  }

  lemma {:induction false} EndIsBeyond(lines: seq<Scanned>, i: nat, depth: int, nameLine: nat)
    requires i < nameLine <= |lines|
    ensures TableEnd(lines, i, depth, true, nameLine) > i
    decreases |lines| - i
  {
    var depth' := depth + lines[i].opens - lines[i].closes;
    if depth' > 0 && i + 1 < nameLine {
      EndIsBeyond(lines, i + 1, depth', nameLine);
    } else if depth' > 0 {
      EndIsAtLeast(lines, i + 1, depth', true, nameLine);
    }
  }

  lemma {:induction false} EndIsAtLeast(lines: seq<Scanned>, i: nat, depth: int, seen: bool, nameLine: nat)
    requires nameLine <= i <= |lines|
    ensures TableEnd(lines, i, depth, seen, nameLine) >= nameLine
    decreases |lines| - i
  {
    if i < |lines| {
      EndIsAtLeast(lines, i + 1, depth + lines[i].opens - lines[i].closes, seen || lines[i].opens > 0, nameLine);
    }
  }

  lemma {:induction false} UnopenedEnds(lines: seq<Scanned>, i: nat, depth: int, nameLine: nat)
    requires i <= nameLine <= |lines| && forall k :: i <= k < nameLine ==> lines[k].opens == 0
    ensures TableEnd(lines, i, depth, false, nameLine) >= nameLine
    decreases nameLine - i
  {
    if i < nameLine {
      UnopenedEnds(lines, i + 1, depth - lines[i].closes, nameLine);
    } else {
      EndIsAtLeast(lines, i, depth, false, nameLine);
    }
  }

  /** A table ends before the line above its name exactly if its braces are closed
      there already. */
  lemma EndsBeforeName(lines: seq<Scanned>, nameLine: nat)
    requires 0 < nameLine <= |lines|
    ensures FindTableEnd(lines, nameLine) < nameLine - 1 <==> ClosedAbove(lines, nameLine)
  {
    var start := TableStart(lines, nameLine - 1);
    NothingOpens(lines, nameLine - 1);
    var depth := lines[start].opens - lines[start].closes;
    if lines[start].opens == 0 {
      UnopenedEnds(lines, start, 0, nameLine);
    } else if depth > 0 && start + 2 < nameLine {
      EndComesBefore(lines, start + 1, nameLine - 2, depth, nameLine);
    } else if depth > 0 && start + 1 < nameLine {
      EndIsBeyond(lines, start + 1, depth, nameLine);
    } else if depth > 0 {
      EndIsAtLeast(lines, start + 1, depth, true, nameLine);
    }
  }

  // ----- which files the parser survives -----

  predicate IsNameLine(l: Scanned) {
    l.namespace.None? && l.name.Some?
  }

  predicate IsTypeLine(l: Scanned) {
    l.namespace.None? && l.name.None? && l.typeName.Some?
  }

  /** The name line that a type line at `i` goes with: the last one above it, with no
      type line between them; 0 if there is none. */
  function PendingLine(lines: seq<Scanned>, i: nat): (n: nat)
    requires i <= |lines|
    ensures n <= i
    ensures n > 0 ==> IsNameLine(lines[n - 1]) && forall k :: n <= k < i ==>
          !IsNameLine(lines[k]) && !IsTypeLine(lines[k])
  {
    if i == 0 then 0
    else if IsNameLine(lines[i - 1]) then (if lines[i - 1].name.value == "" then 0 else i)
    else if IsTypeLine(lines[i - 1]) then 0
    else PendingLine(lines, i - 1)
  }

  /** An event whose name stands below a table that is closed again. */
  predicate FatalEvent(lower: string -> string, lines: seq<Scanned>, i: nat)
    requires i < |lines|
  {
    && IsTypeLine(lines[i]) && lower(lines[i].typeName.value) == "event"
    && PendingLine(lines, i) > 0 && ClosedAbove(lines, PendingLine(lines, i))
  }

  /** The name in the machine is the one on the pending line. */
  lemma {:induction false} NameIsPending(lower: string -> string, lines: seq<Scanned>, i: nat)
    requires i <= |lines| && Run(lower, lines, 0, i, START).Some?
    ensures var st := Run(lower, lines, 0, i, START).value;
            PendingLine(lines, i) == if st.name == "" then 0 else st.nameLine
  {
    hide MemberSymbols, FindTableEnd;
    if i > 0 {
      assert Run(lower, lines, 0, i - 1, START).Some?;
      NameIsPending(lower, lines, i - 1);
    }
  }

  lemma {:induction false} StepFails(lower: string -> string, lines: seq<Scanned>, i: nat, st: State)
    requires i < |lines| && Consistent(st, i) && PendingLine(lines, i) == if st.name == "" then 0 else st.nameLine
    ensures Step(lower, lines, i, st).None? <==> FatalEvent(lower, lines, i)
  {
    hide FindTableEnd, ClosedAbove, Signature, ReadLines, LiteralIn, PendingLine;
    if st.name != "" {
      EndsBeforeName(lines, st.nameLine);
    }
  }

  lemma {:induction false} RunSurvives(lower: string -> string, lines: seq<Scanned>, n: nat)
    requires n <= |lines|
    ensures Run(lower, lines, 0, n, START).Some? <==> forall i :: 0 <= i < n ==> !FatalEvent(lower, lines, i)
  {
    hide Step, FatalEvent, PendingLine;
    if n > 0 {
      RunSurvives(lower, lines, n - 1);
      if Run(lower, lines, 0, n - 1, START).Some? {
        NameIsPending(lower, lines, n - 1);
        StepFails(lower, lines, n - 1, Run(lower, lines, 0, n - 1, START).value);
      }
    }
  }

  /** The parser survives a file exactly if no event in it has its name below a table
      that is closed again before the line above the name. */
  lemma ParseSurvives(lower: string -> string, lines: seq<Scanned>)
    ensures Parse(lower, lines).Some? <==> forall i :: 0 <= i < |lines| ==> !FatalEvent(lower, lines, i)
  {
    hide FatalEvent, Run;
    RunSurvives(lower, lines, |lines|);
  }
}
