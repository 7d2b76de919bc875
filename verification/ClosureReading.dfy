/** What the load closure reads off its input, in terms of the lines of the TOC
    and of the elements and attributes of an XML file. */
module ClosureReading {
  import opened Prelude
  import opened Text
  import opened ClosureSpec
  import opened ClosureTrace
  import opened ClosureTheorems

  // ----- the elements of an XML file -----

  /** Attribute `j` is the first one called `file`, in any letter case. */
  predicate NamesFile(addon: AddOn, attributes: seq<(string, string)>, j: nat) {
    && j < |attributes| && addon.equalFold(attributes[j].0, "file")
    && forall i :: 0 <= i < j ==> !addon.equalFold(attributes[i].0, "file")
  }

  /** The token before which nothing is broken is an element that refers to a file by `a`. */
  ghost predicate RefersAt(addon: AddOn, file: string, tokens: FileData, k: nat, a: Attempt) {
    && k < |tokens| && (forall i :: 0 <= i <= k ==> !tokens[i].SyntaxError?)
    && tokens[k].StartElement?
    && (addon.equalFold(tokens[k].name, "Script") || addon.equalFold(tokens[k].name, "Include"))
    && exists j: nat :: NamesFile(addon, tokens[k].attributes, j) && ReadFrom(addon, file, tokens[k], j, a)
  }

  predicate ReadFrom(addon: AddOn, file: string, token: Token, j: nat, a: Attempt)
    requires token.StartElement? && j < |token.attributes|
  {
    var value := addon.trim(token.attributes[j].1);
    value != "" && a == Attempt(value, LoadSource(file, token.line, addon.lower(token.name)))
  }

  lemma {:induction false} FileAttributeIsFirst(addon: AddOn, attributes: seq<(string, string)>)
    ensures forall j: nat | NamesFile(addon, attributes, j) ::
              FileAttribute(addon, attributes) == addon.trim(attributes[j].1)
    ensures FileAttribute(addon, attributes) != "" ==> exists j: nat :: NamesFile(addon, attributes, j)
  {
    if attributes != [] {
      if addon.equalFold(attributes[0].0, "file") {
        assert NamesFile(addon, attributes, 0);
      } else {
        var rest := attributes[1..];
        FileAttributeIsFirst(addon, rest);
        forall j: nat | NamesFile(addon, attributes, j)
          ensures FileAttribute(addon, attributes) == addon.trim(attributes[j].1)
        {
          assert NamesFile(addon, rest, j - 1);
        }
        if j: nat :| NamesFile(addon, rest, j) {
          assert NamesFile(addon, attributes, j + 1);
        }
      }
    }
  }

  lemma {:induction false} ReferenceIsRead(addon: AddOn, file: string, tokens: FileData, a: Attempt)
    requires tokens != []
    ensures RefersAt(addon, file, tokens, 0, a) <==>
              !tokens[0].SyntaxError? && ReferenceOf(addon, tokens[0]).Some?
              && a == AttemptOf(addon, file, tokens[0])
  {
    if tokens[0].StartElement? {
      FileAttributeIsFirst(addon, tokens[0].attributes);
    }
  }

  lemma RefersLater(addon: AddOn, file: string, tokens: FileData, k: nat, a: Attempt)
    requires tokens != [] && !tokens[0].SyntaxError? && k > 0
    ensures RefersAt(addon, file, tokens, k, a) <==> RefersAt(addon, file, tokens[1..], k - 1, a)
  {
    var rest := tokens[1..];
    if k < |tokens| {
      assert rest[k - 1] == tokens[k];
      if forall i :: 0 <= i <= k - 1 ==> !rest[i].SyntaxError? {
        forall i | 0 <= i <= k ensures !tokens[i].SyntaxError? {
          assert i > 0 ==> tokens[i] == rest[i - 1];
        }
      }
    }
  }

  /** At the positions `at`, which ascend, stand the elements of the references, and nowhere else. */
  ghost predicate InOrder(addon: AddOn, file: string, tokens: FileData, attempts: seq<Attempt>, at: seq<nat>) {
    && |at| == |attempts|
    && (forall i :: 0 <= i < |at| ==> RefersAt(addon, file, tokens, at[i], attempts[i]))
    && (forall i, j :: 0 <= i < j < |at| ==> at[i] < at[j])
    && forall k: nat, a :: RefersAt(addon, file, tokens, k, a) ==> k in at
  }

  lemma InOrderLater(addon: AddOn, file: string, tokens: FileData, attempts: seq<Attempt>, rest: seq<nat>)
    requires tokens != [] && !tokens[0].SyntaxError? && ReferenceOf(addon, tokens[0]).None?
    requires InOrder(addon, file, tokens[1..], attempts, rest)
    ensures InOrder(addon, file, tokens, attempts, Map(rest, (k: nat) => k + 1))
  {
    hide RefersAt, ReferenceOf;
    var at := Map(rest, (k: nat) => k + 1);
    forall i | 0 <= i < |at| ensures RefersAt(addon, file, tokens, at[i], attempts[i]) {
      RefersLater(addon, file, tokens, at[i], attempts[i]);
    }
    forall k: nat, a | RefersAt(addon, file, tokens, k, a) ensures k in at {
      if k == 0 {
        ReferenceIsRead(addon, file, tokens, a);
      } else {
        RefersLater(addon, file, tokens, k, a);
        MovedIn(rest, k - 1);
      }
    }
  }

  lemma InOrderFirst(addon: AddOn, file: string, tokens: FileData, attempts: seq<Attempt>, rest: seq<nat>)
    requires tokens != [] && !tokens[0].SyntaxError? && ReferenceOf(addon, tokens[0]).Some?
    requires InOrder(addon, file, tokens[1..], attempts, rest)
    ensures InOrder(addon, file, tokens, [AttemptOf(addon, file, tokens[0])] + attempts,
              [0] + Map(rest, (k: nat) => k + 1))
  {
    hide RefersAt, ReferenceOf;
    var moved := Map(rest, (k: nat) => k + 1);
    var at := [0] + moved;
    var all := [AttemptOf(addon, file, tokens[0])] + attempts;
    forall i | 0 <= i < |at| ensures RefersAt(addon, file, tokens, at[i], all[i]) {
      if i == 0 {
        ReferenceIsRead(addon, file, tokens, all[0]);
      } else {
        RefersLater(addon, file, tokens, at[i], all[i]);
      }
    }
    forall k: nat, a | RefersAt(addon, file, tokens, k, a) ensures k in at {
      if k > 0 {
        RefersLater(addon, file, tokens, k, a);
        MovedIn(rest, k - 1);
      }
    }
  }

  /** The references of an XML file are those of its Script and Include elements
      before the first syntax error, in the order of the document. */
  lemma {:induction false} ReferencesAreTheElements(addon: AddOn, file: string, tokens: FileData) returns (at: seq<nat>)
    ensures InOrder(addon, file, tokens, AttemptsIn(addon, file, tokens), at)
  {
    if tokens == [] || tokens[0].SyntaxError? {
      at := [];
    } else {
      var rest := ReferencesAreTheElements(addon, file, tokens[1..]);
      hide InOrder;
      at := Map(rest, (k: nat) => k + 1);
      var later := AttemptsIn(addon, file, tokens[1..]);
      if ReferenceOf(addon, tokens[0]).None? {
        InOrderLater(addon, file, tokens, later, rest);
        assert [] + later == later;
      } else {
        InOrderFirst(addon, file, tokens, later, rest);
        at := [0] + at;
      }
    }
  }

  /** Which references the include graph draws from a file. */
  lemma {:induction false} AttemptsOfFile(addon: AddOn, rel: string, a: Attempt)
    ensures a in AttemptsOf(addon, rel) <==>
              && rel in addon.files && addon.lower(Extension(rel)) in {".xml", "xml"}
              && exists k: nat :: RefersAt(addon, rel, addon.files[rel], k, a)
  {
    TypeByExtension(addon, rel);
    hide TypeOf, RefersAt, AttemptsIn;
    if rel in addon.files {
      var tokens := addon.files[rel];
      var at := ReferencesAreTheElements(addon, rel, tokens);
      var attempts := AttemptsIn(addon, rel, tokens);
      if k: nat :| RefersAt(addon, rel, tokens, k, a) {
        var i :| 0 <= i < |at| && at[i] == k;
        SameElementSameReference(addon, rel, tokens, k, a, attempts[i]);
      }
    }
  }

  lemma {:induction false} TypeByExtension(addon: AddOn, rel: string)
    ensures TypeOf(addon, rel) == Some(Xml) <==> addon.lower(Extension(rel)) in {".xml", "xml"}
  {
    hide Extension;
    assert ".xml"[1] == 'x' && ".lua"[1] == 'l' && "xml"[0] == 'x' && "lua"[0] == 'l';
  }

  lemma SameElementSameReference(addon: AddOn, file: string, tokens: FileData, k: nat, a: Attempt, b: Attempt)
    requires RefersAt(addon, file, tokens, k, a) && RefersAt(addon, file, tokens, k, b)
    ensures a == b
  {
    var attributes := tokens[k].attributes;
    var i: nat :| NamesFile(addon, attributes, i) && ReadFrom(addon, file, tokens[k], i, a);
    var j: nat :| NamesFile(addon, attributes, j) && ReadFrom(addon, file, tokens[k], j, b);
    assert i == j;
  }

  // ----- the lines of the TOC -----

  /** What a line says: its trimmed text, without the byte-order mark of the first line. */
  predicate Says(addon: AddOn, text: string, first: bool, value: string) {
    var trimmed := addon.trim(text);
    if first && trimmed != "" && trimmed[0] == '\U{FEFF}' then trimmed == [trimmed[0]] + value else value == trimmed
  }

  /** `## key : value`, cut at the first colon. */
  predicate Declares(addon: AddOn, value: string, key: string, meta: string) {
    && |value| >= 2 && value[0] == value[1] == '#'
    && addon.trim(value[2..]) == key + [':'] + meta && ':' !in key
  }

  lemma CutAtColon(addon: AddOn, value: string, key: string, meta: string)
    requires Declares(addon, value, key, meta)
    ensures var cut := addon.trim(value[2..]);
            && IndexOf(cut, ':') == |key| && |key| < |cut| && cut[..|key|] == key && cut[|key| + 1..] == meta
  {
    var cut := addon.trim(value[2..]);
    assert cut[|key|] == ':' && cut[..|key|] == key;
    forall i | 0 <= i < |key| ensures cut[i] != ':' {
      assert cut[i] == key[i] && key[i] in key;
    }
  }

  lemma LineShape(addon: AddOn, text: string, first: bool, value: string)
    requires Says(addon, text, first, value)
    ensures ReadTocLine(addon, text, first) ==
              if value == "" then Skipped
              else if value[0] != '#' then Entry(value)
              else if |value| == 1 || value[1] != '#' then Skipped
              else
                var meta := addon.trim(value[2..]);
                var colon := IndexOf(meta, ':');
                if colon < |meta| && NamesInterface(addon, meta[..colon])
                then Interface(addon.trim(meta[colon + 1..])) else Skipped
  {
    var trimmed := addon.trim(text);
    assert StartsWith(trimmed, ['\U{FEFF}']) <==> trimmed != "" && trimmed[0] == '\U{FEFF}';
    assert trimmed != "" ==> trimmed == [trimmed[0]] + trimmed[1..];
    assert value == if first && StartsWith(trimmed, ['\U{FEFF}']) then trimmed[1..] else trimmed;
    assert "##"[0] == "##"[1] == '#' && |"##"| == 2 && "#" == ['#'];
    assert StartsWith(value, "##") <==> |value| >= 2 && value[0] == value[1] == '#';
    assert StartsWith(value, "#") <==> |value| >= 1 && value[0] == '#';
  }

  /** The interface that `## Interface: v` declares. */
  ghost predicate DeclaresInterface(addon: AddOn, value: string, v: string) {
    exists key, meta :: Declares(addon, value, key, meta) && NamesInterface(addon, key) && v == addon.trim(meta)
  }

  predicate NamesInterface(addon: AddOn, key: string) {
    addon.equalFold(addon.trim(key), "Interface")
  }

  /** What a TOC line means: a reference unless it is blank or starts with `#`, the
      declared interface if it is `## Interface: v`, and nothing otherwise. */
  lemma TocLineMeans(addon: AddOn, text: string, first: bool, value: string, v: string)
    requires Says(addon, text, first, value)
    ensures ReadTocLine(addon, text, first) == Entry(v) <==> v == value && value != "" && value[0] != '#'
    ensures ReadTocLine(addon, text, first) == Interface(v) <==> DeclaresInterface(addon, value, v)
  {
    LineShape(addon, text, first, value);
    hide ReadTocLine, Says;
    if DeclaresInterface(addon, value, v) {
      var key, meta :| Declares(addon, value, key, meta) && NamesInterface(addon, key) && v == addon.trim(meta);
      CutAtColon(addon, value, key, meta);
    }
    if ReadTocLine(addon, text, first) == Interface(v) {
      InterfaceIsCut(addon, value, v);
    }
  }

  lemma InterfaceIsCut(addon: AddOn, value: string, v: string)
    requires |value| >= 2 && value[0] == value[1] == '#'
    requires var meta := addon.trim(value[2..]);
             var colon := IndexOf(meta, ':');
             && colon < |meta| && NamesInterface(addon, meta[..colon]) && v == addon.trim(meta[colon + 1..])
    ensures DeclaresInterface(addon, value, v)
  {
    var cut := addon.trim(value[2..]);
    var n := IndexOf(cut, ':');
    assert cut == cut[..n] + [':'] + cut[n + 1..];
    assert Declares(addon, value, cut[..n], cut[n + 1..]);
  }

  /** The references of a TOC are its entry lines, in order, each with its line number. */
  lemma {:induction false} RootsAreTheLines(addon: AddOn, toc: string, lines: seq<string>, n: nat)
      returns (at: seq<nat>)
    requires n <= |lines|
    ensures var roots := Roots(addon, toc, lines, n);
            && |at| == |roots|
            && (forall i :: 0 <= i < |at| ==>
                  at[i] < n && ReadTocLine(addon, lines[at[i]], at[i] == 0) == Entry(roots[i].reference)
                  && roots[i].source == LoadSource(toc, at[i] + 1, "toc"))
            && (forall i, j :: 0 <= i < j < |at| ==> at[i] < at[j])
            && forall k: nat :: k < n && ReadTocLine(addon, lines[k], k == 0).Entry? ==> k in at
  {
    hide ReadTocLine;
    if n == 0 {
      at := [];
    } else {
      at := RootsAreTheLines(addon, toc, lines, n - 1);
      if ReadTocLine(addon, lines[n - 1], n == 1).Entry? {
        at := at + [n - 1];
      }
    }
  }

  /** Line `k` is the last of the first `n` that declare an interface. */
  predicate LastInterface(addon: AddOn, lines: seq<string>, n: nat, k: nat, v: string)
    requires n <= |lines|
  {
    && k < n && ReadTocLine(addon, lines[k], k == 0) == Interface(v)
    && forall j :: k < j < n ==> !ReadTocLine(addon, lines[j], j == 0).Interface?
  }

  /** `v` is what the last declaration says, or empty. */
  ghost predicate InterfaceOf(addon: AddOn, lines: seq<string>, n: nat, v: string)
    requires n <= |lines|
  {
    || (exists k: nat :: LastInterface(addon, lines, n, k, v))
    || (v == "" && forall k: nat :: k < n ==> !ReadTocLine(addon, lines[k], k == 0).Interface?)
  }

  /** The closure has the last interface its TOC declares. */
  lemma {:induction false} LastInterfaceCounts(addon: AddOn, toc: string, lines: seq<string>, n: nat)
    requires n <= |lines|
    ensures InterfaceOf(addon, lines, n, ParseTocLines(addon, Opened(toc), lines, n).result.interfaceValue)
  {
    hide ReadTocLine, Load, InterfaceOf;
    if n == 0 {
      NoInterface(addon, lines);
    } else {
      LastInterfaceCounts(addon, toc, lines, n - 1);
      var st := ParseTocLines(addon, Opened(toc), lines, n - 1);
      match ReadTocLine(addon, lines[n - 1], n == 1) {
        case Skipped => InterfaceStays(addon, lines, n, st.result.interfaceValue);
        case Interface(v) => InterfaceSet(addon, lines, n, v);
        case Entry(reference) =>
          LoadKeepsHeader(addon, st, Attempt(reference, LoadSource(st.result.toc, n, "toc")));
          InterfaceStays(addon, lines, n, st.result.interfaceValue);
      }
    }
  }

  lemma NoInterface(addon: AddOn, lines: seq<string>)
    ensures InterfaceOf(addon, lines, 0, "")
  {
  }

  lemma InterfaceSet(addon: AddOn, lines: seq<string>, n: nat, v: string)
    requires 0 < n <= |lines| && ReadTocLine(addon, lines[n - 1], n == 1) == Interface(v)
    ensures InterfaceOf(addon, lines, n, v)
  {
    hide ReadTocLine;
    assert LastInterface(addon, lines, n, n - 1, v);
  }

  lemma InterfaceStays(addon: AddOn, lines: seq<string>, n: nat, v: string)
    requires 0 < n <= |lines| && !ReadTocLine(addon, lines[n - 1], n == 1).Interface?
    requires InterfaceOf(addon, lines, n - 1, v)
    ensures InterfaceOf(addon, lines, n, v)
  {
    hide ReadTocLine;
    var m := n - 1;
    if k: nat :| LastInterface(addon, lines, m, k, v) {
      assert LastInterface(addon, lines, n, k, v);
    }
  }

  // ----- what is reported -----

  /** A reference that does not lead to a readable Lua or XML file of the AddOn is
      an error at its own place; every other reference leads to that file. */
  lemma ReferenceIsClassified(addon: AddOn, a: Attempt)
    ensures match addon.resolve(a.source.file, a.reference)
            case Escapes(p) => RejectedAs(addon, a, PathEscape, p)
            case NotFound(p) => RejectedAs(addon, a, MissingFile, p)
            case CannotResolve(p) => RejectedAs(addon, a, UnreadableFile, p)
            case Resolved(rel) =>
              if addon.lower(Extension(rel)) !in {".lua", "lua", ".xml", "xml"}
                  then RejectedAs(addon, a, UnsupportedType, rel)
              else if rel in addon.files then Leads(addon, a, rel)
              else RejectedAs(addon, a, if rel in addon.absent then MissingFile else UnreadableFile, rel)
  {
  }

  /** The one diagnostic of a reference that leads nowhere. */
  ghost predicate RejectedAs(addon: AddOn, a: Attempt, code: Code, path: string) {
    RejectionsOf(addon, [a])
    == [Diagnostic(Error, code, addon.display(a.source.file), a.source.line, 0, Reference(a.reference, path))]
  }

  lemma {:induction false} RejectionOfOne(addon: AddOn, a: Attempt)
    ensures var c := Classify(addon, a);
            RejectionsOf(addon, [a]) ==
              if c.Rejected? then [Displayed(addon, Rejection(a, c.code, c.evidence))] else []
  {
    assert [a][..0] == [] && RejectionsOf(addon, []) == [];
  }

  /** The diagnostics `ds` are those of the references at the positions `at` below `n`, and no other has one. */
  ghost predicate ErrorsAt(addon: AddOn, log: seq<Attempt>, n: nat, ds: seq<Diagnostic>, at: seq<nat>)
    requires n <= |log|
  {
    && |at| == |ds|
    && (forall i :: 0 <= i < |at| ==> at[i] < n && RejectionsOf(addon, [log[at[i]]]) == [ds[i]])
    && (forall i, j :: 0 <= i < j < |at| ==> at[i] < at[j])
    && forall k: nat :: k < n && RejectionsOf(addon, [log[k]]) != [] ==> k in at
  }

  lemma {:induction false} ErrorsAtOneMore(addon: AddOn, log: seq<Attempt>, n: nat, ds: seq<Diagnostic>, at: seq<nat>,
        d: Diagnostic)
    requires n < |log| && ErrorsAt(addon, log, n, ds, at) && RejectionsOf(addon, [log[n]]) == [d]
    ensures ErrorsAt(addon, log, n + 1, ds + [d], at + [n])
  {
    hide RejectionsOf;
    assert (at + [n])[|at|] == n;
  }

  lemma {:induction false} NoErrorMore(addon: AddOn, log: seq<Attempt>, n: nat, ds: seq<Diagnostic>, at: seq<nat>)
    requires n < |log| && ErrorsAt(addon, log, n, ds, at) && RejectionsOf(addon, [log[n]]) == []
    ensures ErrorsAt(addon, log, n + 1, ds + [], at)
  {
    hide RejectionsOf;
    assert ds + [] == ds;
  }

  lemma {:induction false} RejectionsGrow(addon: AddOn, log: seq<Attempt>, n: nat)
    requires n < |log|
    ensures RejectionsOf(addon, log[..n + 1]) == RejectionsOf(addon, log[..n]) + RejectionsOf(addon, [log[n]])
    ensures RejectionsOf(addon, [log[n]]) == [] || |RejectionsOf(addon, [log[n]])| == 1
  {
    hide Classify, Displayed, Rejection;
    assert log[..n + 1][..n] == log[..n] && log[..n + 1][n] == log[n];
    RejectionOfOne(addon, log[n]);
  }

  /** The errors of a list of references are those of its rejected references, in order. */
  lemma {:induction false} RejectionsAreThoseOf(addon: AddOn, log: seq<Attempt>, n: nat) returns (at: seq<nat>)
    requires n <= |log|
    ensures ErrorsAt(addon, log, n, RejectionsOf(addon, log[..n]), at)
  {
    if n == 0 {
      at := [];
    } else {
      hide RejectionsOf, ErrorsAt;
      at := RejectionsAreThoseOf(addon, log, n - 1);
      RejectionsGrow(addon, log, n - 1);
      var before := RejectionsOf(addon, log[..n - 1]);
      var mine := RejectionsOf(addon, [log[n - 1]]);
      if mine != [] {
        ErrorsAtOneMore(addon, log, n - 1, before, at, mine[0]);
        at := at + [n - 1];
      } else {
        NoErrorMore(addon, log, n - 1, before, at);
      }
    }
  }
}
