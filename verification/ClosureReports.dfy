/** The diagnostics of a closure that its references alone do not tell: the broken XML
    files, and the first loader that a duplicate warning names. */
module ClosureReports {
  import opened Prelude
  import opened ClosureSpec
  import opened ClosureTrace
  import opened ClosureTheorems

  // ----- what loading leaves as it is -----

  /** `r` continues `st`: no entry, first loader or diagnostic is lost. */
  ghost predicate Continues(st: Builder, r: Builder) {
    && Indexed(st) && Indexed(r) && r.active == st.active
    && |st.result.files| <= |r.result.files| && st.result.diagnostics <= r.result.diagnostics
    && (forall k :: k in st.files ==> k in r.files && r.files[k] == st.files[k])
    && forall i :: 0 <= i < |st.result.files| ==>
         var f, g := st.result.files[i], r.result.files[i];
         g == f.(loadedBy := g.loadedBy) && f.loadedBy <= g.loadedBy
  }

  /** The entries and the index of their keys agree. */
  predicate Keyed(addon: AddOn, st: Builder) {
    && (forall i :: 0 <= i < |st.result.files| ==>
          var key := addon.lower(st.result.files[i].path); key in st.files && st.files[key] == i)
    && forall k :: k in st.files ==>
         st.files[k] < |st.result.files| && addon.lower(st.result.files[st.files[k]].path) == k
  }

  // ----- the diagnostics in question -----

  /** The diagnostic of the first syntax error in the tokens of `file`. */
  predicate BreaksAt(addon: AddOn, file: string, tokens: FileData, k: nat, d: Diagnostic) {
    && k < |tokens| && tokens[k].SyntaxError? && (forall i :: 0 <= i < k ==> !tokens[i].SyntaxError?)
    && d == Diagnostic(Error, XmlParseFailed, addon.display(file), tokens[k].line, tokens[k].column, NoEvidence)
  }

  ghost predicate Breaks(addon: AddOn, file: string, tokens: FileData, d: Diagnostic) {
    exists k: nat :: BreaksAt(addon, file, tokens, k, d)
  }

  /** The diagnostic of an XML file that does not parse. */
  ghost predicate Broken(addon: AddOn, rel: string, d: Diagnostic) {
    rel in addon.files && TypeOf(addon, rel) == Some(Xml) && Breaks(addon, rel, addon.files[rel], d)
  }

  lemma BreaksLater(addon: AddOn, file: string, tokens: FileData, d: Diagnostic)
    requires tokens != []
    ensures Breaks(addon, file, tokens, d) <==>
              if tokens[0].SyntaxError? then BreaksAt(addon, file, tokens, 0, d)
              else Breaks(addon, file, tokens[1..], d)
  {
    var rest := tokens[1..];
    if k: nat :| BreaksAt(addon, file, tokens, k, d) {
      if k > 0 {
        assert rest[k - 1] == tokens[k];
        forall i | 0 <= i < k - 1 ensures !rest[i].SyntaxError? {
          assert rest[i] == tokens[i + 1];
        }
        assert BreaksAt(addon, file, rest, k - 1, d);
      }
    }
    if !tokens[0].SyntaxError? {
      if k: nat :| BreaksAt(addon, file, rest, k, d) {
        forall i | 0 <= i < k + 1 ensures !tokens[i].SyntaxError? {
          assert i > 0 ==> tokens[i] == rest[i - 1];
        }
        assert BreaksAt(addon, file, tokens, k + 1, d);
      }
    }
  }

  /** A duplicate warning names the loader that came first. */
  predicate Credited(addon: AddOn, st: Builder, d: Diagnostic) {
    d.evidence.Repeated? ==>
      var key := addon.lower(d.evidence.target);
      && key in st.files && st.files[key] < |st.result.files| && st.result.files[st.files[key]].loadedBy != []
      && st.result.files[st.files[key]].loadedBy[0] == d.evidence.firstLoadedBy
  }

  ghost predicate Blamed(addon: AddOn, st: Builder, d: Diagnostic) {
    d.code == XmlParseFailed ==> exists i :: 0 <= i < |st.result.files| && Broken(addon, st.result.files[i].path, d)
  }

  /** Each broken file is reported unless it is still being expanded. */
  ghost predicate Reported(addon: AddOn, st: Builder) {
    forall i, d :: 0 <= i < |st.result.files| && Broken(addon, st.result.files[i].path, d) ==>
      d in st.result.diagnostics || addon.lower(st.result.files[i].path) in st.active
  }

  ghost predicate Sound(addon: AddOn, st: Builder) {
    && Indexed(st) && Keyed(addon, st) && Reported(addon, st) && st.active <= st.files.Keys
    && forall d :: d in st.result.diagnostics ==> Credited(addon, st, d) && Blamed(addon, st, d)
  }

  // ----- one reference -----

  lemma StillSound(addon: AddOn, st: Builder, r: Builder, d: Diagnostic)
    requires Continues(st, r)
    ensures Credited(addon, st, d) ==> Credited(addon, r, d)
    ensures Blamed(addon, st, d) ==> Blamed(addon, r, d)
  {
    hide Broken;
  }

  lemma ReportIsSound(addon: AddOn, st: Builder, d: Diagnostic)
    requires Sound(addon, st) && Blamed(addon, st, d.(file := addon.display(d.file))) && !d.evidence.Repeated?
    ensures Sound(addon, Report(addon, st, d)) && Continues(st, Report(addon, st, d))
  {
    hide Broken;
    var r := Report(addon, st, d);
    forall e | e in r.result.diagnostics ensures Credited(addon, r, e) && Blamed(addon, r, e) {
      StillSound(addon, st, r, e);
    }
  }

  lemma AgainIsSound(addon: AddOn, st: Builder, rel: string, a: Attempt)
    requires Sound(addon, st) && addon.lower(rel) in st.files
    ensures Sound(addon, LoadAgain(addon, st, rel, a)) && Continues(st, LoadAgain(addon, st, rel, a))
  {
    hide Broken;
    var r := LoadAgain(addon, st, rel, a);
    assert Continues(st, r);
    forall e | e in r.result.diagnostics ensures Credited(addon, r, e) && Blamed(addon, r, e) {
      if e in st.result.diagnostics {
        StillSound(addon, st, r, e);
      }
    }
    forall i | 0 <= i < |st.result.files| ensures r.result.files[i].path == st.result.files[i].path {
    }
  }

  lemma {:induction false} LoadIsSound(addon: AddOn, st: Builder, a: Attempt)
    requires Sound(addon, st)
    ensures Sound(addon, Load(addon, st, a)) && Continues(st, Load(addon, st, a))
    decreases Keys(addon) - st.files.Keys, 0, 1
  {
    var resolution := addon.resolve(a.source.file, a.reference);
    if resolution.Resolved? && TypeOf(addon, resolution.rel).Some? {
      var rel := resolution.rel;
      var key := addon.lower(rel);
      if key in st.files {
        AgainIsSound(addon, st, rel, a);
      } else if rel in addon.files {
        NewIsSound(addon, st, rel, a);
      } else {
        ReportIsSound(addon, st,
          Rejection(a, if rel in addon.absent then MissingFile else UnreadableFile, Reference(a.reference, rel)));
      }
    } else {
      var c := Classify(addon, a);
      ReportIsSound(addon, st, Rejection(a, c.code, c.evidence));
    }
  }

  /** A new file: its entry, and the expansion below it. */
  lemma {:induction false} NewIsSound(addon: AddOn, st: Builder, rel: string, a: Attempt)
    requires Sound(addon, st) && addon.resolve(a.source.file, a.reference) == Resolved(rel)
    requires addon.lower(rel) !in st.files && rel in addon.files && TypeOf(addon, rel).Some?
    ensures Sound(addon, Load(addon, st, a)) && Continues(st, Load(addon, st, a))
    decreases Keys(addon) - st.files.Keys, 0, 0
  {
    var key := addon.lower(rel);
    var entered := Append(addon, st, rel, a);
    if TypeOf(addon, rel) == Some(Xml) {
      EnterIsSound(addon, st, rel, a);
      assert key in Keys(addon) - st.files.Keys;
      entered := entered.(active := entered.active + {key});
      ExpandIsSound(addon, entered, rel, addon.files[rel]);
      LeaveIsSound(addon, st, rel, a, ParseXml(addon, entered, rel, addon.files[rel]));
    } else {
      LeafIsSound(addon, st, rel, a);
    }
  }

  lemma {:induction false} ExpandIsSound(addon: AddOn, st: Builder, file: string, tokens: FileData)
    requires Sound(addon, st) && exists i :: 0 <= i < |st.result.files| && st.result.files[i].path == file
    requires forall d :: Breaks(addon, file, tokens, d) ==> Broken(addon, file, d)
    ensures var r := ParseXml(addon, st, file, tokens);
            && Sound(addon, r) && Continues(st, r)
            && forall d :: Breaks(addon, file, tokens, d) ==> d in r.result.diagnostics
    decreases Keys(addon) - st.files.Keys, 1, |tokens|
  {
    SoundIsIndexed(addon, st);
    hide Broken, Breaks, Sound;
    var r := ParseXml(addon, st, file, tokens);
    if tokens == [] {
      NothingBreaks(addon, file);
    } else {
      forall d ensures Breaks(addon, file, tokens, d) <==>
          if tokens[0].SyntaxError? then BreaksAt(addon, file, tokens, 0, d) else Breaks(addon, file, tokens[1..], d)
      {
        BreaksLater(addon, file, tokens, d);
      }
      if tokens[0].SyntaxError? {
        var d := Diagnostic(Error, XmlParseFailed, file, tokens[0].line, tokens[0].column, NoEvidence);
        assert BreaksAt(addon, file, tokens, 0, Displayed(addon, d));
        ReportIsSound(addon, st, d);
      } else if ReferenceOf(addon, tokens[0]).None? {
        ExpandIsSound(addon, st, file, tokens[1..]);
      } else {
        var a := AttemptOf(addon, file, tokens[0]);
        LoadIsSound(addon, st, a);
        ExpandIsSound(addon, Load(addon, st, a), file, tokens[1..]);
        ContinuesOn(st, Load(addon, st, a), r);
      }
    }
  }

  lemma SoundIsIndexed(addon: AddOn, st: Builder)
    requires Sound(addon, st)
    ensures Indexed(st) && Continues(st, st)
  {
  }

  lemma NothingBreaks(addon: AddOn, file: string)
    ensures forall d :: !Breaks(addon, file, [], d)
  {
  }

  lemma ContinuesOn(a: Builder, b: Builder, c: Builder)
    requires Continues(a, b) && Continues(b, c)
    ensures Continues(a, c)
  {
  }

  lemma LeafIsSound(addon: AddOn, st: Builder, rel: string, a: Attempt)
    requires Sound(addon, st) && addon.lower(rel) !in st.files && rel in addon.files && TypeOf(addon, rel) == Some(Lua)
    ensures Sound(addon, Append(addon, st, rel, a)) && Continues(st, Append(addon, st, rel, a))
  {
    var r := Append(addon, st, rel, a);
    assert forall d :: !Broken(addon, rel, d);
    hide Broken;
    forall e | e in r.result.diagnostics ensures Credited(addon, r, e) && Blamed(addon, r, e) {
      StillSound(addon, st, r, e);
    }
  }

  lemma EnterIsSound(addon: AddOn, st: Builder, rel: string, a: Attempt)
    requires Sound(addon, st) && addon.lower(rel) !in st.files && rel in addon.files && TypeOf(addon, rel) == Some(Xml)
    ensures var st' := Append(addon, st, rel, a);
            && Sound(addon, st'.(active := st'.active + {addon.lower(rel)}))
            && st'.result.files[|st.result.files|].path == rel
  {
    hide Broken;
  }

  lemma LeaveContinues(addon: AddOn, st: Builder, rel: string, a: Attempt, r: Builder)
    requires Indexed(st) && st.active <= st.files.Keys && addon.lower(rel) !in st.files && rel in addon.files
        && TypeOf(addon, rel).Some?
    requires var st' := Append(addon, st, rel, a); Continues(st'.(active := st'.active + {addon.lower(rel)}), r)
    ensures Continues(st, r.(active := r.active - {addon.lower(rel)}))
    ensures |st.result.files| < |r.result.files| && r.result.files[|st.result.files|].path == rel
  {
    hide TypeOf;
    var files, files' := st.result.files, Append(addon, st, rel, a).result.files;
    forall i | 0 <= i < |files| ensures files[i].loadedBy <= r.result.files[i].loadedBy {
      assert files'[i] == files[i];
    }
    assert r.active - {addon.lower(rel)} == st.active;
  }

  lemma LeaveIsSound(addon: AddOn, st: Builder, rel: string, a: Attempt, r: Builder)
    requires Sound(addon, st) && addon.lower(rel) !in st.files && rel in addon.files && TypeOf(addon, rel) == Some(Xml)
    requires var st' := Append(addon, st, rel, a); Continues(st'.(active := st'.active + {addon.lower(rel)}), r)
    requires Sound(addon, r) && forall d :: Broken(addon, rel, d) ==> d in r.result.diagnostics
    ensures var left := r.(active := r.active - {addon.lower(rel)});
            Sound(addon, left) && Continues(st, left)
  {
    hide Broken;
    LeaveContinues(addon, st, rel, a, r);
    hide Continues, TypeOf;
    var left := r.(active := r.active - {addon.lower(rel)});
    forall i | 0 <= i < |r.result.files| && addon.lower(r.result.files[i].path) == addon.lower(rel)
      ensures r.result.files[i].path == rel
    {
      assert addon.lower(r.result.files[|st.result.files|].path) == addon.lower(rel);
    }
    forall e | e in left.result.diagnostics ensures Credited(addon, left, e) && Blamed(addon, left, e) {
      assert Credited(addon, r, e) && Blamed(addon, r, e);
    }
  }

  // ----- the whole closure -----

  lemma {:induction false} LinesAreSound(addon: AddOn, toc: string, lines: seq<string>, n: nat)
    requires n <= |lines|
    ensures var st := ParseTocLines(addon, Opened(toc), lines, n);
            Sound(addon, st) && st.active == {}
  {
    hide ReadTocLine, Broken;
    if n > 0 {
      LinesAreSound(addon, toc, lines, n - 1);
      var st := ParseTocLines(addon, Opened(toc), lines, n - 1);
      match ReadTocLine(addon, lines[n - 1], n == 1) {
        case Skipped =>
        case Interface(value) => InterfaceIsSound(addon, st, value);
        case Entry(reference) => LoadIsSound(addon, st, Attempt(reference, LoadSource(st.result.toc, n, "toc")));
      }
    }
  }

  lemma InterfaceIsSound(addon: AddOn, st: Builder, value: string)
    requires Sound(addon, st)
    ensures Sound(addon, st.(result := st.result.(interfaceValue := value)))
  {
    hide Broken;
    var r := st.(result := st.result.(interfaceValue := value));
    forall e | e in r.result.diagnostics ensures Credited(addon, r, e) && Blamed(addon, r, e) {
      assert Credited(addon, st, e) && Blamed(addon, st, e);
    }
  }

  /** A closure reports a syntax error for exactly the loaded XML files that have one,
      each at the first. */
  lemma {:induction false} BrokenFilesAreReported(addon: AddOn, toc: string, rel: string, lines: seq<string>,
        truncated: bool, d: Diagnostic)
    requires Reads(addon, toc, rel, lines, truncated) && d.code == XmlParseFailed
    ensures var closure := BuildClosure(addon, toc);
            d in closure.diagnostics <==> exists f :: f in closure.files && Broken(addon, f.path, d)
  {
    BuildRunsTheLines(addon, toc, rel, lines, truncated);
    LinesAreSound(addon, rel, lines, |lines|);
    var st := ParseTocLines(addon, Opened(rel), lines, |lines|);
    hide BuildClosure, ParseTocLines, Broken, Reads;
    if d in st.result.diagnostics {
      assert Blamed(addon, st, d);
    }
  }

  /** A duplicate warning names the source by which its target was loaded first. */
  lemma {:induction false} DuplicateNamesFirstLoader(addon: AddOn, toc: string, rel: string, lines: seq<string>,
        truncated: bool, d: Diagnostic)
    requires Reads(addon, toc, rel, lines, truncated)
    requires d in BuildClosure(addon, toc).diagnostics && d.evidence.Repeated?
    ensures exists f :: f in BuildClosure(addon, toc).files && addon.lower(f.path) == addon.lower(d.evidence.target)
              && f.loadedBy != [] && f.loadedBy[0] == d.evidence.firstLoadedBy
  {
    BuildRunsTheLines(addon, toc, rel, lines, truncated);
    LinesAreSound(addon, rel, lines, |lines|);
    var st := ParseTocLines(addon, Opened(rel), lines, |lines|);
    hide BuildClosure, ParseTocLines, Broken, Reads;
    assert Credited(addon, st, d);
    var f := st.result.files[st.files[addon.lower(d.evidence.target)]];
    assert f in st.result.files;
  }

  // ----- a TOC that cannot be read -----

  /** Nothing is loaded, and the one error stands at `file` and names what was looked for. */
  predicate Fails(closure: Closure, code: Code, file: string, toc: string, path: string) {
    && closure.files == [] && closure.contents == map[] && closure.interfaceValue == ""
    && closure.diagnostics == [Diagnostic(Error, code, file, 0, 0, Reference(toc, path))]
  }

  /** Without a readable TOC the closure is one error, by the reason for it. */
  lemma UnreadTocIsReported(addon: AddOn, toc: string)
    ensures var closure, asked := BuildClosure(addon, toc), addon.display(addon.display(toc));
            match addon.resolveToc(toc)
            case Escapes(p) => Fails(closure, PathEscape, asked, toc, p) && closure.toc == ""
            case NotFound(p) => Fails(closure, MissingFile, asked, toc, p) && closure.toc == ""
            case CannotResolve(p) => Fails(closure, UnreadableFile, asked, toc, p) && closure.toc == ""
            case Resolved(rel) =>
              match addon.readToc(rel)
              case TocAbsent => Fails(closure, MissingFile, addon.display(rel), toc, rel) && closure.toc == rel
              case TocUnreadable => Fails(closure, UnreadableFile, addon.display(rel), toc, rel) && closure.toc == rel
              case TocData(_, _) => closure.toc == rel
  {
    if addon.resolveToc(toc).Resolved? {
      var rel := addon.resolveToc(toc).rel;
      if addon.readToc(rel).TocData? {
        TocIsKept(addon, rel, addon.readToc(rel).lines, |addon.readToc(rel).lines|);
        hide ParseTocLines;
      }
    }
  }

  lemma {:induction false} TocIsKept(addon: AddOn, toc: string, lines: seq<string>, n: nat)
    requires n <= |lines|
    ensures ParseTocLines(addon, Opened(toc), lines, n).result.toc == toc
  {
    hide ReadTocLine, Load;
    if n > 0 {
      TocIsKept(addon, toc, lines, n - 1);
      var st := ParseTocLines(addon, Opened(toc), lines, n - 1);
      match ReadTocLine(addon, lines[n - 1], n == 1) {
        case Entry(reference) => LoadKeepsHeader(addon, st, Attempt(reference, LoadSource(toc, n, "toc")));
        case _ =>
      }
    }
  }
}
