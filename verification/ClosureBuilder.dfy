/** The builder object of internal/validator/closure.go.  Its methods update the
    result, the file index and the set of files being expanded; each one is proved
    to compute the state function of `ClosureSpec`. */
module ClosureBuilding {
  import opened Prelude
  import opened ClosureSpec

  class ClosureBuilder {
    const addon: AddOn
    var result: Closure
    var files: map<string, nat>
    var active: set<string>

    constructor (addon: AddOn)
      ensures this.addon == addon && State() == EMPTY_BUILDER
    {
      this.addon := addon;
      result := EMPTY_CLOSURE;
      files := map[];
      active := {};
    }

    ghost function State(): Builder
      reads this
    {
      Builder(result, files, active)
    }

    method AddDiagnostic(d: Diagnostic)
      modifies this
      ensures State() == Report(addon, old(State()), d)
    {
      result := result.(diagnostics := result.diagnostics + [d.(file := addon.display(d.file))]);
    }

    method AddResolveDiagnostic(a: Attempt, resolution: Resolution)
      requires !resolution.Resolved?
      modifies this
      ensures State() == Report(addon, old(State()),
          match resolution
          case Escapes(p) => Rejection(a, PathEscape, Reference(a.reference, p))
          case NotFound(p) => Rejection(a, MissingFile, Reference(a.reference, p))
          case CannotResolve(p) => Rejection(a, UnreadableFile, Reference(a.reference, p)))
    {
      var code := UnreadableFile;
      match resolution {
        case Escapes(_) => code := PathEscape;
        case NotFound(_) => code := MissingFile;
        case CannotResolve(_) =>
      }
      AddDiagnostic(Rejection(a, code, Reference(a.reference, resolution.path)));
    }

    method LoadReference(a: Attempt)
      requires Indexed(State())
      modifies this
      ensures State() == Load(addon, old(State()), a)
      decreases Keys(addon) - files.Keys, 0, 0
    {
      var resolution := addon.resolve(a.source.file, a.reference);
      if !resolution.Resolved? {
        AddResolveDiagnostic(a, resolution);
        return;
      }
      var rel := resolution.rel;
      var fileType := TypeOf(addon, rel);
      if fileType.None? {
        AddDiagnostic(Rejection(a, UnsupportedType, Reference(a.reference, rel)));
        return;
      }
      var key := addon.lower(rel);
      if key in files {
        var index := files[key];
        var file := result.files[index];
        file := file.(loadedBy := file.loadedBy + [a.source]);
        result := result.(files := result.files[index := file]);
        if key in active {
          AddDiagnostic(Diagnostic(Warning, CircularReference, a.source.file, a.source.line, 0,
                                   Reference(a.reference, rel)));
        } else {
          AddDiagnostic(Diagnostic(Warning, DuplicateReference, a.source.file, a.source.line, 0,
                                   Repeated(a.reference, rel, file.loadedBy[0])));
        }
        return;
      }
      if rel !in addon.files {
        var code := UnreadableFile;
        if rel in addon.absent {
          code := MissingFile;
        }
        AddDiagnostic(Rejection(a, code, Reference(a.reference, rel)));
        return;
      }
      var data := addon.files[rel];
      var index := |result.files|;
      assert key in Keys(addon) - files.Keys;
      files := files[key := index];
      result := result.(files := result.files + [LoadFile(rel, fileType.value, [a.source], index)],
                        contents := result.contents[rel := data]);
      if fileType.value != Xml {
        return;
      }
      active := active + {key};
      ExpandXml(rel, data);
      active := active - {key};
    }

    method ExpandXml(file: string, data: FileData)
      requires Indexed(State())
      modifies this
      ensures State() == ParseXml(addon, old(State()), file, data)
      decreases Keys(addon) - files.Keys, 1, |data|
    {
      var position := 0;
      while position < |data|
        invariant 0 <= position <= |data|
        invariant Indexed(State()) && old(files).Keys <= files.Keys
        invariant ParseXml(addon, State(), file, data[position..]) == ParseXml(addon, old(State()), file, data)
      {
        var token := data[position];
        if token.SyntaxError? {
          AddDiagnostic(Diagnostic(Error, XmlParseFailed, file, token.line, token.column, NoEvidence));
          return;
        }
        assert data[position..][1..] == data[position + 1..];
        if ReferenceOf(addon, token).Some? {
          LoadReference(AttemptOf(addon, file, token));
        }
        position := position + 1;
      }
    }

    method ReadToc(lines: seq<string>, truncated: bool)
      requires Indexed(State())
      modifies this
      ensures State() == ParseToc(addon, old(State()), lines, truncated)
    {
      hide ReadTocLine, Load;
      var line := 0;
      while line < |lines|
        invariant 0 <= line <= |lines|
        invariant State() == ParseTocLines(addon, old(State()), lines, line)
      {
        line := line + 1;
        match ReadTocLine(addon, lines[line - 1], line == 1) {
          case Skipped =>
          case Interface(value) => result := result.(interfaceValue := value);
          case Entry(reference) => LoadReference(Attempt(reference, LoadSource(result.toc, line, "toc")));
        }
      }
      if truncated {
        AddDiagnostic(Diagnostic(Error, UnreadableFile, result.toc, line, 0, NoEvidence));
      }
    }
  }

  method Build(addon: AddOn, toc: string) returns (closure: Closure)
    ensures closure == BuildClosure(addon, toc)
  {
    var b := new ClosureBuilder(addon);
    var resolution := addon.resolveToc(toc);
    if !resolution.Resolved? {
      b.AddResolveDiagnostic(Attempt(toc, LoadSource(addon.display(toc), 0, "toc")), resolution);
      return b.result;
    }
    var rel := resolution.rel;
    b.result := b.result.(toc := rel);
    match addon.readToc(rel) {
      case TocAbsent =>
        b.AddDiagnostic(Diagnostic(Error, MissingFile, rel, 0, 0, Reference(toc, rel)));
      case TocUnreadable =>
        b.AddDiagnostic(Diagnostic(Error, UnreadableFile, rel, 0, 0, Reference(toc, rel)));
      case TocData(lines, truncated) =>
        b.ReadToc(lines, truncated);
    }
    closure := b.result;
  }
}
