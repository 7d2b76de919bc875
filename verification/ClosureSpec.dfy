/** The ordered Lua/XML load closure of an AddOn (internal/validator/closure.go),
    as functions on values.  Path resolution, decoding of XML and the letter-case
    rules of the host are given by an `AddOn` value; every theorem holds for all
    such values. */
module ClosureSpec {
  import opened Prelude
  import opened Text

  datatype LoadSource = LoadSource(file: string, line: int, kind: string)

  datatype Code =
    | MissingFile | UnreadableFile | PathEscape | UnsupportedType
    | XmlParseFailed | DuplicateReference | CircularReference

  datatype Severity = Error | Warning

  datatype Evidence =
    | NoEvidence
    | Reference(reference: string, resolved: string)
    | Repeated(duplicate: string, target: string, firstLoadedBy: LoadSource)

  datatype Diagnostic =
    Diagnostic(severity: Severity, code: Code, file: string, line: int, column: int, evidence: Evidence)

  datatype FileType = Lua | Xml

  datatype LoadFile = LoadFile(path: string, fileType: FileType, loadedBy: seq<LoadSource>, loadOrder: nat)

  /** What the XML decoder yields; a syntax error ends the stream. */
  datatype Token =
    | StartElement(name: string, attributes: seq<(string, string)>, line: int)
    | OtherToken
    | SyntaxError(line: int, column: int)

  type FileData = seq<Token>

  datatype Resolution =
    | Resolved(rel: string)
    | Escapes(path: string)
    | NotFound(path: string)
    | CannotResolve(path: string)

  datatype TocData = TocData(lines: seq<string>, truncated: bool) | TocAbsent | TocUnreadable

  /** One AddOn on a disk that does not change while it is read. `files` are the
      files that can be read, `absent` the resolved paths whose read reports
      "not found"; every other read fails for another reason. */
  datatype AddOn = AddOn(
    resolve: (string, string) -> Resolution,
    resolveToc: string -> Resolution,
    readToc: string -> TocData,
    files: map<string, FileData>,
    absent: set<string>,
    lower: string -> string,
    equalFold: (string, string) -> bool,
    trim: string -> string,
    display: string -> string)

  datatype Closure = Closure(
    toc: string,
    interfaceValue: string,
    files: seq<LoadFile>,
    diagnostics: seq<Diagnostic>,
    contents: map<string, FileData>)

  /** The state of `closureBuilder`: `files` maps a lower-cased path to its
      position in `result.files`; `active` holds the XML files being expanded. */
  datatype Builder = Builder(result: Closure, files: map<string, nat>, active: set<string>)

  const EMPTY_CLOSURE := Closure("", "", [], [], map[])
  const EMPTY_BUILDER := Builder(EMPTY_CLOSURE, map[], {})

  /** Every recorded position is inside the file list. */
  predicate Indexed(st: Builder) {
    forall k :: k in st.files ==> st.files[k] < |st.result.files| && |st.result.files[st.files[k]].loadedBy| > 0
  }

  function Keys(addon: AddOn): set<string> {
    set rel | rel in addon.files :: addon.lower(rel)
  }

  // ----- file types -----

  /** The type of a file an AddOn can load, by its extension. */
  function TypeOf(addon: AddOn, rel: string): Option<FileType> {
    var ext := addon.lower(Extension(rel));
    if ext == ".lua" || ext == "lua" then Some(Lua)
    else if ext == ".xml" || ext == "xml" then Some(Xml)
    else None
  }

  // ----- one reference -----

  datatype Attempt = Attempt(reference: string, source: LoadSource)

  /** Why a reference does not lead to a file, or the file it leads to. */
  datatype Outcome = Rejected(code: Code, evidence: Evidence) | Target(rel: string)

  function Classify(addon: AddOn, a: Attempt): Outcome {
    match addon.resolve(a.source.file, a.reference)
    case Escapes(p) => Rejected(PathEscape, Reference(a.reference, p))
    case NotFound(p) => Rejected(MissingFile, Reference(a.reference, p))
    case CannotResolve(p) => Rejected(UnreadableFile, Reference(a.reference, p))
    case Resolved(rel) =>
      if TypeOf(addon, rel).None? then Rejected(UnsupportedType, Reference(a.reference, rel))
      else if rel in addon.files then Target(rel)
      else if rel in addon.absent then Rejected(MissingFile, Reference(a.reference, rel))
      else Rejected(UnreadableFile, Reference(a.reference, rel))
  }

  function Report(addon: AddOn, st: Builder, d: Diagnostic): (r: Builder)
    ensures r.files == st.files && r.active == st.active && r.result.files == st.result.files
  {
    st.(result := st.result.(diagnostics := st.result.diagnostics + [d.(file := addon.display(d.file))]))
  }

  function Rejection(a: Attempt, code: Code, evidence: Evidence): Diagnostic {
    Diagnostic(Error, code, a.source.file, a.source.line, 0, evidence)
  }

  /** The file already has an entry: record the source and warn. */
  function LoadAgain(addon: AddOn, st: Builder, rel: string, a: Attempt): (r: Builder)
    requires Indexed(st) && addon.lower(rel) in st.files
    ensures Indexed(r) && r.files == st.files && r.active == st.active
  {
    var key := addon.lower(rel);
    var index := st.files[key];
    var file := st.result.files[index];
    var file' := file.(loadedBy := file.loadedBy + [a.source]);
    var st' := st.(result := st.result.(files := st.result.files[index := file']));
    if key in st.active then
      Report(addon, st', Diagnostic(Warning, CircularReference, a.source.file, a.source.line, 0,
                                    Reference(a.reference, rel)))
    else
      Report(addon, st', Diagnostic(Warning, DuplicateReference, a.source.file, a.source.line, 0,
                                    Repeated(a.reference, rel, file'.loadedBy[0])))
  }

  /** The file is new: append it to the closure. */
  function Append(addon: AddOn, st: Builder, rel: string, a: Attempt): (r: Builder)
    requires Indexed(st) && rel in addon.files && addon.lower(rel) !in st.files && TypeOf(addon, rel).Some?
    ensures Indexed(r) && r.files.Keys == st.files.Keys + {addon.lower(rel)} && r.active == st.active
  {
    var index := |st.result.files|;
    var file := LoadFile(rel, TypeOf(addon, rel).value, [a.source], index);
    Builder(
      st.result.(files := st.result.files + [file],
                 contents := st.result.contents[rel := addon.files[rel]]),
      st.files[addon.lower(rel) := index],
      st.active)
  }

  /** The reference held by a token: a Script or Include element whose first
      `file` attribute is not blank. */
  function ReferenceOf(addon: AddOn, token: Token): Option<string> {
    if token.StartElement? && (addon.equalFold(token.name, "Script") || addon.equalFold(token.name, "Include")) then
      var value := FileAttribute(addon, token.attributes);
      if value == "" then None else Some(value)
    else None
  }

  function FileAttribute(addon: AddOn, attributes: seq<(string, string)>): string {
    if attributes == [] then ""
    else if addon.equalFold(attributes[0].0, "file") then addon.trim(attributes[0].1)
    else FileAttribute(addon, attributes[1..])
  }

  function AttemptOf(addon: AddOn, file: string, token: Token): Attempt
    requires ReferenceOf(addon, token).Some?
  {
    Attempt(ReferenceOf(addon, token).value, LoadSource(file, token.line, addon.lower(token.name)))
  }

  // ----- the recursive expansion -----

  function Load(addon: AddOn, st: Builder, a: Attempt): (r: Builder)
    requires Indexed(st)
    ensures Indexed(r) && st.files.Keys <= r.files.Keys
    decreases Keys(addon) - st.files.Keys, 0, 0
  {
    match addon.resolve(a.source.file, a.reference)
    case Resolved(rel) =>
      var key := addon.lower(rel);
      if TypeOf(addon, rel).None? then
        Report(addon, st, Rejection(a, UnsupportedType, Reference(a.reference, rel)))
      else if key in st.files then
        LoadAgain(addon, st, rel, a)
      else if rel !in addon.files then
        Report(addon, st, Rejection(a, if rel in addon.absent then MissingFile else UnreadableFile,
                                    Reference(a.reference, rel)))
      else
        var st' := Append(addon, st, rel, a);
        if TypeOf(addon, rel) != Some(Xml) then st'
        else
          assert key in Keys(addon) - st.files.Keys;
          var entered := st'.(active := st'.active + {key});
          var expanded := ParseXml(addon, entered, rel, addon.files[rel]);
          expanded.(active := expanded.active - {key})
    case Escapes(p) => Report(addon, st, Rejection(a, PathEscape, Reference(a.reference, p)))
    case NotFound(p) => Report(addon, st, Rejection(a, MissingFile, Reference(a.reference, p)))
    case CannotResolve(p) => Report(addon, st, Rejection(a, UnreadableFile, Reference(a.reference, p)))
  }

  function ParseXml(addon: AddOn, st: Builder, file: string, tokens: FileData): (r: Builder)
    requires Indexed(st)
    ensures Indexed(r) && st.files.Keys <= r.files.Keys
    decreases Keys(addon) - st.files.Keys, 1, |tokens|
  {
    if tokens == [] then st
    else if tokens[0].SyntaxError? then
      Report(addon, st, Diagnostic(Error, XmlParseFailed, file, tokens[0].line, tokens[0].column, NoEvidence))
    else if ReferenceOf(addon, tokens[0]).None? then
      ParseXml(addon, st, file, tokens[1..])
    else
      ParseXml(addon, Load(addon, st, AttemptOf(addon, file, tokens[0])), file, tokens[1..])
  }

  // ----- the TOC -----

  datatype TocLine = Skipped | Interface(value: string) | Entry(reference: string)

  function StartsWith(s: string, prefix: string): bool {
    |prefix| <= |s| && s[..|prefix|] == prefix
  }

  function IndexOf(s: string, c: char): (r: nat)
    ensures r <= |s| && (r < |s| ==> s[r] == c) && (forall i :: 0 <= i < r ==> s[i] != c)
  {
    if s == "" || s[0] == c then 0 else 1 + IndexOf(s[1..], c)
  }

  /** One line of the TOC; a byte-order mark is dropped from the first line
      after the spaces around it. */
  function ReadTocLine(addon: AddOn, text: string, first: bool): TocLine {
    var trimmed := addon.trim(text);
    var value := if first && StartsWith(trimmed, ['\U{FEFF}']) then trimmed[1..] else trimmed;
    if value == "" then Skipped
    else if StartsWith(value, "##") then
      var meta := addon.trim(value[2..]);
      var colon := IndexOf(meta, ':');
      if colon < |meta| && addon.equalFold(addon.trim(meta[..colon]), "Interface")
      then Interface(addon.trim(meta[colon + 1..]))
      else Skipped
    else if StartsWith(value, "#") then Skipped
    else Entry(value)
  }

  function TocStep(addon: AddOn, st: Builder, text: string, line: nat): (r: Builder)
    requires Indexed(st) && line > 0
    ensures Indexed(r)
  {
    match ReadTocLine(addon, text, line == 1)
    case Skipped => st
    case Interface(v) => st.(result := st.result.(interfaceValue := v))
    case Entry(reference) => Load(addon, st, Attempt(reference, LoadSource(st.result.toc, line, "toc")))
  }

  /** The first `n` lines of the TOC. */
  function ParseTocLines(addon: AddOn, st: Builder, lines: seq<string>, n: nat): (r: Builder)
    requires Indexed(st) && n <= |lines|
    ensures Indexed(r)
  {
    if n == 0 then st
    else TocStep(addon, ParseTocLines(addon, st, lines, n - 1), lines[n - 1], n)
  }

  function ParseToc(addon: AddOn, st: Builder, lines: seq<string>, truncated: bool): (r: Builder)
    requires Indexed(st)
    ensures Indexed(r)
  {
    var st' := ParseTocLines(addon, st, lines, |lines|);
    if truncated
    then Report(addon, st', Diagnostic(Error, UnreadableFile, st'.result.toc, |lines|, 0, NoEvidence))
    else st'
  }

  /** `BuildClosure` once the AddOn root itself has been opened. */
  function BuildClosure(addon: AddOn, toc: string): Closure {
    var source := LoadSource(addon.display(toc), 0, "toc");
    var st := EMPTY_BUILDER;
    match addon.resolveToc(toc)
    case Escapes(p) => Report(addon, st, Rejection(Attempt(toc, source), PathEscape, Reference(toc, p))).result
    case NotFound(p) => Report(addon, st, Rejection(Attempt(toc, source), MissingFile, Reference(toc, p))).result
    case CannotResolve(p) => Report(addon, st,
        Rejection(Attempt(toc, source), UnreadableFile, Reference(toc, p))).result
    case Resolved(rel) =>
      var named := st.(result := st.result.(toc := rel));
      match addon.readToc(rel)
      case TocAbsent => Report(addon, named, Diagnostic(Error, MissingFile, rel, 0, 0, Reference(toc, rel))).result
      case TocUnreadable => Report(addon, named,
          Diagnostic(Error, UnreadableFile, rel, 0, 0, Reference(toc, rel))).result
      case TocData(lines, truncated) => ParseToc(addon, named, lines, truncated).result
  }
}
