/** The pipeline driver: choose a parser by file extension, read the
    document, cut it into sections, extract a record from each, and, when
    there is at least one record, scaffold files for them. Every error of a
    run is caught and reported as the run's outcome; nothing escapes `run`.
    Reading the document, regular expressions and templates are parameters. */
module Orchestration {
  import opened Basics
  import opened Strings
  import opened Sequences
  import opened Discovery
  import opened Models
  import opened Extractor
  import opened Files
  import opened Scaffolding

  /** The parsers registered in `_init_parser_factory`. */
  datatype ParserKind = TextParser | PdfParser

  /** How `parse` can fail: `FileNotFoundError`, or any other exception. */
  datatype ReadError = FileMissing | ParseFailed

  /** `parser.parse(path)` for the parser of the given kind. */
  type Reader = (ParserKind, string) -> Result<string, ReadError>

  /** The configuration mapping; a missing section reads as an empty mapping. */
  datatype Config = Config(
    discovery: Option<DiscoverySettings>,
    extraction: Option<ExtractionSettings>,
    scaffolding: Option<ScaffoldingSettings>)

  datatype Orchestrator = Orchestrator(finder: SectionFinder, extractor: AgentExtractor, builder: ScaffoldingBuilder)

  /** `Orchestrator.__init__`: only the extractor can refuse its settings. */
  function NewOrchestrator(config: Config): (r: Result<Orchestrator, ConfigError>)
    ensures var ex := NewAgentExtractor(OrDefault(config.extraction, ExtractionSettings(Absent)));
            (r.Failure? <==> ex.Failure?) && (r.Success? ==> r.value.extractor == ex.value)
    ensures r.Success? ==>
              r.value.finder == NewSectionFinder(OrDefault(config.discovery, DiscoverySettings(Absent))) &&
              r.value.builder == NewScaffoldingBuilder(OrDefault(config.scaffolding, ScaffoldingSettings(None, None)))
  {
    var finder := NewSectionFinder(OrDefault(config.discovery, DiscoverySettings(Absent)));
    match NewAgentExtractor(OrDefault(config.extraction, ExtractionSettings(Absent)))
    case Failure(e) => Failure(e)
    case Success(ex) =>
      Success(Orchestrator(finder, ex, NewScaffoldingBuilder(OrDefault(config.scaffolding, ScaffoldingSettings(None, None)))))
  }

  // ------------------------------------------------------------ extensions

  /** Python's `s.rfind(c)`: the last index of `c`, or -1. */
  function LastIndexOf(s: string, c: char): (r: int)
    ensures -1 <= r < |s|
    ensures r >= 0 ==> s[r] == c
    ensures forall i :: r < i < |s| ==> s[i] != c
    decreases |s|
  {
    if s == [] then -1
    else if s[|s| - 1] == c then |s| - 1
    else LastIndexOf(s[..|s| - 1], c)
  }

  /** The file name part of `p` before `dot` has a character other than a dot. */
  predicate HasStem(p: string, sep: int, dot: int)
    requires -1 <= sep && dot <= |p|
  {
    exists i :: sep < i < dot && p[i] != '.'
  }

  /** `os.path.splitext(p)[1]` on POSIX: from the last dot of the last path
      component, provided that component has something other than dots in
      front of it; otherwise empty. */
  function Ext(p: string): string
  {
    var sep := LastIndexOf(p, '/');
    var dot := LastIndexOf(p, '.');
    if dot > sep && HasStem(p, sep, dot) then p[dot..] else []
  }

  /** The extension is empty or a suffix of the path that starts with its
      only dot and has no separator; a non-empty extension follows a
      non-dot character of the same path component. */
  lemma ExtShape(p: string)
    ensures var e := Ext(p);
            |e| <= |p| && e == p[|p| - |e|..]
    ensures var e := Ext(p);
            e != [] ==> e[0] == '.' && (forall i :: 0 < i < |e| ==> e[i] != '.' && e[i] != '/')
    ensures var e := Ext(p);
            e != [] ==> exists i :: 0 <= i < |p| - |e| && p[i] != '.' && p[i] != '/' &&
                                   forall k :: i < k < |p| - |e| ==> p[k] != '/'
  {
    var sep := LastIndexOf(p, '/');
    var dot := LastIndexOf(p, '.');
    if dot > sep && HasStem(p, sep, dot) {
      var e := p[dot..];
      forall i | 0 < i < |e| ensures e[i] != '.' && e[i] != '/' {
        assert e[i] == p[dot + i];
      }
      var i :| sep < i < dot && p[i] != '.';
      assert p[i] != '/';
    }
  }

  /** A name whose last component is a stem (not only dots) followed by one
      dot and an extension without dots or separators has exactly that
      extension. */
  lemma ExtOfName(dir: string, stem: string, x: string)
    requires dir == [] || dir[|dir| - 1] == '/'
    requires forall i :: 0 <= i < |stem| ==> stem[i] != '/'
    requires exists i :: 0 <= i < |stem| && stem[i] != '.'
    requires forall i :: 0 <= i < |x| ==> x[i] != '.' && x[i] != '/'
    ensures Ext(dir + stem + "." + x) == "." + x
  {
    var p := dir + stem + "." + x;
    var dot := |dir| + |stem|;
    assert p[dot] == '.';
    assert forall i :: dot < i < |p| ==> p[i] == x[i - dot - 1];
    LastAt(p, '.', dot);
    var sep := LastIndexOf(p, '/');
    assert sep < |dir| by {
      forall i | |dir| <= i < |p| ensures p[i] != '/' {
        if i < dot {
          assert p[i] == stem[i - |dir|];
        }
      }
      LastBelow(p, '/', |dir|);
    }
    var j :| 0 <= j < |stem| && stem[j] != '.';
    assert p[|dir| + j] == stem[j];
    assert HasStem(p, sep, dot);
    assert p[dot..] == "." + x;
  }

  /** `LastIndexOf` finds an occurrence after which the character does not occur. */
  lemma {:induction false} LastAt(s: string, c: char, k: nat)
    requires k < |s| && s[k] == c && forall i :: k < i < |s| ==> s[i] != c
    ensures LastIndexOf(s, c) == k
    decreases |s|
  {
    if k < |s| - 1 {
      LastAt(s[..|s| - 1], c, k);
    }
  }

  /** `LastIndexOf` is below a position from which on the character does not occur. */
  lemma {:induction false} LastBelow(s: string, c: char, k: nat)
    requires k <= |s| && forall i :: k <= i < |s| ==> s[i] != c
    ensures LastIndexOf(s, c) < k
    decreases |s|
  {
    if k < |s| {
      LastBelow(s[..|s| - 1], c, k);
    }
  }

  /** `_get_parser`: the lower-cased extension selects the parser;
      otherwise `NotImplementedError` naming the extension. */
  function GetParser(path: string): (r: Result<ParserKind, string>)
    ensures r == Success(TextParser) <==> Lower(Ext(path)) == ".txt"
    ensures r == Success(PdfParser) <==> Lower(Ext(path)) == ".pdf"
    ensures r.Failure? ==> r.error == Lower(Ext(path))
  {
    var ext := Lower(Ext(path));
    if ext == ".txt" then Success(TextParser)
    else if ext == ".pdf" then Success(PdfParser)
    else Failure(ext)
  }

  /** The parser depends on the extension and not on its letter case. */
  lemma GetParserIgnoresCase(stemA: string, stemB: string, x: string, y: string)
    requires forall i :: 0 <= i < |stemA| ==> stemA[i] != '/'
    requires forall i :: 0 <= i < |stemB| ==> stemB[i] != '/'
    requires exists i :: 0 <= i < |stemA| && stemA[i] != '.'
    requires exists i :: 0 <= i < |stemB| && stemB[i] != '.'
    requires forall i :: 0 <= i < |x| ==> x[i] != '.' && x[i] != '/'
    requires forall i :: 0 <= i < |y| ==> y[i] != '.' && y[i] != '/'
    requires Lower(x) == Lower(y)
    ensures GetParser(stemA + "." + x) == GetParser(stemB + "." + y)
  {
    ExtOfName([], stemA, x);
    ExtOfName([], stemB, y);
    assert [] + stemA + "." + x == stemA + "." + x;
    assert [] + stemB + "." + y == stemB + "." + y;
    LowerAppend(".", x);
    LowerAppend(".", y);
  }

  /** A file whose name is only a dot and an extension (a hidden file) has
      no extension, so no parser. */
  lemma HiddenFileHasNoParser(x: string)
    requires forall i :: 0 <= i < |x| ==> x[i] != '.' && x[i] != '/'
    ensures GetParser("." + x) == Failure([])
  {
    var p := "." + x;
    assert forall i :: 0 < i < |p| ==> p[i] == x[i - 1];
    LastAt(p, '.', 0);
    LastBelow(p, '/', 0);
    assert !HasStem(p, LastIndexOf(p, '/'), 0);
  }

  // ------------------------------------------------------------ extraction

  /** The extraction of one section, as a function value. */
  function ExtractWith(ex: AgentExtractor, search: Regex): string -> Result<Option<AgentDefinition>, ExtractError>
  {
    s => ExtractSpec(ex, search, s)
  }

  /** The extraction loop of `run`: sections in order, records kept in
      order; the first section that raises ends the loop. Its properties
      are those of `TryFilterMap`. */
  function ExtractAll(ex: AgentExtractor, search: Regex, sections: seq<string>)
    : Result<seq<AgentDefinition>, ExtractError>
  {
    TryFilterMap(sections, ExtractWith(ex, search))
  }

  // ------------------------------------------------------------------ runs

  /** What a run ends with; `Aborted` is one of the three `except` clauses. */
  datatype FailReason = InputNotFound | NoParser(ext: string) | Unexpected
  datatype RunOutcome = Finished(report: seq<FileOutcome>) | NothingExtracted | Aborted(reason: FailReason)

  /** `run` on a file-system state. A `FileNotFoundError` raised while
      creating the output directory lands in the handler for a missing
      input file, as the code is written. */
  function RunSpec(o: Orchestrator, read: Reader, search: Regex, rd: Renderer, path: string,
                   st: FsState, refused: set<string>): (r: (FsState, RunOutcome))
    ensures !r.1.Finished? ==> r.0 == st
    ensures GetParser(path).Failure? ==> r == (st, Aborted(NoParser(GetParser(path).error)))
    ensures GetParser(path).Success? && read(GetParser(path).value, path).Failure? ==>
              r == (st, Aborted(if read(GetParser(path).value, path).error.FileMissing? then InputNotFound else Unexpected))
  {
    match GetParser(path)
    case Failure(ext) => (st, Aborted(NoParser(ext)))
    case Success(kind) =>
      match read(kind, path)
      case Failure(FileMissing) => (st, Aborted(InputNotFound))
      case Failure(ParseFailed) => (st, Aborted(Unexpected))
      case Success(content) =>
        match FindSections(o.finder, content)
        case Failure(_) => (st, Aborted(Unexpected))
        case Success(sections) =>
          match ExtractAll(o.extractor, search, sections)
          case Failure(_) => (st, Aborted(Unexpected))
          case Success(agents) =>
            if agents == [] then (st, NothingExtracted)
            else
              match BuildAllSpec(st, refused, o.builder, rd, agents).1
              case Failure(OutputDirNotFound) => (st, Aborted(InputNotFound))
              case Failure(OutputDirUnavailable) => (st, Aborted(Unexpected))
              case Success(report) => (BuildAllSpec(st, refused, o.builder, rd, agents).0, Finished(report))
  }

  /** The sections and records of a run that reads `content`. */
  function SectionsOf(o: Orchestrator, content: string): seq<string>
  {
    match FindSections(o.finder, content)
    case Success(sections) => sections
    case Failure(_) => []
  }

  /** A run whose document is read and split, and in which no section raises,
      ends with "nothing extracted" when no record comes out, and otherwise is
      `build_all` on all records, in section order, once the output directory
      can be made. `FinishedRunNeeds` gives the converse. */
  lemma RunBuildsExtracted(o: Orchestrator, read: Reader, search: Regex, rd: Renderer, path: string,
                           st: FsState, refused: set<string>, kind: ParserKind, content: string)
    requires GetParser(path) == Success(kind) && read(kind, path) == Success(content)
    requires FindSections(o.finder, content).Success?
    requires forall k :: 0 <= k < |SectionsOf(o, content)| ==>
               ExtractSpec(o.extractor, search, SectionsOf(o, content)[k]).Success?
    ensures var agents := FilterMap(SectionsOf(o, content), Recover(ExtractWith(o.extractor, search)));
            var r := RunSpec(o, read, search, rd, path, st, refused);
            (agents == [] ==> r == (st, NothingExtracted)) &&
            (agents != [] && MakeDirsError(st, refused, o.builder.outputDir).None? ==>
               r == (BuildAllSpec(st, refused, o.builder, rd, agents).0,
                     Finished(BuildAllSpec(st, refused, o.builder, rd, agents).1.value)))
  {
    var f := ExtractWith(o.extractor, search);
    var sections := SectionsOf(o, content);
    assert forall k :: 0 <= k < |sections| ==> f(sections[k]) == ExtractSpec(o.extractor, search, sections[k]);
    TryFilterMapSucceeds(sections, f);
    TryFilterMapKeeps(sections, f);
  }

  /** Only a run whose document is read and split, in which no section
      raises, at least one record comes out and the output directory can be
      made, reaches scaffolding and finishes. */
  lemma FinishedRunNeeds(o: Orchestrator, read: Reader, search: Regex, rd: Renderer, path: string,
                         st: FsState, refused: set<string>)
    requires RunSpec(o, read, search, rd, path, st, refused).1.Finished?
    ensures GetParser(path).Success? && read(GetParser(path).value, path).Success?
    ensures var content := read(GetParser(path).value, path).value;
            FindSections(o.finder, content).Success? &&
            ExtractAll(o.extractor, search, SectionsOf(o, content)).Success? &&
            ExtractAll(o.extractor, search, SectionsOf(o, content)).value != [] &&
            MakeDirsError(st, refused, o.builder.outputDir).None?
  {
  }

  /** One section that raises aborts the whole run before anything is written. */
  lemma OneBadSectionAbortsRun(o: Orchestrator, read: Reader, search: Regex, rd: Renderer, path: string,
                               st: FsState, refused: set<string>, kind: ParserKind, content: string, k: nat)
    requires GetParser(path) == Success(kind) && read(kind, path) == Success(content)
    requires FindSections(o.finder, content).Success?
    requires k < |SectionsOf(o, content)| && ExtractSpec(o.extractor, search, SectionsOf(o, content)[k]).Failure?
    ensures RunSpec(o, read, search, rd, path, st, refused) == (st, Aborted(Unexpected))
  {
    var f := ExtractWith(o.extractor, search);
    assert f(SectionsOf(o, content)[k]).Failure?;
    TryFilterMapFailsAt(SectionsOf(o, content), f, k);
  }

  /** An empty output directory makes a run that has records end in the
      handler for a missing input file, with nothing written. */
  lemma EmptyOutputDirReadsAsMissingInput(o: Orchestrator, read: Reader, search: Regex, rd: Renderer, path: string,
                                          st: FsState, refused: set<string>, kind: ParserKind, content: string)
    requires GetParser(path) == Success(kind) && read(kind, path) == Success(content)
    requires FindSections(o.finder, content).Success?
    requires ExtractAll(o.extractor, search, SectionsOf(o, content)).Success?
    requires ExtractAll(o.extractor, search, SectionsOf(o, content)).value != []
    requires o.builder.outputDir == []
    ensures RunSpec(o, read, search, rd, path, st, refused) == (st, Aborted(InputNotFound))
  {
  }

  /** A finished run logs one line per record and template. */
  lemma FinishedRunReport(o: Orchestrator, read: Reader, search: Regex, rd: Renderer, path: string,
                          st: FsState, refused: set<string>, kind: ParserKind, content: string)
    requires GetParser(path) == Success(kind) && read(kind, path) == Success(content)
    requires RunSpec(o, read, search, rd, path, st, refused).1.Finished?
    ensures FindSections(o.finder, content).Success?
    ensures var agents := FilterMap(SectionsOf(o, content), Recover(ExtractWith(o.extractor, search)));
            agents != [] &&
            |RunSpec(o, read, search, rd, path, st, refused).1.report| == |agents| * |o.builder.templates|
  {
    var sections := SectionsOf(o, content);
    TryFilterMapKeeps(sections, ExtractWith(o.extractor, search));
    var agents := ExtractAll(o.extractor, search, sections).value;
    BuildAllCount(st, refused, o.builder, rd, agents);
  }

  // --------------------------------------------------------------- methods

  /** The extraction loop of `run`, appending to `extracted_agents`. */
  method ExtractSections(ex: AgentExtractor, search: Regex, sections: seq<string>)
    returns (r: Result<seq<AgentDefinition>, ExtractError>)
    ensures r == ExtractAll(ex, search, sections)
  {
    var agents: seq<AgentDefinition> := [];
    for k := 0 to |sections|
      invariant ExtractAll(ex, search, sections[..k]) == Success(agents)
    {
      assert sections[..k + 1][..k] == sections[..k];
      var agentDef := Extract(ex, search, sections[k]);
      if agentDef.Failure? {
        TryFilterMapPrefixFailure(sections, ExtractWith(ex, search), k + 1);
        return Failure(agentDef.error);
      }
      if agentDef.value.Some? {
        agents := agents + [agentDef.value.value];
      }
    }
    assert sections[..|sections|] == sections;
    r := Success(agents);
  }

  /** `run`. */
  method Run(o: Orchestrator, fs: FileSystem, read: Reader, search: Regex, rd: Renderer, path: string)
    returns (outcome: RunOutcome)
    modifies fs
    ensures (fs.State(), outcome) == RunSpec(o, read, search, rd, path, old(fs.State()), fs.refused)
  {
    var parser := GetParser(path);
    if parser.Failure? {
      return Aborted(NoParser(parser.error));
    }
    var content := read(parser.value, path);
    if content.Failure? {
      return Aborted(if content.error.FileMissing? then InputNotFound else Unexpected);
    }
    var sections := FindSections(o.finder, content.value);
    if sections.Failure? {
      return Aborted(Unexpected);
    }
    var extracted := ExtractSections(o.extractor, search, sections.value);
    if extracted.Failure? {
      return Aborted(Unexpected);
    }
    if extracted.value == [] {
      return NothingExtracted;
    }
    var built := BuildAll(fs, o.builder, rd, extracted.value);
    match built {
      case Failure(OutputDirNotFound) => outcome := Aborted(InputNotFound);
      case Failure(OutputDirUnavailable) => outcome := Aborted(Unexpected);
      case Success(report) => outcome := Finished(report);
    }
  }
}
