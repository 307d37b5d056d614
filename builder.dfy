/** Scaffolding: for every agent and every configured template, render a
    file name and a content and write the file under the output directory.
    One attempt per (agent, template) pair, agents outermost; a failing
    attempt is recorded and the next one goes ahead. The template engine
    and the JSON serialiser are parameters (`Renderer`). */
module Scaffolding {
  import opened Basics
  import opened Models
  import opened Files
  import opened Steps

  /** The output directory used when the settings name none. */
  const DefaultOutputDirectory: string := "generated_agents"

  const FilenameKey: string := "output_filename_template"
  const TemplateKey: string := "template_file"

  /** One entry of `templates`: its `name` (used only in messages), the file
      name template and the template file; a null or empty template file
      means "dump the record as JSON". */
  datatype TemplateConfig = TemplateConfig(
    name: Option<string>,
    outputFilenameTemplate: Entry<string>,
    templateFile: Entry<string>)

  /** The `scaffolding_settings` mapping. */
  datatype ScaffoldingSettings = ScaffoldingSettings(
    outputDirectory: Option<string>,
    templates: Option<seq<TemplateConfig>>)

  datatype ScaffoldingBuilder = ScaffoldingBuilder(outputDir: string, templates: seq<TemplateConfig>)

  /** `ScaffoldingBuilder.__init__`. */
  function NewScaffoldingBuilder(settings: ScaffoldingSettings): (b: ScaffoldingBuilder)
    ensures settings.outputDirectory.None? ==> b.outputDir == DefaultOutputDirectory
    ensures settings.outputDirectory.Some? ==> b.outputDir == settings.outputDirectory.value
    ensures settings.templates.None? ==> b.templates == []
    ensures settings.templates.Some? ==> b.templates == settings.templates.value
  {
    ScaffoldingBuilder(
      match settings.outputDirectory case None => DefaultOutputDirectory case Some(d) => d,
      match settings.templates case None => [] case Some(ts) => ts)
  }

  /** The template engine and the serialiser: render a template string, render
      a named template file (`None` where Jinja raises: a syntax error, a
      missing file, an undefined name), and `agent.json(indent=4)`. */
  datatype Renderer = Renderer(
    fromString: (string, AgentDefinition) -> Option<string>,
    fromFile: (string, AgentDefinition) -> Option<string>,
    toJson: AgentDefinition -> string)

  /** Why one attempt failed: a key missing from the template entry, a file
      name template that is null or does not render, a template file that
      does not render, or a path that cannot be opened for writing. */
  datatype GenError =
    | MissingKey(key: string)
    | FilenameFailed
    | TemplateFailed(file: string)
    | WriteRefused(path: string)

  /** The log line of one attempt. */
  datatype FileOutcome =
    | Created(path: string)
    | Failed(agentId: string, configName: Option<string>, why: GenError)

  /** `os.makedirs` of the output directory raised; `run` tells
      `FileNotFoundError` apart from any other error. */
  datatype BuildError = OutputDirNotFound | OutputDirUnavailable

  predicate IsAbsolute(p: string)
  {
    p != [] && p[0] == '/'
  }

  /** `os.path.join(a, b)` on POSIX: an absolute `b` replaces `a`; otherwise
      `b` is appended after a separator unless `a` is empty or already ends
      in one. */
  function JoinPath(a: string, b: string): (r: string)
    ensures |b| <= |r| && r[|r| - |b|..] == b
    ensures IsAbsolute(b) ==> r == b
    ensures !IsAbsolute(b) ==> |a| <= |r| && r[..|a|] == a && |r| - |a| - |b| <= 1
    ensures !IsAbsolute(b) && |r| == |a| + |b| + 1 ==> r[|a|] == '/'
  {
    if IsAbsolute(b) then b
    else if a == [] || a[|a| - 1] == '/' then a + b
    else a + "/" + b
  }

  /** The JSON dump is used when the template file is null or empty. */
  predicate UsesJson(cfg: TemplateConfig)
  {
    cfg.templateFile.Null? || cfg.templateFile == Given([])
  }

  /** The body of the `try` in `_generate_file` up to the `open`: the path and
      the content of the file to write, or why there is none. */
  function PlanFile(b: ScaffoldingBuilder, rd: Renderer, agent: AgentDefinition, cfg: TemplateConfig)
    : (r: Result<(string, string), GenError>)
    ensures cfg.outputFilenameTemplate.Absent? ==> r == Failure(MissingKey(FilenameKey))
    ensures cfg.outputFilenameTemplate.Null? ==> r == Failure(FilenameFailed)
    ensures r.Success? ==>
              && cfg.outputFilenameTemplate.Given?
              && rd.fromString(cfg.outputFilenameTemplate.value, agent).Some?
              && r.value.0 == JoinPath(b.outputDir, rd.fromString(cfg.outputFilenameTemplate.value, agent).value)
              && !cfg.templateFile.Absent?
    ensures r.Success? && UsesJson(cfg) ==> r.value.1 == rd.toJson(agent)
    ensures r.Success? && !UsesJson(cfg) ==> Some(r.value.1) == rd.fromFile(cfg.templateFile.value, agent)
  {
    match cfg.outputFilenameTemplate
    case Absent => Failure(MissingKey(FilenameKey))
    case Null => Failure(FilenameFailed)
    case Given(t) =>
      match rd.fromString(t, agent)
      case None => Failure(FilenameFailed)
      case Some(filename) =>
        var path := JoinPath(b.outputDir, filename);
        match cfg.templateFile
        case Absent => Failure(MissingKey(TemplateKey))
        case Null => Success((path, rd.toJson(agent)))
        case Given(f) =>
          if f == [] then Success((path, rd.toJson(agent)))
          else
            match rd.fromFile(f, agent)
            case None => Failure(TemplateFailed(f))
            case Some(content) => Success((path, content))
  }

  /** `_generate_file` on a file-system state: the new state and the log line.
      A file is written exactly when the plan succeeds and the path can be
      opened; otherwise nothing changes and the failure names the agent and
      the template entry. */
  function Attempt(st: FsState, refused: set<string>, b: ScaffoldingBuilder, rd: Renderer,
                   agent: AgentDefinition, cfg: TemplateConfig): (r: (FsState, FileOutcome))
    ensures r.1.Created? <==>
              PlanFile(b, rd, agent, cfg).Success? && WriteOk(st, refused, PlanFile(b, rd, agent, cfg).value.0)
    ensures r.1.Created? ==>
              r.1.path == PlanFile(b, rd, agent, cfg).value.0 &&
              r.0 == AfterWrite(st, r.1.path, PlanFile(b, rd, agent, cfg).value.1)
    ensures r.1.Failed? ==> r.0 == st && r.1.agentId == agent.agentId && r.1.configName == cfg.name
    ensures r.0.dirs == st.dirs
  {
    match PlanFile(b, rd, agent, cfg)
    case Failure(e) => (st, Failed(agent.agentId, cfg.name, e))
    case Success(plan) =>
      if WriteOk(st, refused, plan.0) then (AfterWrite(st, plan.0, plan.1), Created(plan.0))
      else (st, Failed(agent.agentId, cfg.name, WriteRefused(plan.0)))
  }

  /** Whether an attempt writes a file depends on the directories only, not
      on the files already written. */
  lemma AttemptOutcomeDependsOnDirs(st1: FsState, st2: FsState, refused: set<string>, b: ScaffoldingBuilder,
                                    rd: Renderer, agent: AgentDefinition, cfg: TemplateConfig)
    requires st1.dirs == st2.dirs
    ensures Attempt(st1, refused, b, rd, agent, cfg).1 == Attempt(st2, refused, b, rd, agent, cfg).1
  {
  }

  /** One template entry for each of the templates, for one agent. */
  function Row(agent: AgentDefinition, ts: seq<TemplateConfig>): seq<(AgentDefinition, TemplateConfig)>
  {
    seq(|ts|, j requires 0 <= j < |ts| => (agent, ts[j]))
  }

  /** The (agent, template) pairs in the order of the nested loops of `build_all`. */
  function Pairs(agents: seq<AgentDefinition>, ts: seq<TemplateConfig>): seq<(AgentDefinition, TemplateConfig)>
    decreases |agents|
  {
    if agents == [] then []
    else Pairs(agents[..|agents| - 1], ts) + Row(agents[|agents| - 1], ts)
  }

  lemma MulStep(n: nat, m: nat)
    ensures (n + 1) * m == n * m + m
  {
  }

  lemma MulBelow(i: nat, j: nat, n: nat, m: nat)
    requires i < n && j < m
    ensures i * m + j < n * m
  {
    assert i * m + j < (i + 1) * m by { MulStep(i, m); }
    assert (i + 1) * m <= n * m;
  }

  lemma RowSnoc(agent: AgentDefinition, ts: seq<TemplateConfig>, j: nat)
    requires j < |ts|
    ensures Row(agent, ts[..j + 1]) == Row(agent, ts[..j]) + [(agent, ts[j])]
  {
  }

  lemma PairsSnoc(agents: seq<AgentDefinition>, ts: seq<TemplateConfig>, i: nat)
    requires i < |agents|
    ensures Pairs(agents[..i + 1], ts) == Pairs(agents[..i], ts) + Row(agents[i], ts)
  {
    assert agents[..i + 1][..i] == agents[..i];
  }

  /** There are `|agents| * |ts|` pairs. */
  lemma {:induction false} PairsLength(agents: seq<AgentDefinition>, ts: seq<TemplateConfig>)
    ensures |Pairs(agents, ts)| == |agents| * |ts|
    decreases |agents|
  {
    if agents != [] {
      PairsLength(agents[..|agents| - 1], ts);
      MulStep(|agents| - 1, |ts|);
    }
  }

  /** Pair `i * |ts| + j` is agent `i` with template `j`. */
  lemma {:induction false} PairsIndex(agents: seq<AgentDefinition>, ts: seq<TemplateConfig>, i: nat, j: nat)
    requires i < |agents| && j < |ts|
    ensures i * |ts| + j < |Pairs(agents, ts)|
    ensures Pairs(agents, ts)[i * |ts| + j] == (agents[i], ts[j])
    decreases |agents|
  {
    var n := |agents| - 1;
    var front := agents[..n];
    PairsLength(front, ts);
    PairsLength(agents, ts);
    MulBelow(i, j, |agents|, |ts|);
    if i < n {
      PairsIndex(front, ts, i, j);
      MulBelow(i, j, n, |ts|);
      assert front[i] == agents[i];
    }
  }

  /** One attempt as a step of the loops of `build_all`. */
  function AttemptStep(refused: set<string>, b: ScaffoldingBuilder, rd: Renderer)
    : (FsState, (AgentDefinition, TemplateConfig)) -> (FsState, FileOutcome)
  {
    (st: FsState, x: (AgentDefinition, TemplateConfig)) => Attempt(st, refused, b, rd, x.0, x.1)
  }

  function DirsOf(st: FsState): set<string>
  {
    st.dirs
  }

  function FilesOf(st: FsState): map<string, string>
  {
    st.files
  }

  /** The path a log line reports as created. */
  function CreatedPath(o: FileOutcome): Option<string>
  {
    if o.Created? then Some(o.path) else None
  }

  /** The content an attempt writes when it writes. */
  function Rendered(b: ScaffoldingBuilder, rd: Renderer): ((AgentDefinition, TemplateConfig)) -> string
  {
    (x: (AgentDefinition, TemplateConfig)) => match PlanFile(b, rd, x.0, x.1) case Success(plan) => plan.1 case Failure(_) => []
  }

  /** An attempt keeps the directories, its log line depends on nothing
      else of the state, and it writes at most the created path, with the
      rendered content. */
  lemma AttemptStepFacts(st: FsState, refused: set<string>, b: ScaffoldingBuilder, rd: Renderer)
    ensures forall t, x :: DirsOf(AttemptStep(refused, b, rd)(t, x).0) == DirsOf(t)
    ensures forall t, x :: DirsOf(t) == DirsOf(st) ==>
              AttemptStep(refused, b, rd)(t, x).1 == AttemptStep(refused, b, rd)(st, x).1
    ensures WritesOne(AttemptStep(refused, b, rd), FilesOf, CreatedPath, Rendered(b, rd))
  {
    forall t, x | DirsOf(t) == DirsOf(st)
      ensures AttemptStep(refused, b, rd)(t, x).1 == AttemptStep(refused, b, rd)(st, x).1
    {
      AttemptOutcomeDependsOnDirs(t, st, refused, b, rd, x.0, x.1);
    }
  }

  /** The attempts never create or remove directories. */
  lemma AttemptsKeepDirs(st: FsState, refused: set<string>, b: ScaffoldingBuilder, rd: Renderer,
                         pairs: seq<(AgentDefinition, TemplateConfig)>)
    ensures Final(st, pairs, AttemptStep(refused, b, rd)).dirs == st.dirs
  {
    AttemptStepFacts(st, refused, b, rd);
    FinalKeeps(st, pairs, AttemptStep(refused, b, rd), DirsOf);
  }

  /** `build_all` on a file-system state: create the output directory (an
      error there propagates out of `build_all`), then one attempt per
      pair, in order. */
  function BuildAllSpec(st: FsState, refused: set<string>, b: ScaffoldingBuilder, rd: Renderer,
                        agents: seq<AgentDefinition>): (r: (FsState, Result<seq<FileOutcome>, BuildError>))
    ensures r.1.Failure? <==> MakeDirsError(st, refused, b.outputDir).Some?
    ensures r.1.Failure? ==> r.0 == st
    ensures r.1 == Failure(OutputDirNotFound) <==> b.outputDir == []
    ensures r.1.Success? ==> b.outputDir in r.0.dirs && r.0.dirs == st.dirs + {b.outputDir}
  {
    match MakeDirsError(st, refused, b.outputDir)
    case Some(e) => (st, Failure(if e.NotFound? then OutputDirNotFound else OutputDirUnavailable))
    case None =>
      var st1 := AfterMakeDirs(st, b.outputDir);
      var pairs := Pairs(agents, b.templates);
      AttemptsKeepDirs(st1, refused, b, rd, pairs);
      (Final(st1, pairs, AttemptStep(refused, b, rd)), Success(Outputs(st1, pairs, AttemptStep(refused, b, rd))))
  }

  /** A successful `build_all` logs exactly `|agents| * |templates|` lines. */
  lemma BuildAllCount(st: FsState, refused: set<string>, b: ScaffoldingBuilder, rd: Renderer,
                      agents: seq<AgentDefinition>)
    requires MakeDirsError(st, refused, b.outputDir).None?
    ensures var r := BuildAllSpec(st, refused, b, rd, agents).1;
            r.Success? && |r.value| == |agents| * |b.templates|
  {
    PairsLength(agents, b.templates);
    OutputsLength(AfterMakeDirs(st, b.outputDir), Pairs(agents, b.templates), AttemptStep(refused, b, rd));
  }

  /** Line `k` of a successful `build_all` is the attempt for pair `k`
      (agent `i` with template `j` when `k == i * |templates| + j`, by
      `PairsIndex`), made on the state just after the directory was created,
      whatever the other attempts did. */
  lemma BuildAllLine(st: FsState, refused: set<string>, b: ScaffoldingBuilder, rd: Renderer,
                     agents: seq<AgentDefinition>, k: nat)
    requires MakeDirsError(st, refused, b.outputDir).None?
    requires k < |Pairs(agents, b.templates)|
    ensures var r := BuildAllSpec(st, refused, b, rd, agents).1;
            var pair := Pairs(agents, b.templates)[k];
            r.Success? && k < |r.value| &&
            r.value[k] == Attempt(AfterMakeDirs(st, b.outputDir), refused, b, rd, pair.0, pair.1).1
  {
    var st1 := AfterMakeDirs(st, b.outputDir);
    AttemptStepFacts(st1, refused, b, rd);
    OutputsIsolated(st1, Pairs(agents, b.templates), AttemptStep(refused, b, rd), DirsOf);
  }

  /** After a successful `build_all` the files are the old ones and the
      created paths, and a file at a path no attempt created is as it was. */
  lemma BuildAllFiles(st: FsState, refused: set<string>, b: ScaffoldingBuilder, rd: Renderer,
                      agents: seq<AgentDefinition>)
    requires MakeDirsError(st, refused, b.outputDir).None?
    ensures var (st', r) := BuildAllSpec(st, refused, b, rd, agents);
            r.Success? && st'.files.Keys == st.files.Keys + Written(r.value, CreatedPath)
    ensures var (st', r) := BuildAllSpec(st, refused, b, rd, agents);
            forall p :: p in st.files && p !in Written(r.value, CreatedPath) ==>
              p in st'.files && st'.files[p] == st.files[p]
  {
    var st1 := AfterMakeDirs(st, b.outputDir);
    var pairs := Pairs(agents, b.templates);
    AttemptStepFacts(st1, refused, b, rd);
    FinalKeys(st1, pairs, AttemptStep(refused, b, rd), FilesOf, CreatedPath, Rendered(b, rd));
    forall p | p in st.files && p !in Written(Outputs(st1, pairs, AttemptStep(refused, b, rd)), CreatedPath)
      ensures p in Final(st1, pairs, AttemptStep(refused, b, rd)).files
      ensures Final(st1, pairs, AttemptStep(refused, b, rd)).files[p] == st.files[p]
    {
      FinalUntouched(st1, pairs, AttemptStep(refused, b, rd), FilesOf, CreatedPath, Rendered(b, rd), p);
    }
  }

  /** A file created by line `k` of a successful `build_all` and by no later
      line holds what the template of pair `k` rendered for its agent. */
  lemma BuildAllLastWrite(st: FsState, refused: set<string>, b: ScaffoldingBuilder, rd: Renderer,
                          agents: seq<AgentDefinition>, k: nat)
    requires MakeDirsError(st, refused, b.outputDir).None?
    requires var r := BuildAllSpec(st, refused, b, rd, agents).1;
             k < |r.value| && r.value[k].Created? && forall l :: k < l < |r.value| ==> r.value[l] != r.value[k]
    ensures var pairs := Pairs(agents, b.templates);
            k < |pairs| && PlanFile(b, rd, pairs[k].0, pairs[k].1).Success?
    ensures var (st', r) := BuildAllSpec(st, refused, b, rd, agents);
            var pairs := Pairs(agents, b.templates);
            r.value[k].path in st'.files &&
            st'.files[r.value[k].path] == PlanFile(b, rd, pairs[k].0, pairs[k].1).value.1
  {
    var st1 := AfterMakeDirs(st, b.outputDir);
    var pairs := Pairs(agents, b.templates);
    var step := AttemptStep(refused, b, rd);
    AttemptStepFacts(st1, refused, b, rd);
    OutputsIsolated(st1, pairs, step, DirsOf);
    var os := Outputs(st1, pairs, step);
    forall l | k < l < |os| ensures CreatedPath(os[l]) != CreatedPath(os[k]) {
    }
    FinalLastWrite(st1, pairs, step, FilesOf, CreatedPath, Rendered(b, rd), k);
  }

  /** When the created paths of a successful `build_all` are pairwise
      distinct and new, the number of files grows by exactly the number of
      attempts that created a file: a failing attempt writes nothing and
      costs the others nothing. */
  lemma BuildAllFileCount(st: FsState, refused: set<string>, b: ScaffoldingBuilder, rd: Renderer,
                          agents: seq<AgentDefinition>)
    requires MakeDirsError(st, refused, b.outputDir).None?
    requires var r := BuildAllSpec(st, refused, b, rd, agents).1;
             forall k, l :: 0 <= k < l < |r.value| && r.value[k].Created? ==> r.value[l] != r.value[k]
    requires var r := BuildAllSpec(st, refused, b, rd, agents).1;
             forall k :: 0 <= k < |r.value| && r.value[k].Created? ==> r.value[k].path !in st.files
    ensures var r := BuildAllSpec(st, refused, b, rd, agents);
            |r.0.files.Keys| == |st.files.Keys| + |set k | 0 <= k < |r.1.value| && r.1.value[k].Created?|
  {
    var st1 := AfterMakeDirs(st, b.outputDir);
    var pairs := Pairs(agents, b.templates);
    var step := AttemptStep(refused, b, rd);
    var os := Outputs(st1, pairs, step);
    assert BuildAllSpec(st, refused, b, rd, agents) == (Final(st1, pairs, step), Success(os));
    AttemptStepFacts(st1, refused, b, rd);
    assert DistinctWrites(os, CreatedPath);
    FinalCount(st1, pairs, step, FilesOf, CreatedPath, Rendered(b, rd));
    assert Writers(os, CreatedPath) == set k | 0 <= k < |os| && os[k].Created?;
  }

  /** Without templates, `build_all` only creates the output directory. */
  lemma NoTemplatesOnlyMakesDirectory(st: FsState, refused: set<string>, b: ScaffoldingBuilder, rd: Renderer,
                                      agents: seq<AgentDefinition>)
    requires b.templates == [] && MakeDirsError(st, refused, b.outputDir).None?
    ensures BuildAllSpec(st, refused, b, rd, agents) == (AfterMakeDirs(st, b.outputDir), Success([]))
  {
    PairsLength(agents, b.templates);
    assert |agents| * 0 == 0;
    assert Pairs(agents, b.templates) == [];
  }

  /** `_generate_file`: plan, then open and write. */
  method GenerateFile(fs: FileSystem, b: ScaffoldingBuilder, rd: Renderer, agent: AgentDefinition, cfg: TemplateConfig)
    returns (outcome: FileOutcome)
    modifies fs
    ensures (fs.State(), outcome) == Attempt(old(fs.State()), fs.refused, b, rd, agent, cfg)
  {
    var plan := PlanFile(b, rd, agent, cfg);
    if plan.Failure? {
      return Failed(agent.agentId, cfg.name, plan.error);
    }
    var path, content := plan.value.0, plan.value.1;
    var ok := fs.Write(path, content);
    if ok {
      outcome := Created(path);
    } else {
      outcome := Failed(agent.agentId, cfg.name, WriteRefused(path));
    }
  }

  /** One more template in the inner loop is one more attempt. */
  lemma RowStep(start: FsState, refused: set<string>, b: ScaffoldingBuilder, rd: Renderer,
                done: seq<(AgentDefinition, TemplateConfig)>, agent: AgentDefinition, j: nat)
    requires j < |b.templates|
    ensures var step := AttemptStep(refused, b, rd);
            var st := Final(start, done + Row(agent, b.templates[..j]), step);
            Final(start, done + Row(agent, b.templates[..j + 1]), step)
              == Attempt(st, refused, b, rd, agent, b.templates[j]).0 &&
            Outputs(start, done + Row(agent, b.templates[..j + 1]), step)
              == Outputs(start, done + Row(agent, b.templates[..j]), step)
                 + [Attempt(st, refused, b, rd, agent, b.templates[j]).1]
  {
    var before := done + Row(agent, b.templates[..j]);
    var x := (agent, b.templates[j]);
    assert done + Row(agent, b.templates[..j + 1]) == before + [x] by {
      RowSnoc(agent, b.templates, j);
    }
    Snoc(start, before, x, AttemptStep(refused, b, rd));
  }

  /** The inner loop of `build_all`: one attempt per template for one
      agent, each log line appended to the report of the earlier pairs. */
  method GenerateRow(fs: FileSystem, b: ScaffoldingBuilder, rd: Renderer, agent: AgentDefinition,
                     ghost start: FsState, ghost done: seq<(AgentDefinition, TemplateConfig)>, report0: seq<FileOutcome>)
    returns (report: seq<FileOutcome>)
    modifies fs
    requires fs.State() == Final(start, done, AttemptStep(fs.refused, b, rd))
    requires report0 == Outputs(start, done, AttemptStep(fs.refused, b, rd))
    ensures fs.State() == Final(start, done + Row(agent, b.templates), AttemptStep(fs.refused, b, rd))
    ensures report == Outputs(start, done + Row(agent, b.templates), AttemptStep(fs.refused, b, rd))
  {
    ghost var step := AttemptStep(fs.refused, b, rd);
    report := report0;
    assert done + Row(agent, b.templates[..0]) == done;
    for j := 0 to |b.templates|
      invariant fs.State() == Final(start, done + Row(agent, b.templates[..j]), step)
      invariant report == Outputs(start, done + Row(agent, b.templates[..j]), step)
    {
      RowStep(start, fs.refused, b, rd, done, agent, j);
      var outcome := GenerateFile(fs, b, rd, agent, b.templates[j]);
      report := report + [outcome];
    }
    assert b.templates[..|b.templates|] == b.templates;
  }

  /** The nested loops of `build_all`: for each agent, for each template,
      one attempt, with its log line appended. */
  method GenerateAll(fs: FileSystem, b: ScaffoldingBuilder, rd: Renderer, agents: seq<AgentDefinition>)
    returns (report: seq<FileOutcome>)
    modifies fs
    ensures fs.State() == Final(old(fs.State()), Pairs(agents, b.templates), AttemptStep(fs.refused, b, rd))
    ensures report == Outputs(old(fs.State()), Pairs(agents, b.templates), AttemptStep(fs.refused, b, rd))
  {
    ghost var start := fs.State();
    report := [];
    for i := 0 to |agents|
      invariant fs.State() == Final(start, Pairs(agents[..i], b.templates), AttemptStep(fs.refused, b, rd))
      invariant report == Outputs(start, Pairs(agents[..i], b.templates), AttemptStep(fs.refused, b, rd))
    {
      report := GenerateRow(fs, b, rd, agents[i], start, Pairs(agents[..i], b.templates), report);
      PairsSnoc(agents, b.templates, i);
    }
    assert agents[..|agents|] == agents;
  }

  /** `build_all`: create the output directory, then the nested loops over
      agents and templates. */
  method BuildAll(fs: FileSystem, b: ScaffoldingBuilder, rd: Renderer, agents: seq<AgentDefinition>)
    returns (r: Result<seq<FileOutcome>, BuildError>)
    modifies fs
    ensures (fs.State(), r) == BuildAllSpec(old(fs.State()), fs.refused, b, rd, agents)
  {
    var err := fs.MakeDirs(b.outputDir);
    if err.Some? {
      return Failure(if err.value.NotFound? then OutputDirNotFound else OutputDirUnavailable);
    }
    var report := GenerateAll(fs, b, rd, agents);
    r := Success(report);
  }
}
