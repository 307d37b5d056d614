# AASF pipeline core in Dafny

A model of the core of the agent-scaffolding pipeline p1nka/aasf. The pipeline
reads a rule-book document and cuts it into sections at a delimiter. From
each section it extracts an agent record with regular expressions. For every
record and every configured template it writes one generated file into an
output directory.

The model covers five parts, one Dafny module each:

- **Discovery** (`section_finder.dfy`): `SectionFinder`. Python's
  `str.split(sep)`, `str.split()` and `str.strip()` are written out in
  **Strings** (`strings.dfy`), together with the facts the other modules use.
- **Models** (`models.dfy`): the `AgentDefinition` record, its pydantic
  validation, and the `generate_class_name` validator.
- **Extractor** (`extractor.dfy`): `AgentExtractor.__init__` and `extract`.
  The regular-expression engine is a parameter (`Regex`).
- **Scaffolding** (`builder.dfy`): `ScaffoldingBuilder.__init__`, `build_all`
  and `_generate_file`.
  - The template engine and the JSON dump are a parameter (`Renderer`).
  - The file system is a class (`Files.FileSystem`, `files.dfy`) whose
    directories and files the methods update in place.
- **Orchestration** (`orchestrator.dfy`): `Orchestrator.__init__`,
  `_get_parser` and `run`. Reading the document is a parameter (`Reader`).

The immutable objects become datatypes and their constructors become functions
that can fail. These are `SectionFinder`, `AgentExtractor`,
`ScaffoldingBuilder` and `Orchestrator`. Errors that can be raised become
`Result` values, and the handlers of `run` become the `RunOutcome` of a run.

The loops of the source are methods with loop invariants:

- the attribute loop of `extract`;
- the extraction loop of `run`;
- the nested agent × template loops of `build_all`.

Each method is proved equal to a specification function (`ExtractSpec`,
`ExtractAll`, `BuildAllSpec`, `RunSpec`). The lemmas listed below prove the
source's promises about those functions.

Two generic modules carry the loop shapes:

- **Sequences** (`sequences.dfy`) covers "keep what a function accepts, in
  order", with and without a first failure that ends the scan.
- **Steps** (`steps.dfy`) covers "run steps over a state, one output each".

## Model

| member | source | states |
|---|---|---|
| Discovery.NewSectionFinder | aasf/b_discovery/section_finder.py:12-13 | the delimiter is `"---"` when the setting is absent, the given value otherwise; a null setting means "split on whitespace" |
| Discovery.FindSections | aasf/b_discovery/section_finder.py:16-33 | fails exactly for an empty delimiter (`split` raises); with a null delimiter the sections are the whitespace-separated words |
| Discovery.WordsSurviveStrip | aasf/b_discovery/section_finder.py:27-30 | with a null delimiter the comprehension keeps every word unchanged |
| Discovery.Sections | aasf/b_discovery/section_finder.py:27-30 | the comprehension over the split pieces; `SectionsAreClean`, `SectionsInOrder` and `SectionsBound` give its contents, order and size |
| Discovery.SectionsAreClean | aasf/b_discovery/section_finder.py:27-33 | every section is non-empty, is its own strip, and contains no delimiter |
| Discovery.SectionsInOrder | aasf/b_discovery/section_finder.py:27-30 | the pieces join back into the text; section k is the strip of piece `Origins[k]`; the origins strictly increase, so order is kept and nothing is kept twice; every non-blank piece is an origin |
| Discovery.SectionsBound | aasf/b_discovery/section_finder.py:27-30 | there are at most (number of delimiter occurrences + 1) sections |
| Discovery.SectionsWithoutDelimiter | aasf/b_discovery/section_finder.py:27-30 | a text without the delimiter gives the stripped text as the only section, or no section when it is blank |
| Discovery.SectionsRerun | aasf/b_discovery/section_finder.py:27-33 | discovering sections inside one section gives back exactly that section |
| Discovery.NonBlankMeans | aasf/b_discovery/section_finder.py:30 | a piece that survives the filter becomes its strip, which is non-empty and stripped |
| Strings.Trim | aasf/b_discovery/section_finder.py:30 | `str.strip()`; `TrimSpec` characterises it and `TrimIdempotent` shows it idempotent |
| Strings.TrimStart | aasf/b_discovery/section_finder.py:30 | the result is a suffix of the input that does not start with whitespace, and everything dropped is whitespace |
| Strings.TrimEnd | aasf/b_discovery/section_finder.py:30 | the result is a prefix of the input that does not end with whitespace, and everything dropped is whitespace |
| Strings.TrimSpec | aasf/b_discovery/section_finder.py:30 | `strip()` returns a slice of the input; only whitespace lies before and after it; the result does not start or end with whitespace; it is empty exactly when the input is blank |
| Strings.TrimSlice | aasf/b_discovery/section_finder.py:30 | the strip is the slice starting at the leading-whitespace count, and everything before it is whitespace |
| Strings.TrimAfter | aasf/b_discovery/section_finder.py:30 | everything after the strip is whitespace |
| Strings.TrimEnds | aasf/b_discovery/section_finder.py:30 | the strip has no whitespace at either end, and it is empty exactly when the input is blank |
| Strings.TrimOfTrimmed | aasf/b_discovery/section_finder.py:30 | a string without whitespace at its ends is its own strip |
| Strings.TrimIdempotent | aasf/b_discovery/section_finder.py:30 | stripping twice is stripping once |
| Strings.TrimKeepsFree | aasf/b_discovery/section_finder.py:30 | stripping adds no occurrence of the delimiter |
| Strings.SliceKeepsFree | aasf/b_discovery/section_finder.py:30 | a slice of a string without the delimiter has no delimiter either |
| Strings.Split | aasf/b_discovery/section_finder.py:27 | `str.split(sep)` gives at least one piece |
| Strings.SplitJoin | aasf/b_discovery/section_finder.py:27 | joining the pieces with the delimiter gives the text back |
| Strings.JoinStartsWithFirst | aasf/b_discovery/section_finder.py:27 | a join starts with its first piece |
| Strings.SplitFirstIsPrefix | aasf/b_discovery/section_finder.py:27 | the first piece is a prefix of the text |
| Strings.SplitCount | aasf/b_discovery/section_finder.py:27 | there is one more piece than there are non-overlapping occurrences of the delimiter |
| Strings.SplitPiecesFree | aasf/b_discovery/section_finder.py:27 | no piece contains the delimiter |
| Strings.SplitWithoutSeparator | aasf/b_discovery/section_finder.py:27 | a text without the delimiter splits into itself alone |
| Strings.SplitFirstPiece | aasf/b_discovery/section_finder.py:27 | the first piece ends at the leftmost occurrence of the delimiter: none starts inside it, and one starts right after it unless it is the whole text |
| Strings.SplitRest | aasf/b_discovery/section_finder.py:27 | with more than one piece, the pieces after the first are the split of the text after the first occurrence of the delimiter, so every cut is leftmost |
| Strings.WordLength | aasf/c_extraction/models.py:26 | the first word of `str.split()` ends at the first whitespace character |
| Strings.Words | aasf/c_extraction/models.py:26 | `str.split()` gives non-empty words without whitespace |
| Strings.WordsConcat | aasf/c_extraction/models.py:26 | the words concatenated are the text with its whitespace removed |
| Strings.RemoveSpaceAppend | aasf/c_extraction/models.py:26 | removing whitespace distributes over concatenation |
| Strings.RemoveSpaceOfNoSpace | aasf/c_extraction/models.py:26 | removing whitespace leaves a string without whitespace unchanged |
| Strings.RemoveSpaceOfBlank | aasf/c_extraction/models.py:26 | removing whitespace from a blank string gives the empty string |
| Strings.WordsOfBlank | aasf/c_extraction/models.py:26 | a blank text has no words |
| Strings.WordsOfNoSpace | aasf/c_extraction/models.py:26 | a non-empty text without whitespace is one word |
| Strings.WordsAfterWord | aasf/c_extraction/models.py:26 | a word followed by whitespace is the first word, and the rest splits on its own |
| Strings.WordLengthAtSpace | aasf/c_extraction/models.py:26 | the first word is exactly the run before the first whitespace character |
| Strings.SkipBlank | aasf/c_extraction/models.py:26 | leading whitespace does not change the words |
| Strings.Capitalize | aasf/c_extraction/models.py:26 | `word.capitalize()`; `CapitalizeSpec` gives its length, its letters up to case and the case of each position |
| Strings.CapitalizeSpec | aasf/c_extraction/models.py:26 | `str.capitalize()` keeps the length and the letters up to case, adds no whitespace, leaves the first character not lower-case and no later character upper-case |
| Strings.CaseChar | aasf/c_extraction/models.py:26 | per character: upper-casing leaves no lower-case letter, lower-casing no upper-case one, both agree with the character up to case, and neither creates whitespace |
| Strings.CapitalizeNoSpace | aasf/c_extraction/models.py:26 | capitalizing a word without whitespace gives a word without whitespace |
| Strings.CapitalizeFixed | aasf/c_extraction/models.py:26 | an already capitalized word is left unchanged |
| Strings.LowerFixed | aasf/c_extraction/models.py:26 | lower-casing a string without upper-case letters leaves it unchanged |
| Strings.Lower | aasf/orchestrator.py:37 | `str.lower()` keeps the length |
| Strings.LowerAppend | aasf/orchestrator.py:37 | lower-casing distributes over concatenation |
| Strings.ConcatNoSpace | aasf/c_extraction/models.py:26 | concatenating words without whitespace gives a string without whitespace |
| Strings.ConcatLower | aasf/c_extraction/models.py:26 | concatenations of piecewise case-equal lists are case-equal |
| Models.CapitalizeAll | aasf/c_extraction/models.py:26 | word i of the result is word i of the input, capitalized, and there are as many words |
| Models.ClassName | aasf/c_extraction/models.py:20-28 | `generate_class_name` on the validated name; `ClassNameLetters`, `BlankNameGivesEmptyClassName` and `ClassNameOfDocumentAnalysisAgent` state what it gives |
| Models.ClassNameLetters | aasf/c_extraction/models.py:20-28 | an empty name gives `"UnnamedAgent"`; every class name is free of whitespace; for a non-empty name the class name has, up to ASCII case, exactly the non-whitespace characters of the name, in order |
| Models.BlankNameGivesEmptyClassName | aasf/c_extraction/models.py:23-26 | a non-empty name made only of whitespace gives the empty class name, not the sentinel |
| Models.ClassNameOfDocumentAnalysisAgent | aasf/c_extraction/models.py:25-26 | `"Document Analysis Agent"` gives `"DocumentAnalysisAgent"` |
| Models.ClassNameOfAlpha | aasf/c_extraction/models.py:23-28 | `"alpha"` gives `"Alpha"`; `""` gives `"UnnamedAgent"` |
| Models.WordsOfThree | aasf/c_extraction/models.py:26 | three words separated by single spaces split back into those three words |
| Models.WordsOfDocumentAnalysisAgent | aasf/c_extraction/models.py:26 | `"Document Analysis Agent"` splits into its three words |
| Models.CapitalizeAllFixed | aasf/c_extraction/models.py:26 | words that capitalize to themselves are left as they are |
| Models.CapitalizedWordsFixed | aasf/c_extraction/models.py:26 | the words `Document`, `Analysis`, `Agent` are already capitalized |
| Models.CapitalizedDocumentAnalysisAgent | aasf/c_extraction/models.py:26 | capitalizing and joining those three words gives `"DocumentAnalysisAgent"` |
| Models.ConcatThree | aasf/c_extraction/models.py:26 | joining three strings with `""` is their concatenation |
| Models.Validate | aasf/c_extraction/models.py:7-28 | a record exists exactly when `agent_id`, `agent_name` and `raw_section_text` are present and not `None`; then it holds those values, the optional attributes as given (absent meaning `None`), and the class name derived from the name |
| Models.ClassNameIgnoresSupplied | aasf/c_extraction/models.py:11-21 | a supplied `class_name` has no effect on the record |
| Models.EmptyNameIsValid | aasf/c_extraction/models.py:10-28 | an empty `agent_name` still validates, with the sentinel class name and no attributes |
| Extractor.NewAgentExtractor | aasf/c_extraction/extractor.py:14-17 | fails exactly when `extraction_patterns` is missing, null or an empty mapping; otherwise keeps the table |
| Extractor.ApplyAttribute | aasf/c_extraction/extractor.py:42-45 | one attribute raises exactly when its search raises (bad pattern, missing or unset group 1); no match leaves the fields unchanged |
| Extractor.ApplyAttributeStores | aasf/c_extraction/extractor.py:43-45 | a turn that does not raise stores the stripped group 1 under the attribute's name on a match, and changes nothing otherwise |
| Extractor.MergeAttributes | aasf/c_extraction/extractor.py:42-45 | the attribute loop on the fields, raising with the first search that raises; `MatchedFieldsStored`, `UnmatchedFieldsKept` and `MergeAttributesRaises` state its result |
| Extractor.MergeLast | aasf/c_extraction/extractor.py:42-45 | the loop over a list is the loop over its front, followed by the last attribute unless an earlier one raised |
| Extractor.MergeAttributesRaises | aasf/c_extraction/extractor.py:42-45 | the attribute loop raises exactly when some attribute's search raises |
| Extractor.MergeWithoutRaise | aasf/c_extraction/extractor.py:42-45 | a loop in which no search raises completes |
| Extractor.MergeRaiseAt | aasf/c_extraction/extractor.py:42-45 | a search that raises at any position makes the loop raise |
| Extractor.LastRaises | aasf/c_extraction/extractor.py:42-45 | a raise by the last search makes the loop raise |
| Extractor.MergePrefixFailure | aasf/c_extraction/extractor.py:42-45 | a raise in a prefix is the result of the whole loop |
| Extractor.MatchedFieldsStored | aasf/c_extraction/extractor.py:42-45 | after the loop, every attribute whose pattern matched holds its stripped group 1, overriding any header capture of that name |
| Extractor.UnmatchedFieldsKept | aasf/c_extraction/extractor.py:39-45 | after the loop, every field that no matching attribute names is exactly as the header's `groupdict()` left it, present or absent |
| Extractor.MergeAttributesUnmatched | aasf/c_extraction/extractor.py:42-45 | when no attribute matches, the fields are the header captures |
| Extractor.Construct | aasf/c_extraction/extractor.py:47-51 | a record comes out exactly when no captured field is named `raw_section_text` (a duplicate keyword raises inside the `try`) and `agent_id` and `agent_name` are present; it keeps the section verbatim |
| Extractor.ExtractSpec | aasf/c_extraction/extractor.py:20-51 | a missing or empty header pattern, or a header that does not match, gives no record; a record keeps the section verbatim |
| Extractor.ExtractRaises | aasf/c_extraction/extractor.py:30-45 | `extract` raises exactly when a header is configured and its pattern is bad, or it matches and the attribute table is null or some attribute's search raises |
| Extractor.HeaderOnlyRecord | aasf/c_extraction/extractor.py:35-51 | a header whose `groupdict()` holds only id and name, whatever its group 1, with no attribute matching, gives the record with exactly those two fields, the derived class name and the section, and every attribute absent |
| Extractor.MissingIdGivesNothing | aasf/c_extraction/extractor.py:39-51 | a header without an `agent_id`, and no attribute supplying one, gives no record rather than raising |
| Extractor.MergeLoop | aasf/c_extraction/extractor.py:42-45 | the loop updating `agent_data` in place computes `MergeAttributes` |
| Extractor.Extract | aasf/c_extraction/extractor.py:20-51 | the method computes `ExtractSpec` |
| Files.MakeDirsError | aasf/d_scaffolding/builder.py:37 | the error `os.makedirs(p, exist_ok=True)` raises: `FileNotFoundError` for the empty path, another `OSError` for an existing file or a refused path that is not already a directory, none otherwise (an existing directory is accepted); `MakeDirsIdempotent` shows a second call succeeds |
| Files.FileSystem.MakeDirs | aasf/d_scaffolding/builder.py:37 | `os.makedirs(p, exist_ok=True)`: raises `FileNotFoundError` for the empty path and another `OSError` for a file or refused path; otherwise adds the directory; nothing changes on an error |
| Files.WriteOk | aasf/d_scaffolding/builder.py:59 | `open(p, 'w')` succeeds exactly when the path is non-empty, does not end in a separator, is not a directory and is not refused; `FileSystem.Write` acts on it |
| Files.FileSystem.Write | aasf/d_scaffolding/builder.py:59-60 | opening for writing fails on a directory, a name ending in a separator or a refused path; otherwise the file holds exactly the content |
| Files.MakeDirsIdempotent | aasf/d_scaffolding/builder.py:37 | creating an existing directory again succeeds and changes nothing |
| Files.LastWriteWins | aasf/d_scaffolding/builder.py:59-60 | a second write to a path replaces the first |
| Scaffolding.NewScaffoldingBuilder | aasf/d_scaffolding/builder.py:16-18 | the output directory defaults to `generated_agents` and the templates to none |
| Scaffolding.JoinPath | aasf/d_scaffolding/builder.py:50 | `os.path.join` on POSIX: the file name ends the path; an absolute file name replaces the directory; otherwise the path is the directory, at most one separator, then the name |
| Scaffolding.UsesJson | aasf/d_scaffolding/builder.py:53 | the JSON dump is used exactly when `template_file` is null or empty, the falsy values of a string setting; `PlanFile` uses it |
| Scaffolding.PlanFile | aasf/d_scaffolding/builder.py:46-57 | a missing file-name key fails with `KeyError`; a successful plan joins the rendered file name onto the output directory; its content is the JSON dump when the template file is null or empty, and the rendered template otherwise |
| Scaffolding.Attempt | aasf/d_scaffolding/builder.py:44-66 | a file is written exactly when the plan succeeds and the path opens; then it holds the planned content; a failure changes nothing and names the agent and the template entry; directories never change |
| Scaffolding.AttemptOutcomeDependsOnDirs | aasf/d_scaffolding/builder.py:44-66 | whether an attempt succeeds depends on the directories, not on the files written so far |
| Scaffolding.Pairs | aasf/d_scaffolding/builder.py:39-42 | the (agent, template) pairs of the nested loops; `PairsLength` and `PairsIndex` give their number and agent-major order |
| Scaffolding.PairsLength | aasf/d_scaffolding/builder.py:39-42 | the nested loops make `agents × templates` attempts |
| Scaffolding.PairsIndex | aasf/d_scaffolding/builder.py:39-42 | attempt `i * templates + j` is agent i with template j (agents outermost) |
| Scaffolding.BuildAllSpec | aasf/d_scaffolding/builder.py:29-42 | `build_all` fails exactly when `makedirs` raises, and then changes nothing; an empty output directory gives `FileNotFoundError`; on success the output directory exists and no other directory was added |
| Scaffolding.BuildAllCount | aasf/d_scaffolding/builder.py:39-42 | a successful `build_all` makes exactly `agents × templates` attempts |
| Scaffolding.BuildAllLine | aasf/d_scaffolding/builder.py:39-66 | attempt k has the result it would have alone on the state just after the directory was created: a failing attempt does not stop or change the others |
| Scaffolding.BuildAllFiles | aasf/d_scaffolding/builder.py:39-60 | afterwards the files are the old ones plus the created paths, and every file no attempt created is unchanged |
| Scaffolding.BuildAllLastWrite | aasf/d_scaffolding/builder.py:39-60 | a file created by attempt k and by no later attempt holds what pair k's template rendered |
| Scaffolding.BuildAllFileCount | aasf/d_scaffolding/builder.py:39-60 | a successful build whose created paths are distinct and new adds exactly one file per `Created` attempt |
| Scaffolding.NoTemplatesOnlyMakesDirectory | aasf/d_scaffolding/builder.py:37-42 | with no templates, `build_all` only creates the output directory |
| Scaffolding.AttemptStepFacts | aasf/d_scaffolding/builder.py:44-66 | as a step, an attempt keeps the directories, has a result that depends only on them, and writes at most the created path with the rendered content |
| Scaffolding.AttemptsKeepDirs | aasf/d_scaffolding/builder.py:39-42 | the attempts never create or remove directories |
| Scaffolding.RowStep | aasf/d_scaffolding/builder.py:41-42 | one more template in the inner loop is one more attempt on the current state |
| Scaffolding.GenerateFile | aasf/d_scaffolding/builder.py:44-66 | the method changes the file system and returns the outcome as `Attempt` says |
| Scaffolding.GenerateRow | aasf/d_scaffolding/builder.py:41-42 | the inner loop performs one agent's attempts, in template order, on the state the earlier ones left |
| Scaffolding.GenerateAll | aasf/d_scaffolding/builder.py:39-42 | the nested loops perform every pair's attempt, in order |
| Scaffolding.BuildAll | aasf/d_scaffolding/builder.py:29-42 | the method changes the file system and returns the result as `BuildAllSpec` says |
| Steps.Snoc | aasf/d_scaffolding/builder.py:39-42 | one more step at the end updates the state and appends its output |
| Steps.FinalKeeps | aasf/d_scaffolding/builder.py:39-42 | a view of the state that every step keeps is kept by all of them |
| Steps.OutputsIsolated | aasf/d_scaffolding/builder.py:39-42 | when steps keep a view and their output depends only on it, output k is step k alone on the first state |
| Steps.OutputsLength | aasf/d_scaffolding/builder.py:39-42 | one output per input |
| Steps.Written | aasf/d_scaffolding/builder.py:59-60 | a path is written exactly when some output names it |
| Steps.WrittenSnoc | aasf/d_scaffolding/builder.py:59-60 | one more output adds its path, if it names one |
| Steps.FinalKeys | aasf/d_scaffolding/builder.py:39-60 | the final entries are the first ones plus the written ones |
| Steps.FinalUntouched | aasf/d_scaffolding/builder.py:39-60 | an entry no step writes is unchanged |
| Steps.FinalLastWrite | aasf/d_scaffolding/builder.py:39-60 | an entry written by step k and no later step holds input k's content |
| Steps.Writers | aasf/d_scaffolding/builder.py:59-60 | the positions of the outputs that name an entry |
| Steps.WritersSnoc | aasf/d_scaffolding/builder.py:59-60 | one more output adds its position, if it names an entry |
| Steps.DistinctWritesFront | aasf/d_scaffolding/builder.py:59-60 | distinct writes stay distinct in a prefix, and the last one names an entry no earlier one names |
| Steps.WrittenCount | aasf/d_scaffolding/builder.py:59-60 | with distinct writes, there are as many written entries as writing outputs |
| Steps.FinalCount | aasf/d_scaffolding/builder.py:39-60 | with distinct writes to new entries, the final entries number the first ones plus the writing outputs |
| Sequences.FilterMap | aasf/b_discovery/section_finder.py:30 | the comprehension keeps at most as many elements as it scans |
| Sequences.FilterMapOrigins | aasf/b_discovery/section_finder.py:30 | kept value k is `f` of the element at origin k; the origins strictly increase; every accepted element is an origin |
| Sequences.OriginsValues | aasf/b_discovery/section_finder.py:30 | there is one origin per kept value, and kept value k comes from the element at origin k |
| Sequences.OriginsIncrease | aasf/b_discovery/section_finder.py:30 | the origins are indices of the list, in strictly increasing order |
| Sequences.OriginsComplete | aasf/b_discovery/section_finder.py:30 | every accepted element is an origin |
| Sequences.FilterMapKeepsAll | aasf/b_discovery/section_finder.py:30 | a filter that accepts every element as itself keeps the list |
| Sequences.TryFilterMapSucceeds | aasf/orchestrator.py:61-65 | a loop in which no element raises completes |
| Sequences.TryFilterMapFailsAt | aasf/orchestrator.py:61-65 | a raise at any position ends the loop with a raise |
| Sequences.TryFilterMapFails | aasf/orchestrator.py:61-65 | the loop raises exactly when some element raises |
| Sequences.TryFilterMapKeeps | aasf/orchestrator.py:61-65 | a loop that completes keeps the accepted values, in order |
| Sequences.TryFilterMapPrefixFailure | aasf/orchestrator.py:61-65 | a raise within a prefix is the result of the whole loop |
| Orchestration.NewOrchestrator | aasf/orchestrator.py:20-25 | fails exactly when the extractor refuses its settings; missing settings read as empty mappings; the finder and builder come from their settings |
| Orchestration.LastIndexOf | aasf/orchestrator.py:37 | the last index of a character, or -1 when it does not occur |
| Orchestration.Ext | aasf/orchestrator.py:37 | `os.path.splitext(filepath)[1]`; `ExtShape` and `ExtOfName` characterise it in both directions |
| Orchestration.ExtShape | aasf/orchestrator.py:37 | `splitext(...)[1]` is empty or a suffix that starts with its only dot and has no separator, preceded by a non-dot character in the same path component |
| Orchestration.ExtOfName | aasf/orchestrator.py:37 | a file name made of a stem, one dot and an extension has exactly that extension |
| Orchestration.LastAt | aasf/orchestrator.py:37 | an occurrence after which the character does not occur is the last index |
| Orchestration.LastBelow | aasf/orchestrator.py:37 | the last index lies below a position from which the character does not occur |
| Orchestration.GetParser | aasf/orchestrator.py:27-41 | `.txt` selects the text parser and `.pdf` the PDF parser, after lower-casing; anything else raises `NotImplementedError` naming the lower-cased extension |
| Orchestration.GetParserIgnoresCase | aasf/orchestrator.py:37-38 | the parser depends on the extension and not on its letter case |
| Orchestration.HiddenFileHasNoParser | aasf/orchestrator.py:37-40 | a name made only of a dot and an extension has no extension, so no parser |
| Orchestration.RunSpec | aasf/orchestrator.py:43-83 | a run that does not finish writes nothing; a run with no parser is aborted with the extension; a read that fails is aborted as a missing input file when the file is missing and as unexpected otherwise |
| Orchestration.RunBuildsExtracted | aasf/orchestrator.py:54-74 | when the document reads and splits and no section raises: no record means "nothing extracted" with nothing written; otherwise the run is `build_all` on the records, in section order |
| Orchestration.FinishedRunNeeds | aasf/orchestrator.py:52-74 | a finished run had a parser, a document that read and split, no section that raised, at least one record and an output directory that could be made |
| Orchestration.OneBadSectionAbortsRun | aasf/orchestrator.py:61-83 | one section whose extraction raises aborts the whole run, with nothing written |
| Orchestration.EmptyOutputDirReadsAsMissingInput | aasf/orchestrator.py:74-79 | an empty output directory ends a run that has records in the "input file not found" handler |
| Orchestration.FinishedRunReport | aasf/orchestrator.py:61-74 | a finished run had at least one record and made one attempt per record and template |
| Orchestration.ExtractAll | aasf/orchestrator.py:61-65 | the extraction loop of `run`; `TryFilterMapFails` and `TryFilterMapKeeps` give when it raises and which records it keeps, and `ExtractSections` computes it |
| Orchestration.ExtractSections | aasf/orchestrator.py:61-65 | the extraction loop appending to `extracted_agents` computes `ExtractAll` |
| Orchestration.Run | aasf/orchestrator.py:43-83 | the method changes the file system and returns the outcome as `RunSpec` says |

## Where the code and its comments differ

The model follows the code in each case.

- **A whitespace-only agent name.** The docstring at
  aasf/c_extraction/models.py:22 promises a PEP-8 compliant class name. A
  name made only of whitespace is present and non-empty, so the
  `"UnnamedAgent"` fallback is skipped, the code joins zero words and the
  class name is `""`, which is no class name at all
  (`Models.BlankNameGivesEmptyClassName`).
- **A section that raises during extraction.** The docstring at
  aasf/c_extraction/extractor.py:28 says `extract` returns `None` if
  extraction fails. Three errors are raised outside the `try` of
  lines 47-51 instead:
  - a pattern that does not compile (lines 35 and 43);
  - a null `attributes` entry, whose `.items()` raises `AttributeError`
    (line 42; the `AttributesNotMapping` error of `Extractor.ExtractRaises`);
  - an attribute match without a usable group 1 (line 45).

  They propagate to the generic handler of `run`, so one such section aborts
  the whole run before anything is written
  (`Orchestration.OneBadSectionAbortsRun`). Validation failures stay inside
  the `try` and give `None`.
- **An empty output directory.** `os.makedirs("")` at
  aasf/d_scaffolding/builder.py:37 raises `FileNotFoundError`. The handler at
  aasf/orchestrator.py:78-79 reports that as a missing input file
  (`Orchestration.EmptyOutputDirReadsAsMissingInput`).
- **A template entry without the `template_file` key.** The comments at
  aasf/d_scaffolding/builder.py:52 and 56 call the second branch the direct
  JSON dump, used when no Jinja template is. Line 53 indexes
  `template_file` directly, so a missing key raises `KeyError`, which is
  logged as a failed file. The JSON dump is used only when the value is null
  or empty (`Scaffolding.PlanFile`).

## Left out

- Reading documents (`TextParser`, `PdfParser`, pdfplumber) is the `Reader`
  parameter. Only its two failure classes are kept: `FileNotFoundError`, and
  any other exception.
- `main.py`, the logger configuration and every log message are left out.
  The per-file log line survives as a `FileOutcome`; the handler that ends a
  run survives as a `RunOutcome`.
- Regular-expression matching (`re.search` with `re.MULTILINE`,
  `groupdict()`, `group(1)`) is the `Regex` parameter. The model fixes what
  `extract` does with each answer, not how patterns match.
- Jinja2 (the environment, the template directory, rendering) and
  pydantic's `.json(indent=4)` are the `Renderer` parameter.
- `Strings.Lower`, `Strings.Capitalize`: cover ASCII letters only. Python's
  Unicode case mapping (for example `"ß".upper()` growing to two characters)
  is not modelled.
- Configuration values of the wrong type are not modelled. This covers:
  - a delimiter that is not a string;
  - a `templates` value that is not a list of mappings;
  - an `attributes` value that is a non-mapping other than null;
  - settings sections that are not mappings.

  A null `attributes` entry and a null delimiter are modelled.
- A pattern table has only the `header` and `attributes` keys. A table
  holding only other keys counts as non-empty in Python, but the model
  cannot express it.
- Pydantic's coercion of non-string values is not modelled. The header's
  `groupdict()` only yields strings or `None`, and both are modelled.
- `Files.FileSystem.MakeDirs`: adds only the named path. It does not model
  intermediate directories, path normalisation (`a/../b`, a trailing slash)
  or Windows paths.
- Permission checks, missing parent directories of a rendered file name and
  read-only media are not modelled. Instead, `refused` is a set of paths at
  which the operating system declines to create anything.
- Writing with `encoding='utf-8'` stores the content as a string. Encoding
  errors are not modelled.
- The `config` attribute that `Orchestrator.__init__` keeps is left out;
  nothing in the core reads it again.
