/** Record extraction: a header pattern decides whether a section defines an
    agent and captures its named fields; each attribute pattern then adds or
    overwrites one field with its trimmed first group; the collected fields
    are validated into a record. The regular-expression engine is a
    parameter (`Regex`): the model fixes what is done with its answers, not
    how patterns match. */
module Extractor {
  import opened Basics
  import opened Strings
  import opened Models

  /** The text of a configured regular expression. */
  type Pattern = string

  /** What `match.group(1)` gives: the pattern has no group 1 (Python raises
      IndexError), group 1 did not take part in the match (`None`, whose
      `.strip()` raises), or the captured text. */
  datatype GroupOne = NoGroup | Unset | Captured(text: string)

  /** A match: its `groupdict()` and its `group(1)`. */
  datatype MatchObject = MatchObject(groups: Fields, group1: GroupOne)

  /** `re.search(pattern, text, re.MULTILINE)`: the pattern does not compile
      (Python raises `re.error`), finds nothing, or gives its first match. */
  datatype SearchResult = PatternError | NoMatch | Found(m: MatchObject)

  type Regex = (Pattern, string) -> SearchResult

  /** The `extraction_patterns` mapping: a `header` pattern and an ordered
      `attributes` mapping from field name to pattern. */
  datatype PatternTable = PatternTable(header: Entry<Pattern>, attributes: Entry<seq<(string, Pattern)>>)

  /** The `extraction_settings` mapping of the configuration. */
  datatype ExtractionSettings = ExtractionSettings(extractionPatterns: Entry<PatternTable>)

  datatype AgentExtractor = AgentExtractor(patterns: PatternTable)

  /** The ValueError raised by the constructor. */
  datatype ConfigError = PatternsNotFound

  /** What `extract` can raise: a pattern that does not compile, an
      `attributes` entry that is null, or an attribute match whose group 1
      is missing or did not participate. */
  datatype ExtractError =
    | BadPattern(pattern: Pattern)
    | AttributesNotMapping
    | NoGroupOne(attribute: string)
    | GroupOneUnset(attribute: string)

  /** A pattern table with no key at all (Python's empty dict). */
  predicate EmptyTable(t: PatternTable)
  {
    t.header.Absent? && t.attributes.Absent?
  }

  /** `AgentExtractor.__init__`: fails when the patterns are missing, null or
      empty; a table without a header is accepted here and only makes every
      extraction give nothing. */
  function NewAgentExtractor(settings: ExtractionSettings): (r: Result<AgentExtractor, ConfigError>)
    ensures r.Failure? <==>
              !settings.extractionPatterns.Given? || EmptyTable(settings.extractionPatterns.value)
    ensures r.Success? ==> r.value.patterns == settings.extractionPatterns.value
  {
    match settings.extractionPatterns
    case Given(t) => if EmptyTable(t) then Failure(PatternsNotFound) else Success(AgentExtractor(t))
    case _ => Failure(PatternsNotFound)
  }

  /** `self.patterns.get('header')` when it is truthy. */
  function HeaderPattern(t: PatternTable): Option<Pattern>
  {
    match t.header
    case Given(p) => if p == [] then None else Some(p)
    case _ => None
  }

  /** `self.patterns.get('attributes', {}).items()`; a null entry raises. */
  function AttributeList(t: PatternTable): Result<seq<(string, Pattern)>, ExtractError>
  {
    match t.attributes
    case Absent => Success([])
    case Null => Failure(AttributesNotMapping)
    case Given(attrs) => Success(attrs)
  }

  /** The search for one attribute raises. */
  predicate Raises(sr: SearchResult)
  {
    sr.PatternError? || (sr.Found? && !sr.m.group1.Captured?)
  }

  /** One turn of the attribute loop: search the whole section, and on a
      match store the trimmed group 1 under the attribute's name. */
  function ApplyAttribute(data: Fields, attr: string, p: Pattern, search: Regex, section: string)
    : (r: Result<Fields, ExtractError>)
    ensures r.Failure? <==> Raises(search(p, section))
    ensures search(p, section).NoMatch? ==> r == Success(data)
  {
    match search(p, section)
    case PatternError => Failure(BadPattern(p))
    case NoMatch => Success(data)
    case Found(m) =>
      match m.group1
      case NoGroup => Failure(NoGroupOne(attr))
      case Unset => Failure(GroupOneUnset(attr))
      case Captured(g) => Success(data[attr := Some(Trim(g))])
  }

  /** The whole attribute loop over `attrs`, in order; the first raise ends it. */
  function MergeAttributes(data: Fields, attrs: seq<(string, Pattern)>, search: Regex, section: string)
    : Result<Fields, ExtractError>
    decreases |attrs|
  {
    if attrs == [] then Success(data)
    else
      match MergeAttributes(data, attrs[..|attrs| - 1], search, section)
      case Failure(e) => Failure(e)
      case Success(d) =>
        var (attr, p) := attrs[|attrs| - 1];
        ApplyAttribute(d, attr, p, search, section)
  }

  /** The attribute names are distinct, as the keys of a mapping are. */
  predicate DistinctNames(attrs: seq<(string, Pattern)>)
  {
    forall i, j :: 0 <= i < j < |attrs| ==> attrs[i].0 != attrs[j].0
  }

  /** The names of the attributes whose pattern matches the section. */
  ghost function MatchedNames(attrs: seq<(string, Pattern)>, search: Regex, section: string): set<string>
  {
    set i | 0 <= i < |attrs| && search(attrs[i].1, section).Found? :: attrs[i].0
  }

  /** One more attribute at the end of the loop. */
  lemma MergeLast(data: Fields, attrs: seq<(string, Pattern)>, search: Regex, section: string)
    requires attrs != []
    ensures var front := MergeAttributes(data, attrs[..|attrs| - 1], search, section);
            MergeAttributes(data, attrs, search, section)
            == if front.Failure? then front
               else ApplyAttribute(front.value, attrs[|attrs| - 1].0, attrs[|attrs| - 1].1, search, section)
  {
  }

  /** An attribute loop in which no search raises completes. */
  lemma {:induction false} MergeWithoutRaise(data: Fields, attrs: seq<(string, Pattern)>, search: Regex, section: string)
    requires forall i :: 0 <= i < |attrs| ==> !Raises(search(attrs[i].1, section))
    ensures MergeAttributes(data, attrs, search, section).Success?
    decreases |attrs|
  {
    if attrs != [] {
      var n := |attrs| - 1;
      assert forall i :: 0 <= i < n ==> attrs[..n][i] == attrs[i];
      MergeWithoutRaise(data, attrs[..n], search, section);
      MergeLast(data, attrs, search, section);
    }
  }

  /** A raise by the last search is a raise of the whole loop. */
  lemma LastRaises(data: Fields, attrs: seq<(string, Pattern)>, search: Regex, section: string)
    requires attrs != [] && Raises(search(attrs[|attrs| - 1].1, section))
    ensures MergeAttributes(data, attrs, search, section).Failure?
  {
    MergeLast(data, attrs, search, section);
    var front := MergeAttributes(data, attrs[..|attrs| - 1], search, section);
    if front.Success? {
      var last := attrs[|attrs| - 1];
      assert ApplyAttribute(front.value, last.0, last.1, search, section).Failure?;
    }
  }

  /** A search that raises at any position makes the whole loop raise. */
  lemma {:induction false} MergeRaiseAt(data: Fields, attrs: seq<(string, Pattern)>, i: nat, search: Regex, section: string)
    requires i < |attrs| && Raises(search(attrs[i].1, section))
    ensures MergeAttributes(data, attrs, search, section).Failure?
    decreases |attrs|
  {
    var n := |attrs| - 1;
    if i < n {
      var front := attrs[..n];
      assert front[i] == attrs[i];
      MergeRaiseAt(data, front, i, search, section);
      MergeLast(data, attrs, search, section);
    } else {
      LastRaises(data, attrs, search, section);
    }
  }

  /** The attribute loop raises exactly when some attribute's search raises. */
  lemma MergeAttributesRaises(data: Fields, attrs: seq<(string, Pattern)>, search: Regex, section: string)
    ensures MergeAttributes(data, attrs, search, section).Failure? <==>
              exists i :: 0 <= i < |attrs| && Raises(search(attrs[i].1, section))
  {
    if exists i :: 0 <= i < |attrs| && Raises(search(attrs[i].1, section)) {
      var i :| 0 <= i < |attrs| && Raises(search(attrs[i].1, section));
      MergeRaiseAt(data, attrs, i, search, section);
    } else {
      MergeWithoutRaise(data, attrs, search, section);
    }
  }

  /** A turn of the loop that does not raise stores the trimmed group 1 on
      a match and changes nothing otherwise. */
  lemma ApplyAttributeStores(data: Fields, attr: string, p: Pattern, search: Regex, section: string)
    requires ApplyAttribute(data, attr, p, search, section).Success?
    ensures search(p, section).Found? ==> search(p, section).m.group1.Captured?
    ensures ApplyAttribute(data, attr, p, search, section).value
            == if search(p, section).Found?
               then data[attr := Some(Trim(search(p, section).m.group1.text))]
               else data
  {
    match search(p, section)
    case PatternError =>
    case NoMatch =>
    case Found(m) =>
      match m.group1
      case NoGroup =>
      case Unset =>
      case Captured(g) =>
  }

  /** The matched names of a prefix are matched names of the whole list. */
  lemma MatchedNamesGrow(attrs: seq<(string, Pattern)>, n: nat, search: Regex, section: string)
    requires n <= |attrs|
    ensures MatchedNames(attrs[..n], search, section) <= MatchedNames(attrs, search, section)
  {
    forall x | x in MatchedNames(attrs[..n], search, section)
      ensures x in MatchedNames(attrs, search, section)
    {
      var i :| 0 <= i < n && search(attrs[..n][i].1, section).Found? && attrs[..n][i].0 == x;
      assert attrs[i] == attrs[..n][i];
    }
  }

  lemma DistinctFront(attrs: seq<(string, Pattern)>, n: nat)
    requires n <= |attrs| && DistinctNames(attrs)
    ensures DistinctNames(attrs[..n])
  {
    forall i, j | 0 <= i < j < n ensures attrs[..n][i].0 != attrs[..n][j].0 {
      assert attrs[..n][i] == attrs[i] && attrs[..n][j] == attrs[j];
    }
  }

  /** Field `name` of `m` holds the trimmed group 1 of `sr` when `sr` is a match. */
  predicate StoredAt(m: Fields, name: string, sr: SearchResult)
  {
    sr.Found? ==> sr.m.group1.Captured? && name in m && m[name] == Some(Trim(sr.m.group1.text))
  }

  /** Storing under another name keeps a stored field. */
  lemma StoredAtKept(m: Fields, name: string, sr: SearchResult, other: string, v: Option<string>)
    requires StoredAt(m, name, sr) && name != other
    ensures StoredAt(m[other := v], name, sr)
  {
  }

  /** After a successful attribute loop, every attribute whose pattern
      matched holds its trimmed group 1, overwriting any header capture of
      that name. */
  lemma {:induction false} MatchedFieldsStored(data: Fields, attrs: seq<(string, Pattern)>, search: Regex, section: string)
    requires DistinctNames(attrs)
    requires MergeAttributes(data, attrs, search, section).Success?
    ensures forall i :: 0 <= i < |attrs| ==>
              StoredAt(MergeAttributes(data, attrs, search, section).value, attrs[i].0, search(attrs[i].1, section))
    decreases |attrs|
  {
    if attrs != [] {
      var n := |attrs| - 1;
      var front := attrs[..n];
      DistinctFront(attrs, n);
      MergeLast(data, attrs, search, section);
      var d := MergeAttributes(data, front, search, section).value;
      MatchedFieldsStored(data, front, search, section);
      var attr, p := attrs[n].0, attrs[n].1;
      ApplyAttributeStores(d, attr, p, search, section);
      var m := MergeAttributes(data, attrs, search, section).value;
      assert m == ApplyAttribute(d, attr, p, search, section).value;
      forall i | 0 <= i < |attrs| ensures StoredAt(m, attrs[i].0, search(attrs[i].1, section)) {
        if i < n {
          assert front[i] == attrs[i];
          assert StoredAt(d, attrs[i].0, search(attrs[i].1, section));
          if search(p, section).Found? {
            assert attrs[i].0 != attr;
            StoredAtKept(d, attrs[i].0, search(attrs[i].1, section), attr, Some(Trim(search(p, section).m.group1.text)));
          } else {
            assert m == d;
          }
        } else {
          assert StoredAt(m, attr, search(p, section));
        }
      }
    }
  }

  /** After a successful attribute loop, every field that no matching
      attribute names is exactly as the header left it. */
  lemma {:induction false} UnmatchedFieldsKept(data: Fields, attrs: seq<(string, Pattern)>, search: Regex, section: string)
    requires MergeAttributes(data, attrs, search, section).Success?
    ensures var m := MergeAttributes(data, attrs, search, section).value;
            forall k :: k !in MatchedNames(attrs, search, section) ==>
              (k in m <==> k in data) && (k in data ==> m[k] == data[k])
    decreases |attrs|
  {
    if attrs != [] {
      var n := |attrs| - 1;
      MergeLast(data, attrs, search, section);
      var d := MergeAttributes(data, attrs[..n], search, section).value;
      UnmatchedFieldsKept(data, attrs[..n], search, section);
      var attr, p := attrs[n].0, attrs[n].1;
      ApplyAttributeStores(d, attr, p, search, section);
      MatchedNamesGrow(attrs, n, search, section);
      assert search(p, section).Found? ==> attr in MatchedNames(attrs, search, section);
    }
  }

  /** A raise at position `i` of the loop is the raise of the whole loop. */
  lemma {:induction false} MergePrefixFailure(data: Fields, attrs: seq<(string, Pattern)>, i: nat, search: Regex, section: string)
    requires i <= |attrs| && MergeAttributes(data, attrs[..i], search, section).Failure?
    ensures MergeAttributes(data, attrs, search, section) == MergeAttributes(data, attrs[..i], search, section)
    decreases |attrs| - i
  {
    if i < |attrs| {
      assert attrs[..i + 1][..i] == attrs[..i];
      MergePrefixFailure(data, attrs, i + 1, search, section);
    } else {
      assert attrs[..i] == attrs;
    }
  }

  /** `AgentDefinition(**agent_data, raw_section_text=section_text)` inside its
      `try`: a captured group named `raw_section_text` makes the call itself
      fail, and validation failures also give nothing. */
  function Construct(data: Fields, section: string): (r: Option<AgentDefinition>)
    ensures r.Some? <==>
              "raw_section_text" !in data && Lookup(data, "agent_id").Some? && Lookup(data, "agent_name").Some?
    ensures r.Some? ==>
              && r.value.rawSectionText == section
              && Some(r.value.agentId) == Lookup(data, "agent_id")
              && Some(r.value.agentName) == Lookup(data, "agent_name")
  {
    if "raw_section_text" in data then None
    else
      var fields := data["raw_section_text" := Some(section)];
      assert Lookup(fields, "agent_id") == Lookup(data, "agent_id");
      assert Lookup(fields, "agent_name") == Lookup(data, "agent_name");
      Validate(fields)
  }

  /** `extract`, as a function of the patterns, the regular-expression engine
      and the section: a missing or empty header, or a header that does not
      match, gives no record without raising; only a bad pattern, a null
      attribute table or a broken group 1 raise; a record keeps the section
      verbatim. */
  function ExtractSpec(ex: AgentExtractor, search: Regex, section: string)
    : (r: Result<Option<AgentDefinition>, ExtractError>)
    ensures HeaderPattern(ex.patterns).None? ==> r == Success(None)
    ensures (HeaderPattern(ex.patterns).Some? && search(HeaderPattern(ex.patterns).value, section).NoMatch?)
              ==> r == Success(None)
    ensures r.Success? && r.value.Some? ==> r.value.value.rawSectionText == section
  {
    match HeaderPattern(ex.patterns)
    case None => Success(None)
    case Some(h) =>
      match search(h, section)
      case PatternError => Failure(BadPattern(h))
      case NoMatch => Success(None)
      case Found(hm) =>
        match AttributeList(ex.patterns)
        case Failure(e) => Failure(e)
        case Success(attrs) =>
          match MergeAttributes(hm.groups, attrs, search, section)
          case Failure(e) => Failure(e)
          case Success(data) => Success(Construct(data, section))
  }

  /** The attribute loop of `extract`, updating `agent_data` in place. */
  method MergeLoop(groups: Fields, attrs: seq<(string, Pattern)>, search: Regex, section: string)
    returns (r: Result<Fields, ExtractError>)
    ensures r == MergeAttributes(groups, attrs, search, section)
  {
    var agentData := groups;
    var i := 0;
    while i < |attrs|
      invariant 0 <= i <= |attrs|
      invariant MergeAttributes(groups, attrs[..i], search, section) == Success(agentData)
    {
      var attr, pattern := attrs[i].0, attrs[i].1;
      var upTo := attrs[..i + 1];
      assert upTo[..i] == attrs[..i] && upTo[i] == attrs[i];
      MergeLast(groups, upTo, search, section);
      match search(pattern, section) {
        case PatternError =>
          MergePrefixFailure(groups, attrs, i + 1, search, section);
          return Failure(BadPattern(pattern));
        case NoMatch =>
        case Found(m) =>
          match m.group1 {
            case NoGroup =>
              MergePrefixFailure(groups, attrs, i + 1, search, section);
              return Failure(NoGroupOne(attr));
            case Unset =>
              MergePrefixFailure(groups, attrs, i + 1, search, section);
              return Failure(GroupOneUnset(attr));
            case Captured(g) =>
              agentData := agentData[attr := Some(Trim(g))];
          }
      }
      i := i + 1;
    }
    assert attrs[..i] == attrs;
    r := Success(agentData);
  }

  /** `extract`: the header check and search, the attribute loop, then the
      construction. */
  method Extract(ex: AgentExtractor, search: Regex, section: string)
    returns (r: Result<Option<AgentDefinition>, ExtractError>)
    ensures r == ExtractSpec(ex, search, section)
  {
    var header := HeaderPattern(ex.patterns);
    if header.None? {
      return Success(None);
    }
    var headerMatch := search(header.value, section);
    if headerMatch.PatternError? {
      return Failure(BadPattern(header.value));
    }
    if headerMatch.NoMatch? {
      return Success(None);
    }
    var attrs: seq<(string, Pattern)>;
    match ex.patterns.attributes {
      case Absent => attrs := [];
      case Null => return Failure(AttributesNotMapping);
      case Given(a) => attrs := a;
    }
    var merged := MergeLoop(headerMatch.m.groups, attrs, search, section);
    if merged.Failure? {
      return Failure(merged.error);
    }
    r := Success(Construct(merged.value, section));
  }

  /** A section whose header captures only `agent_id` and `agent_name` and
      that no attribute pattern matches gives the record with exactly those
      two fields, the derived class name and the section; the four
      attributes are absent. The header's group 1, whatever it is, plays no
      part: only its `groupdict()` is read. */
  lemma HeaderOnlyRecord(ex: AgentExtractor, search: Regex, section: string, id: string, name: string, g1: GroupOne)
    requires HeaderPattern(ex.patterns).Some?
    requires search(HeaderPattern(ex.patterns).value, section)
             == Found(MatchObject(map["agent_id" := Some(id), "agent_name" := Some(name)], g1))
    requires AttributeList(ex.patterns).Success?
    requires forall i :: 0 <= i < |AttributeList(ex.patterns).value| ==>
               search(AttributeList(ex.patterns).value[i].1, section).NoMatch?
    ensures ExtractSpec(ex, search, section)
            == Success(Some(AgentDefinition(id, name, ClassName(name), None, None, None, None, section)))
  {
    var attrs := AttributeList(ex.patterns).value;
    var groups := map["agent_id" := Some(id), "agent_name" := Some(name)];
    MergeAttributesRaises(groups, attrs, search, section);
    MergeAttributesUnmatched(groups, attrs, search, section);
  }

  /** When no attribute matches, the loop leaves the header captures as they are. */
  lemma {:induction false} MergeAttributesUnmatched(data: Fields, attrs: seq<(string, Pattern)>, search: Regex, section: string)
    requires forall i :: 0 <= i < |attrs| ==> search(attrs[i].1, section).NoMatch?
    ensures MergeAttributes(data, attrs, search, section) == Success(data)
    decreases |attrs|
  {
    if attrs != [] {
      var n := |attrs| - 1;
      assert forall i :: 0 <= i < n ==> attrs[..n][i] == attrs[i];
      MergeAttributesUnmatched(data, attrs[..n], search, section);
    }
  }

  /** A header match without an `agent_id` (or with `None` for it), and no
      attribute supplying one, gives no record rather than raising. */
  lemma MissingIdGivesNothing(ex: AgentExtractor, search: Regex, section: string)
    requires HeaderPattern(ex.patterns).Some?
    requires search(HeaderPattern(ex.patterns).value, section).Found?
    requires AttributeList(ex.patterns).Success?
    requires MergeAttributes(search(HeaderPattern(ex.patterns).value, section).m.groups,
                             AttributeList(ex.patterns).value, search, section).Success?
    requires Lookup(search(HeaderPattern(ex.patterns).value, section).m.groups, "agent_id").None?
    requires "agent_id" !in MatchedNames(AttributeList(ex.patterns).value, search, section)
    ensures ExtractSpec(ex, search, section) == Success(None)
  {
    var groups := search(HeaderPattern(ex.patterns).value, section).m.groups;
    UnmatchedFieldsKept(groups, AttributeList(ex.patterns).value, search, section);
  }

  /** `extract` raises exactly when a header is configured and either its
      pattern does not compile, or it matches and then the attribute table
      is null or some attribute's search raises. Every other section gives
      a record or nothing. */
  lemma ExtractRaises(ex: AgentExtractor, search: Regex, section: string)
    ensures ExtractSpec(ex, search, section).Failure? <==>
              HeaderPattern(ex.patterns).Some? &&
              var hm := search(HeaderPattern(ex.patterns).value, section);
              var attrs := AttributeList(ex.patterns);
              hm.PatternError? ||
              (hm.Found? && (attrs.Failure? ||
                 exists i :: 0 <= i < |attrs.value| && Raises(search(attrs.value[i].1, section))))
  {
    var hp := HeaderPattern(ex.patterns);
    if hp.Some? && search(hp.value, section).Found? && AttributeList(ex.patterns).Success? {
      MergeAttributesRaises(search(hp.value, section).m.groups, AttributeList(ex.patterns).value, search, section);
    }
  }
}
