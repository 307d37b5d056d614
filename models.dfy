/** The validated agent record and the derivation of its class name. */
module Models {
  import opened Basics
  import opened Strings

  /** The class name given to an agent whose name is empty. */
  const UnnamedAgent: string := "UnnamedAgent"

  /** One validated agent. The four attributes are optional; `className` is
      always derived from `agentName`. */
  datatype AgentDefinition = AgentDefinition(
    agentId: string,
    agentName: string,
    className: string,
    primaryFunction: Option<string>,
    agentType: Option<string>,
    priority: Option<string>,
    resourceRequirements: Option<string>,
    rawSectionText: string)

  /** The keyword arguments handed to the record constructor: field name to
      value, where `None` is Python's `None`. */
  type Fields = map<string, Option<string>>

  /** `fields.get(key)`. */
  function Lookup(fields: Fields, key: string): Option<string>
  {
    if key in fields then fields[key] else None
  }

  /** Each word capitalized, in order. */
  function CapitalizeAll(ws: seq<string>): (r: seq<string>)
    ensures |r| == |ws| && forall i :: 0 <= i < |ws| ==> r[i] == Capitalize(ws[i])
  {
    if ws == [] then [] else [Capitalize(ws[0])] + CapitalizeAll(ws[1..])
  }

  /** The `generate_class_name` validator: an empty name gives the sentinel;
      otherwise each whitespace-separated word is capitalized and the words
      are concatenated. */
  function ClassName(agentName: string): string
  {
    if agentName == [] then UnnamedAgent else Concat(CapitalizeAll(Words(agentName)))
  }

  /** A non-empty name gives a class name without whitespace whose
      characters are, up to ASCII case, the non-whitespace characters of the
      name, in order; an empty name gives the sentinel. */
  lemma ClassNameLetters(agentName: string)
    ensures agentName == [] ==> ClassName(agentName) == UnnamedAgent
    ensures NoSpace(ClassName(agentName))
    ensures agentName != [] ==>
              |ClassName(agentName)| == |RemoveSpace(agentName)| &&
              Lower(ClassName(agentName)) == Lower(RemoveSpace(agentName))
  {
    if agentName != [] {
      var ws := Words(agentName);
      var cs := CapitalizeAll(ws);
      forall i | 0 <= i < |ws|
        ensures Lower(cs[i]) == Lower(ws[i]) && (NoSpace(ws[i]) ==> NoSpace(cs[i]))
      {
        CapitalizeSpec(ws[i]);
      }
      ConcatNoSpace(cs);
      ConcatLower(cs, ws);
      WordsConcat(agentName);
    } else {
      assert NoSpace(UnnamedAgent);
    }
  }

  /** A name made only of whitespace is not empty, so it does not get the
      sentinel: its class name is the empty string. */
  lemma BlankNameGivesEmptyClassName(agentName: string)
    requires agentName != [] && Blank(agentName)
    ensures ClassName(agentName) == []
  {
    WordsOfBlank(agentName);
  }

  /** Three words separated by single spaces split back into those words. */
  lemma WordsOfThree(a: string, b: string, c: string)
    requires a != [] && b != [] && c != [] && NoSpace(a) && NoSpace(b) && NoSpace(c)
    ensures Words(a + " " + b + " " + c) == [a, b, c]
  {
    assert Blank(" ");
    assert a + " " + b + " " + c == a + " " + (b + " " + c);
    WordsAfterWord(a, " ", b + " " + c);
    WordsAfterWord(b, " ", c);
    WordsOfNoSpace(c);
  }

  lemma {:induction false} CapitalizeAllFixed(ws: seq<string>)
    requires forall i :: 0 <= i < |ws| ==> Capitalize(ws[i]) == ws[i]
    ensures CapitalizeAll(ws) == ws
  {
    if ws != [] {
      CapitalizeAllFixed(ws[1..]);
    }
  }

  lemma ConcatThree(a: string, b: string, c: string)
    ensures Concat([a, b, c]) == a + b + c
  {
    var ws := [a, b, c];
    assert ws[1..] == [b, c] && ws[1..][1..] == [c] && ws[1..][1..][1..] == [];
    assert Concat([c]) == c + [] == c;
    assert Concat([b, c]) == b + c;
    assert a + (b + c) == a + b + c;
  }

  lemma WordsOfDocumentAnalysisAgent(name: string)
    requires name == "Document Analysis Agent"
    ensures Words(name) == ["Document", "Analysis", "Agent"]
  {
    var a, b, c := "Document", "Analysis", "Agent";
    assert NoSpace(a) && NoSpace(b) && NoSpace(c);
    assert name == a + " " + b + " " + c;
    WordsOfThree(a, b, c);
  }

  lemma CapitalizedWordsFixed(ws: seq<string>)
    requires ws == ["Document", "Analysis", "Agent"]
    ensures CapitalizeAll(ws) == ws
  {
    CapitalizeFixed(ws[0]);
    CapitalizeFixed(ws[1]);
    CapitalizeFixed(ws[2]);
    CapitalizeAllFixed(ws);
  }

  lemma CapitalizedDocumentAnalysisAgent(ws: seq<string>)
    requires ws == ["Document", "Analysis", "Agent"]
    ensures Concat(CapitalizeAll(ws)) == "DocumentAnalysisAgent"
  {
    CapitalizedWordsFixed(ws);
    var a, b, c := "Document", "Analysis", "Agent";
    assert ws == [a, b, c];
    ConcatThree(a, b, c);
    assert a + b + c == "DocumentAnalysisAgent";
  }

  /** `"Document Analysis Agent"` becomes `"DocumentAnalysisAgent"`. */
  lemma ClassNameOfDocumentAnalysisAgent(name: string)
    requires name == "Document Analysis Agent"
    ensures ClassName(name) == "DocumentAnalysisAgent"
  {
    WordsOfDocumentAnalysisAgent(name);
    CapitalizedDocumentAnalysisAgent(Words(name));
  }

  /** A one-word lower-case name is capitalized; the empty name gives the sentinel. */
  lemma ClassNameOfAlpha()
    ensures ClassName("alpha") == "Alpha"
    ensures ClassName("") == UnnamedAgent
  {
    WordsOfNoSpace("alpha");
    LowerFixed("lpha");
    assert Capitalize("alpha") == "A" + "lpha" == "Alpha";
    var ws: seq<string> := ["alpha"];
    assert ws[1..] == [];
    assert CapitalizeAll(ws) == ["Alpha"];
  }

  /** Record construction with the checks pydantic performs on these string
      fields: `agent_id`, `agent_name` and `raw_section_text` must be given
      and not `None`; the optional attributes default to absent; any other
      key, `class_name` included, is ignored, since the validator always
      derives the class name. */
  function Validate(fields: Fields): (r: Option<AgentDefinition>)
    ensures r.Some? <==>
              Lookup(fields, "agent_id").Some? && Lookup(fields, "agent_name").Some?
              && Lookup(fields, "raw_section_text").Some?
    ensures r.Some? ==>
              && Some(r.value.agentId) == Lookup(fields, "agent_id")
              && Some(r.value.agentName) == Lookup(fields, "agent_name")
              && Some(r.value.rawSectionText) == Lookup(fields, "raw_section_text")
              && r.value.className == ClassName(r.value.agentName)
              && r.value.primaryFunction == Lookup(fields, "primary_function")
              && r.value.agentType == Lookup(fields, "type")
              && r.value.priority == Lookup(fields, "priority")
              && r.value.resourceRequirements == Lookup(fields, "resource_requirements")
  {
    match (Lookup(fields, "agent_id"), Lookup(fields, "agent_name"), Lookup(fields, "raw_section_text"))
    case (Some(id), Some(name), Some(raw)) =>
      Some(AgentDefinition(id, name, ClassName(name),
        Lookup(fields, "primary_function"), Lookup(fields, "type"),
        Lookup(fields, "priority"), Lookup(fields, "resource_requirements"), raw))
    case _ => None
  }

  /** Whatever value is supplied for `class_name`, the record is the same. */
  lemma ClassNameIgnoresSupplied(fields: Fields, supplied: Option<string>)
    ensures Validate(fields["class_name" := supplied]) == Validate(fields)
  {
    var g := fields["class_name" := supplied];
    assert forall k :: k != "class_name" ==> Lookup(g, k) == Lookup(fields, k);
    assert "agent_id" != "class_name" && "agent_name" != "class_name" && "raw_section_text" != "class_name";
    assert "primary_function" != "class_name" && "type" != "class_name";
    assert "priority" != "class_name" && "resource_requirements" != "class_name";
  }

  /** An empty name is accepted: the record exists, with the sentinel class name. */
  lemma EmptyNameIsValid(id: string, raw: string)
    ensures Validate(map["agent_id" := Some(id), "agent_name" := Some([]), "raw_section_text" := Some(raw)])
            == Some(AgentDefinition(id, [], UnnamedAgent, None, None, None, None, raw))
  {
  }
}
