/** Section discovery: the document text is cut at every literal occurrence
    of the configured delimiter, each piece is stripped, and blank pieces are
    dropped. */
module Discovery {
  import opened Basics
  import opened Strings
  import opened Sequences

  /** The delimiter used when the discovery settings name none. */
  const DefaultDelimiter: string := "---"

  /** The `discovery_settings` mapping of the configuration. */
  datatype DiscoverySettings = DiscoverySettings(sectionDelimiter: Entry<string>)

  /** The configured delimiter; `None` stands for a YAML null, which Python's
      `split` reads as "split on runs of whitespace". */
  datatype SectionFinder = SectionFinder(delimiter: Option<string>)

  /** Raised by `str.split` for an empty separator. */
  datatype FindError = EmptySeparator

  /** `SectionFinder.__init__`: the delimiter defaults to `"---"`. */
  function NewSectionFinder(settings: DiscoverySettings): (f: SectionFinder)
    ensures settings.sectionDelimiter.Absent? ==> f.delimiter == Some(DefaultDelimiter)
    ensures settings.sectionDelimiter.Null? ==> f.delimiter.None?
    ensures settings.sectionDelimiter.Given? ==> f.delimiter == Some(settings.sectionDelimiter.value)
  {
    SectionFinder(GetOr(settings.sectionDelimiter, DefaultDelimiter))
  }

  /** The filter of the list comprehension: a piece survives, stripped, when
      its strip is not empty. */
  function NonBlank(piece: string): Option<string>
  {
    var t := Trim(piece);
    if t == [] then None else Some(t)
  }

  /** The sections of `text` for a non-empty delimiter. */
  function Sections(text: string, d: string): seq<string>
    requires d != []
  {
    FilterMap(Split(text, d), NonBlank)
  }

  /** `find_sections`: the empty delimiter raises; a null delimiter splits on whitespace. */
  function FindSections(finder: SectionFinder, text: string): (r: Result<seq<string>, FindError>)
    ensures r.Failure? <==> finder.delimiter == Some([])
    ensures finder.delimiter.None? ==> r == Success(Words(text))
  {
    match finder.delimiter
    case None =>
      WordsSurviveStrip(text);
      Success(FilterMap(Words(text), NonBlank))
    case Some(d) =>
      if d == [] then Failure(EmptySeparator) else Success(Sections(text, d))
  }

  /** Whitespace-split words are already stripped and non-empty, so the
      comprehension keeps them all. */
  lemma WordsSurviveStrip(text: string)
    ensures FilterMap(Words(text), NonBlank) == Words(text)
  {
    var ws := Words(text);
    forall i | 0 <= i < |ws| ensures NonBlank(ws[i]) == Some(ws[i]) {
      TrimOfTrimmed(ws[i]);
    }
    FilterMapKeepsAll(ws, NonBlank);
  }

  lemma NonBlankMeans(piece: string, t: string)
    requires NonBlank(piece) == Some(t)
    ensures t == Trim(piece) && t != [] && Trim(t) == t
  {
    TrimIdempotent(piece);
  }

  /** Every section is non-empty, is its own strip, and holds no delimiter. */
  lemma SectionsAreClean(text: string, d: string)
    requires d != []
    ensures forall k :: 0 <= k < |Sections(text, d)| ==>
              Sections(text, d)[k] != [] && Trim(Sections(text, d)[k]) == Sections(text, d)[k]
              && !Contains(Sections(text, d)[k], d)
  {
    var pieces := Split(text, d);
    var r := Sections(text, d);
    FilterMapOrigins(pieces, NonBlank);
    SplitPiecesFree(text, d);
    var o := Origins(pieces, NonBlank);
    forall k | 0 <= k < |r| ensures r[k] != [] && Trim(r[k]) == r[k] && !Contains(r[k], d) {
      NonBlankMeans(pieces[o[k]], r[k]);
      TrimKeepsFree(pieces[o[k]], d);
    }
  }

  /** The sections are exactly the non-blank pieces of the text, stripped,
      in the order the pieces occur: the k-th section comes from piece
      `Origins[k]`, the origins increase, and no non-blank piece is skipped.
      The pieces themselves join back into the text. */
  lemma SectionsInOrder(text: string, d: string)
    requires d != []
    ensures Join(Split(text, d), d) == text
    ensures |Origins(Split(text, d), NonBlank)| == |Sections(text, d)|
    ensures forall k :: 0 <= k < |Sections(text, d)| ==>
              Origins(Split(text, d), NonBlank)[k] < |Split(text, d)| &&
              Sections(text, d)[k] == Trim(Split(text, d)[Origins(Split(text, d), NonBlank)[k]])
    ensures forall k, l :: 0 <= k < l < |Sections(text, d)| ==>
              Origins(Split(text, d), NonBlank)[k] < Origins(Split(text, d), NonBlank)[l]
    ensures forall i :: 0 <= i < |Split(text, d)| && !Blank(Split(text, d)[i]) ==>
              i in Origins(Split(text, d), NonBlank)
  {
    SplitJoin(text, d);
    var pieces := Split(text, d);
    FilterMapOrigins(pieces, NonBlank);
  }

  /** There are at most as many sections as delimiter occurrences plus one. */
  lemma SectionsBound(text: string, d: string)
    requires d != []
    ensures |Sections(text, d)| <= Count(text, d) + 1
  {
    SplitCount(text, d);
  }

  /** Without the delimiter, the text is one section (stripped), or none when blank. */
  lemma SectionsWithoutDelimiter(text: string, d: string)
    requires d != [] && !Contains(text, d)
    ensures Sections(text, d) == if Blank(text) then [] else [Trim(text)]
  {
    SplitWithoutSeparator(text, d);
    assert [text][..0] == [];
  }

  /** Discovering sections in one section gives back exactly that section. */
  lemma SectionsRerun(text: string, d: string, k: nat)
    requires d != [] && k < |Sections(text, d)|
    ensures Sections(Sections(text, d)[k], d) == [Sections(text, d)[k]]
  {
    var s := Sections(text, d)[k];
    SectionsAreClean(text, d);
    SectionsWithoutDelimiter(s, d);
  }
}
