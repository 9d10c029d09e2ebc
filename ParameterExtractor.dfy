/**
 * `TechnicalParameterExtractor`: scans a document against an ordered table of
 * patterns, one group per parameter type, turns every match into an
 * `ExtractedParameter` (value, lower-bound number, unit, context-based
 * confidence), deduplicates, and picks the PSU and LED voltage and current.
 * The table is the extractor's only state and is never changed after
 * construction, so the extractor's methods are module-level methods that
 * take it as a parameter; `ExtractionPatterns` is the table the constructor
 * builds.
 */
module ParameterExtractor {
  import opened Wrappers
  import opened Text
  import opened Numbers
  import opened Matching
  import opened Roles
  import opened Parameters
  import opened Deduplication

  /** One entry of a type's list: its patterns, its unit patterns and its confidence boost. */
  datatype PatternGroup = PatternGroup(patterns: seq<Regex>, unitPatterns: seq<Regex>, confidenceBoost: real)

  datatype TypeEntry = TypeEntry(parameterType: ParameterType, groups: seq<PatternGroup>)

  /** `_initialize_patterns`, in the dictionary's insertion order. */
  const ExtractionPatterns: seq<TypeEntry> := [
    TypeEntry(Voltage, [PatternGroup(
      [ @"(?:Output|Input|Supply|Operating|Required)\s+Voltage:\s*([0-9]+(?:\.[0-9]+)?\s*V(?:\s*(?:DC|AC))?)",
        @"Voltage\s+(?:Output|Input|Supply|Rating):\s*([0-9]+(?:\.[0-9]+)?\s*V(?:\s*(?:DC|AC))?)",
        @"([0-9]+(?:\.[0-9]+)?\s*V\s*(?:DC|AC))\s+(?:output|input|supply)",
        @"V(?:out|in|supply|dd|cc):\s*([0-9]+(?:\.[0-9]+)?\s*V)" ],
      [ @"(V(?:olts?)?(?:\s*(?:DC|AC))?)", @"(V)" ],
      0.1)]),
    TypeEntry(Current, [PatternGroup(
      [ @"(?:Max|Maximum|Output|Input|Draw|Consumption)\s+Current:\s*([0-9]+(?:\.[0-9]+)?\s*(?:A|Amps?|mA))",
        @"Current\s+(?:Draw|Rating|Consumption|Output|Input):\s*([0-9]+(?:\.[0-9]+)?\s*(?:A|Amps?|mA))",
        @"([0-9]+(?:\.[0-9]+)?\s*(?:A|Amps?|mA))\s+(?:current|draw|consumption)",
        @"I(?:out|in|max):\s*([0-9]+(?:\.[0-9]+)?\s*(?:A|Amps?|mA))" ],
      [ @"(A|Amps?|mA|Amperes?)", @"(A)" ],
      0.1)]),
    TypeEntry(Power, [PatternGroup(
      [ @"(?:Max|Maximum|Output|Input|Rated)\s+Power:\s*([0-9]+(?:\.[0-9]+)?\s*(?:W|Watts?))",
        @"Power\s+(?:Rating|Consumption|Output|Input):\s*([0-9]+(?:\.[0-9]+)?\s*(?:W|Watts?))",
        @"([0-9]+(?:\.[0-9]+)?\s*(?:W|Watts?))\s+(?:power|consumption)" ],
      [ @"(W|Watts?)", @"(W)" ],
      0.05)]),
    TypeEntry(Temperature, [PatternGroup(
      [ @"Operating\s+Temperature:\s*([0-9-]+°?C?\s*to\s*[0-9]+°?C?)",
        @"Temperature\s+Range:\s*([0-9-]+°?C?\s*to\s*[0-9]+°?C?)",
        @"Temp\.?\s*Range:\s*([0-9-]+°?C?\s*to\s*[0-9]+°?C?)" ],
      [ @"(°C|Celsius)", @"(°C)" ],
      0.05)]),
    TypeEntry(Frequency, [PatternGroup(
      [ @"Frequency:\s*([0-9]+(?:\.[0-9]+)?\s*(?:Hz|KHz|MHz|GHz))",
        @"([0-9]+(?:\.[0-9]+)?\s*(?:Hz|KHz|MHz|GHz))\s+frequency" ],
      [ @"(Hz|KHz|MHz|GHz)", @"(Hz)" ],
      0.05)])
  ]

  // ---------------------------------------------------------------- value, unit, confidence

  /**
   * `_extract_numerical_value`: `None` for a text without a digit (the empty
   * text included); otherwise the lower bound of the leftmost range `N to M`
   * / `N-M` if there is one anywhere, else the leftmost unsigned decimal.
   * No pattern admits a sign, so the result is never negative.
   */
  function ExtractNumericalValue(text: string): (r: Option<real>)
    ensures r.None? <==> forall k :: 0 <= k < |text| ==> !IsDigit(text[k])
    ensures r.Some? ==> r.value >= 0.0
    ensures FirstRange(text).Some? ==> r == FirstRange(text)
    ensures FirstRange(text).None? ==> r == FirstNumber(text)
  {
    if text == [] then None
    else
      var range := FirstRange(text);
      if range.Some? then range else FirstNumber(text)
  }

  /** A plain value: the unit after the number is ignored. */
  lemma NumericalValueOfPlainVoltage()
    ensures ExtractNumericalValue("12V DC") == Some(12.0)
  {
    PlainVoltageNumber();
    PlainVoltageNoRange();
  }

  /** A range anywhere wins over an earlier plain number: the range's lower bound is taken. */
  lemma NumericalValueRangeWins()
    ensures FirstNumber("3V 5-12") == Some(3.0)
    ensures ExtractNumericalValue("3V 5-12") == Some(5.0)
  {
    RangeAfterNumberNumber();
    RangeAfterNumberRange();
  }

  /**
   * The leading '-' of a temperature range is not part of any number, and the
   * unit after the lower bound keeps the range pattern from matching, so the
   * value of "-20°C to 85°C" is 20, not -20.
   */
  lemma NumericalValueOfTemperatureRange()
    ensures ExtractNumericalValue("-20\U{B0}C to 85\U{B0}C") == Some(20.0)
  {
    TemperatureRangeNumber();
    TemperatureRangeNoRange();
  }

  /**
   * `_extract_unit`: group 1 of the first match of the first unit pattern,
   * in list order, that matches anywhere; "" when none matches.
   */
  function ExtractUnit(engine: Engine, text: string, unitPatterns: seq<Regex>): (r: string)
    ensures (forall j :: 0 <= j < |unitPatterns| ==> NoMatch(engine, unitPatterns[j], text)) ==> r == ""
    ensures forall i: nat :: IsFirstMatchingPattern(engine, unitPatterns, text, i) ==>
      r == engine(unitPatterns[i], text)[0].group1
  {
    match FirstSearch(engine, unitPatterns, text)
    case Some(m) => m.group1
    case None => ""
  }

  const StructureKeywords: seq<string> := ["datasheet", "specification", "spec", "technical"]

  /** `re.search(r'(?:datasheet|specification|spec|technical)', context, re.IGNORECASE)` */
  predicate HasStructureKeyword(context: string) {
    ContainsAny(Lower(context), StructureKeywords)
  }

  /** Position `k` starts a list marker of `(?:\d+\.|\*|\-|\|)`: `*`, `-`, `|`, or a digit followed by '.'. */
  predicate IsListMarkerAt(context: string, k: int) {
    0 <= k < |context|
    && (context[k] == '*' || context[k] == '-' || context[k] == '|'
        || (k + 1 < |context| && IsDigit(context[k]) && context[k + 1] == '.'))
  }

  predicate HasListMarker(context: string) {
    exists k :: 0 <= k < |context| && IsListMarkerAt(context, k)
  }

  /**
   * The context of a match: up to 100 characters on each side of it,
   * `full_text[max(0, start - 100):min(len, end + 100)]`, with Python's
   * slicing (an empty slice when the bounds cross).
   */
  function ContextWindow(m: Match, fullText: string): (w: string)
    ensures |w| <= |fullText|
  {
    var contextStart := if m.start >= 100 then m.start - 100 else 0;
    var contextEnd := if m.end + 100 <= |fullText| then m.end + 100 else |fullText|;
    if contextStart <= contextEnd then fullText[contextStart..contextEnd] else ""
  }

  /**
   * For a match the engine can produce, the window holds the matched text,
   * 100 characters (or as many as there are) after the window's start, and
   * is itself a slice of the document starting 100 characters (or fewer)
   * before the match and ending 100 characters (or fewer, at the document's
   * end) after it.
   */
  lemma ContextWindowAroundMatch(m: Match, fullText: string)
    requires ValidMatch(fullText, m)
    ensures |ContextWindow(m, fullText)| <= m.end - m.start + 200
    ensures |ContextWindow(m, fullText)| ==
      (if m.start >= 100 then 100 else m.start) + (m.end - m.start) + (if m.end + 100 <= |fullText| then 100 else |fullText| - m.end)
    ensures OccursAt(ContextWindow(m, fullText), fullText[m.start..m.end], if m.start >= 100 then 100 else m.start)
    ensures OccursAt(fullText, ContextWindow(m, fullText), if m.start >= 100 then m.start - 100 else 0)
  {
    var contextStart := if m.start >= 100 then m.start - 100 else 0;
    var contextEnd := if m.end + 100 <= |fullText| then m.end + 100 else |fullText|;
    SliceOfSlice(fullText, contextStart, contextEnd, m.start - contextStart, m.end - contextStart);
  }

  /**
   * `_calculate_confidence`: 0.6, plus 0.15 when the context window names a
   * datasheet/specification, plus 0.1 when it holds a list marker, plus the
   * group's boost, capped at 1.0. The cap only ever lowers the sum, and a
   * score below 1.0 is the sum itself, so the score is 1.0 exactly when the
   * sum reaches 1.0.
   */
  function CalculateConfidence(m: Match, fullText: string, boost: real): (c: real)
    ensures Min(1.0, 0.6 + boost) <= c <= 1.0
    ensures c <= 0.6 + boost
           + (if HasStructureKeyword(ContextWindow(m, fullText)) then 0.15 else 0.0)
           + (if HasListMarker(ContextWindow(m, fullText)) then 0.1 else 0.0)
    ensures c < 1.0 ==>
      c == 0.6 + boost
           + (if HasStructureKeyword(ContextWindow(m, fullText)) then 0.15 else 0.0)
           + (if HasListMarker(ContextWindow(m, fullText)) then 0.1 else 0.0)
  {
    var context := ContextWindow(m, fullText);
    var base := 0.6
      + (if HasStructureKeyword(context) then 0.15 else 0.0)
      + (if HasListMarker(context) then 0.1 else 0.0)
      + boost;
    Min(1.0, base)
  }

  // ---------------------------------------------------------------- building parameters

  /** `f"{param_type.value}_{k}"` */
  function ParameterName(t: ParameterType, k: nat): string {
    TypeValue(t) + "_" + NatToString(k)
  }

  /** Names of one type with different counters differ. */
  lemma ParameterNamesDistinct(t: ParameterType, j: nat, k: nat)
    requires j != k
    ensures ParameterName(t, j) != ParameterName(t, k)
  {
    var prefix := TypeValue(t) + "_";
    if ParameterName(t, j) == ParameterName(t, k) {
      assert NatToString(j) == ParameterName(t, j)[|prefix|..];
      assert NatToString(k) == ParameterName(t, k)[|prefix|..];
      NatToStringInjective(j, k);
    }
  }

  /**
   * The parameter built from the `index`-th match of a group: named
   * "<type>_<index>", typed `t`, quoting the whole match, valued by group 1
   * with the whitespace around it removed, numbered iff that value holds a
   * digit, and scored between the group's floor and 1.0.
   */
  function BuildParameter(engine: Engine, text: string, t: ParameterType, group: PatternGroup, index: nat, m: Match): (p: ExtractedParameter)
    ensures p.name == ParameterName(t, index) && p.parameterType == t && p.sourceText == m.group0
    ensures exists a :: 0 <= a <= |m.group1| - |p.value| && StrippedAt(m.group1, p.value, a)
    ensures p.value == [] || (!IsSpace(p.value[0]) && !IsSpace(p.value[|p.value| - 1]))
    ensures p.numericalValue.None? <==> forall k :: 0 <= k < |p.value| ==> !IsDigit(p.value[k])
    ensures p.numericalValue.Some? ==> p.numericalValue.value >= 0.0
    ensures Min(1.0, 0.6 + group.confidenceBoost) <= p.confidence <= 1.0
    ensures p.numericalValue == ExtractNumericalValue(p.value)
    ensures p.unit == ExtractUnit(engine, p.value, group.unitPatterns)
    ensures p.confidence == CalculateConfidence(m, text, group.confidenceBoost)
  {
    var value := Strip(m.group1);
    var numericalValue := ExtractNumericalValue(value);
    var confidence := CalculateConfidence(m, text, group.confidenceBoost);
    ExtractedParameter(
      name := ParameterName(t, index),
      value := value,
      numericalValue := numericalValue,
      unit := ExtractUnit(engine, value, group.unitPatterns),
      confidence := confidence,
      sourceText := m.group0,
      parameterType := t)
  }

  /** `BuildParameter` for a fixed document, type and group, as a function of the counter and the match. */
  function Builder(engine: Engine, text: string, t: ParameterType, group: PatternGroup): (nat, Match) -> ExtractedParameter {
    (index: nat, m: Match) => BuildParameter(engine, text, t, group, index, m)
  }

  /** `[f(0, xs[0]), f(1, xs[1]), ...]`. */
  function MapIndexed<A, B>(f: (nat, A) -> B, xs: seq<A>): (ys: seq<B>)
    ensures |ys| == |xs|
  {
    seq(|xs|, j requires 0 <= j < |xs| => f(j, xs[j]))
  }

  lemma MapIndexedAppend<A, B>(f: (nat, A) -> B, xs: seq<A>, x: A)
    ensures MapIndexed(f, xs + [x]) == MapIndexed(f, xs) + [f(|xs|, x)]
  {
    assert forall j :: 0 <= j < |xs| ==> (xs + [x])[j] == xs[j];
  }

  /** All matches of a group's patterns: pattern order first, then position in the text. */
  function PatternMatches(engine: Engine, patterns: seq<Regex>, text: string): (ms: seq<Match>)
    ensures WellFormedEngine(engine) ==> AllValid(text, ms)
  {
    if patterns == [] then []
    else PatternMatches(engine, patterns[..|patterns| - 1], text) + engine(patterns[|patterns| - 1], text)
  }

  /** One parameter per match, in order, the `k`-th built with counter `k`. */
  function BuildAll(engine: Engine, text: string, t: ParameterType, group: PatternGroup, ms: seq<Match>): seq<ExtractedParameter> {
    MapIndexed(Builder(engine, text, t, group), ms)
  }

  /** What `_extract_parameter_type` returns for a group: one parameter per match, in match order. */
  function GroupParameters(engine: Engine, text: string, t: ParameterType, group: PatternGroup): seq<ExtractedParameter> {
    BuildAll(engine, text, t, group, PatternMatches(engine, group.patterns, text))
  }

  /**
   * The parameters of a group: the `k`-th is named "<type>_<k>", is typed
   * `t`, carries the `k`-th match (pattern order, then text order) as its
   * source text and its stripped group 1 as its value, and has a confidence
   * within the group's bounds.
   */
  lemma GroupParametersShape(engine: Engine, text: string, t: ParameterType, group: PatternGroup)
    ensures |GroupParameters(engine, text, t, group)| == |PatternMatches(engine, group.patterns, text)|
    ensures forall j :: 0 <= j < |GroupParameters(engine, text, t, group)| ==>
      var p := GroupParameters(engine, text, t, group)[j];
      var m := PatternMatches(engine, group.patterns, text)[j];
      && p.parameterType == t
      && p.name == ParameterName(t, j)
      && p.sourceText == m.group0
      && p.value == Strip(m.group1)
      && Min(1.0, 0.6 + group.confidenceBoost) <= p.confidence <= 1.0
      && p.numericalValue == ExtractNumericalValue(p.value)
      && p.unit == ExtractUnit(engine, p.value, group.unitPatterns)
      && p.confidence == CalculateConfidence(m, text, group.confidenceBoost)
  {
  }

  /** A match inside `text` quotes `text` where it starts. */
  lemma ValidMatchOccurs(text: string, m: Match)
    requires ValidMatch(text, m)
    ensures OccursAt(text, m.group0, m.start)
  {
  }

  /** The `j`-th parameter built from `ms` quotes the `j`-th match. */
  lemma BuildAllSourceText(engine: Engine, text: string, t: ParameterType, group: PatternGroup, ms: seq<Match>, j: nat)
    requires j < |ms|
    ensures BuildAll(engine, text, t, group, ms)[j].sourceText == ms[j].group0
  {
    assert BuildAll(engine, text, t, group, ms)[j] == BuildParameter(engine, text, t, group, j, ms[j]);
  }

  /**
   * With an engine whose matches lie inside the document, the quoted text of
   * every parameter of a group is the document's text at its match.
   */
  lemma GroupParametersQuoteDocument(engine: Engine, text: string, t: ParameterType, group: PatternGroup)
    requires WellFormedEngine(engine)
    ensures forall j :: 0 <= j < |GroupParameters(engine, text, t, group)| ==>
      OccursAt(text, GroupParameters(engine, text, t, group)[j].sourceText, PatternMatches(engine, group.patterns, text)[j].start)
  {
    var ms := PatternMatches(engine, group.patterns, text);
    forall j | 0 <= j < |ms|
      ensures OccursAt(text, BuildAll(engine, text, t, group, ms)[j].sourceText, ms[j].start)
    {
      assert ValidMatch(text, ms[j]);
      ValidMatchOccurs(text, ms[j]);
      BuildAllSourceText(engine, text, t, group, ms, j);
    }
  }

  /** The candidates of one type: its groups in order. */
  function TypeParameters(engine: Engine, text: string, t: ParameterType, groups: seq<PatternGroup>): seq<ExtractedParameter> {
    if groups == [] then []
    else TypeParameters(engine, text, t, groups[..|groups| - 1]) + GroupParameters(engine, text, t, groups[|groups| - 1])
  }

  /** Every candidate before deduplication: the table's types in order. */
  function Candidates(engine: Engine, text: string, table: seq<TypeEntry>): seq<ExtractedParameter> {
    if table == [] then []
    else
      var last := table[|table| - 1];
      Candidates(engine, text, table[..|table| - 1]) + TypeParameters(engine, text, last.parameterType, last.groups)
  }

  // ---------------------------------------------------------------- the extraction loops

  /** One more match of the current pattern extends the built list by one parameter, numbered by the list's length. */
  lemma BuildNextMatch(engine: Engine, text: string, t: ParameterType, group: PatternGroup,
                       before: seq<Match>, matches: seq<Match>, i: nat, built: seq<ExtractedParameter>)
    requires i < |matches|
    requires built == BuildAll(engine, text, t, group, before + matches[..i])
    ensures built + [BuildParameter(engine, text, t, group, |built|, matches[i])] == BuildAll(engine, text, t, group, before + matches[..i + 1])
  {
    assert matches[..i + 1] == matches[..i] + [matches[i]];
    assert before + matches[..i + 1] == (before + matches[..i]) + [matches[i]];
    MapIndexedAppend(Builder(engine, text, t, group), before + matches[..i], matches[i]);
  }

  /** The matches of the first `p + 1` patterns are those of the first `p`, then pattern `p`'s. */
  lemma PatternMatchesNext(engine: Engine, patterns: seq<Regex>, text: string, p: nat)
    requires p < |patterns|
    ensures PatternMatches(engine, patterns[..p + 1], text) == PatternMatches(engine, patterns[..p], text) + engine(patterns[p], text)
  {
    assert patterns[..p + 1][..p] == patterns[..p];
  }

  /** `_extract_parameter_type`: for every pattern, for every match, append the parameter built from it. */
  method ExtractParameterType(engine: Engine, text: string, t: ParameterType, group: PatternGroup)
    returns (parameters: seq<ExtractedParameter>)
    ensures parameters == GroupParameters(engine, text, t, group)
  {
    parameters := [];
    for p := 0 to |group.patterns|
      invariant parameters == BuildAll(engine, text, t, group, PatternMatches(engine, group.patterns[..p], text))
    {
      ghost var before := PatternMatches(engine, group.patterns[..p], text);
      var matches := engine(group.patterns[p], text);
      assert before + matches[..0] == before;
      for i := 0 to |matches|
        invariant parameters == BuildAll(engine, text, t, group, before + matches[..i])
      {
        var m := matches[i];
        BuildNextMatch(engine, text, t, group, before, matches, i, parameters);
        parameters := parameters + [BuildParameter(engine, text, t, group, |parameters|, m)];
      }
      assert matches[..|matches|] == matches;
      PatternMatchesNext(engine, group.patterns, text, p);
    }
    assert group.patterns[..|group.patterns|] == group.patterns;
  }

  /** Appending the next group's parameters extends the candidates of the current type by that group. */
  lemma TypeParametersNext(engine: Engine, text: string, t: ParameterType, groups: seq<PatternGroup>, g: nat,
                           before: seq<ExtractedParameter>, acc: seq<ExtractedParameter>)
    requires g < |groups|
    requires acc == before + TypeParameters(engine, text, t, groups[..g])
    ensures acc + GroupParameters(engine, text, t, groups[g]) == before + TypeParameters(engine, text, t, groups[..g + 1])
  {
    TypeParametersOfPrefix(engine, text, t, groups, g);
    AppendAssociative(before, TypeParameters(engine, text, t, groups[..g]), GroupParameters(engine, text, t, groups[g]));
  }

  /** Sequence concatenation is associative. */
  lemma AppendAssociative<T>(a: seq<T>, b: seq<T>, c: seq<T>)
    ensures (a + b) + c == a + (b + c)
  {
  }

  /** The candidates of the first `g + 1` groups are those of the first `g`, then group `g`'s. */
  lemma TypeParametersOfPrefix(engine: Engine, text: string, t: ParameterType, groups: seq<PatternGroup>, g: nat)
    requires g < |groups|
    ensures TypeParameters(engine, text, t, groups[..g + 1])
         == TypeParameters(engine, text, t, groups[..g]) + GroupParameters(engine, text, t, groups[g])
  {
    var prefix := groups[..g + 1];
    assert prefix[..|prefix| - 1] == groups[..g];
  }

  /** After all groups of entry `e`, the list holds the candidates of the first `e + 1` entries. */
  lemma CandidatesNext(engine: Engine, text: string, table: seq<TypeEntry>, e: nat,
                       before: seq<ExtractedParameter>, acc: seq<ExtractedParameter>)
    requires e < |table|
    requires before == Candidates(engine, text, table[..e])
    requires acc == before + TypeParameters(engine, text, table[e].parameterType, table[e].groups[..|table[e].groups|])
    ensures acc == Candidates(engine, text, table[..e + 1])
  {
    assert table[..e + 1][..e] == table[..e];
    assert table[e].groups[..|table[e].groups|] == table[e].groups;
  }

  /**
   * `extract_all_parameters` over the extractor's pattern table (the
   * `extraction_patterns` field, `ExtractionPatterns` for the real extractor):
   * every group of every type, in table order, then deduplication.
   */
  method ExtractAllParameters(engine: Engine, extractionPatterns: seq<TypeEntry>, documentText: string)
    returns (parameters: seq<ExtractedParameter>)
    ensures parameters == Dedup(Candidates(engine, documentText, extractionPatterns))
  {
    var allParameters := [];
    for e := 0 to |extractionPatterns|
      invariant allParameters == Candidates(engine, documentText, extractionPatterns[..e])
    {
      var entry := extractionPatterns[e];
      ghost var before := allParameters;
      assert entry.groups[..0] == [];
      for g := 0 to |entry.groups|
        invariant allParameters == before + TypeParameters(engine, documentText, entry.parameterType, entry.groups[..g])
      {
        var found := ExtractParameterType(engine, documentText, entry.parameterType, entry.groups[g]);
        TypeParametersNext(engine, documentText, entry.parameterType, entry.groups, g, before, allParameters);
        allParameters := allParameters + found;
      }
      CandidatesNext(engine, documentText, extractionPatterns, e, before, allParameters);
    }
    assert extractionPatterns[..|extractionPatterns|] == extractionPatterns;
    parameters := DeduplicateParameters(allParameters);
  }

  // ---------------------------------------------------------------- confidence floor

  /** Every group of every entry of type `t` has a boost of at least `b`. */
  predicate BoostsAtLeast(table: seq<TypeEntry>, t: ParameterType, b: real) {
    forall e, g :: 0 <= e < |table| && table[e].parameterType == t && 0 <= g < |table[e].groups| ==>
      table[e].groups[g].confidenceBoost >= b
  }

  lemma {:induction false} TypeParametersConfidenceFloor(engine: Engine, text: string, t: ParameterType, groups: seq<PatternGroup>, b: real)
    requires b <= 0.4
    requires forall g :: 0 <= g < |groups| ==> groups[g].confidenceBoost >= b
    ensures forall p :: p in TypeParameters(engine, text, t, groups) ==> p.parameterType == t && 0.6 + b <= p.confidence <= 1.0
  {
    if groups != [] {
      var n := |groups| - 1;
      TypeParametersConfidenceFloor(engine, text, t, groups[..n], b);
      GroupParametersShape(engine, text, t, groups[n]);
    }
  }

  lemma {:induction false} TypeParametersOfType(engine: Engine, text: string, t: ParameterType, groups: seq<PatternGroup>)
    ensures forall p :: p in TypeParameters(engine, text, t, groups) ==> p.parameterType == t
  {
    if groups != [] {
      var n := |groups| - 1;
      TypeParametersOfType(engine, text, t, groups[..n]);
      GroupParametersShape(engine, text, t, groups[n]);
    }
  }

  /** Every candidate of type `t` scores at least 0.6 plus the least boost of `t`'s groups. */
  lemma {:induction false} CandidatesConfidenceFloor(engine: Engine, text: string, table: seq<TypeEntry>, t: ParameterType, b: real)
    requires b <= 0.4
    requires BoostsAtLeast(table, t, b)
    ensures forall p :: p in Candidates(engine, text, table) && p.parameterType == t ==> 0.6 + b <= p.confidence <= 1.0
  {
    if table != [] {
      var n := |table| - 1;
      assert BoostsAtLeast(table[..n], t, b) by {
        forall e, g | 0 <= e < n && table[..n][e].parameterType == t && 0 <= g < |table[..n][e].groups|
          ensures table[..n][e].groups[g].confidenceBoost >= b
        {
          assert table[..n][e] == table[e];
        }
      }
      CandidatesConfidenceFloor(engine, text, table[..n], t, b);
      if table[n].parameterType == t {
        TypeParametersConfidenceFloor(engine, text, t, table[n].groups, b);
      } else {
        TypeParametersOfType(engine, text, table[n].parameterType, table[n].groups);
      }
    }
  }

  /** The extractor's table gives every voltage and current group a boost of 0.1. */
  lemma ExtractionPatternsBoosts()
    ensures BoostsAtLeast(ExtractionPatterns, Voltage, 0.1)
    ensures BoostsAtLeast(ExtractionPatterns, Current, 0.1)
  {
  }

  /** Hence deduplicated voltage and current parameters score at least 0.7 under such a table. */
  lemma ExtractedVoltageAndCurrentConfidence(engine: Engine, text: string, table: seq<TypeEntry>)
    requires BoostsAtLeast(table, Voltage, 0.1) && BoostsAtLeast(table, Current, 0.1)
    ensures forall p :: p in Dedup(Candidates(engine, text, table)) && (p.parameterType == Voltage || p.parameterType == Current) ==>
      0.7 <= p.confidence <= 1.0
  {
    CandidatesConfidenceFloor(engine, text, table, Voltage, 0.1);
    CandidatesConfidenceFloor(engine, text, table, Current, 0.1);
    var candidates := Candidates(engine, text, table);
    forall p | p in Dedup(candidates) ensures p in candidates {
      var i :| 0 <= i < |Dedup(candidates)| && Dedup(candidates)[i] == p;
    }
  }

  // ---------------------------------------------------------------- PSU / LED selection

  /** The four slots of `find_psu_led_parameters` and the deduplicated parameters. */
  datatype PsuLedParameters = PsuLedParameters(
    psuVoltage: Option<ExtractedParameter>,
    psuCurrent: Option<ExtractedParameter>,
    ledVoltage: Option<ExtractedParameter>,
    ledCurrent: Option<ExtractedParameter>,
    allParameters: seq<ExtractedParameter>)

  /**
   * `find_psu_led_parameters`: among voltage and current parameters only,
   * a parameter whose text names a PSU goes to the PSU slot of its type, else
   * one whose text names an LED goes to the LED slot, else it is ignored;
   * each slot keeps the first parameter of highest confidence, and is `None`
   * iff no parameter goes to it. With a table that boosts every voltage and
   * current group by 0.1, as the extractor's own does, a filled slot scores
   * at least 0.7.
   */
  method FindPsuLedParameters(engine: Engine, extractionPatterns: seq<TypeEntry>, documentText: string) returns (r: PsuLedParameters)
    ensures r.allParameters == Dedup(Candidates(engine, documentText, extractionPatterns))
    ensures r.psuVoltage == BestWhere(r.allParameters, WithTypeAndRole(Voltage, Psu))
    ensures r.psuCurrent == BestWhere(r.allParameters, WithTypeAndRole(Current, Psu))
    ensures r.ledVoltage == BestWhere(r.allParameters, WithTypeAndRole(Voltage, Led))
    ensures r.ledCurrent == BestWhere(r.allParameters, WithTypeAndRole(Current, Led))
    ensures BoostsAtLeast(extractionPatterns, Voltage, 0.1) && BoostsAtLeast(extractionPatterns, Current, 0.1) ==>
      && (r.psuVoltage.Some? ==> r.psuVoltage.value.confidence >= 0.7)
      && (r.psuCurrent.Some? ==> r.psuCurrent.value.confidence >= 0.7)
      && (r.ledVoltage.Some? ==> r.ledVoltage.value.confidence >= 0.7)
      && (r.ledCurrent.Some? ==> r.ledCurrent.value.confidence >= 0.7)
  {
    var allParams := ExtractAllParameters(engine, extractionPatterns, documentText);
    var psuVoltage: Option<ExtractedParameter> := None;
    var psuCurrent: Option<ExtractedParameter> := None;
    var ledVoltage: Option<ExtractedParameter> := None;
    var ledCurrent: Option<ExtractedParameter> := None;
    for i := 0 to |allParams|
      invariant psuVoltage == BestWhere(allParams[..i], WithTypeAndRole(Voltage, Psu))
      invariant psuCurrent == BestWhere(allParams[..i], WithTypeAndRole(Current, Psu))
      invariant ledVoltage == BestWhere(allParams[..i], WithTypeAndRole(Voltage, Led))
      invariant ledCurrent == BestWhere(allParams[..i], WithTypeAndRole(Current, Led))
    {
      var param := allParams[i];
      BestWhereNext(allParams, WithTypeAndRole(Voltage, Psu), i);
      BestWhereNext(allParams, WithTypeAndRole(Current, Psu), i);
      BestWhereNext(allParams, WithTypeAndRole(Voltage, Led), i);
      BestWhereNext(allParams, WithTypeAndRole(Current, Led), i);
      if param.parameterType == Voltage {
        if IsPsuParameter(param.sourceText) {
          if psuVoltage.None? || param.confidence > psuVoltage.value.confidence {
            psuVoltage := Some(param);
          }
        } else if IsLedParameter(param.sourceText) {
          if ledVoltage.None? || param.confidence > ledVoltage.value.confidence {
            ledVoltage := Some(param);
          }
        }
      } else if param.parameterType == Current {
        if IsPsuParameter(param.sourceText) {
          if psuCurrent.None? || param.confidence > psuCurrent.value.confidence {
            psuCurrent := Some(param);
          }
        } else if IsLedParameter(param.sourceText) {
          if ledCurrent.None? || param.confidence > ledCurrent.value.confidence {
            ledCurrent := Some(param);
          }
        }
      }
    }
    assert allParams[..|allParams|] == allParams;
    if BoostsAtLeast(extractionPatterns, Voltage, 0.1) && BoostsAtLeast(extractionPatterns, Current, 0.1) {
      SlotsConfidence(engine, extractionPatterns, documentText);
    }
    r := PsuLedParameters(psuVoltage, psuCurrent, ledVoltage, ledCurrent, allParams);
  }

  /** Each of the four slots, when filled, scores at least 0.7. */
  lemma SlotsConfidence(engine: Engine, table: seq<TypeEntry>, text: string)
    requires BoostsAtLeast(table, Voltage, 0.1) && BoostsAtLeast(table, Current, 0.1)
    ensures forall t, role | t == Voltage || t == Current ::
      var best := BestWhere(Dedup(Candidates(engine, text, table)), WithTypeAndRole(t, role));
      best.Some? ==> best.value.confidence >= 0.7
  {
    var all := Dedup(Candidates(engine, text, table));
    ExtractedVoltageAndCurrentConfidence(engine, text, table);
    forall t, role | t == Voltage || t == Current
      ensures var best := BestWhere(all, WithTypeAndRole(t, role)); best.Some? ==> best.value.confidence >= 0.7
    {
      SlotConfidence(all, t, role);
    }
  }

  lemma SlotConfidence(ps: seq<ExtractedParameter>, t: ParameterType, role: Role)
    requires forall p :: p in ps && (p.parameterType == Voltage || p.parameterType == Current) ==> p.confidence >= 0.7
    requires t == Voltage || t == Current
    ensures BestWhere(ps, WithTypeAndRole(t, role)).Some? ==> BestWhere(ps, WithTypeAndRole(t, role)).value.confidence >= 0.7
  {
    if BestWhere(ps, WithTypeAndRole(t, role)).Some? {
      BestWhereMember(ps, WithTypeAndRole(t, role));
    }
  }
}
