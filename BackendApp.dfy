/**
 * The `/analyze` route of the backend service: four first-match searches over
 * the document, a plain-number parse of each hit, a strict numeric check,
 * and the block that turns the outcome into a decision, a justification, a
 * confidence label and the sections it quotes. The route's response types
 * and texts are shared with the older top-level service (`RootApp`).
 */
module BackendApp {
  import opened Wrappers
  import opened Text
  import opened Numbers
  import opened Matching
  import Extractor = ParameterExtractor

  // ---------------------------------------------------------------- extraction helpers

  /**
   * `extract_parameter`: group 1 of the first match of the first pattern, in
   * list order, that matches anywhere, with surrounding whitespace removed;
   * `None` iff no pattern matches.
   */
  function ExtractParameter(engine: Engine, text: string, patterns: seq<Regex>): (r: Option<string>)
    ensures r.None? <==> forall j :: 0 <= j < |patterns| ==> NoMatch(engine, patterns[j], text)
    ensures r.Some? ==> exists i: nat :: IsFirstMatchingPattern(engine, patterns, text, i) && r.value == Strip(engine(patterns[i], text)[0].group1)
    ensures r.Some? ==> r.value == [] || (!IsSpace(r.value[0]) && !IsSpace(r.value[|r.value| - 1]))
  {
    var m := FirstSearch(engine, patterns, text);
    if m.None? then None else Some(Strip(m.value.group1))
  }

  /**
   * `extract_numerical_value`: `None` for a text without a digit (the empty
   * text included), otherwise the leftmost unsigned decimal.
   */
  function ExtractNumericalValue(text: string): (r: Option<real>)
    ensures r.None? <==> forall k :: 0 <= k < |text| ==> !IsDigit(text[k])
    ensures r.Some? ==> r.value >= 0.0
    ensures r.Some? ==> exists k: nat :: IsFirstDigit(text, 0, k) && r.value == NumberAt(text, k).value
  {
    if text == [] then None else FirstNumber(text)
  }

  /** Without a range in the text, this parser and the extractor's agree. */
  lemma NumericalValueAgreesWithExtractor(text: string)
    requires FirstRange(text).None?
    ensures ExtractNumericalValue(text) == Extractor.ExtractNumericalValue(text)
  {
  }

  /** With a range after a plain number they differ: this parser takes the first number, the extractor the range. */
  lemma NumericalValueDiffersFromExtractorOnRange()
    ensures ExtractNumericalValue("3V 5-12") == Some(3.0)
    ensures Extractor.ExtractNumericalValue("3V 5-12") == Some(5.0)
  {
    RangeAfterNumberNumber();
    RangeAfterNumberRange();
  }

  /** A found string: present and non-empty, as Python's truthiness has it. */
  predicate Found(s: Option<string>) {
    s.Some? && s.value != ""
  }

  // ---------------------------------------------------------------- numeric check

  datatype Reason = MissingParameterValues | ReasonCompatible | ReasonIncompatible

  datatype CompatibilityResult = CompatibilityResult(compatible: bool, reason: Reason, voltageMatch: bool, currentSufficient: bool)

  /**
   * `analyze_compatibility`: with a value missing, nothing holds and the
   * reason says so; otherwise the voltages match iff they differ by less than
   * 0.1, the current suffices iff the supply's is at least the load's, and
   * the pair is compatible iff both hold.
   */
  function AnalyzeCompatibility(psuVoltage: Option<real>, psuCurrent: Option<real>, ledVoltage: Option<real>, ledCurrent: Option<real>): (r: CompatibilityResult)
    ensures (psuVoltage.None? || psuCurrent.None? || ledVoltage.None? || ledCurrent.None?) ==>
      r == CompatibilityResult(false, MissingParameterValues, false, false)
    ensures (psuVoltage.Some? && psuCurrent.Some? && ledVoltage.Some? && ledCurrent.Some?) ==>
      && (r.voltageMatch <==> ledVoltage.value - 0.1 < psuVoltage.value < ledVoltage.value + 0.1)
      && (r.currentSufficient <==> psuCurrent.value >= ledCurrent.value)
      && (r.reason == ReasonCompatible <==> r.compatible)
      && r.reason != MissingParameterValues
    ensures r.compatible <==> r.voltageMatch && r.currentSufficient
  {
    if psuVoltage.None? || psuCurrent.None? || ledVoltage.None? || ledCurrent.None? then
      CompatibilityResult(false, MissingParameterValues, false, false)
    else
      var voltageMatch := Abs(psuVoltage.value - ledVoltage.value) < 0.1;
      var currentSufficient := psuCurrent.value >= ledCurrent.value;
      var compatible := voltageMatch && currentSufficient;
      CompatibilityResult(compatible, if compatible then ReasonCompatible else ReasonIncompatible, voltageMatch, currentSufficient)
  }

  // ---------------------------------------------------------------- the route's response

  datatype RouteDecision = Compatible | Incompatible | NotExplicitlyCovered

  datatype Confidence = High | Medium | Low

  datatype ReferencedSection = ReferencedSection(sectionName: string, details: string)

  datatype ExtractedData = ExtractedData(psuOutputVoltage: string, psuMaxOutputCurrent: string, ledRequiredVoltage: string, ledCurrentDraw: string)

  datatype AnalysisDetails = AnalysisDetails(parametersFound: bool, extractionSuccess: bool)

  datatype AnalysisResponse = AnalysisResponse(
    decision: RouteDecision,
    justification: string,
    referencedSections: seq<ReferencedSection>,
    extractedData: ExtractedData,
    confidence: Confidence,
    analysisDetails: AnalysisDetails)

  /** `s or "Not Found"`. */
  function OrNotFound(s: Option<string>): (r: string)
    ensures Found(s) ==> r == s.value
    ensures !Found(s) ==> r == "Not Found"
  {
    if Found(s) then s.value else "Not Found"
  }

  const NotFoundJustification: string :=
    "Could not determine compatibility. One or more required parameters were not found in the document."

  const NoNumericalAnalysisJustification: string :=
    "Found parameters but could not perform numerical analysis."

  /** The four quoted sections, each naming the hit it quotes. */
  function ReferencedSections(psuVoltage: string, psuCurrent: string, ledVoltage: string, ledCurrent: string): (sections: seq<ReferencedSection>)
    ensures |sections| == 4
    ensures sections[0].details == "Output Voltage: " + psuVoltage
    ensures sections[1].details == "Max Output Current: " + psuCurrent
    ensures sections[2].details == "Required Input Voltage: " + ledVoltage
    ensures sections[3].details == "Current Draw: " + ledCurrent
  {
    [ ReferencedSection("PSU - Output Voltage", "Output Voltage: " + psuVoltage),
      ReferencedSection("PSU - Max Output Current", "Max Output Current: " + psuCurrent),
      ReferencedSection("LED - Required Input Voltage", "Required Input Voltage: " + ledVoltage),
      ReferencedSection("LED - Current Draw", "Current Draw: " + ledCurrent) ]
  }

  function CompatibleJustification(psuVoltage: string, psuCurrent: string, ledVoltage: string, ledCurrent: string): string {
    "The Power Supply provides " + psuVoltage + ", which matches the LED's required " + ledVoltage + ". "
    + "The PSU's max current of " + psuCurrent + " is sufficient to handle the LED's draw of " + ledCurrent + "."
  }

  function VoltageMismatchText(psuVoltage: string, ledVoltage: string): string {
    "Voltage mismatch: PSU provides " + psuVoltage + " but LED requires " + ledVoltage + "."
  }

  function InsufficientCurrentText(psuCurrent: string, ledCurrent: string): string {
    "Insufficient current: PSU provides a max of " + psuCurrent + " but LED requires " + ledCurrent + "."
  }

  /** `sep.join(parts)`. */
  function Join(sep: string, parts: seq<string>): string {
    if parts == [] then ""
    else if |parts| == 1 then parts[0]
    else parts[0] + sep + Join(sep, parts[1..])
  }

  /** Joining one part gives it back; joining two puts the separator between them. */
  lemma JoinOneOrTwo(sep: string, a: string, b: string)
    ensures Join(sep, [a]) == a
    ensures Join(sep, [a, b]) == a + sep + b
  {
    assert [a, b][1..] == [b];
  }

  /**
   * The justification of an "Incompatible" answer: the voltage mismatch
   * and the insufficient current, each when it occurs and in that order,
   * joined by a space.
   */
  method ExplainIncompatibility(psuVoltage: string, psuCurrent: string, ledVoltage: string, ledCurrent: string, voltageMatch: bool, currentSufficient: bool)
    returns (justification: string)
    ensures !voltageMatch && !currentSufficient ==>
      justification == VoltageMismatchText(psuVoltage, ledVoltage) + " " + InsufficientCurrentText(psuCurrent, ledCurrent)
    ensures !voltageMatch && currentSufficient ==> justification == VoltageMismatchText(psuVoltage, ledVoltage)
    ensures voltageMatch && !currentSufficient ==> justification == InsufficientCurrentText(psuCurrent, ledCurrent)
    ensures voltageMatch && currentSufficient ==> justification == ""
  {
    var justificationParts: seq<string> := [];
    if !voltageMatch {
      justificationParts := justificationParts + [VoltageMismatchText(psuVoltage, ledVoltage)];
    }
    if !currentSufficient {
      justificationParts := justificationParts + [InsufficientCurrentText(psuCurrent, ledCurrent)];
    }
    JoinOneOrTwo(" ", VoltageMismatchText(psuVoltage, ledVoltage), InsufficientCurrentText(psuCurrent, ledCurrent));
    JoinOneOrTwo(" ", InsufficientCurrentText(psuCurrent, ledCurrent), "");
    justification := Join(" ", justificationParts);
  }

  // ---------------------------------------------------------------- the decision block

  /**
   * The decision block of `/analyze`. Without all four hits the answer is
   * "Not Explicitly Covered" with low confidence. With all four, the numbers
   * are parsed and checked: a compatible pair gives "Compatible" with high
   * confidence and the four quoted sections; anything else, a missing number
   * included, gives "Not Explicitly Covered" with medium confidence. The
   * "Incompatible" branch is kept as written but no input reaches it, because
   * a result is compatible only when both of its checks hold.
   */
  method DecideCompatibility(psuVoltageStr: Option<string>, psuCurrentStr: Option<string>, ledVoltageStr: Option<string>, ledCurrentStr: Option<string>)
    returns (response: AnalysisResponse)
    ensures AsWrittenOutcome(psuVoltageStr, psuCurrentStr, ledVoltageStr, ledCurrentStr, response)
    ensures response.decision != Incompatible
  {
    var extractedData := ExtractedData(OrNotFound(psuVoltageStr), OrNotFound(psuCurrentStr), OrNotFound(ledVoltageStr), OrNotFound(ledCurrentStr));

    var decision := NotExplicitlyCovered;
    var justification := NotFoundJustification;
    var confidence := Low;
    var referencedSections: seq<ReferencedSection> := [];

    var allParamsFound := Found(psuVoltageStr) && Found(psuCurrentStr) && Found(ledVoltageStr) && Found(ledCurrentStr);

    if allParamsFound {
      var pv, pc, lv, lc := psuVoltageStr.value, psuCurrentStr.value, ledVoltageStr.value, ledCurrentStr.value;
      var psuVoltageVal := ExtractNumericalValue(pv);
      var psuCurrentVal := ExtractNumericalValue(pc);
      var ledVoltageVal := ExtractNumericalValue(lv);
      var ledCurrentVal := ExtractNumericalValue(lc);

      var compatibilityResult := AnalyzeCompatibility(psuVoltageVal, psuCurrentVal, ledVoltageVal, ledCurrentVal);

      if compatibilityResult.compatible {
        referencedSections := ReferencedSections(pv, pc, lv, lc);
        if compatibilityResult.voltageMatch && compatibilityResult.currentSufficient {
          decision := Compatible;
          justification := CompatibleJustification(pv, pc, lv, lc);
          confidence := High;
        } else {
          decision := Incompatible;
          justification := ExplainIncompatibility(pv, pc, lv, lc, compatibilityResult.voltageMatch, compatibilityResult.currentSufficient);
          confidence := High;
        }
      } else {
        justification := NoNumericalAnalysisJustification;
        confidence := Medium;
      }
    }

    var extractionSuccess := Found(psuVoltageStr) && Found(psuCurrentStr) && Found(ledVoltageStr) && Found(ledCurrentStr);
    response := AnalysisResponse(decision, justification, referencedSections, extractedData, confidence,
      AnalysisDetails(allParamsFound, extractionSuccess));
  }

  /**
   * The response the decision block as written gives for the four hits:
   * the hits reported (or "Not Found") and whether all four were found;
   * without all four, "Not Explicitly Covered" with low confidence; with all
   * four, "Compatible" with high confidence and the four quoted sections iff
   * the parsed numbers pass the numeric check, and otherwise "Not Explicitly
   * Covered" with medium confidence.
   */
  ghost predicate AsWrittenOutcome(psuVoltageStr: Option<string>, psuCurrentStr: Option<string>, ledVoltageStr: Option<string>, ledCurrentStr: Option<string>,
                                   response: AnalysisResponse) {
    var found := Found(psuVoltageStr) && Found(psuCurrentStr) && Found(ledVoltageStr) && Found(ledCurrentStr);
    && response.extractedData ==
         ExtractedData(OrNotFound(psuVoltageStr), OrNotFound(psuCurrentStr), OrNotFound(ledVoltageStr), OrNotFound(ledCurrentStr))
    && response.analysisDetails == AnalysisDetails(found, found)
    && (!found ==>
          && response.decision == NotExplicitlyCovered && response.justification == NotFoundJustification
          && response.confidence == Low && response.referencedSections == [])
    && (found ==>
          var pv, pc, lv, lc := psuVoltageStr.value, psuCurrentStr.value, ledVoltageStr.value, ledCurrentStr.value;
          var result := AnalyzeCompatibility(ExtractNumericalValue(pv), ExtractNumericalValue(pc), ExtractNumericalValue(lv), ExtractNumericalValue(lc));
          if result.compatible then
            && response.decision == Compatible && response.justification == CompatibleJustification(pv, pc, lv, lc)
            && response.confidence == High && response.referencedSections == ReferencedSections(pv, pc, lv, lc)
          else
            && response.decision == NotExplicitlyCovered && response.justification == NoNumericalAnalysisJustification
            && response.confidence == Medium && response.referencedSections == [])
  }

  /**
   * A supply and a load whose numbers all parse but do not match: the
   * numeric check finds them incompatible, so the block as written answers
   * "Not Explicitly Covered" and says it could not perform the analysis.
   */
  lemma MismatchIsNotReported()
    ensures ExtractNumericalValue("12V DC") == Some(12.0) && ExtractNumericalValue("5 Amps") == Some(5.0)
    ensures ExtractNumericalValue("24V DC") == Some(24.0) && ExtractNumericalValue("2 Amps") == Some(2.0)
    ensures AnalyzeCompatibility(Some(12.0), Some(5.0), Some(24.0), Some(2.0)) ==
      CompatibilityResult(false, ReasonIncompatible, false, true)
    ensures forall response :: AsWrittenOutcome(Some("12V DC"), Some("5 Amps"), Some("24V DC"), Some("2 Amps"), response) ==>
      && response.decision == NotExplicitlyCovered && response.justification == NoNumericalAnalysisJustification
      && response.confidence == Medium && response.referencedSections == []
  {
    MismatchParses();
    forall response | AsWrittenOutcome(Some("12V DC"), Some("5 Amps"), Some("24V DC"), Some("2 Amps"), response) {
      FailedCheckNotReported("12V DC", "5 Amps", "24V DC", "2 Amps", response);
    }
  }

  /** The four strings of the mismatch parse to 12, 5, 24 and 2. */
  lemma MismatchParses()
    ensures ExtractNumericalValue("12V DC") == Some(12.0) && ExtractNumericalValue("5 Amps") == Some(5.0)
    ensures ExtractNumericalValue("24V DC") == Some(24.0) && ExtractNumericalValue("2 Amps") == Some(2.0)
  {
    LeadingTwoDigits("12V DC");
    LeadingOneDigit("5 Amps");
    LeadingTwoDigits("24V DC");
    LeadingOneDigit("2 Amps");
  }

  /**
   * Four hits whose numbers fail the numeric check are answered, as written,
   * "Not Explicitly Covered" with medium confidence and no sections.
   */
  lemma FailedCheckNotReported(pv: string, pc: string, lv: string, lc: string, response: AnalysisResponse)
    requires pv != "" && pc != "" && lv != "" && lc != ""
    requires !AnalyzeCompatibility(ExtractNumericalValue(pv), ExtractNumericalValue(pc), ExtractNumericalValue(lv), ExtractNumericalValue(lc)).compatible
    requires AsWrittenOutcome(Some(pv), Some(pc), Some(lv), Some(lc), response)
    ensures && response.decision == NotExplicitlyCovered && response.justification == NoNumericalAnalysisJustification
            && response.confidence == Medium && response.referencedSections == []
  {
  }

  /**
   * The decision block as its "Incompatible" branch intends: once all four
   * numbers parse, the answer carries high confidence and the four quoted
   * sections, and is "Compatible" iff the numeric check passes; otherwise it
   * is "Incompatible" and names the voltage mismatch and the insufficient
   * current, in that order, exactly when each occurs. Only a missing number
   * gives "Not Explicitly Covered" with medium confidence.
   */
  method DecideCompatibilityIntended(psuVoltageStr: Option<string>, psuCurrentStr: Option<string>, ledVoltageStr: Option<string>, ledCurrentStr: Option<string>)
    returns (response: AnalysisResponse)
    ensures response.extractedData ==
      ExtractedData(OrNotFound(psuVoltageStr), OrNotFound(psuCurrentStr), OrNotFound(ledVoltageStr), OrNotFound(ledCurrentStr))
    ensures var found := Found(psuVoltageStr) && Found(psuCurrentStr) && Found(ledVoltageStr) && Found(ledCurrentStr);
      response.analysisDetails == AnalysisDetails(found, found)
    ensures !(Found(psuVoltageStr) && Found(psuCurrentStr) && Found(ledVoltageStr) && Found(ledCurrentStr)) ==>
      && response.decision == NotExplicitlyCovered && response.justification == NotFoundJustification
      && response.confidence == Low && response.referencedSections == []
    ensures Found(psuVoltageStr) && Found(psuCurrentStr) && Found(ledVoltageStr) && Found(ledCurrentStr) ==>
      IntendedOutcome(psuVoltageStr.value, psuCurrentStr.value, ledVoltageStr.value, ledCurrentStr.value, response)
  {
    var extractedData := ExtractedData(OrNotFound(psuVoltageStr), OrNotFound(psuCurrentStr), OrNotFound(ledVoltageStr), OrNotFound(ledCurrentStr));
    var allParamsFound := Found(psuVoltageStr) && Found(psuCurrentStr) && Found(ledVoltageStr) && Found(ledCurrentStr);
    response := AnalysisResponse(NotExplicitlyCovered, NotFoundJustification, [], extractedData, Low, AnalysisDetails(allParamsFound, allParamsFound));
    if allParamsFound {
      var decision, justification, confidence, referencedSections :=
        DecideIntendedOnSections(psuVoltageStr.value, psuCurrentStr.value, ledVoltageStr.value, ledCurrentStr.value);
      response := response.(decision := decision, justification := justification, confidence := confidence, referencedSections := referencedSections);
    }
  }

  /** What the intended block answers once all four sections are found. */
  ghost predicate IntendedOutcome(pv: string, pc: string, lv: string, lc: string, response: AnalysisResponse) {
    var result := AnalyzeCompatibility(ExtractNumericalValue(pv), ExtractNumericalValue(pc), ExtractNumericalValue(lv), ExtractNumericalValue(lc));
    if result.reason == MissingParameterValues then
      && response.decision == NotExplicitlyCovered && response.justification == NoNumericalAnalysisJustification
      && response.confidence == Medium && response.referencedSections == []
    else
      && response.confidence == High
      && response.referencedSections == ReferencedSections(pv, pc, lv, lc)
      && (response.decision == Compatible <==> result.compatible)
      && (response.decision == Compatible ==> response.justification == CompatibleJustification(pv, pc, lv, lc))
      && (response.decision != Compatible ==>
            && response.decision == Incompatible
            && response.justification ==
                 if !result.voltageMatch && !result.currentSufficient then
                   VoltageMismatchText(pv, lv) + " " + InsufficientCurrentText(pc, lc)
                 else if !result.voltageMatch then VoltageMismatchText(pv, lv)
                 else InsufficientCurrentText(pc, lc))
  }

  /** The intended block once all four sections are found. */
  method DecideIntendedOnSections(pv: string, pc: string, lv: string, lc: string)
    returns (decision: RouteDecision, justification: string, confidence: Confidence, referencedSections: seq<ReferencedSection>)
    ensures IntendedOutcome(pv, pc, lv, lc, AnalysisResponse(decision, justification, referencedSections, ExtractedData("", "", "", ""), confidence, AnalysisDetails(true, true)))
  {
    var compatibilityResult := AnalyzeCompatibility(ExtractNumericalValue(pv), ExtractNumericalValue(pc), ExtractNumericalValue(lv), ExtractNumericalValue(lc));
    referencedSections := [];
    if compatibilityResult.reason != MissingParameterValues {
      referencedSections := ReferencedSections(pv, pc, lv, lc);
      confidence := High;
      if compatibilityResult.compatible {
        decision := Compatible;
        justification := CompatibleJustification(pv, pc, lv, lc);
      } else {
        decision := Incompatible;
        justification := ExplainIncompatibility(pv, pc, lv, lc, compatibilityResult.voltageMatch, compatibilityResult.currentSufficient);
      }
    } else {
      decision := NotExplicitlyCovered;
      justification := NoNumericalAnalysisJustification;
      confidence := Medium;
    }
  }

  // ---------------------------------------------------------------- the route

  const PsuOutputVoltagePatterns: seq<Regex> := [
    @"Output Voltage:\s*([0-9]+\s*V\s*DC)",
    @"Output:\s*([0-9]+\s*V\s*DC)",
    @"DC Output:\s*([0-9]+\s*V)",
    @"Voltage Output:\s*([0-9]+\s*V)" ]

  const PsuMaxCurrentPatterns: seq<Regex> := [
    @"Max Output Current:\s*([0-9]+(?:\.[0-9]+)?\s*Amps?)",
    @"Maximum Current:\s*([0-9]+(?:\.[0-9]+)?\s*Amps?)",
    @"Output Current:\s*([0-9]+(?:\.[0-9]+)?\s*Amps?)",
    @"Current Rating:\s*([0-9]+(?:\.[0-9]+)?\s*Amps?)" ]

  const LedInputVoltagePatterns: seq<Regex> := [
    @"Required Input Voltage:\s*([0-9]+\s*V\s*DC)",
    @"Input Voltage:\s*([0-9]+\s*V\s*DC)",
    @"Operating Voltage:\s*([0-9]+\s*V\s*DC)",
    @"Supply Voltage:\s*([0-9]+\s*V\s*DC)" ]

  const LedCurrentDrawPatterns: seq<Regex> := [
    @"Current Draw:\s*([0-9]+(?:\.[0-9]+)?\s*Amps?)",
    @"Power Consumption:\s*([0-9]+(?:\.[0-9]+)?\s*Amps?)",
    @"Current Requirement:\s*([0-9]+(?:\.[0-9]+)?\s*Amps?)",
    @"Current Usage:\s*([0-9]+(?:\.[0-9]+)?\s*Amps?)" ]

  /**
   * `/analyze` on a document: the four searches, then the decision block on
   * their results. The response reports the four hits (or "Not Found"), says
   * whether all four were found, and is never "Incompatible".
   */
  method Analyze(engine: Engine, documentText: string) returns (response: AnalysisResponse)
    ensures AsWrittenOutcome(ExtractParameter(engine, documentText, PsuOutputVoltagePatterns),
                             ExtractParameter(engine, documentText, PsuMaxCurrentPatterns),
                             ExtractParameter(engine, documentText, LedInputVoltagePatterns),
                             ExtractParameter(engine, documentText, LedCurrentDrawPatterns), response)
    ensures response.extractedData.psuOutputVoltage == OrNotFound(ExtractParameter(engine, documentText, PsuOutputVoltagePatterns))
    ensures response.extractedData.psuMaxOutputCurrent == OrNotFound(ExtractParameter(engine, documentText, PsuMaxCurrentPatterns))
    ensures response.extractedData.ledRequiredVoltage == OrNotFound(ExtractParameter(engine, documentText, LedInputVoltagePatterns))
    ensures response.extractedData.ledCurrentDraw == OrNotFound(ExtractParameter(engine, documentText, LedCurrentDrawPatterns))
    ensures response.analysisDetails.parametersFound <==>
      && Found(ExtractParameter(engine, documentText, PsuOutputVoltagePatterns))
      && Found(ExtractParameter(engine, documentText, PsuMaxCurrentPatterns))
      && Found(ExtractParameter(engine, documentText, LedInputVoltagePatterns))
      && Found(ExtractParameter(engine, documentText, LedCurrentDrawPatterns))
    ensures response.decision == Compatible ==> response.analysisDetails.parametersFound && response.confidence == High
    ensures response.decision != Incompatible
  {
    var psuVoltageStr := ExtractParameter(engine, documentText, PsuOutputVoltagePatterns);
    var psuCurrentStr := ExtractParameter(engine, documentText, PsuMaxCurrentPatterns);
    var ledVoltageStr := ExtractParameter(engine, documentText, LedInputVoltagePatterns);
    var ledCurrentStr := ExtractParameter(engine, documentText, LedCurrentDrawPatterns);
    response := DecideCompatibility(psuVoltageStr, psuCurrentStr, ledVoltageStr, ledCurrentStr);
  }
}
