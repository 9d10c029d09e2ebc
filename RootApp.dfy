/**
 * The `/analyze` route of the older top-level service. It shares the
 * extraction helpers and the response texts with `BackendApp` (the two
 * files define them identically) but has shorter pattern lists, treats a
 * parsed 0 like a missing number, compares voltages for exact equality,
 * and does reach "Incompatible", explaining each failed check.
 */
module RootApp {
  import opened Wrappers
  import opened Matching
  import opened BackendApp

  datatype RootResponse = RootResponse(
    decision: RouteDecision,
    justification: string,
    referencedSections: seq<ReferencedSection>,
    extractedData: ExtractedData,
    confidence: Confidence)

  /** Python truthiness of a parsed number: present and not zero. */
  predicate Truthy(v: Option<real>) {
    v.Some? && v.value != 0.0
  }

  const UnparsableJustification: string :=
    "Found parameters but could not parse numerical values to perform comparison."

  /**
   * The response the top-level decision block gives for the four hits: the
   * hits reported (or "Not Found"); without all four, "Not Explicitly
   * Covered" with low confidence; with all four, the outcome
   * `SectionsOutcome` describes.
   */
  ghost predicate RootOutcome(psuVoltageStr: Option<string>, psuCurrentStr: Option<string>, ledVoltageStr: Option<string>, ledCurrentStr: Option<string>,
                              response: RootResponse) {
    var found := Found(psuVoltageStr) && Found(psuCurrentStr) && Found(ledVoltageStr) && Found(ledCurrentStr);
    && response.extractedData ==
         ExtractedData(OrNotFound(psuVoltageStr), OrNotFound(psuCurrentStr), OrNotFound(ledVoltageStr), OrNotFound(ledCurrentStr))
    && (!found ==>
          && response.decision == NotExplicitlyCovered && response.justification == NotFoundJustification
          && response.confidence == Low && response.referencedSections == [])
    && (found ==>
          SectionsOutcome(psuVoltageStr.value, psuCurrentStr.value, ledVoltageStr.value, ledCurrentStr.value,
                          response.decision, response.justification, response.confidence, response.referencedSections))
  }

  /**
   * The decision block of the top-level `/analyze`. Without all four hits:
   * "Not Explicitly Covered", low confidence. With all four, the outcome of
   * `DecideOnSections`.
   */
  method DecideCompatibility(psuVoltageStr: Option<string>, psuCurrentStr: Option<string>, ledVoltageStr: Option<string>, ledCurrentStr: Option<string>)
    returns (response: RootResponse)
    ensures RootOutcome(psuVoltageStr, psuCurrentStr, ledVoltageStr, ledCurrentStr, response)
  {
    var extractedData := ExtractedData(OrNotFound(psuVoltageStr), OrNotFound(psuCurrentStr), OrNotFound(ledVoltageStr), OrNotFound(ledCurrentStr));

    var decision := NotExplicitlyCovered;
    var justification := NotFoundJustification;
    var confidence := Low;
    var referencedSections: seq<ReferencedSection> := [];

    var allParamsFound := Found(psuVoltageStr) && Found(psuCurrentStr) && Found(ledVoltageStr) && Found(ledCurrentStr);

    if allParamsFound {
      decision, justification, confidence, referencedSections :=
        DecideOnSections(psuVoltageStr.value, psuCurrentStr.value, ledVoltageStr.value, ledCurrentStr.value);
    }

    response := RootResponse(decision, justification, referencedSections, extractedData, confidence);
  }

  /**
   * What the decision block answers once all four sections are found. A
   * number missing or zero: "Not Explicitly Covered", medium confidence.
   * Otherwise high confidence, the four quoted sections, and "Compatible"
   * iff the voltages are equal and the supply's current is at least the
   * load's; an "Incompatible" answer names the voltage mismatch and the
   * insufficient current, in that order, exactly when each occurs.
   */
  ghost predicate SectionsOutcome(pv: string, pc: string, lv: string, lc: string,
                                  decision: RouteDecision, justification: string, confidence: Confidence, referencedSections: seq<ReferencedSection>) {
    var psuV, psuI := ExtractNumericalValue(pv), ExtractNumericalValue(pc);
    var ledV, ledI := ExtractNumericalValue(lv), ExtractNumericalValue(lc);
    if Truthy(psuV) && Truthy(psuI) && Truthy(ledV) && Truthy(ledI) then
      && confidence == High
      && referencedSections == ReferencedSections(pv, pc, lv, lc)
      && (decision == Compatible <==> psuV.value == ledV.value && psuI.value >= ledI.value)
      && (decision == Compatible ==> justification == CompatibleJustification(pv, pc, lv, lc))
      && (decision != Compatible ==>
            && decision == Incompatible
            && justification ==
                 if psuV.value != ledV.value && psuI.value < ledI.value then
                   VoltageMismatchText(pv, lv) + " " + InsufficientCurrentText(pc, lc)
                 else if psuV.value != ledV.value then VoltageMismatchText(pv, lv)
                 else InsufficientCurrentText(pc, lc))
    else
      && decision == NotExplicitlyCovered && justification == UnparsableJustification
      && confidence == Medium && referencedSections == []
  }

  /** The part of the decision block that runs when all four sections are found. */
  method DecideOnSections(pv: string, pc: string, lv: string, lc: string)
    returns (decision: RouteDecision, justification: string, confidence: Confidence, referencedSections: seq<ReferencedSection>)
    ensures SectionsOutcome(pv, pc, lv, lc, decision, justification, confidence, referencedSections)
  {
    var psuVoltageVal := ExtractNumericalValue(pv);
    var psuCurrentVal := ExtractNumericalValue(pc);
    var ledVoltageVal := ExtractNumericalValue(lv);
    var ledCurrentVal := ExtractNumericalValue(lc);
    referencedSections := [];

    if Truthy(psuVoltageVal) && Truthy(psuCurrentVal) && Truthy(ledVoltageVal) && Truthy(ledCurrentVal) {
      var voltageMatch := psuVoltageVal.value == ledVoltageVal.value;
      var currentSufficient := psuCurrentVal.value >= ledCurrentVal.value;

      referencedSections := ReferencedSections(pv, pc, lv, lc);

      if voltageMatch && currentSufficient {
        decision := Compatible;
        justification := CompatibleJustification(pv, pc, lv, lc);
        confidence := High;
      } else {
        decision := Incompatible;
        justification := ExplainIncompatibility(pv, pc, lv, lc, voltageMatch, currentSufficient);
        confidence := High;
      }
    } else {
      decision := NotExplicitlyCovered;
      justification := UnparsableJustification;
      confidence := Medium;
    }
  }

  const PsuOutputVoltagePatterns: seq<Regex> := [
    @"Output Voltage:\s*([0-9]+\s*V\s*DC)",
    @"Output:\s*([0-9]+\s*V\s*DC)",
    @"DC Output:\s*([0-9]+\s*V)" ]

  const PsuMaxCurrentPatterns: seq<Regex> := [
    @"Max Output Current:\s*([0-9]+(?:\.[0-9]+)?\s*Amps?)",
    @"Maximum Current:\s*([0-9]+(?:\.[0-9]+)?\s*Amps?)",
    @"Output Current:\s*([0-9]+(?:\.[0-9]+)?\s*Amps?)" ]

  const LedInputVoltagePatterns: seq<Regex> := [
    @"Required Input Voltage:\s*([0-9]+\s*V\s*DC)",
    @"Input Voltage:\s*([0-9]+\s*V\s*DC)",
    @"Operating Voltage:\s*([0-9]+\s*V\s*DC)" ]

  const LedCurrentDrawPatterns: seq<Regex> := [
    @"Current Draw:\s*([0-9]+(?:\.[0-9]+)?\s*Amps?)",
    @"Power Consumption:\s*([0-9]+(?:\.[0-9]+)?\s*Amps?)",
    @"Current Requirement:\s*([0-9]+(?:\.[0-9]+)?\s*Amps?)" ]

  /**
   * The top-level `/analyze` on a document: the four searches with this
   * service's lists, then its decision block on their results. A
   * "Compatible" or "Incompatible" answer always comes with high confidence
   * and the four quoted sections.
   */
  method Analyze(engine: Engine, documentText: string) returns (response: RootResponse)
    ensures RootOutcome(ExtractParameter(engine, documentText, PsuOutputVoltagePatterns),
                        ExtractParameter(engine, documentText, PsuMaxCurrentPatterns),
                        ExtractParameter(engine, documentText, LedInputVoltagePatterns),
                        ExtractParameter(engine, documentText, LedCurrentDrawPatterns), response)
    ensures response.extractedData.psuOutputVoltage == OrNotFound(ExtractParameter(engine, documentText, PsuOutputVoltagePatterns))
    ensures response.extractedData.psuMaxOutputCurrent == OrNotFound(ExtractParameter(engine, documentText, PsuMaxCurrentPatterns))
    ensures response.extractedData.ledRequiredVoltage == OrNotFound(ExtractParameter(engine, documentText, LedInputVoltagePatterns))
    ensures response.extractedData.ledCurrentDraw == OrNotFound(ExtractParameter(engine, documentText, LedCurrentDrawPatterns))
    ensures response.decision != NotExplicitlyCovered ==> response.confidence == High && |response.referencedSections| == 4
  {
    var psuVoltageStr := ExtractParameter(engine, documentText, PsuOutputVoltagePatterns);
    var psuCurrentStr := ExtractParameter(engine, documentText, PsuMaxCurrentPatterns);
    var ledVoltageStr := ExtractParameter(engine, documentText, LedInputVoltagePatterns);
    var ledCurrentStr := ExtractParameter(engine, documentText, LedCurrentDrawPatterns);
    response := DecideCompatibility(psuVoltageStr, psuCurrentStr, ledVoltageStr, ledCurrentStr);
  }
}
