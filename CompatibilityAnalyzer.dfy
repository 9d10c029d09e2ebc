/**
 * `CompatibilityAnalyzer`: decides whether a power supply can drive an LED
 * load from the four selected parameters. The supply's voltage must be
 * within 0.5 V of the load's and its current at least the load's; the
 * report's confidence is the weakest of the four parameters' confidences.
 * The human-readable texts are kept as their structure (which verdict each
 * line gives and the figures it quotes), not as formatted strings.
 */
module CompatibilityAnalyzer {
  import opened Wrappers
  import opened Numbers
  import opened Parameters
  import opened ParameterExtractor

  datatype Decision = Compatible | Incompatible | InsufficientData

  datatype ConfidenceLevel = High | Medium | Low

  /** The entries of `missing_parameters`, declared in the order they are reported. */
  datatype MissingParameter = PsuVoltage | PsuCurrent | LedVoltage | LedCurrent

  function Rank(m: MissingParameter): nat {
    match m
    case PsuVoltage => 0
    case PsuCurrent => 1
    case LedVoltage => 2
    case LedCurrent => 3
  }

  datatype VoltageAnalysis = VoltageAnalysis(compatible: bool, psuVoltage: real, ledVoltage: real, difference: real, tolerance: real)

  datatype CurrentAnalysis = CurrentAnalysis(compatible: bool, psuCurrent: real, ledCurrent: real, safetyMargin: real, marginPercentage: real)

  /** One line of the detailed analysis, with the analysis it quotes. */
  datatype AnalysisPart =
    | VoltageMatch(voltage: VoltageAnalysis)
    | VoltageMismatch(voltage: VoltageAnalysis)
    | CurrentSufficient(current: CurrentAnalysis)
    | CurrentInsufficient(current: CurrentAnalysis)
    | Conclusion(componentsCompatible: bool)

  datatype ParameterConfidence = ParameterConfidence(psuVoltage: real, psuCurrent: real, ledVoltage: real, ledCurrent: real)

  /** What only one of the two report shapes carries. */
  datatype ReportDetails =
    | MissingData(missingParameters: seq<MissingParameter>)
    | FullAnalysis(
        confidenceScore: real,
        voltageAnalysis: VoltageAnalysis,
        currentAnalysis: CurrentAnalysis,
        parameterConfidence: ParameterConfidence,
        analysisDetails: seq<AnalysisPart>)

  datatype CompatibilityReport = CompatibilityReport(
    compatible: bool,
    decision: Decision,
    confidence: ConfidenceLevel,
    details: ReportDetails)

  const VoltageTolerance: real := 0.5

  /**
   * `_check_voltage_compatibility`: compatible iff the two voltages differ by
   * at most the 0.5 V tolerance, in either direction.
   */
  function CheckVoltageCompatibility(psuVoltage: real, ledVoltage: real): (v: VoltageAnalysis)
    ensures v.compatible <==> ledVoltage - 0.5 <= psuVoltage <= ledVoltage + 0.5
    ensures v.difference >= 0.0 && (v.difference == psuVoltage - ledVoltage || v.difference == ledVoltage - psuVoltage)
    ensures v.tolerance == 0.5 && v.psuVoltage == psuVoltage && v.ledVoltage == ledVoltage
  {
    var difference := Abs(psuVoltage - ledVoltage);
    VoltageAnalysis(difference <= VoltageTolerance, psuVoltage, ledVoltage, difference, VoltageTolerance)
  }

  /** Swapping the two voltages changes neither the verdict nor the difference. */
  lemma VoltageCompatibilitySymmetric(a: real, b: real)
    ensures CheckVoltageCompatibility(a, b).compatible == CheckVoltageCompatibility(b, a).compatible
    ensures CheckVoltageCompatibility(a, b).difference == CheckVoltageCompatibility(b, a).difference
  {
  }

  /**
   * `_check_current_compatibility`: compatible iff the supply provides at
   * least the load's current; the safety margin is the surplus relative to
   * the load (0 for a load of 0 or less), and the percentage is 100 times it.
   */
  function CheckCurrentCompatibility(psuCurrent: real, ledCurrent: real): (c: CurrentAnalysis)
    ensures c.compatible <==> psuCurrent >= ledCurrent
    ensures ledCurrent > 0.0 ==> c.safetyMargin * ledCurrent == psuCurrent - ledCurrent
    ensures ledCurrent <= 0.0 ==> c.safetyMargin == 0.0
    ensures c.marginPercentage == c.safetyMargin * 100.0
    ensures c.psuCurrent == psuCurrent && c.ledCurrent == ledCurrent
  {
    var safetyMargin := if ledCurrent > 0.0 then (psuCurrent - ledCurrent) / ledCurrent else 0.0;
    CurrentAnalysis(psuCurrent >= ledCurrent, psuCurrent, ledCurrent, safetyMargin, safetyMargin * 100.0)
  }

  /** For a positive load the margin's sign is the verdict: a non-negative margin iff compatible. */
  lemma {:induction false} CurrentMarginSign(psuCurrent: real, ledCurrent: real)
    requires ledCurrent > 0.0
    ensures CheckCurrentCompatibility(psuCurrent, ledCurrent).compatible <==>
      CheckCurrentCompatibility(psuCurrent, ledCurrent).safetyMargin >= 0.0
  {
    var c := CheckCurrentCompatibility(psuCurrent, ledCurrent);
    if c.safetyMargin < 0.0 {
      assert c.safetyMargin * ledCurrent < 0.0;
    } else {
      assert c.safetyMargin * ledCurrent >= 0.0;
    }
  }

  /** The confidence label: above 0.8 is high, above 0.6 medium, anything else low. */
  function ConfidenceLevelOf(score: real): (l: ConfidenceLevel)
    ensures l == High <==> score > 0.8
    ensures l == Medium <==> 0.6 < score <= 0.8
    ensures l == Low <==> score <= 0.6
  {
    if score > 0.8 then High else if score > 0.6 then Medium else Low
  }

  function LevelRank(l: ConfidenceLevel): nat {
    match l
    case Low => 0
    case Medium => 1
    case High => 2
  }

  /** A higher score never gets a lower label. */
  lemma ConfidenceLevelMonotone(s: real, t: real)
    requires s <= t
    ensures LevelRank(ConfidenceLevelOf(s)) <= LevelRank(ConfidenceLevelOf(t))
  {
  }

  /** `min` of the four confidences: a lower bound of each, and equal to one of them. */
  function MinConfidence(a: real, b: real, c: real, d: real): (m: real)
    ensures m <= a && m <= b && m <= c && m <= d
    ensures m == a || m == b || m == c || m == d
  {
    Min(Min(Min(a, b), c), d)
  }

  /**
   * The `missing` list: one entry per absent parameter, in the order PSU
   * voltage, PSU current, LED voltage, LED current.
   */
  function MissingParameters(
    psuVoltage: Option<ExtractedParameter>, psuCurrent: Option<ExtractedParameter>,
    ledVoltage: Option<ExtractedParameter>, ledCurrent: Option<ExtractedParameter>): (missing: seq<MissingParameter>)
    ensures PsuVoltage in missing <==> psuVoltage.None?
    ensures PsuCurrent in missing <==> psuCurrent.None?
    ensures LedVoltage in missing <==> ledVoltage.None?
    ensures LedCurrent in missing <==> ledCurrent.None?
    ensures forall i, j :: 0 <= i < j < |missing| ==> Rank(missing[i]) < Rank(missing[j])
  {
    (if psuVoltage.None? then [PsuVoltage] else [])
    + (if psuCurrent.None? then [PsuCurrent] else [])
    + (if ledVoltage.None? then [LedVoltage] else [])
    + (if ledCurrent.None? then [LedCurrent] else [])
  }

  /**
   * `_generate_detailed_analysis`: a voltage line, a current line and the
   * conclusion, each giving the verdict it was handed.
   */
  function DetailedAnalysis(voltage: VoltageAnalysis, current: CurrentAnalysis, overallCompatible: bool): (parts: seq<AnalysisPart>)
    ensures |parts| == 3
    ensures (parts[0].VoltageMatch? <==> voltage.compatible) && (parts[0].VoltageMatch? || parts[0].VoltageMismatch?)
    ensures parts[0].voltage == voltage
    ensures (parts[1].CurrentSufficient? <==> current.compatible) && (parts[1].CurrentSufficient? || parts[1].CurrentInsufficient?)
    ensures parts[1].current == current
    ensures parts[2] == Conclusion(overallCompatible)
  {
    [ if voltage.compatible then VoltageMatch(voltage) else VoltageMismatch(voltage),
      if current.compatible then CurrentSufficient(current) else CurrentInsufficient(current),
      Conclusion(overallCompatible) ]
  }

  /** `_generate_detailed_analysis` as written: the three lines appended one after another. */
  method GenerateDetailedAnalysis(voltage: VoltageAnalysis, current: CurrentAnalysis, overallCompatible: bool) returns (analysisParts: seq<AnalysisPart>)
    ensures analysisParts == DetailedAnalysis(voltage, current, overallCompatible)
  {
    analysisParts := [];
    if voltage.compatible {
      analysisParts := analysisParts + [VoltageMatch(voltage)];
    } else {
      analysisParts := analysisParts + [VoltageMismatch(voltage)];
    }
    if current.compatible {
      analysisParts := analysisParts + [CurrentSufficient(current)];
    } else {
      analysisParts := analysisParts + [CurrentInsufficient(current)];
    }
    analysisParts := analysisParts + [Conclusion(overallCompatible)];
  }

  /** Every parameter is present. */
  predicate AllPresent(
    psuVoltage: Option<ExtractedParameter>, psuCurrent: Option<ExtractedParameter>,
    ledVoltage: Option<ExtractedParameter>, ledCurrent: Option<ExtractedParameter>)
  {
    psuVoltage.Some? && psuCurrent.Some? && ledVoltage.Some? && ledCurrent.Some?
  }

  /**
   * `analyze_psu_led_compatibility`. With a parameter missing: not
   * compatible, "Insufficient Data", low confidence, and the missing list.
   * Otherwise compatible iff the voltages are within tolerance and the supply's
   * current suffices; the label follows the weakest of the four confidences.
   * A present parameter without a number would make the subtraction fail,
   * so callers pass numbers for all four whenever all four are present.
   */
  function AnalyzePsuLedCompatibility(
    psuVoltage: Option<ExtractedParameter>, psuCurrent: Option<ExtractedParameter>,
    ledVoltage: Option<ExtractedParameter>, ledCurrent: Option<ExtractedParameter>): (r: CompatibilityReport)
    requires AllPresent(psuVoltage, psuCurrent, ledVoltage, ledCurrent) ==>
      psuVoltage.value.numericalValue.Some? && psuCurrent.value.numericalValue.Some? &&
      ledVoltage.value.numericalValue.Some? && ledCurrent.value.numericalValue.Some?
    ensures r.decision == InsufficientData <==> !AllPresent(psuVoltage, psuCurrent, ledVoltage, ledCurrent)
    ensures r.compatible <==> r.decision == Compatible
    ensures r.decision == InsufficientData ==>
      r.confidence == Low && r.details == MissingData(MissingParameters(psuVoltage, psuCurrent, ledVoltage, ledCurrent))
    ensures r.decision != InsufficientData ==>
      var pv, pc := psuVoltage.value, psuCurrent.value;
      var lv, lc := ledVoltage.value, ledCurrent.value;
      && (r.compatible <==>
            Abs(pv.numericalValue.value - lv.numericalValue.value) <= 0.5
            && pc.numericalValue.value >= lc.numericalValue.value)
      && r.details.FullAnalysis?
      && r.details.confidenceScore == MinConfidence(pv.confidence, pc.confidence, lv.confidence, lc.confidence)
      && r.confidence == ConfidenceLevelOf(r.details.confidenceScore)
      && r.details.parameterConfidence == ParameterConfidence(pv.confidence, pc.confidence, lv.confidence, lc.confidence)
      && r.details.voltageAnalysis == CheckVoltageCompatibility(pv.numericalValue.value, lv.numericalValue.value)
      && r.details.currentAnalysis == CheckCurrentCompatibility(pc.numericalValue.value, lc.numericalValue.value)
      && r.details.analysisDetails == DetailedAnalysis(r.details.voltageAnalysis, r.details.currentAnalysis, r.compatible)
  {
    if !AllPresent(psuVoltage, psuCurrent, ledVoltage, ledCurrent) then
      CompatibilityReport(false, InsufficientData, Low, MissingData(MissingParameters(psuVoltage, psuCurrent, ledVoltage, ledCurrent)))
    else
      var pv, pc := psuVoltage.value, psuCurrent.value;
      var lv, lc := ledVoltage.value, ledCurrent.value;
      var voltage := CheckVoltageCompatibility(pv.numericalValue.value, lv.numericalValue.value);
      var current := CheckCurrentCompatibility(pc.numericalValue.value, lc.numericalValue.value);
      var overall := voltage.compatible && current.compatible;
      var score := MinConfidence(pv.confidence, pc.confidence, lv.confidence, lc.confidence);
      CompatibilityReport(
        overall,
        if overall then Compatible else Incompatible,
        ConfidenceLevelOf(score),
        FullAnalysis(
          score, voltage, current,
          ParameterConfidence(pv.confidence, pc.confidence, lv.confidence, lc.confidence),
          DetailedAnalysis(voltage, current, overall)))
  }

  /** A missing parameter is the only way to "Insufficient Data", and it always reports at least one name. */
  lemma InsufficientDataNamesAMissingParameter(
    psuVoltage: Option<ExtractedParameter>, psuCurrent: Option<ExtractedParameter>,
    ledVoltage: Option<ExtractedParameter>, ledCurrent: Option<ExtractedParameter>)
    requires !AllPresent(psuVoltage, psuCurrent, ledVoltage, ledCurrent)
    ensures |AnalyzePsuLedCompatibility(psuVoltage, psuCurrent, ledVoltage, ledCurrent).details.missingParameters| > 0
  {
    var missing := MissingParameters(psuVoltage, psuCurrent, ledVoltage, ledCurrent);
    if psuVoltage.None? { assert PsuVoltage in missing; }
    else if psuCurrent.None? { assert PsuCurrent in missing; }
    else if ledVoltage.None? { assert LedVoltage in missing; }
    else { assert LedCurrent in missing; }
  }

  /**
   * Slots chosen by the extractor score at least 0.7, so a full analysis of
   * them is labelled medium or high, never low.
   */
  lemma ExtractedSlotsNeverLowConfidence(slots: PsuLedParameters)
    requires slots.psuVoltage.Some? ==> slots.psuVoltage.value.confidence >= 0.7
    requires slots.psuCurrent.Some? ==> slots.psuCurrent.value.confidence >= 0.7
    requires slots.ledVoltage.Some? ==> slots.ledVoltage.value.confidence >= 0.7
    requires slots.ledCurrent.Some? ==> slots.ledCurrent.value.confidence >= 0.7
    requires AllPresent(slots.psuVoltage, slots.psuCurrent, slots.ledVoltage, slots.ledCurrent)
    requires slots.psuVoltage.value.numericalValue.Some? && slots.psuCurrent.value.numericalValue.Some?
    requires slots.ledVoltage.value.numericalValue.Some? && slots.ledCurrent.value.numericalValue.Some?
    ensures AnalyzePsuLedCompatibility(slots.psuVoltage, slots.psuCurrent, slots.ledVoltage, slots.ledCurrent).confidence != Low
  {
    var r := AnalyzePsuLedCompatibility(slots.psuVoltage, slots.psuCurrent, slots.ledVoltage, slots.ledCurrent);
    assert r.details.confidenceScore >= 0.7;
  }
}
