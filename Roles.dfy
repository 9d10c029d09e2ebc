/**
 * Role classification of an extracted parameter by the keywords of its
 * matched text (`_is_psu_parameter`, `_is_led_parameter`): both lower-case
 * the text and look for any indicator as a substring. The PSU indicators are
 * consulted first, so a text naming both roles counts as the PSU's.
 */
module Roles {
  import opened Text

  const PsuIndicators: seq<string> := ["power supply", "psu", "adapter", "charger", "output", "supply unit"]
  const LedIndicators: seq<string> := ["led", "strip", "light", "lamp", "input", "required", "consumption", "draw"]

  /**
   * `_is_psu_parameter`: some PSU indicator occurs in the text, a character
   * of the text matching a character of the indicator once lower-cased.
   */
  predicate IsPsuParameter(sourceText: string): (b: bool)
    ensures b <==> exists k :: 0 <= k < |PsuIndicators| && ContainsLowered(sourceText, PsuIndicators[k])
  {
    ContainsAnyInLower(sourceText, PsuIndicators);
    ContainsAny(Lower(sourceText), PsuIndicators)
  }

  /** `_is_led_parameter`: likewise for the LED indicators. */
  predicate IsLedParameter(sourceText: string): (b: bool)
    ensures b <==> exists k :: 0 <= k < |LedIndicators| && ContainsLowered(sourceText, LedIndicators[k])
  {
    ContainsAnyInLower(sourceText, LedIndicators);
    ContainsAny(Lower(sourceText), LedIndicators)
  }

  datatype Role = Psu | Led | Unclassified

  /** The `if _is_psu_parameter(...) / elif _is_led_parameter(...)` cascade as one value. */
  function ClassifyRole(sourceText: string): (r: Role)
    ensures r == Psu <==> IsPsuParameter(sourceText)
    ensures r == Led <==> !IsPsuParameter(sourceText) && IsLedParameter(sourceText)
    ensures r == Unclassified <==> !IsPsuParameter(sourceText) && !IsLedParameter(sourceText)
  {
    if IsPsuParameter(sourceText) then Psu
    else if IsLedParameter(sourceText) then Led
    else Unclassified
  }

  /** Precedence: any text whose lower-cased form contains "output" is the PSU's, even when it also says "led". */
  lemma OutputKeywordWins(sourceText: string)
    requires Contains(Lower(sourceText), "output")
    ensures ClassifyRole(sourceText) == Psu
  {
    assert PsuIndicators[4] == "output";
  }

  /** A concrete instance of the precedence: "LED Output Voltage: 12V" names both roles and is classified PSU. */
  lemma MixedKeywordsExample()
    ensures IsLedParameter("LED Output Voltage: 12V")
    ensures ClassifyRole("LED Output Voltage: 12V") == Psu
  {
    var low := Lower("LED Output Voltage: 12V");
    assert OccursAt(low, "led", 0) by { assert low[0..3] == "led"; }
    assert LedIndicators[0] == "led";
    assert OccursAt(low, "output", 4) by { assert low[4..10] == "output"; }
    OutputKeywordWins("LED Output Voltage: 12V");
  }
}
