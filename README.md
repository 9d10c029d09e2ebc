# TechspecAnalyzer compatibility core, in Dafny

TechspecAnalyzer reads the text of a technical document describing a power
supply (PSU) and an LED load. It extracts their voltages and currents and
decides whether the supply can drive the load. This project models three
parts of it:

- **The parameter extractor** (`tech-spec-analyzer-pro/ai/parameter_extractor.py`).
  `TechnicalParameterExtractor` runs a table of regular expressions over the
  document. It turns every match into an `ExtractedParameter`: a name, the
  stripped value, a number, a unit, a confidence, the matched text and a
  type. It then removes duplicates. `find_psu_led_parameters` assigns the
  voltage and current parameters to PSU and LED slots by keyword.
  `CompatibilityAnalyzer` checks voltage within 0.5 V and current
  sufficiency, labels the confidence, and writes the analysis lines.
- **The newer service's `/analyze` route** (`tech-spec-analyzer-pro/backend/app.py`).
  It has a first-match-wins `extract_parameter`, an unsigned-decimal
  `extract_numerical_value`, `analyze_compatibility` with a strict 0.1 V
  tolerance, and the block that picks the decision, justification,
  confidence and quoted sections.
- **The older service's `/analyze` route** (`app.py`). It has the same
  helpers, shorter pattern lists, exact voltage equality, and Python
  truthiness on the parsed numbers.

Modules:

- `Text`: character classes, ASCII lower-casing, `str.strip()`, substring search.
- `Numbers`: concrete scanners for `[0-9]+(?:\.[0-9]+)?` and for the range
  pattern. Values are exact reals.
- `Matching`: the regular-expression engine, taken as a parameter
  (`Engine`), and `re.search` over a list of patterns.
- `Roles`: the PSU/LED keyword classification.
- `Parameters`: the parameter record and its deduplication key. `BestWhere`
  is the "keep the first of highest confidence" loop shared by
  deduplication and slot filling.
- `Deduplication`: `_deduplicate_parameters`, as a specification function
  and as the loop over a dictionary.
- `ParameterExtractor`: the pattern table, the per-match computations and
  the extraction loops.
- `CompatibilityAnalyzer`: `CompatibilityAnalyzer`.
- `BackendApp`: the newer route's helpers and decision block.
- `RootApp`: the older route's decision block.

The loops of the source (`_extract_parameter_type`,
`extract_all_parameters`, `_deduplicate_parameters`,
`find_psu_led_parameters`) become methods with loop invariants, proved
equal to a specification function, and the lemmas are about those
functions. `_generate_detailed_analysis` and the two decision blocks have
no loop; they build their result by reassigning local variables step by
step, so they become methods whose `ensures` give the result in terms of
their inputs. The remaining helpers are functions.

## Model

| member | source | states |
|---|---|---|
| Text.Strip | tech-spec-analyzer-pro/ai/parameter_extractor.py:120 | `str.strip()` gives a slice of its input that neither starts nor ends with whitespace, and everything before and after that slice is whitespace |
| Text.ContainsInLower | tech-spec-analyzer-pro/ai/parameter_extractor.py:238 | a word occurs in the lower-cased text iff it occurs in the text with each character compared after lower-casing |
| Text.Lower | tech-spec-analyzer-pro/ai/parameter_extractor.py:238 | lower-casing keeps the length and maps each character through ASCII lower-casing |
| Matching.FirstSearch | tech-spec-analyzer-pro/backend/app.py:17-21 | the search over a pattern list finds nothing iff no pattern matches. Otherwise it gives the first match of the first pattern, in list order, that matches anywhere |
| Numbers.NumberFrom | tech-spec-analyzer-pro/backend/app.py:27-28 | scanning for a decimal from a position gives `None` iff no digit follows. Otherwise it gives the value of the greedy token at the first digit |
| Numbers.FirstNumber | tech-spec-analyzer-pro/ai/parameter_extractor.py:154-155 | the leftmost unsigned decimal: `None` iff the text has no digit, otherwise the token at the first digit, never negative |
| Numbers.RangeAt | tech-spec-analyzer-pro/ai/parameter_extractor.py:149 | the range pattern can only match at a digit, and its group 1 is the number token there |
| Numbers.RangeFrom | tech-spec-analyzer-pro/ai/parameter_extractor.py:149-151 | the range search gives `None` iff the range pattern matches at no later start. Otherwise it gives the range at the leftmost start where it matches |
| Numbers.FirstRange | tech-spec-analyzer-pro/ai/parameter_extractor.py:149-151 | the lower bound of the leftmost range, `None` iff no range occurs, never negative |
| Numbers.NatToStringRoundTrip | tech-spec-analyzer-pro/ai/parameter_extractor.py:130 | reading back the rendered counter gives the counter (`int(str(n)) == n`) |
| Numbers.NatToStringInjective | tech-spec-analyzer-pro/ai/parameter_extractor.py:130 | different counters render differently |
| Numbers.FirstNumberAt | tech-spec-analyzer-pro/ai/parameter_extractor.py:154-155 | the first digit alone determines the leftmost number |
| Numbers.FirstRangeAt | tech-spec-analyzer-pro/ai/parameter_extractor.py:149-151 | the first start where the range pattern matches alone determines the range |
| Numbers.LeadingWholeNumber | tech-spec-analyzer-pro/backend/app.py:27-28 | a text that opens with a digit run not followed by a fraction reads as that whole number |
| Numbers.PlainVoltageNumber | tech-spec-analyzer-pro/ai/parameter_extractor.py:154-155 | "12V DC" reads as 12 |
| Numbers.PlainVoltageNoRange | tech-spec-analyzer-pro/ai/parameter_extractor.py:149-150 | "12V DC" holds no range |
| Numbers.RangeAfterNumberRange | tech-spec-analyzer-pro/ai/parameter_extractor.py:149-151 | in "3V 5-12" the range found is the one starting at 5, not the earlier plain 3 |
| Numbers.TemperatureRangeNoRange | tech-spec-analyzer-pro/ai/parameter_extractor.py:149-150 | "-20°C to 85°C" holds no range, because the unit sits between the bound and "to" |
| Numbers.TemperatureRangeNumber | tech-spec-analyzer-pro/ai/parameter_extractor.py:154-155 | the leftmost number of "-20°C to 85°C" is 20: no pattern reads a sign |
| Roles.ClassifyRole | tech-spec-analyzer-pro/ai/parameter_extractor.py:210-223 | a text is the PSU's iff it names a PSU indicator. It is the LED's iff it names an LED indicator and no PSU one. Otherwise it is unclassified |
| Roles.IsPsuParameter | tech-spec-analyzer-pro/ai/parameter_extractor.py:233-238 | a parameter is the PSU's iff its source text, compared after lower-casing, contains one of the PSU indicators |
| Roles.IsLedParameter | tech-spec-analyzer-pro/ai/parameter_extractor.py:240-245 | a parameter is the LED's iff its source text, compared after lower-casing, contains one of the LED indicators |
| Roles.OutputKeywordWins | tech-spec-analyzer-pro/ai/parameter_extractor.py:233-238 | any text containing "output" in any case is classified PSU, whatever else it names |
| Roles.MixedKeywordsExample | tech-spec-analyzer-pro/ai/parameter_extractor.py:233-245 | "LED Output Voltage: 12V" names an LED indicator yet is classified PSU |
| Parameters.BestWhere | tech-spec-analyzer-pro/ai/parameter_extractor.py:211-215 | the running best is `None` iff no parameter is selected |
| Parameters.BestWhereNext | tech-spec-analyzer-pro/ai/parameter_extractor.py:211-212 | one step of the loop: the next parameter replaces the holder iff it is selected and the holder is empty or strictly less confident |
| Parameters.BestWhereIsBest | tech-spec-analyzer-pro/ai/parameter_extractor.py:193-194 | a filled holder is a selected parameter. No selected parameter is more confident, and every selected one before it is strictly less confident |
| Parameters.BestWhereIsFirstMaximum | tech-spec-analyzer-pro/ai/parameter_extractor.py:193-194 | conversely, the first selected parameter of maximal confidence is what the loop ends with |
| Parameters.NewBestAtEnd | tech-spec-analyzer-pro/ai/parameter_extractor.py:193-194 | a last parameter that strictly beats the previous best becomes the best |
| Parameters.OldBestKept | tech-spec-analyzer-pro/ai/parameter_extractor.py:193-194 | a last parameter that does not strictly beat the previous best leaves it the best (ties keep the first) |
| Parameters.BestWhereOfOnlySelected | tech-spec-analyzer-pro/ai/parameter_extractor.py:193-194 | when only one parameter is selected, it is the best |
| Parameters.BestWhereMember | tech-spec-analyzer-pro/ai/parameter_extractor.py:211-223 | the holder's value is one of the inputs and is itself selected |
| Deduplication.FirstKeys | tech-spec-analyzer-pro/ai/parameter_extractor.py:188-196 | the dictionary's keys in insertion order: exactly the input's keys, each once |
| Deduplication.Dedup | tech-spec-analyzer-pro/ai/parameter_extractor.py:186-196 | one result per distinct key, in key order, each one of the inputs carrying that key |
| Deduplication.DedupKeysDistinct | tech-spec-analyzer-pro/ai/parameter_extractor.py:191-196 | no two results share the key (type, number, lower-cased unit) |
| Deduplication.DedupCoversEveryKey | tech-spec-analyzer-pro/ai/parameter_extractor.py:190-194 | every input's key is represented in the result |
| Deduplication.DedupKeepsBest | tech-spec-analyzer-pro/ai/parameter_extractor.py:193-194 | each result is the first input of maximal confidence among those with its key |
| Deduplication.DedupKeepsFirstOccurrenceOrder | tech-spec-analyzer-pro/ai/parameter_extractor.py:196 | results appear in the order in which their keys first occur in the input |
| Deduplication.DedupOfDistinct | tech-spec-analyzer-pro/ai/parameter_extractor.py:186-196 | a list without repeated keys comes back unchanged |
| Deduplication.DedupIdempotent | tech-spec-analyzer-pro/ai/parameter_extractor.py:186-196 | deduplicating twice is deduplicating once |
| Deduplication.DedupStateNext | tech-spec-analyzer-pro/ai/parameter_extractor.py:190-194 | one loop step: a new key is appended to the insertion order, and the entry is replaced iff the key is new or the confidence is strictly higher |
| Deduplication.DedupStateValues | tech-spec-analyzer-pro/ai/parameter_extractor.py:196 | reading the dictionary's values in insertion order gives `Dedup` |
| Deduplication.DeduplicateParameters | tech-spec-analyzer-pro/ai/parameter_extractor.py:186-196 | the dictionary loop returns exactly `Dedup` of its input |
| ParameterExtractor.ExtractNumericalValue | tech-spec-analyzer-pro/ai/parameter_extractor.py:143-155 | `None` iff the text has no digit (the empty text included). Otherwise it gives the lower bound of the leftmost range if one occurs anywhere, else the leftmost number, never negative |
| ParameterExtractor.NumericalValueOfPlainVoltage | tech-spec-analyzer-pro/ai/parameter_extractor.py:143-155 | "12V DC" gives 12 |
| ParameterExtractor.NumericalValueRangeWins | tech-spec-analyzer-pro/ai/parameter_extractor.py:148-151 | a range later in the text beats an earlier plain number: "3V 5-12" gives 5, not 3 |
| ParameterExtractor.NumericalValueOfTemperatureRange | tech-spec-analyzer-pro/ai/parameter_extractor.py:143-155 | "-20°C to 85°C" gives 20 |
| ParameterExtractor.ExtractUnit | tech-spec-analyzer-pro/ai/parameter_extractor.py:157-163 | "" when no unit pattern matches. Otherwise it gives group 1 of the first match of the first unit pattern that matches |
| ParameterExtractor.ContextWindow | tech-spec-analyzer-pro/ai/parameter_extractor.py:170-172 | the context window never exceeds the document |
| ParameterExtractor.ContextWindowAroundMatch | tech-spec-analyzer-pro/ai/parameter_extractor.py:170-172 | for a match inside the document, the window is the slice from up to 100 characters before the match to up to 100 characters after it: it holds the matched text at that offset, and its length is min(100, start) + the match's length + min(100, |text| - end) |
| ParameterExtractor.CalculateConfidence | tech-spec-analyzer-pro/ai/parameter_extractor.py:165-184 | the confidence is exactly min(1, 0.6 + 0.15 (structure keyword in the window) + 0.1 (list marker in the window) + boost), so it lies between min(1, 0.6 + boost) and 1 |
| ParameterExtractor.ParameterNamesDistinct | tech-spec-analyzer-pro/ai/parameter_extractor.py:130 | parameters of one type with different counters get different names |
| ParameterExtractor.GroupParametersShape | tech-spec-analyzer-pro/ai/parameter_extractor.py:116-139 | a group yields one parameter per match (pattern order, then text order). The k-th is named "<type>_k", carries its match as source text and its stripped group 1 as value, has the number and unit read from that value and the confidence `CalculateConfidence` gives its match, within the confidence bounds |
| ParameterExtractor.PatternMatchesNext | tech-spec-analyzer-pro/ai/parameter_extractor.py:116-119 | the matches of one more pattern come after those of the earlier patterns |
| ParameterExtractor.BuildNextMatch | tech-spec-analyzer-pro/ai/parameter_extractor.py:119-139 | one more match appends one parameter, numbered by the list's current length |
| ParameterExtractor.BuildParameter | tech-spec-analyzer-pro/ai/parameter_extractor.py:119-137 | the parameter built from one match is named "<type>_<index>", quotes the whole match, and its value is group 1 with whitespace removed from both ends and only there. Its number is `ExtractNumericalValue` of the value (`None` iff the value has no digit, never negative), its unit is `ExtractUnit` of the value under the group's unit patterns, and its confidence is `CalculateConfidence` of the match (between min(1, 0.6 + boost) and 1) |
| ParameterExtractor.GroupParametersQuoteDocument | tech-spec-analyzer-pro/ai/parameter_extractor.py:116-139 | with a well-formed engine, every parameter of a group quotes the document exactly at the start of the match it came from |
| ParameterExtractor.ExtractParameterType | tech-spec-analyzer-pro/ai/parameter_extractor.py:111-141 | the nested loop returns exactly the group's parameters |
| ParameterExtractor.TypeParametersOfPrefix | tech-spec-analyzer-pro/ai/parameter_extractor.py:103-107 | the candidates of one more group of a type are the earlier ones followed by that group's |
| ParameterExtractor.CandidatesNext | tech-spec-analyzer-pro/ai/parameter_extractor.py:102-107 | after all groups of a table entry, the list holds the candidates of the entries so far |
| ParameterExtractor.ExtractAllParameters | tech-spec-analyzer-pro/ai/parameter_extractor.py:98-109 | returns exactly the deduplication of every group's parameters, in table order |
| ParameterExtractor.TypeParametersConfidenceFloor | tech-spec-analyzer-pro/ai/parameter_extractor.py:125-127 | with every group boosted by at least b, each candidate of the type scores between 0.6 + b and 1 |
| ParameterExtractor.CandidatesConfidenceFloor | tech-spec-analyzer-pro/ai/parameter_extractor.py:102-107 | the same floor holds for every candidate of that type across the whole table |
| ParameterExtractor.ExtractionPatternsBoosts | tech-spec-analyzer-pro/ai/parameter_extractor.py:37-96 | the extractor's own table boosts every voltage and current group by 0.1 |
| ParameterExtractor.ExtractedVoltageAndCurrentConfidence | tech-spec-analyzer-pro/ai/parameter_extractor.py:98-109 | under such a table, every deduplicated voltage or current parameter scores between 0.7 and 1 |
| ParameterExtractor.FindPsuLedParameters | tech-spec-analyzer-pro/ai/parameter_extractor.py:198-231 | returns all deduplicated parameters. Each slot holds the first most confident voltage/current parameter of its role, `None` iff there is none. Under the extractor's boosts a filled slot scores at least 0.7 |
| ParameterExtractor.SlotConfidence | tech-spec-analyzer-pro/ai/parameter_extractor.py:208-223 | a slot filled from parameters that all score at least 0.7 scores at least 0.7 |
| CompatibilityAnalyzer.CheckVoltageCompatibility | tech-spec-analyzer-pro/ai/parameter_extractor.py:312-325 | compatible iff the supply's voltage is within 0.5 V of the load's, either side. The difference is the absolute difference |
| CompatibilityAnalyzer.VoltageCompatibilitySymmetric | tech-spec-analyzer-pro/ai/parameter_extractor.py:314-316 | swapping the voltages changes neither verdict nor difference |
| CompatibilityAnalyzer.CheckCurrentCompatibility | tech-spec-analyzer-pro/ai/parameter_extractor.py:327-339 | compatible iff the supply's current is at least the load's. The margin is the surplus relative to a positive load, else 0, and the percentage is 100 times it |
| CompatibilityAnalyzer.CurrentMarginSign | tech-spec-analyzer-pro/ai/parameter_extractor.py:329-330 | for a positive load the margin is non-negative iff the pair is compatible |
| CompatibilityAnalyzer.ConfidenceLevelOf | tech-spec-analyzer-pro/ai/parameter_extractor.py:292 | High iff above 0.8, Medium iff in (0.6, 0.8], Low iff at most 0.6 |
| CompatibilityAnalyzer.ConfidenceLevelMonotone | tech-spec-analyzer-pro/ai/parameter_extractor.py:292 | a higher score never gets a lower label |
| CompatibilityAnalyzer.MinConfidence | tech-spec-analyzer-pro/ai/parameter_extractor.py:287-290 | the overall score is at most each confidence and equal to one of them |
| CompatibilityAnalyzer.MissingParameters | tech-spec-analyzer-pro/ai/parameter_extractor.py:260-264 | each parameter is listed iff it is absent, in the order PSU voltage, PSU current, LED voltage, LED current |
| CompatibilityAnalyzer.DetailedAnalysis | tech-spec-analyzer-pro/ai/parameter_extractor.py:341-359 | three lines: voltage match iff the voltage check passed, current sufficient iff the current check passed, then the conclusion |
| CompatibilityAnalyzer.GenerateDetailedAnalysis | tech-spec-analyzer-pro/ai/parameter_extractor.py:341-359 | the appending method returns exactly `DetailedAnalysis` |
| CompatibilityAnalyzer.AnalyzePsuLedCompatibility | tech-spec-analyzer-pro/ai/parameter_extractor.py:253-310 | "Insufficient Data" iff a parameter is missing, with Low confidence and the missing list. Otherwise compatible iff the voltages differ by at most 0.5 and the supply's current suffices. The score is the minimum confidence and the label follows it |
| CompatibilityAnalyzer.InsufficientDataNamesAMissingParameter | tech-spec-analyzer-pro/ai/parameter_extractor.py:259-272 | an "Insufficient Data" report always names at least one missing parameter |
| CompatibilityAnalyzer.ExtractedSlotsNeverLowConfidence | tech-spec-analyzer-pro/ai/parameter_extractor.py:287-292 | a full analysis of slots scoring at least 0.7 is labelled Medium or High, never Low |
| BackendApp.ExtractParameter | tech-spec-analyzer-pro/backend/app.py:15-21 | `None` iff no pattern matches. Otherwise it gives the stripped group 1 of the first match of the first matching pattern, with no whitespace at either end. The older service's `extract_parameter` (app.py:12-18) is the same function |
| BackendApp.ExtractNumericalValue | tech-spec-analyzer-pro/backend/app.py:23-28 | `None` iff the text has no digit. Otherwise it gives the token at the first digit, never negative. The older service's `extract_numerical_value` (app.py:20-25) is the same function |
| BackendApp.NumericalValueAgreesWithExtractor | tech-spec-analyzer-pro/backend/app.py:23-28 | on a text without a range, the route's parser and the extractor's agree |
| BackendApp.NumericalValueDiffersFromExtractorOnRange | tech-spec-analyzer-pro/backend/app.py:27 | on "3V 5-12" the route reads 3 while the extractor reads 5 |
| BackendApp.AnalyzeCompatibility | tech-spec-analyzer-pro/backend/app.py:30-58 | with a value missing, nothing holds and the reason says so. Otherwise voltages match iff they differ by less than 0.1, current suffices iff the supply's is at least the load's, and compatible iff both hold |
| BackendApp.OrNotFound | tech-spec-analyzer-pro/backend/app.py:116-121 | a found string is reported as itself, a missing or empty one as "Not Found" |
| BackendApp.ReferencedSections | tech-spec-analyzer-pro/backend/app.py:146-151 | four sections, each quoting its hit after its label |
| BackendApp.JoinOneOrTwo | tech-spec-analyzer-pro/backend/app.py:165 | joining one clause gives it back, and joining two puts the separator between them |
| BackendApp.ExplainIncompatibility | tech-spec-analyzer-pro/backend/app.py:160-165 | the justification names the voltage mismatch and the insufficient current, in that order, each exactly when it occurs |
| BackendApp.DecideCompatibility | tech-spec-analyzer-pro/backend/app.py:116-187 | the response reports the four hits or "Not Found" and whether all were found. Without four hits: "Not Explicitly Covered", Low. With four: Compatible/High/the four sections iff the numeric check passes, else "Not Explicitly Covered"/Medium. The answer is never "Incompatible" |
| BackendApp.MismatchIsNotReported | tech-spec-analyzer-pro/backend/app.py:135-169 | "12V DC"/"5 Amps" against "24V DC"/"2 Amps" parse to 12, 5, 24, 2 and fail the voltage check, and every response the block as written gives for them is "Not Explicitly Covered" with the no-numerical-analysis justification, Medium confidence and no sections |
| BackendApp.FailedCheckNotReported | tech-spec-analyzer-pro/backend/app.py:145-169 | four hits whose numbers fail the numeric check are answered "Not Explicitly Covered" with Medium confidence and no sections |
| BackendApp.DecideCompatibilityIntended | tech-spec-analyzer-pro/backend/app.py:145-169 | corrected block: the response reports the four hits or "Not Found" and whether all were found; once the numbers parse, High confidence and the four sections, "Compatible" iff the check passes, else "Incompatible" with the failing checks named. Only a missing number gives "Not Explicitly Covered"/Medium |
| BackendApp.Analyze | tech-spec-analyzer-pro/backend/app.py:66-190 | the response is the decision table of `DecideCompatibility` (`AsWrittenOutcome`) applied to the four first-match searches over the document with this service's pattern lists. "Compatible" implies all found and High. The answer is never "Incompatible" |
| RootApp.DecideCompatibility | app.py:79-146 | the response reports the four hits or "Not Found". Without four hits: "Not Explicitly Covered", Low. With four whose numbers are all non-zero: High, the four sections, and "Compatible" iff the voltages are equal and the current suffices, else "Incompatible" naming each failed check in order. Otherwise "Not Explicitly Covered", Medium |
| RootApp.DecideOnSections | app.py:95-132 | the same table for the part that runs once all four hits are found |
| RootApp.Analyze | app.py:33-149 | the response is the decision table of `DecideCompatibility` (`RootOutcome`, with `SectionsOutcome` for four hits) applied to the four first-match searches over the document with this service's pattern lists. Any decision other than "Not Explicitly Covered" carries High confidence and four quoted sections |

## Left out

- The web layer is not modelled: Flask routing, request/JSON plumbing, logging, the secret key, `config/settings.py`, `backend/database.py`, `backend/models.py` and both `main.py` files.
- Regular expressions are not executed. Each pattern is data (its source text). What it matches is an `Engine` parameter standing for case-insensitive `re.finditer`, and `re.search` is the engine's first match. The two numeric patterns and the confidence keyword/list-marker patterns are modelled concretely.
- Characters are ASCII: `\d` and `[0-9]` accept ASCII digits only, and case folding is ASCII lower-casing. Unicode digits and full Unicode case rules are not modelled.
- Numbers are exact reals. `float()` rounding and binary floating point are not modelled. In particular, a voltage difference that lands exactly on the 0.5 V or 0.1 V tolerance is compared exactly.
- The f-string renderings of numbers in the analysis texts (`{psu_voltage}V`, `{difference:.1f}`, `{safety_margin*100:.1f}%`) are not modelled. An analysis line is kept as structured data carrying its verdict and the numbers it would print.
- Both `except` handlers in the two routes and the "Error" response are not modelled. With the helpers modelled as total functions, nothing in the decision blocks raises.
- `analyze_compatibility`'s "Invalid parameter types" branch is not modelled. The parsed values are always numbers or `None`, so it cannot be taken.
- CompatibilityAnalyzer.AnalyzePsuLedCompatibility: requires a number on each of the four parameters when all four are present. With a present parameter that has no number, the source raises a `TypeError` in the subtraction, and that path is not modelled.
- ParameterExtractor.FindPsuLedParameters: the 0.7 confidence floor is stated for tables that boost every voltage and current group by at least 0.1. `ExtractionPatternsBoosts` proves that the extractor's own table does.
- `extraction_patterns` is a constant built once in the constructor and never changed. The extractor's methods are therefore functions and methods that take the table as a parameter, and `ExtractionPatterns` holds the table. The logger, the extractor's only other field, is not modelled.
- Signs of temperatures: the temperature patterns (tech-spec-analyzer-pro/ai/parameter_extractor.py:78-80) capture a leading '-' with `[0-9-]+`, but neither pattern of `_extract_numerical_value` (lines 149 and 154) reads a sign, so the number of "-20°C to 85°C" is 20, and the degree sign after 20 keeps the range pattern from matching (`ParameterExtractor.NumericalValueOfTemperatureRange`). The model keeps this; it does not guess a signed reading the code does not have.

## Findings

| source | as written | input that shows it | evidently intended | confidence | as-written member | corrected member |
|---|---|---|---|---|---|---|
| tech-spec-analyzer-pro/backend/app.py:145-169 | The "Incompatible" branch is nested inside `if compatibility_result["compatible"]`, and compatible already implies both checks hold, so that branch is unreachable. Any pair whose numbers parse but fail a check is answered "Not Explicitly Covered" with "could not perform numerical analysis" and Medium confidence. | PSU "12V DC" and "5 Amps", LED "24V DC" and "2 Amps" | "Incompatible" with High confidence, the four quoted sections and a voltage-mismatch justification, as the older route does | not executed | BackendApp.MismatchIsNotReported (its contract states the as-written answer for this input; BackendApp.DecideCompatibility proves the answer is never "Incompatible") | BackendApp.DecideCompatibilityIntended |
