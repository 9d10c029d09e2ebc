/**
 * The regular-expression engine, kept abstract. The pattern tables of the
 * extractors are data (their source text); what a pattern matches in a text
 * is given by an `Engine`, standing for Python's case-insensitive
 * `re.finditer(pattern, text, re.IGNORECASE)`: the non-overlapping matches,
 * left to right, each with its span, the whole match (group 0) and group 1.
 * `re.search` returns the first of those matches.
 */
module Matching {
  import opened Wrappers

  type Regex = string

  datatype Match = Match(start: nat, end: nat, group0: string, group1: string)

  type Engine = (Regex, string) -> seq<Match>

  predicate ValidMatch(text: string, m: Match) {
    m.start <= m.end <= |text| && m.group0 == text[m.start..m.end]
  }

  /** Every match of `ms` lies inside `text`. */
  predicate AllValid(text: string, ms: seq<Match>) {
    forall i :: 0 <= i < |ms| ==> ValidMatch(text, ms[i])
  }

  /** What `finditer` guarantees: spans inside the text, in order, not overlapping. */
  predicate ValidMatches(text: string, ms: seq<Match>) {
    && (forall i :: 0 <= i < |ms| ==> ValidMatch(text, ms[i]))
    && (forall i, j :: 0 <= i < j < |ms| ==> ms[i].end <= ms[j].start)
  }

  ghost predicate WellFormedEngine(engine: Engine) {
    forall p, text :: ValidMatches(text, engine(p, text))
  }

  /** `re.search(p, text)` finds nothing. */
  predicate NoMatch(engine: Engine, p: Regex, text: string) {
    engine(p, text) == []
  }

  /** `patterns[i]` is the first pattern, in list order, that matches anywhere in `text`. */
  predicate IsFirstMatchingPattern(engine: Engine, patterns: seq<Regex>, text: string, i: nat) {
    i < |patterns| && !NoMatch(engine, patterns[i], text)
    && forall j :: 0 <= j < i ==> NoMatch(engine, patterns[j], text)
  }

  function FirstMatchingPatternFrom(engine: Engine, patterns: seq<Regex>, text: string, from: nat): (r: Option<nat>)
    requires from <= |patterns|
    ensures r.None? <==> forall j :: from <= j < |patterns| ==> NoMatch(engine, patterns[j], text)
    ensures r.Some? ==> from <= r.value < |patterns| && !NoMatch(engine, patterns[r.value], text)
    ensures r.Some? ==> forall j :: from <= j < r.value ==> NoMatch(engine, patterns[j], text)
    decreases |patterns| - from
  {
    if from == |patterns| then None
    else if !NoMatch(engine, patterns[from], text) then Some(from)
    else FirstMatchingPatternFrom(engine, patterns, text, from + 1)
  }

  /**
   * The loop `for pattern in patterns: match = re.search(pattern, text); if match: return match`:
   * the first match of the first pattern that matches anywhere, so an earlier
   * pattern wins over a later one whatever their positions in the text;
   * `None` iff no pattern matches.
   */
  function FirstSearch(engine: Engine, patterns: seq<Regex>, text: string): (r: Option<Match>)
    ensures r.None? <==> forall j :: 0 <= j < |patterns| ==> NoMatch(engine, patterns[j], text)
    ensures r.Some? ==> exists i: nat :: IsFirstMatchingPattern(engine, patterns, text, i) && r.value == engine(patterns[i], text)[0]
  {
    var i := FirstMatchingPatternFrom(engine, patterns, text, 0);
    if i.None? then None
    else
      assert IsFirstMatchingPattern(engine, patterns, text, i.value);
      Some(engine(patterns[i.value], text)[0])
  }
}
