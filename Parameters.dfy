/**
 * The data model of the extractor (`ParameterType`, `ExtractedParameter`) and
 * the "running best" selection that both deduplication and the PSU/LED slot
 * selection perform: walk the parameters in order and replace the current
 * holder only by a parameter of STRICTLY higher confidence.
 */
module Parameters {
  import opened Wrappers
  import opened Text
  import opened Roles

  datatype ParameterType = Voltage | Current | Power | Temperature | Frequency | Dimension

  /** The enum's `.value`, used in parameter names. */
  function TypeValue(t: ParameterType): string {
    match t
    case Voltage => "voltage"
    case Current => "current"
    case Power => "power"
    case Temperature => "temperature"
    case Frequency => "frequency"
    case Dimension => "dimension"
  }

  datatype ExtractedParameter = ExtractedParameter(
    name: string,
    value: string,
    numericalValue: Option<real>,
    unit: string,
    confidence: real,
    sourceText: string,
    parameterType: ParameterType)

  /** The deduplication key `(parameter_type, numerical_value, unit.lower())`. */
  datatype ParameterKey = ParameterKey(parameterType: ParameterType, numericalValue: Option<real>, unit: string)

  function KeyOf(p: ExtractedParameter): ParameterKey {
    ParameterKey(p.parameterType, p.numericalValue, Lower(p.unit))
  }

  /** Which parameters compete for one holder. */
  datatype Selector =
    | WithKey(key: ParameterKey)                                   // one dictionary entry of the deduplication
    | WithTypeAndRole(parameterType: ParameterType, role: Role)    // one PSU/LED slot

  predicate Selects(sel: Selector, p: ExtractedParameter) {
    match sel
    case WithKey(k) => KeyOf(p) == k
    case WithTypeAndRole(t, r) => p.parameterType == t && ClassifyRole(p.sourceText) == r
  }

  /**
   * `ps[i]` is what a running best over `ps` ends with: it is selected, no
   * selected parameter has higher confidence, and every selected parameter
   * before it has strictly lower confidence (ties keep the first seen).
   */
  predicate IsBestAt(ps: seq<ExtractedParameter>, sel: Selector, i: int) {
    && 0 <= i < |ps| && Selects(sel, ps[i])
    && (forall j :: 0 <= j < |ps| && Selects(sel, ps[j]) ==> ps[j].confidence <= ps[i].confidence)
    && (forall j :: 0 <= j < i && Selects(sel, ps[j]) ==> ps[j].confidence < ps[i].confidence)
  }

  /**
   * The holder after the loop `if holder is None or p.confidence > holder.confidence: holder = p`
   * over the selected parameters: `None` iff nothing is selected, else the
   * first parameter of maximal confidence.
   */
  function BestWhere(ps: seq<ExtractedParameter>, sel: Selector): (r: Option<ExtractedParameter>)
    ensures r.None? <==> forall j :: 0 <= j < |ps| ==> !Selects(sel, ps[j])
  {
    if ps == [] then None
    else
      var best := BestWhere(ps[..|ps| - 1], sel);
      var p := ps[|ps| - 1];
      if Selects(sel, p) && (best.None? || p.confidence > best.value.confidence) then Some(p) else best
  }

  /** One more step of the running best: `ps[i]` replaces the holder iff it is selected and strictly better. */
  lemma BestWhereNext(ps: seq<ExtractedParameter>, sel: Selector, i: int)
    requires 0 <= i < |ps|
    ensures BestWhere(ps[..i + 1], sel) ==
      (if Selects(sel, ps[i]) && (BestWhere(ps[..i], sel).None? || ps[i].confidence > BestWhere(ps[..i], sel).value.confidence)
       then Some(ps[i]) else BestWhere(ps[..i], sel))
  {
    assert ps[..i + 1][..i] == ps[..i];
  }

  /** When the running best holds a parameter, it is the one `IsBestAt` describes. */
  lemma {:induction false} BestWhereIsBest(ps: seq<ExtractedParameter>, sel: Selector)
    requires BestWhere(ps, sel).Some?
    ensures exists i :: IsBestAt(ps, sel, i) && BestWhere(ps, sel).value == ps[i]
  {
    var n := |ps| - 1;
    var prefix := ps[..n];
    var best := BestWhere(prefix, sel);
    var p := ps[n];
    if Selects(sel, p) && (best.None? || p.confidence > best.value.confidence) {
      if best.Some? {
        BestWhereIsBest(prefix, sel);
        var i :| IsBestAt(prefix, sel, i) && best.value == prefix[i];
        NewBestAtEnd(ps, sel, i);
      } else {
        NewBestAtEnd(ps, sel, -1);
      }
    } else {
      BestWhereIsBest(prefix, sel);
      var i :| IsBestAt(prefix, sel, i) && best.value == prefix[i];
      OldBestKept(ps, sel, i);
    }
  }

  /** A last parameter that beats the prefix's best (index `i`, or -1 for none) is the new best. */
  lemma NewBestAtEnd(ps: seq<ExtractedParameter>, sel: Selector, i: int)
    requires |ps| > 0 && Selects(sel, ps[|ps| - 1])
    requires i == -1 ==> forall j :: 0 <= j < |ps| - 1 ==> !Selects(sel, ps[j])
    requires i != -1 ==> IsBestAt(ps[..|ps| - 1], sel, i) && ps[|ps| - 1].confidence > ps[i].confidence
    ensures IsBestAt(ps, sel, |ps| - 1)
  {
    var n := |ps| - 1;
    forall j | 0 <= j < n && Selects(sel, ps[j]) ensures ps[j].confidence < ps[n].confidence {
      assert ps[..n][j] == ps[j];
    }
  }

  /** A last parameter that does not beat the prefix's best leaves it the best. */
  lemma OldBestKept(ps: seq<ExtractedParameter>, sel: Selector, i: int)
    requires |ps| > 0 && IsBestAt(ps[..|ps| - 1], sel, i)
    requires Selects(sel, ps[|ps| - 1]) ==> ps[|ps| - 1].confidence <= ps[i].confidence
    ensures IsBestAt(ps, sel, i)
  {
    var n := |ps| - 1;
    forall j | 0 <= j < n ensures ps[..n][j] == ps[j] { }
  }

  /** The running best is the unique index of `IsBestAt`: the first maximum. */
  lemma BestWhereIsFirstMaximum(ps: seq<ExtractedParameter>, sel: Selector, i: int)
    requires IsBestAt(ps, sel, i)
    ensures BestWhere(ps, sel) == Some(ps[i])
  {
    BestWhereIsBest(ps, sel);
  }
  /** `ps[i]` is the one parameter of `ps` that `sel` selects. */
  predicate OnlySelectedAt(ps: seq<ExtractedParameter>, sel: Selector, i: int) {
    && 0 <= i < |ps| && Selects(sel, ps[i])
    && forall j :: 0 <= j < |ps| && j != i ==> !Selects(sel, ps[j])
  }

  /** When only `ps[i]` is selected, it is the best. */
  lemma BestWhereOfOnlySelected(ps: seq<ExtractedParameter>, sel: Selector, i: int)
    requires OnlySelectedAt(ps, sel, i)
    ensures BestWhere(ps, sel) == Some(ps[i])
  {
    assert IsBestAt(ps, sel, i);
    BestWhereIsFirstMaximum(ps, sel, i);
  }


  /** The selected value is one of the inputs and is itself selected. */
  lemma BestWhereMember(ps: seq<ExtractedParameter>, sel: Selector)
    requires BestWhere(ps, sel).Some?
    ensures BestWhere(ps, sel).value in ps
    ensures Selects(sel, BestWhere(ps, sel).value)
  {
    BestWhereIsBest(ps, sel);
  }
}
