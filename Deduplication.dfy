/**
 * `_deduplicate_parameters`: a dictionary from the key
 * `(parameter_type, numerical_value, unit.lower())` to the parameter kept for
 * it. A parameter is stored when its key is new or when its confidence is
 * strictly higher than the stored one's; the result is the dictionary's values
 * in insertion order, which for a Python dict is the order in which each key
 * was FIRST inserted (overwriting a key keeps its place).
 */
module Deduplication {
  import opened Wrappers
  import opened Parameters

  /** The distinct keys of `ps` in order of first occurrence: the dictionary's key order. */
  function FirstKeys(ps: seq<ExtractedParameter>): (ks: seq<ParameterKey>)
    ensures |ks| <= |ps|
    ensures forall k :: k in ks <==> exists j :: 0 <= j < |ps| && KeyOf(ps[j]) == k
    ensures forall a, b :: 0 <= a < b < |ks| ==> ks[a] != ks[b]
  {
    if ps == [] then []
    else
      var prefix := ps[..|ps| - 1];
      var prev := FirstKeys(prefix);
      var k := KeyOf(ps[|ps| - 1]);
      assert forall j :: 0 <= j < |prefix| ==> prefix[j] == ps[j];
      if k in prev then prev else prev + [k]
  }

  /** The dictionary entry for key `k` once every parameter has been seen. */
  function KeptFor(ps: seq<ExtractedParameter>, k: ParameterKey): (p: ExtractedParameter)
    requires k in FirstKeys(ps)
    ensures KeyOf(p) == k && p in ps
  {
    var j :| 0 <= j < |ps| && KeyOf(ps[j]) == k;
    assert Selects(WithKey(k), ps[j]);
    BestWhereMember(ps, WithKey(k));
    BestWhere(ps, WithKey(k)).value
  }

  /** The deduplicated list: for each key, in first-occurrence order, the best parameter with that key. */
  function Dedup(ps: seq<ExtractedParameter>): (out: seq<ExtractedParameter>)
    ensures |out| == |FirstKeys(ps)| <= |ps|
    ensures forall i :: 0 <= i < |out| ==> KeyOf(out[i]) == FirstKeys(ps)[i] && out[i] in ps
  {
    var ks := FirstKeys(ps);
    seq(|ks|, i requires 0 <= i < |ks| => KeptFor(ps, ks[i]))
  }

  /** No two results share a key. */
  lemma DedupKeysDistinct(ps: seq<ExtractedParameter>)
    ensures forall a, b :: 0 <= a < b < |Dedup(ps)| ==> KeyOf(Dedup(ps)[a]) != KeyOf(Dedup(ps)[b])
  {
  }

  /** Every input's key is represented in the result. */
  lemma DedupCoversEveryKey(ps: seq<ExtractedParameter>, j: int)
    requires 0 <= j < |ps|
    ensures exists i :: 0 <= i < |Dedup(ps)| && KeyOf(Dedup(ps)[i]) == KeyOf(ps[j])
  {
    var ks := FirstKeys(ps);
    assert KeyOf(ps[j]) in ks;
    var i :| 0 <= i < |ks| && ks[i] == KeyOf(ps[j]);
    assert KeyOf(Dedup(ps)[i]) == KeyOf(ps[j]);
  }

  /**
   * Each result is the first parameter of maximal confidence among the
   * inputs with its key (a later equal-confidence duplicate does not replace it).
   */
  lemma DedupKeepsBest(ps: seq<ExtractedParameter>, i: int)
    requires 0 <= i < |Dedup(ps)|
    ensures exists a :: IsBestAt(ps, WithKey(KeyOf(Dedup(ps)[i])), a) && Dedup(ps)[i] == ps[a]
  {
    BestWhereIsBest(ps, WithKey(FirstKeys(ps)[i]));
  }

  /** Index `a` holds the first occurrence of key `k` in `ps`. */
  predicate IsFirstOccurrence(ps: seq<ExtractedParameter>, k: ParameterKey, a: int) {
    0 <= a < |ps| && KeyOf(ps[a]) == k && forall b :: 0 <= b < a ==> KeyOf(ps[b]) != k
  }

  /** Output order: the results appear in the order in which their keys first occur in the input. */
  lemma {:induction false} DedupKeepsFirstOccurrenceOrder(ps: seq<ExtractedParameter>, i: int, j: int, a: int, b: int)
    requires 0 <= i < j < |Dedup(ps)|
    requires IsFirstOccurrence(ps, KeyOf(Dedup(ps)[i]), a)
    requires IsFirstOccurrence(ps, KeyOf(Dedup(ps)[j]), b)
    ensures a < b
  {
    FirstKeysOrder(ps, i, j, a, b);
  }

  lemma {:induction false} FirstKeysOrder(ps: seq<ExtractedParameter>, i: int, j: int, a: int, b: int)
    requires 0 <= i < j < |FirstKeys(ps)|
    requires IsFirstOccurrence(ps, FirstKeys(ps)[i], a)
    requires IsFirstOccurrence(ps, FirstKeys(ps)[j], b)
    ensures a < b
  {
    var n := |ps| - 1;
    var prefix := ps[..n];
    var prev := FirstKeys(prefix);
    var ks := FirstKeys(ps);
    assert forall m :: 0 <= m < n ==> prefix[m] == ps[m];
    if j < |prev| {
      // both keys already occur in the prefix, and so do their first occurrences
      assert ks[i] == prev[i] && ks[j] == prev[j];
      assert a < n by {
        var w :| 0 <= w < |prefix| && KeyOf(prefix[w]) == prev[i];
        assert KeyOf(ps[w]) == ks[i];
      }
      assert b < n by {
        var w :| 0 <= w < |prefix| && KeyOf(prefix[w]) == prev[j];
        assert KeyOf(ps[w]) == ks[j];
      }
      assert IsFirstOccurrence(prefix, prev[i], a);
      assert IsFirstOccurrence(prefix, prev[j], b);
      FirstKeysOrder(prefix, i, j, a, b);
    } else {
      // the key at j is the last parameter's, new to the prefix: its first occurrence is n
      assert ks == prev + [KeyOf(ps[n])] && j == |prev|;
      assert forall m :: 0 <= m < n ==> KeyOf(ps[m]) != ks[j];
      assert b == n;
      assert a < n by {
        var w :| 0 <= w < |prefix| && KeyOf(prefix[w]) == prev[i];
        assert KeyOf(ps[w]) == ks[i];
      }
    }
  }

  /** Keys are distinct in `ps`. */
  predicate DistinctKeys(ps: seq<ExtractedParameter>) {
    forall a, b :: 0 <= a < b < |ps| ==> KeyOf(ps[a]) != KeyOf(ps[b])
  }

  lemma {:induction false} FirstKeysOfDistinct(ps: seq<ExtractedParameter>)
    requires DistinctKeys(ps)
    ensures |FirstKeys(ps)| == |ps|
    ensures forall i :: 0 <= i < |ps| ==> FirstKeys(ps)[i] == KeyOf(ps[i])
  {
    if ps != [] {
      var n := |ps| - 1;
      var prefix := ps[..n];
      assert DistinctKeys(prefix) by {
        forall a, b | 0 <= a < b < |prefix| ensures KeyOf(prefix[a]) != KeyOf(prefix[b]) {
          assert prefix[a] == ps[a] && prefix[b] == ps[b];
        }
      }
      FirstKeysOfDistinct(prefix);
      assert KeyOf(ps[n]) !in FirstKeys(prefix) by {
        forall m | 0 <= m < n ensures KeyOf(prefix[m]) != KeyOf(ps[n]) {
          assert prefix[m] == ps[m];
        }
      }
    }
  }

  /** A list without repeated keys is left unchanged. */
  lemma DedupOfDistinct(ps: seq<ExtractedParameter>)
    requires DistinctKeys(ps)
    ensures Dedup(ps) == ps
  {
    FirstKeysOfDistinct(ps);
    var out := Dedup(ps);
    forall i | 0 <= i < |ps| ensures out[i] == ps[i] {
      OnlyParameterWithItsKey(ps, i);
    }
  }

  lemma DistinctKeysDiffer(ps: seq<ExtractedParameter>, i: int, j: int)
    requires DistinctKeys(ps) && 0 <= i < |ps| && 0 <= j < |ps| && i != j
    ensures KeyOf(ps[i]) != KeyOf(ps[j])
  {
    if j < i {
      assert KeyOf(ps[j]) != KeyOf(ps[i]);
    }
  }

  /** Without repeated keys, each parameter is the best, and only, one with its key. */
  lemma OnlyParameterWithItsKey(ps: seq<ExtractedParameter>, i: int)
    requires DistinctKeys(ps) && 0 <= i < |ps|
    ensures BestWhere(ps, WithKey(KeyOf(ps[i]))) == Some(ps[i])
  {
    OnlyOneWithItsKey(ps, i);
    BestWhereOfOnlySelected(ps, WithKey(KeyOf(ps[i])), i);
  }

  lemma OnlyOneWithItsKey(ps: seq<ExtractedParameter>, i: int)
    requires DistinctKeys(ps) && 0 <= i < |ps|
    ensures OnlySelectedAt(ps, WithKey(KeyOf(ps[i])), i)
  {
    forall j | 0 <= j < |ps| && j != i ensures KeyOf(ps[j]) != KeyOf(ps[i]) {
      DistinctKeysDiffer(ps, i, j);
    }
  }


  /** Deduplicating twice is deduplicating once. */
  lemma DedupIdempotent(ps: seq<ExtractedParameter>)
    ensures Dedup(Dedup(ps)) == Dedup(ps)
  {
    DedupKeysDistinct(ps);
    DedupOfDistinct(Dedup(ps));
  }

  /**
   * The loop of `_deduplicate_parameters`, with the dictionary as its key
   * order `order` and its contents `seenValues`.
   */
  /** What the dictionary holds after the parameters `ps`: its keys in insertion order, and each key's best. */
  ghost predicate DedupState(ps: seq<ExtractedParameter>, order: seq<ParameterKey>, seenValues: map<ParameterKey, ExtractedParameter>) {
    order == FirstKeys(ps) && SameKeys(seenValues, order) && BestByKey(ps, seenValues)
  }

  /** The dictionary's keys are those of the insertion order. */
  ghost predicate SameKeys(seenValues: map<ParameterKey, ExtractedParameter>, order: seq<ParameterKey>) {
    forall k :: k in seenValues <==> k in order
  }

  /** Each stored entry is the running best of its key. */
  ghost predicate BestByKey(ps: seq<ExtractedParameter>, seenValues: map<ParameterKey, ExtractedParameter>) {
    forall k :: k in seenValues ==> BestWhere(ps, WithKey(k)) == Some(seenValues[k])
  }

  lemma FirstKeysNext(ps: seq<ExtractedParameter>, i: nat)
    requires i < |ps|
    ensures FirstKeys(ps[..i + 1]) ==
      if KeyOf(ps[i]) in FirstKeys(ps[..i]) then FirstKeys(ps[..i]) else FirstKeys(ps[..i]) + [KeyOf(ps[i])]
  {
    assert ps[..i + 1][..i] == ps[..i];
  }

  lemma UnseenKeyHasNoBest(ps: seq<ExtractedParameter>, k: ParameterKey)
    requires k !in FirstKeys(ps)
    ensures BestWhere(ps, WithKey(k)).None?
  {
  }

  /** One more parameter changes the running best of its own key only. */
  lemma BestByKeyNext(ps: seq<ExtractedParameter>, i: nat, seenValues: map<ParameterKey, ExtractedParameter>)
    requires i < |ps| && BestByKey(ps[..i], seenValues)
    requires KeyOf(ps[i]) !in seenValues ==> BestWhere(ps[..i], WithKey(KeyOf(ps[i]))).None?
    ensures
      var key := KeyOf(ps[i]);
      BestByKey(ps[..i + 1],
        if key !in seenValues || ps[i].confidence > seenValues[key].confidence then seenValues[key := ps[i]] else seenValues)
  {
    forall k {
      BestWhereNext(ps, WithKey(k), i);
    }
  }

  /** One more parameter: a new key is appended, and the stored entry is replaced exactly when the key is new or the confidence is higher. */
  lemma DedupStateNext(ps: seq<ExtractedParameter>, i: nat, order: seq<ParameterKey>, seenValues: map<ParameterKey, ExtractedParameter>)
    requires i < |ps| && DedupState(ps[..i], order, seenValues)
    ensures
      var key := KeyOf(ps[i]);
      DedupState(ps[..i + 1],
        if key !in seenValues then order + [key] else order,
        if key !in seenValues || ps[i].confidence > seenValues[key].confidence then seenValues[key := ps[i]] else seenValues)
  {
    var key := KeyOf(ps[i]);
    OrderNext(ps, i, order, seenValues);
    SameKeysNext(seenValues, order, key, ps[i]);
    if key !in seenValues {
      UnseenKeyHasNoBest(ps[..i], key);
    }
    BestByKeyNext(ps, i, seenValues);
  }

  lemma OrderNext(ps: seq<ExtractedParameter>, i: nat, order: seq<ParameterKey>, seenValues: map<ParameterKey, ExtractedParameter>)
    requires i < |ps| && order == FirstKeys(ps[..i]) && SameKeys(seenValues, order)
    ensures FirstKeys(ps[..i + 1]) == if KeyOf(ps[i]) !in seenValues then order + [KeyOf(ps[i])] else order
  {
    FirstKeysNext(ps, i);
  }

  lemma SameKeysNext(seenValues: map<ParameterKey, ExtractedParameter>, order: seq<ParameterKey>, key: ParameterKey, p: ExtractedParameter)
    requires SameKeys(seenValues, order)
    ensures SameKeys(seenValues[key := p], if key !in seenValues then order + [key] else order)
  {
  }

  /** Reading the dictionary's values in key order gives `Dedup`. */
  lemma DedupStateValues(ps: seq<ExtractedParameter>, order: seq<ParameterKey>, seenValues: map<ParameterKey, ExtractedParameter>)
    requires DedupState(ps, order, seenValues)
    ensures forall j :: 0 <= j < |order| ==> order[j] in seenValues
    ensures seq(|order|, j requires 0 <= j < |order| => seenValues[order[j]]) == Dedup(ps)
  {
  }

  method DeduplicateParameters(parameters: seq<ExtractedParameter>) returns (unique: seq<ExtractedParameter>)
    ensures unique == Dedup(parameters)
  {
    var order: seq<ParameterKey> := [];
    var seenValues: map<ParameterKey, ExtractedParameter> := map[];
    for i := 0 to |parameters|
      invariant DedupState(parameters[..i], order, seenValues)
    {
      var param := parameters[i];
      var key := KeyOf(param);
      DedupStateNext(parameters, i, order, seenValues);
      if key !in seenValues || param.confidence > seenValues[key].confidence {
        if key !in seenValues {
          order := order + [key];
        }
        seenValues := seenValues[key := param];
      }
    }
    assert parameters[..|parameters|] == parameters;
    DedupStateValues(parameters, order, seenValues);
    unique := seq(|order|, j requires 0 <= j < |order| => seenValues[order[j]]);
  }
}
