/**
 The symptom encoder of `create_input_vector`: a 0/1 indicator map over a
 fixed feature vocabulary, and the positional row the classifier receives.
 */
module Encoder {

  /** An indicator map from feature name to 0 or 1. */
  type Vector = map<string, int>

  /** The reference meaning of an encoded vector: exactly the vocabulary as
      keys, and 1 precisely on the features that were selected. */
  ghost predicate IsIndicator(v: Vector, selected: set<string>, features: seq<string>)
  {
    && v.Keys == Elements(features)
    && forall f :: f in v ==> v[f] == (if f in selected then 1 else 0)
  }

  /** The set of entries of a sequence. */
  function Elements(xs: seq<string>): (s: set<string>)
    ensures forall x :: x in s <==> x in xs
  {
    set x | x in xs
  }

  /** The dictionary comprehension that seeds the vector with a 0 per feature. */
  function ZeroVector(features: seq<string>): (v: Vector)
    ensures IsIndicator(v, {}, features)
  {
    map f | f in features :: 0
  }

  /** The marking loop: every symptom that is already a key is set to 1;
      any other symptom is skipped, adding no key and raising no error. */
  function Mark(v: Vector, symptoms: seq<string>): (r: Vector)
    ensures r.Keys == v.Keys
    ensures forall k :: k in r ==> r[k] == (if k in symptoms then 1 else v[k])
    decreases |symptoms|
  {
    if |symptoms| == 0 then v
    else
      var s := symptoms[0];
      var rest := symptoms[1..];
      assert forall k :: k in symptoms <==> k == s || k in rest;
      Mark(if s in v then v[s := 1] else v, rest)
  }

  /** `create_input_vector` without its DataFrame wrapper. */
  function InputVector(symptoms: seq<string>, features: seq<string>): (v: Vector)
    ensures IsIndicator(v, Elements(symptoms), features)
  {
    Mark(ZeroVector(features), symptoms)
  }

  /** Two indicator maps over the same vocabulary and selection coincide. */
  lemma IndicatorUnique(v: Vector, w: Vector, selected: set<string>, features: seq<string>)
    requires IsIndicator(v, selected, features)
    requires IsIndicator(w, selected, features)
    ensures v == w
  {
    assert v.Keys == w.Keys;
    assert forall f :: f in v ==> v[f] == w[f];
  }

  /** The encoding depends on the set of symptoms only: order and
      repetitions in the input make no difference. */
  lemma InputVectorDependsOnlyOnSet(s1: seq<string>, s2: seq<string>, features: seq<string>)
    requires Elements(s1) == Elements(s2)
    ensures InputVector(s1, features) == InputVector(s2, features)
  {
    IndicatorUnique(InputVector(s1, features), InputVector(s2, features), Elements(s1), features);
  }

  /** No symptoms selected: the all-zero vector. */
  lemma EmptySelectionIsZero(features: seq<string>)
    ensures InputVector([], features) == ZeroVector(features)
    ensures forall f :: f in InputVector([], features) ==> InputVector([], features)[f] == 0
  {
    assert Elements([]) == {};
    IndicatorUnique(InputVector([], features), ZeroVector(features), {}, features);
  }

  /** Symptoms outside the vocabulary are dropped: adding them changes nothing. */
  lemma UnknownSymptomsIgnored(symptoms: seq<string>, unknown: seq<string>, features: seq<string>)
    requires forall u :: u in unknown ==> u !in features
    ensures InputVector(symptoms + unknown, features) == InputVector(symptoms, features)
  {
    var v := InputVector(symptoms + unknown, features);
    var w := InputVector(symptoms, features);
    assert v.Keys == w.Keys;
    forall f | f in v
      ensures v[f] == w[f]
    {
      assert f in features;
      assert f in symptoms + unknown <==> f in symptoms;
    }
  }

  /** The position of the first occurrence of `x` in `xs`. */
  function FirstIndex(xs: seq<string>, x: string): (k: nat)
    requires x in xs
    ensures k < |xs| && xs[k] == x
    ensures forall j :: 0 <= j < k ==> xs[j] != x
  {
    if xs[0] == x then 0 else 1 + FirstIndex(xs[1..], x)
  }

  /** Appending an entry does not move the first occurrence of an earlier one. */
  lemma FirstIndexOfPrefix(init: seq<string>, last: string, x: string)
    requires x in init
    ensures FirstIndex(init + [last], x) == FirstIndex(init, x)
  {
    var a, b := FirstIndex(init + [last], x), FirstIndex(init, x);
    assert (init + [last])[b] == x;
  }

  /** Appending an entry moves no earlier first occurrence. */
  lemma FirstIndicesOfPrefix(init: seq<string>, last: string)
    ensures forall x :: x in init ==> FirstIndex(init + [last], x) == FirstIndex(init, x)
  {
    forall x | x in init
      ensures FirstIndex(init + [last], x) == FirstIndex(init, x)
    {
      FirstIndexOfPrefix(init, last, x);
    }
  }

  /** A name seen for the first time goes after every earlier column. */
  lemma ColumnsAppendFresh(init: seq<string>, last: string, c: seq<string>)
    requires last !in init
    requires forall f :: f in c ==> f in init
    requires forall i, j :: 0 <= i < j < |c| ==> FirstIndex(init, c[i]) < FirstIndex(init, c[j])
    ensures forall i, j :: 0 <= i < j < |c + [last]| ==>
              FirstIndex(init + [last], (c + [last])[i]) < FirstIndex(init + [last], (c + [last])[j])
  {
    var features := init + [last];
    FirstIndicesOfPrefix(init, last);
    assert FirstIndex(features, last) == |init| by {
      assert features[|init|] == last;
    }
    forall i, j | 0 <= i < j < |c + [last]|
      ensures FirstIndex(features, (c + [last])[i]) < FirstIndex(features, (c + [last])[j])
    {
      assert (c + [last])[i] == c[i];
      if j == |c| {
        assert (c + [last])[j] == last;
      } else {
        assert (c + [last])[j] == c[j];
      }
    }
  }

  /** The keys of the dictionary in insertion order: each feature name once,
      ordered by its first occurrence. This is the column order of the
      one-row DataFrame. */
  function Columns(features: seq<string>): (cols: seq<string>)
    ensures Distinct(cols)
    ensures forall f :: f in cols <==> f in features
    ensures forall i, j :: 0 <= i < j < |cols| ==>
              FirstIndex(features, cols[i]) < FirstIndex(features, cols[j])
    ensures |cols| <= |features|
    decreases |features|
  {
    if |features| == 0 then []
    else
      var init := features[..|features| - 1];
      var last := features[|features| - 1];
      assert features == init + [last];
      assert forall f :: f in features <==> f in init || f == last;
      var c := Columns(init);
      if last in c then
        FirstIndicesOfPrefix(init, last);
        c
      else
        ColumnsAppendFresh(init, last, c);
        c + [last]
  }

  /** No two entries of `xs` are equal. */
  predicate Distinct(xs: seq<string>)
  {
    forall i, j :: 0 <= i < j < |xs| ==> xs[i] != xs[j]
  }

  /** A vocabulary without repeated names is its own column order. */
  lemma {:induction false} ColumnsOfDistinct(features: seq<string>)
    requires Distinct(features)
    ensures Columns(features) == features
    decreases |features|
  {
    if |features| > 0 {
      var init := features[..|features| - 1];
      var last := features[|features| - 1];
      assert Distinct(init);
      ColumnsOfDistinct(init);
      assert last !in Columns(init) by {
        assert forall k :: 0 <= k < |init| ==> init[k] == features[k];
      }
      assert Columns(features) == Columns(init) + [last];
    }
  }

  /** The one-row input the classifier receives: the vector read off in column order. */
  function InputRow(symptoms: seq<string>, features: seq<string>): (row: seq<int>)
    ensures |row| == |Columns(features)|
    ensures forall i :: 0 <= i < |row| ==>
              row[i] == (if Columns(features)[i] in symptoms then 1 else 0)
  {
    var v := InputVector(symptoms, features);
    var cols := Columns(features);
    seq(|cols|, i requires 0 <= i < |cols| => v[cols[i]])
  }
}
