/**
 The prediction record appended to the log, and the `", "`-join that packs
 the selected symptoms into its Symptoms field.
 */
module Records {

  import opened Wrappers

  /** The separator of the Symptoms field. */
  const Separator: string := ", "

  /** The sum of the lengths of the parts. */
  function TotalLength(xs: seq<string>): nat
  {
    if |xs| == 0 then 0 else TotalLength(xs[..|xs| - 1]) + |xs[|xs| - 1]|
  }

  /** `sep.join(xs)`. */
  function Join(xs: seq<string>, sep: string): (s: string)
    ensures |xs| == 0 ==> s == ""
    ensures |xs| == 1 ==> s == xs[0]
    ensures |xs| > 0 ==> xs[0] <= s
    ensures |s| == TotalLength(xs) + (if |xs| == 0 then 0 else (|xs| - 1) * |sep|)
  {
    if |xs| == 0 then ""
    else if |xs| == 1 then xs[0]
    else
      var init := xs[..|xs| - 1];
      assert init[0] == xs[0];
      Join(init, sep) + sep + xs[|xs| - 1]
  }

  /** Joining two non-empty lists is joining each and putting one separator
      between them; with the one-part case this determines every join. */
  lemma {:induction false} JoinAppend(a: seq<string>, b: seq<string>, sep: string)
    requires |a| > 0 && |b| > 0
    ensures Join(a + b, sep) == Join(a, sep) + sep + Join(b, sep)
    decreases |b|
  {
    var ab := a + b;
    var init := b[..|b| - 1];
    assert ab[..|ab| - 1] == a + init;
    assert ab[|ab| - 1] == b[|b| - 1];
    if |b| > 1 {
      JoinAppend(a, init, sep);
    } else {
      assert init == [] && a + init == a;
    }
  }

  /** Joining non-empty parts gives the empty string exactly when there are no parts. */
  lemma JoinEmptyIffNoParts(xs: seq<string>, sep: string)
    requires forall k :: 0 <= k < |xs| ==> xs[k] != ""
    ensures Join(xs, sep) == "" <==> |xs| == 0
  {
    if |xs| > 0 {
      assert |xs[0]| > 0;
    }
  }

  /** The join cannot be split back: a part containing the separator
      and two separate parts give the same field. */
  lemma JoinIsNotInjective()
    ensures Join(["a, b"], Separator) == Join(["a", "b"], Separator)
  {
    assert ["a", "b"][..1] == ["a"];
  }

  /** One row of the log: three form values (absent when the form lacked
      them), the joined symptoms and the resolved disease name. */
  datatype Record = Record(
    patientName: Option<string>,
    gender: Option<string>,
    ageGroup: Option<string>,
    symptoms: string,
    predictedDisease: string)

  /** The header row: the record's field names in declaration order. */
  const FieldNames: seq<string> := ["Patient Name", "Gender", "Age Group", "Symptoms", "Predicted Disease"]

  /** The record built by the `/predict` handler. */
  function MakeRecord(name: Option<string>, gender: Option<string>, age: Option<string>,
                      symptoms: seq<string>, disease: string): (r: Record)
    ensures r.patientName == name && r.gender == gender && r.ageGroup == age
    ensures r.predictedDisease == disease
    ensures r.symptoms == Join(symptoms, Separator)
    ensures (forall k :: 0 <= k < |symptoms| ==> symptoms[k] != "") ==>
              (r.symptoms == "" <==> |symptoms| == 0)
  {
    var field := Join(symptoms, Separator);
    assert (forall k :: 0 <= k < |symptoms| ==> symptoms[k] != "") ==> (field == "" <==> |symptoms| == 0) by {
      if forall k :: 0 <= k < |symptoms| ==> symptoms[k] != "" {
        JoinEmptyIffNoParts(symptoms, Separator);
      }
    }
    Record(name, gender, age, field, disease)
  }
}
