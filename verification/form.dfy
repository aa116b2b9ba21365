/**
 Collection of the selected symptoms from the submitted form fields
 `symptom1` .. `symptom5`.
 */
module Form {

  import opened Wrappers

  /** The submitted form: field name to value; a missing field is absent. */
  type FormData = map<string, string>

  /** The five symptom fields, in the order the handler reads them. */
  const SymptomFieldNames: seq<string> := ["symptom1", "symptom2", "symptom3", "symptom4", "symptom5"]

  /** Python truthiness of a form value: present and non-empty. */
  predicate Selected(field: Option<string>)
  {
    field.Some? && field.value != ""
  }

  /** The values of the symptom fields, in field order. */
  function SymptomFields(form: FormData): (fields: seq<Option<string>>)
    ensures |fields| == |SymptomFieldNames|
    ensures forall i :: 0 <= i < |fields| ==> fields[i] == Get(form, SymptomFieldNames[i])
  {
    seq(|SymptomFieldNames|, i requires 0 <= i < |SymptomFieldNames| => Get(form, SymptomFieldNames[i]))
  }

  /** The selected values among `fields`, keeping their order. */
  function Selection(fields: seq<Option<string>>): (r: seq<string>)
    ensures |r| <= |fields|
    ensures forall k :: 0 <= k < |r| ==> r[k] != ""
    ensures forall s :: s in r <==> s != "" && Some(s) in fields
    decreases |fields|
  {
    if |fields| == 0 then []
    else
      var init := fields[..|fields| - 1];
      var last := fields[|fields| - 1];
      assert forall o :: o in fields <==> o in init || o == last;
      Selection(init) + (if Selected(last) then [last.value] else [])
  }

  /** Selection distributes over concatenation: values keep their relative order. */
  lemma {:induction false} SelectionAppend(a: seq<Option<string>>, b: seq<Option<string>>)
    ensures Selection(a + b) == Selection(a) + Selection(b)
    decreases |b|
  {
    if |b| > 0 {
      var init := b[..|b| - 1];
      assert (a + b)[..|a + b| - 1] == a + init;
      assert (a + b)[|a + b| - 1] == b[|b| - 1];
      SelectionAppend(a, init);
    } else {
      assert a + b == a;
    }
  }

  /** When every field is selected, the selection is all of their values in order. */
  lemma {:induction false} SelectionOfAllSelected(fields: seq<Option<string>>)
    requires forall i :: 0 <= i < |fields| ==> Selected(fields[i])
    ensures |Selection(fields)| == |fields|
    ensures forall i :: 0 <= i < |fields| ==> Some(Selection(fields)[i]) == fields[i]
    decreases |fields|
  {
    if |fields| > 0 {
      SelectionOfAllSelected(fields[..|fields| - 1]);
    }
  }

  /** The symptom-collection loop of the `/predict` handler. */
  method CollectSymptoms(form: FormData) returns (symptoms: seq<string>)
    ensures symptoms == Selection(SymptomFields(form))
    ensures |symptoms| <= |SymptomFieldNames|
    ensures forall s :: s in symptoms <==>
              s != "" && exists i :: 0 <= i < |SymptomFieldNames| && Get(form, SymptomFieldNames[i]) == Some(s)
  {
    var fields := SymptomFields(form);
    symptoms := [];
    for i := 0 to |SymptomFieldNames|
      invariant symptoms == Selection(fields[..i])
    {
      var symptom := Get(form, SymptomFieldNames[i]);
      assert fields[..i + 1][..i] == fields[..i];
      if Selected(symptom) {
        symptoms := symptoms + [symptom.value];
      }
    }
    assert fields[..|SymptomFieldNames|] == fields;
    forall s | s in symptoms
      ensures exists i :: 0 <= i < |SymptomFieldNames| && Get(form, SymptomFieldNames[i]) == Some(s)
    {
      var i :| 0 <= i < |fields| && fields[i] == Some(s);
    }
  }
}
