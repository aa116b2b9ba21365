/**
 The pure part of the `/predict` handler: collect the symptoms, encode them,
 classify, resolve the label, build the record and append it to the log.
 */
module App {

  import opened Wrappers
  import opened Encoder
  import opened Labels
  import opened Form
  import opened Records
  import opened PredictionLog

  /** The read-only configuration loaded at start-up: the feature vocabulary
      and the label mapping. */
  datatype Config = Config(features: seq<string>, labels: map<string, string>)

  /** The trained classifier applied to the one-row input; opaque here. */
  type Classifier = seq<int> -> int

  /** What a request produces: the name shown on the result page and the log after it. */
  datatype Response = Response(disease: string, log: Log)

  /** The symptoms collected from the form, in field order. */
  function Symptoms(form: FormData): seq<string>
  {
    Selection(SymptomFields(form))
  }

  /** The handler's input vector is the indicator map over the vocabulary of
      the symptoms selected in the form. */
  lemma HandlerInputVector(cfg: Config, form: FormData)
    ensures InputVector(Symptoms(form), cfg.features).Keys == Elements(cfg.features)
    ensures forall f :: f in InputVector(Symptoms(form), cfg.features) ==>
              (InputVector(Symptoms(form), cfg.features)[f] == 1 <==>
               exists i :: 0 <= i < |SymptomFieldNames| && Get(form, SymptomFieldNames[i]) == Some(f) && f != "")
  {
    var fields := SymptomFields(form);
    forall f | f in InputVector(Symptoms(form), cfg.features)
      ensures InputVector(Symptoms(form), cfg.features)[f] == 1 <==>
              exists i :: 0 <= i < |SymptomFieldNames| && Get(form, SymptomFieldNames[i]) == Some(f) && f != ""
    {
      if f in Symptoms(form) {
        var i :| 0 <= i < |fields| && fields[i] == Some(f);
      }
    }
  }

  /** The disease name a request resolves to. */
  function DiseaseFor(cfg: Config, classify: Classifier, form: FormData): string
  {
    ResolveOrRaw(classify(InputRow(Symptoms(form), cfg.features)), cfg.labels)
  }

  /** The record one request appends. */
  function RecordFor(cfg: Config, classify: Classifier, form: FormData): Record
  {
    MakeRecord(Get(form, "name"), Get(form, "gender"), Get(form, "age"), Symptoms(form),
               DiseaseFor(cfg, classify, form))
  }

  /** What the record of a request holds: the submitted name, gender and age,
      the joined symptoms (empty exactly when no symptom field was filled),
      and the label-mapped or raw name of the predicted class. */
  lemma RecordContents(cfg: Config, classify: Classifier, form: FormData)
    ensures var r := RecordFor(cfg, classify, form);
            && r.patientName == Get(form, "name")
            && r.gender == Get(form, "gender")
            && r.ageGroup == Get(form, "age")
            && r.symptoms == Join(Symptoms(form), Separator)
            && (r.symptoms == "" <==>
                  forall i :: 0 <= i < |SymptomFieldNames| ==> !Selected(Get(form, SymptomFieldNames[i])))
    ensures var key := IntToDecimal(classify(InputRow(Symptoms(form), cfg.features)));
            RecordFor(cfg, classify, form).predictedDisease == (if key in cfg.labels then cfg.labels[key] else key)
  {
    var symptoms := Symptoms(form);
    var r := RecordFor(cfg, classify, form);
    assert r.symptoms == "" <==> |symptoms| == 0;
    assert |symptoms| > 0 <==> exists i :: 0 <= i < |SymptomFieldNames| && Selected(SymptomFields(form)[i]) by {
      if |symptoms| > 0 {
        assert symptoms[0] in symptoms;
      }
      if i :| 0 <= i < |SymptomFieldNames| && Selected(SymptomFields(form)[i]) {
        assert SymptomFields(form)[i].value in symptoms;
      }
    }
  }

  /** One `/predict` request against the log. */
  function Predict(cfg: Config, classify: Classifier, form: FormData, log: Log): (resp: Response)
    ensures resp.disease == RecordFor(cfg, classify, form).predictedDisease
    ensures resp.log.Some?
    ensures LoggedRecords(resp.log) == LoggedRecords(log) + [RecordFor(cfg, classify, form)]
    ensures log.None? ==> resp.log == Some([Header(FieldNames), Data(RecordFor(cfg, classify, form))])
    ensures log.Some? ==> resp.log == Some(log.value + [Data(RecordFor(cfg, classify, form))])
    ensures WellFormed(log) ==> WellFormed(resp.log)
  {
    var rec := RecordFor(cfg, classify, form);
    Response(rec.predictedDisease, Save(log, rec))
  }

  /** The log after serving the requests in order. */
  function Serve(cfg: Config, classify: Classifier, forms: seq<FormData>, log: Log): (log': Log)
    ensures |forms| == 0 ==> log' == log
    ensures |forms| > 0 ==> log'.Some?
    ensures |LoggedRecords(log')| == |LoggedRecords(log)| + |forms|
    ensures WellFormed(log) ==> WellFormed(log')
    decreases |forms|
  {
    if |forms| == 0 then log
    else Predict(cfg, classify, forms[|forms| - 1], Serve(cfg, classify, forms[..|forms| - 1], log)).log
  }

  /** The records a series of requests produces, in request order. */
  function RecordsFor(cfg: Config, classify: Classifier, forms: seq<FormData>): (recs: seq<Record>)
    ensures |recs| == |forms|
    decreases |forms|
  {
    if |forms| == 0 then []
    else RecordsFor(cfg, classify, forms[..|forms| - 1]) + [RecordFor(cfg, classify, forms[|forms| - 1])]
  }

  /** The i-th record of a series is the record of the i-th request. */
  lemma {:induction false} RecordsForAt(cfg: Config, classify: Classifier, forms: seq<FormData>, i: nat)
    requires i < |forms|
    ensures RecordsFor(cfg, classify, forms)[i] == RecordFor(cfg, classify, forms[i])
    decreases |forms|
  {
    var init, last := forms[..|forms| - 1], forms[|forms| - 1];
    var prefix := RecordsFor(cfg, classify, init);
    assert RecordsFor(cfg, classify, forms) == prefix + [RecordFor(cfg, classify, last)];
    assert |prefix| == |init|;
    if i < |init| {
      RecordsForAt(cfg, classify, init, i);
      assert init[i] == forms[i];
    } else {
      assert i == |prefix| && last == forms[i];
    }
  }

  /** The last request of a series is one more save after the others. */
  lemma ServeStep(cfg: Config, classify: Classifier, forms: seq<FormData>, log: Log)
    requires |forms| > 0
    ensures Serve(cfg, classify, forms, log)
         == Save(Serve(cfg, classify, forms[..|forms| - 1], log), RecordFor(cfg, classify, forms[|forms| - 1]))
  {
  }

  /** Serving requests saves their records in request order. */
  lemma {:induction false} ServeIsSaveAll(cfg: Config, classify: Classifier, forms: seq<FormData>, log: Log)
    ensures Serve(cfg, classify, forms, log) == SaveAll(log, RecordsFor(cfg, classify, forms))
    decreases |forms|
  {
    if |forms| > 0 {
      var init := forms[..|forms| - 1];
      ServeIsSaveAll(cfg, classify, init, log);
      ServeStep(cfg, classify, forms, log);
      SaveAllSnoc(log, RecordsFor(cfg, classify, init), RecordFor(cfg, classify, forms[|forms| - 1]));
    }
  }

  /** From no file, after any non-empty series of requests the log holds
      exactly one header line followed by one line per request, in order. */
  lemma {:induction false} SessionFromAbsentLog(cfg: Config, classify: Classifier, forms: seq<FormData>)
    requires |forms| > 0
    ensures Serve(cfg, classify, forms, None) == Some([Header(FieldNames)] + DataLines(RecordsFor(cfg, classify, forms)))
    ensures HeaderCount(Serve(cfg, classify, forms, None).value) == 1
    ensures LoggedRecords(Serve(cfg, classify, forms, None)) == RecordsFor(cfg, classify, forms)
  {
    ServeIsSaveAll(cfg, classify, forms, None);
    SaveAllFromAbsent(RecordsFor(cfg, classify, forms));
  }
}
