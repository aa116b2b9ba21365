# Disease prediction form: symptom encoding, label resolution and the prediction log

This project models the deterministic core of a small web service that
predicts a disease from up to five selected symptoms. A request to
`/predict` does the following:

1. It collects the non-empty form fields `symptom1` .. `symptom5` in order.
2. It encodes them as a 0/1 indicator map over the fixed feature vocabulary.
   The DataFrame's columns follow the dictionary's key order.
3. It hands that one-row input to a trained classifier.
4. It turns the predicted class index into a disease name through a
   string-keyed label mapping.
5. It appends a five-field record to a CSV log. The log gets a header row
   only when the file did not exist yet.

The helper module holds a second copy of the encoder and of the log append,
plus a label resolver that falls back to `"Unknown Disease"` instead of the
raw class string. Both resolvers are modelled, and their difference is a
lemma.

Modules, one per component:

- `Wrappers` (`wrappers.dfy`): `Option`, `Get` and `ValueOr`, the models of
  Python's `None`, `dict.get` and its default argument.
- `Encoder` (`encoder.dfy`): `create_input_vector` and the encoding loop of
  the handler.
- `Labels` (`labels.dfy`): `str` of an integer class, the handler's lookup
  with a raw fallback, and `get_disease_name`.
- `Form` (`form.dfy`): symptom collection from the form fields.
- `Records` (`records.dfy`): the `", "`-join and the five-field record.
- `PredictionLog` (`prediction_log.dfy`): `save_prediction`, with the file
  modelled as `Option<seq<Line>>`, where `None` means the file does not exist.
- `App` (`app.dfy`): one request end to end, and a series of requests.

Inputs taken as parameters:

- The classifier is the parameter `classify: seq<int> -> int`, applied to the
  positional row.
- The feature vocabulary and the label mapping are a `Config` value.
- The form is a `map<string, string>`. A missing field is a missing key.

## Model

| member | source | states |
|---|---|---|
| Wrappers.Get | src/app.py:42-44 | `dict.get` without a default: a value exactly when the key is present, and then the value stored under it |
| Wrappers.ValueOr | src/app.py:67 | the default argument of `dict.get`: the value found when there is one, the default otherwise |
| Encoder.ZeroVector | src/utils/helpers.py:30 | the seed dictionary has exactly the vocabulary as keys, each set to 0 |
| Encoder.Mark | src/utils/helpers.py:31-33 | the marking loop keeps the key set unchanged, sets to 1 every key that occurs among the symptoms, and leaves every other key as it was; a symptom that is not a key adds nothing |
| Encoder.InputVector | src/utils/helpers.py:26-35 | the encoded vector's keys are exactly the vocabulary, whatever symptoms are passed, and each value is 1 when the feature is among the symptoms and 0 otherwise |
| Encoder.InputVectorDependsOnlyOnSet | src/utils/helpers.py:30-33 | two symptom lists with the same elements give the same vector: order and duplicates do not matter |
| Encoder.EmptySelectionIsZero | src/utils/helpers.py:30 | no symptoms gives the all-zero vector |
| Encoder.UnknownSymptomsIgnored | src/utils/helpers.py:31-32 | appending symptoms outside the vocabulary leaves the vector unchanged, without error |
| Encoder.Columns | src/utils/helpers.py:30 | the dictionary's key order has no repeats, holds exactly the vocabulary's names, and orders them by the position of their first occurrence in the vocabulary |
| Encoder.ColumnsOfDistinct | src/utils/helpers.py:30 | a vocabulary without repeated names is its own column order |
| Encoder.InputRow | src/utils/helpers.py:34 | the one-row frame has one column per distinct feature, holding 1 exactly when that feature was selected |
| Labels.NatToDecimal | src/app.py:67 | the decimal text of a natural number is non-empty, all digits, has no leading zero, and read back as a base-10 numeral denotes that number |
| Labels.IntToDecimal | src/app.py:67 | `str` of a class index starts with '-' exactly for negative indices, every other character is a digit, there is no leading zero, and the digits denote the index's magnitude |
| Labels.NatToDecimalInjective | src/app.py:67 | different naturals render differently (a consequence of reading the text back) |
| Labels.IntToDecimalInjective | src/app.py:67 | different class indices give different lookup keys |
| Labels.ResolveOrRaw | src/app.py:67 | the handler's name is the mapped name when the class's string is a key, and otherwise that string itself, never an error |
| Labels.ResolveOrUnknown | src/utils/helpers.py:37-41 | `get_disease_name` returns the mapped name when the key exists and "Unknown Disease" otherwise |
| Labels.ResolversAgreeExactlyWhenMapped | src/utils/helpers.py:41 | the helper and the handler return the same name if and only if the class is in the mapping |
| Labels.RawFallbackIdentifiesClass | src/app.py:67 | two unmapped classes that the handler resolves to the same name are the same class |
| Labels.UnknownFallbackForgetsClass | src/utils/helpers.py:41 | every unmapped class gets the same helper name |
| Form.SymptomFields | src/app.py:48-49 | the five values read, in order, are `form.get` of `symptom1` .. `symptom5` |
| Form.Selected | src/app.py:50 | Python truthiness of a form value: present and non-empty; stated by `Form.Selection` and `Form.CollectSymptoms`, which keep exactly such values |
| Form.Selection | src/app.py:47-51 | the collected values are exactly the present, non-empty field values, at most one per field, none empty |
| Form.SelectionAppend | src/app.py:48-51 | collection distributes over concatenation of fields, so values keep their field order |
| Form.SelectionOfAllSelected | src/app.py:47-51 | when every field is filled, all their values are collected, in field order |
| Form.CollectSymptoms | src/app.py:47-51 | the loop over `symptom1`..`symptom5` collects the in-order selection: at most five values, exactly the non-empty ones present in the form |
| Records.Join | src/app.py:76 | the joined field is empty for no parts, is the part itself for one part, and has the parts' total length plus one separator between each pair of parts |
| Records.JoinAppend | src/app.py:76 | joining two non-empty lists is joining each with one separator between them; with the one-part case this fixes every join |
| Records.JoinEmptyIffNoParts | src/app.py:76 | joining non-empty symptoms gives "" exactly when none were selected |
| Records.JoinIsNotInjective | src/app.py:76 | a symptom containing ", " and two separate symptoms give the same field, so the field cannot be split back |
| Records.MakeRecord | src/app.py:72-78 | the record keeps the three form values and the disease, its Symptoms field is the ", "-join of the symptoms, and that field is empty exactly when there are no (non-empty) symptoms |
| PredictionLog.Save | src/utils/helpers.py:16-24 | a save always leaves a file, keeps existing lines as a prefix and adds one line, adds exactly this record to the records, writes a header only when the file was absent, and keeps a well-formed log well-formed |
| PredictionLog.WellFormedHasOneHeader | src/utils/helpers.py:21-22 | a log that starts with the header and then holds only data lines has exactly one header |
| PredictionLog.SaveAll | src/utils/helpers.py:21-24 | no saves leave the log as it was (an absent file stays absent); a series of saves appends the records in call order, adds exactly one line per record to an existing file, never rewrites earlier lines and preserves well-formedness |
| PredictionLog.SaveAllFromAbsent | src/utils/helpers.py:21-24 | from no file, n saves give exactly the header followed by the n records in call order, with one header |
| PredictionLog.ExistingFileIsNeverGivenHeader | src/utils/helpers.py:23-24 | an existing file without a header row never gets one from later saves |
| App.HandlerInputVector | src/app.py:54-57 | the handler's vector has exactly the vocabulary as keys, and a feature is 1 exactly when some symptom field holds it |
| App.DiseaseFor | src/app.py:64-67 | classifies the request's input row and resolves the class with the raw fallback; its contract is stated by `App.RecordContents` |
| App.RecordFor | src/app.py:72-78 | the record of one request; its contract is stated by `App.RecordContents` |
| App.RecordContents | src/app.py:42-78 | the record of a request holds the name, gender and age fields as submitted, a Symptoms field that is the ", "-join of the collected symptoms and is empty exactly when no symptom field was filled, and the label-mapped or raw name of the predicted class |
| App.Predict | src/app.py:64-88 | a request renders the disease stored in its record; with no file the log becomes exactly the header and that record, otherwise exactly that record is appended after the existing lines, with no header |
| App.Serve | src/app.py:80-83 | no requests leave the log as it was (no file is created); after n > 0 requests the file exists and holds n more records |
| App.RecordsForAt | src/app.py:72-78 | the i-th record of a series of requests is the record built from the i-th request |
| App.ServeIsSaveAll | src/app.py:80-83 | serving requests in order is saving their records in the same order |
| App.SessionFromAbsentLog | src/app.py:80-83 | starting with no file, the log after any non-empty series of requests is exactly one header followed by one record per request, in request order |

## Left out

- Loading the classifier, `model.predict` and the pandas DataFrame wrapping are library calls. The classifier is an opaque function parameter applied to the row that `Encoder.InputRow` describes.
- Loading the feature list and the label mapping from JSON files is not modelled. Both are given as a `Config` value.
- Flask routing, template rendering and server start-up are web plumbing and are not modelled. `App.Predict` returns the disease it would render.
- The file system and CSV text are not modelled: no quoting of commas inside fields, and `None` form values written as empty cells are not modelled either. The log is an abstract sequence of header and data lines.
- A failed write (for example an unwritable path) is not modelled. Such an exception would propagate out of the handler.
- Concurrent requests appending to the same file are not modelled. The code has no locking, so nothing about interleaving holds.
- The class index is modelled as an `int`: the training script label-encodes the classes, so `str(pred_class)` is its decimal text. A classifier returning string labels is not modelled.
- `src/models/train.py` is not part of this model. It is training through scikit-learn and XGBoost, and its label-map comprehension depends on the encoder's hidden class order.
- `src/models/predict.py` is not modelled separately. Its encoding, lookup, record and append repeat the handler's code line for line.
- Encoder.InputRow: describes the columns and values of the DataFrame only, not the pandas object itself.

The two label lookups fall back differently for a class missing from the mapping. The handler (src/app.py:66-67) falls back to the raw class string, while `get_disease_name` (src/utils/helpers.py:41) falls back to `"Unknown Disease"`. The model keeps both and proves where they differ (`Labels.ResolversAgreeExactlyWhenMapped`).

A log file that exists but has no header never gets one (`PredictionLog.ExistingFileIsNeverGivenHeader`). An empty file made by someone else is an example. The "one header" guarantee (`PredictionLog.SaveAllFromAbsent`) is stated from the absent file, as the code provides it.
