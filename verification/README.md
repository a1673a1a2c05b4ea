# Obesity-level prediction service: a verified model of its core

This project models the logic at the core of an obesity-level classification service.

**The data-cleaning transformer** is a fit-once, transform-many cleaner over a table of named columns. The model has both copies:

- the live one, `DataCleanerTransformer` in `mlops_obesidad/preprocessing/transformers.py`;
- the legacy one in `mlops_obesidad/transformers.py`.

`fit` learns two lists:

- the text-typed columns;
- the columns that are entirely null once whitespace-only strings and the tokens `NA`, `N/A`, `na` and `NaN` count as null.

`transform` does three things:

- trims the text columns;
- turns null spellings into nulls;
- drops the learned all-null columns.

**The prediction services** (`API/services.py`) cover two paths:

- The heuristic predictor maps the BMI to one of six buckets and takes a fixed seven-class template. It perturbs each entry by noise, clamps it to [0, 1] and normalises. The label is the first class of largest probability.
- The facade asks the trained model first. It zero-fills the classes the model does not report, and falls back on the heuristic whenever anything in the trained path fails.

Around these sit two more pieces:

- the conversion of a request into a one-row frame, and the single prediction (`mlops_obesidad/inference/predictor.py`);
- the request and response schemas (`API/schemas.py`).

Layout, one module per file:

- `wrappers.dfy`: `Option`, Python's exception kinds, and `Outcome` (a value or a raised exception).
- `strings.dfy`: `str.isspace`, `str.strip`, `str.lower`, the `^\s*$` pattern and the two sets of null spellings.
- `tables.dfy`: cells (`Null`, `Str`, `Other`), columns with a text/non-text kind, and tables. It also holds the column-wise operations both cleaners share and what `fit` learns.
- `cleaner.dfy`: the live cleaner. The class `DataCleaner` has fields `objCols` and `allNullCols`, and its `Fit` and `Transform` methods are proved against the function `Clean`.
- `cleaner_examples.dfy`: the null-standardisation example from the test suite, worked through.
- `legacy_cleaner.dfy`: the legacy cleaner (class `LegacyDataCleaner`, function `LegacyClean`) and the lemmas on where it differs from the live one.
- `classes.dfy`: `OBESITY_CLASSES` and the class datatype.
- `distributions.dfy`: sums, clamping, normalisation and the arg-max over probability vectors.
- `dicts.dfy`: Python dicts of floats as insertion-ordered pair lists, covering `get`, item assignment, `update`, `dict(zip(...))` and `max(d.values())`.
- `schemas.dfy`: the enum wire strings, request validation, and the response bounds.
- `predictor.dfy`: `request_to_dataframe` and `predict_single`, with the trained pipeline as a parameter.
- `services.dfy`: the heuristic predictor, `dummy_predict` and `real_predict`.

Tables, cells and requests are values. So the caller's table is never changed by `fit` or `transform`: both work on a copy in the source, and nothing in the model can alias the input.

Probability vectors are `seq<real>` in `OBESITY_CLASSES` order. This is also the key order of the dict that `_generate_dummy_probabilities` builds, and the order in which its noise loop visits the classes.

All arithmetic is on reals, so "sums to 1" holds exactly.

## Model

| member | source | states |
|---|---|---|
| Strings.Strip | mlops_obesidad/preprocessing/transformers.py:68 | the result is the input with whitespace cut from both ends only: a slice with whitespace-only prefix and suffix cut off, neither starting nor ending with whitespace |
| Strings.StripIdempotent | mlops_obesidad/preprocessing/transformers.py:68 | stripping a stripped string changes nothing |
| Strings.StripEmptyIffBlank | mlops_obesidad/preprocessing/transformers.py:73 | a string strips to the empty string exactly when it matches `^\s*$` |
| Strings.Lower | mlops_obesidad/preprocessing/transformers.py:79 | lower-casing keeps the length and maps each upper-case ASCII letter to lower case, leaving every other character alone |
| Tables.TextColumnNames | mlops_obesidad/preprocessing/transformers.py:41 | a name is learned as a text column exactly when some column of that name has the text (object) kind; numeric columns are never listed |
| Tables.AllNullColumnNames | mlops_obesidad/preprocessing/transformers.py:48 | a name is learned as all-null exactly when some column of that name has only null cells |
| Tables.BlankToNull | mlops_obesidad/preprocessing/transformers.py:73 | a whitespace-only (or empty) string becomes null; every other cell is unchanged |
| Tables.TokenToNull | mlops_obesidad/transformers.py:65 | exactly the strings `NA`, `N/A`, `na` and `NaN`, compared case-sensitively, become null; every other cell is unchanged |
| Tables.FitNullColumns | mlops_obesidad/preprocessing/transformers.py:45-48 | after the fit-time normalisation a column is all-null exactly when each of its original cells is null, whitespace-only or one of the four exact tokens |
| Tables.ApplyToColumn | mlops_obesidad/preprocessing/transformers.py:66-68 | rewriting one named column with a per-cell function keeps the row count, every name and every other column; the rewritten column's kind is set by a given rule, which keeps it for `apply` and makes it text for `astype(str)` |
| Tables.ApplyToAll | mlops_obesidad/preprocessing/transformers.py:73 | a whole-table `replace` rewrites every cell of every column by the same rule and keeps the row count, the names and the kinds |
| Tables.DropKeepsOrder | mlops_obesidad/preprocessing/transformers.py:84-85 | the surviving columns keep the order they had: the output names are the input names with the listed ones filtered out |
| Tables.DropColumns | mlops_obesidad/preprocessing/transformers.py:84-85 | a column survives exactly when its name is not listed; listed names absent from the table are ignored; the row count is kept |
| Tables.KeepTwice | mlops_obesidad/preprocessing/transformers.py:84-85 | dropping the same names a second time removes nothing more |
| Cleaner.DataCleaner.constructor | mlops_obesidad/preprocessing/transformers.py:22-25 | a new cleaner has learned no text columns and no all-null columns |
| Cleaner.DataCleaner.Fit | mlops_obesidad/preprocessing/transformers.py:27-50 | `objCols` becomes the input's text column names and `allNullCols` the names of the columns that are all null after whitespace-only strings and the four exact tokens are nulled |
| Cleaner.DataCleaner.Transform | mlops_obesidad/preprocessing/transformers.py:52-87 | the trim loop, the blank replacement, the alias loop and the drop together yield `Clean` of the learned state and the input |
| Cleaner.TrimCell | mlops_obesidad/preprocessing/transformers.py:68 | a string loses the whitespace at both ends, so it neither starts nor ends with whitespace, and trimming does not change whether it is blank or a null alias; any other cell is unchanged |
| Cleaner.AliasToNull | mlops_obesidad/preprocessing/transformers.py:77-81 | a cell becomes null exactly when it is null already or a string whose trimmed lower-case form is `na`, `n/a` or `nan`; every other cell is unchanged |
| Cleaner.CleanTextCell | mlops_obesidad/preprocessing/transformers.py:66-81 | in a learned text column, a null stays null and a non-string is unchanged; a string becomes null exactly when it is whitespace-only or its trimmed lower-case form is `na`, `n/a` or `nan`, and otherwise becomes its stripped, non-blank self |
| Cleaner.TrimmedStringFacts | mlops_obesidad/preprocessing/transformers.py:73-79 | trimming first changes neither whether a string is whitespace-only nor whether it is a null alias |
| Cleaner.Clean | mlops_obesidad/preprocessing/transformers.py:62-87 | the row count is kept, no column is added, distinct column names stay distinct, and the output columns are exactly the cleaned input columns whose names were not learned as all-null |
| Cleaner.CleanColumnNames | mlops_obesidad/preprocessing/transformers.py:84-85 | a name is in the output exactly when it is in the input and not in the learned all-null list |
| Cleaner.CleanKeepsOrder | mlops_obesidad/preprocessing/transformers.py:84-85 | the output columns come in the input's order, with the learned all-null names filtered out |
| Cleaner.CleanedColumn | mlops_obesidad/preprocessing/transformers.py:66-85 | looking up an input column's name in the output finds nothing exactly when it was learned all-null, and otherwise finds that column cleaned |
| Cleaner.TransformCell | mlops_obesidad/preprocessing/transformers.py:66-81 | cell by cell: whitespace-only strings become null in every column; nulls stay null and non-strings unchanged (never the text `"nan"`); in a text column a string becomes null exactly when blank or an alias, and a surviving string is the stripped original; in other columns only blank strings change |
| Cleaner.StepsMakeCleanColumns | mlops_obesidad/preprocessing/transformers.py:66-81 | the trim loop over the learned text columns, the blank replacement and the alias loop compose to cleaning every column at once |
| Cleaner.CleanTextCellTwice | mlops_obesidad/preprocessing/transformers.py:66-81 | cleaning a cleaned cell changes nothing |
| Cleaner.KeepAfterClean | mlops_obesidad/preprocessing/transformers.py:66-85 | dropping columns before or after cleaning gives the same columns |
| Cleaner.CleanIdempotent | mlops_obesidad/preprocessing/transformers.py:66-85 | with the same learned state, transforming a transformed table changes nothing |
| CleanerExamples.ExampleFit | tests/test_preprocessing.py:30-37 | fitting on `['NA', 'N/A', 'na', 'value', null]` learns `col1` as a text column and no all-null column |
| CleanerExamples.NullAliasExample | tests/test_preprocessing.py:30-46 | transforming `['NA', 'N/A', 'na', 'NaN', 'value']` with that state gives four nulls and `'value'` |
| LegacyCleaner.LegacyDataCleaner.constructor | mlops_obesidad/transformers.py:22-25 | a new legacy cleaner has learned nothing |
| LegacyCleaner.LegacyDataCleaner.Fit | mlops_obesidad/transformers.py:27-49 | both lists are learned from the normalised table; the model takes the normalised table's kinds to be the input's, under which they equal what the live cleaner learns |
| LegacyCleaner.LegacyDataCleaner.Transform | mlops_obesidad/transformers.py:51-76 | the two whole-table replacements, the string-conversion loop and the drop together yield `LegacyClean` of the learned state and the input |
| LegacyCleaner.AsText | mlops_obesidad/transformers.py:70 | `astype(str)` leaves a string as it is and turns a missing value into the text `"nan"` |
| LegacyCleaner.NullPrintsAsNanText | mlops_obesidad/transformers.py:70 | after `astype(str)` a missing value and a cell holding the text `"nan"` are the same string |
| LegacyCleaner.LegacyTextCell | mlops_obesidad/transformers.py:64-70 | in a learned text column every cell becomes a string: a null, blank or exact token becomes `"nan"`, another string its stripped self, a number its stripped rendering |
| LegacyCleaner.LegacyClean | mlops_obesidad/transformers.py:61-76 | the row count is kept, no column is added, and the output columns are exactly the converted input columns whose names were not learned as all-null |
| LegacyCleaner.LegacyKeepsOrder | mlops_obesidad/transformers.py:73-74 | the output columns come in the input's order, with the learned all-null names filtered out |
| LegacyCleaner.LegacyTransformCell | mlops_obesidad/transformers.py:64-74 | a learned text column comes out text-typed whatever its incoming kind, and any other column keeps its kind; cell by cell: a text column holds only strings afterwards (`"nan"` for nulls, blanks and exact tokens); in other columns a cell becomes null exactly when it was null, blank or an exact token, and is otherwise unchanged |
| LegacyCleaner.StepsMakeLegacyColumns | mlops_obesidad/transformers.py:64-70 | the two replacements followed by the conversion loop over the learned text columns compose to converting every column at once |
| LegacyCleaner.ToStrippedIdempotent | mlops_obesidad/transformers.py:70 | converting to stripped text twice is the same as once |
| LegacyCleaner.SameShapeAsCurrent | mlops_obesidad/transformers.py:73-74 | with the same learned state, the legacy and live transforms keep the same rows and the same column names in the same order |
| LegacyCleaner.PaddedNACells | mlops_obesidad/transformers.py:65-70 | a legacy text column turns `" NA "` into `"NA"` and `"NA"` into `"nan"`, while the live cleaner turns `" NA "` into null |
| LegacyCleaner.NullBecomesNanText | mlops_obesidad/transformers.py:70 | a null in a legacy text column comes out as the string `"nan"`; the live cleaner keeps it null |
| LegacyCleaner.PaddedAliasSurvives | mlops_obesidad/transformers.py:64-70 | a padded alias survives the legacy transform as `"NA"`; the live cleaner nulls it |
| LegacyCleaner.LegacyNotIdempotent | mlops_obesidad/transformers.py:64-70 | transforming the legacy output a second time changes it (`"NA"` becomes `"nan"`), unlike the live transform |
| Classes.ClassAt | API/services.py:19-27 | each of the seven positions of `OBESITY_CLASSES` holds exactly one class, and `Index` inverts it |
| Classes.NamesDistinct | API/services.py:19-27 | the seven class names are pairwise distinct |
| Classes.FromName | API/services.py:19-27 | exactly the seven names are recognised, each as the class whose name it is |
| Classes.NameRoundTrip | API/services.py:19-27 | reading back the name of any class gives that class |
| Distributions.Clamp01 | API/services.py:147 | `max(0.0, min(1.0, x))` lies in [0, 1], is `x` when `x` is already there, and is the nearer bound otherwise |
| Distributions.ClampKeepsOrder | API/services.py:147 | clamping keeps a strict order between a value that is positive and one below 1 |
| Distributions.Normalize | API/services.py:150-152 | with a positive total the result sums to exactly 1, keeps the order between any two entries, and lies in [0, 1] when no entry is negative; otherwise the values are returned unchanged |
| Distributions.SumScale | API/services.py:152 | dividing every value by the total divides the sum by it |
| Distributions.ArgMax | API/services.py:56 | the chosen position holds a largest value and every earlier position holds a strictly smaller one, so ties go to the earliest class |
| Distributions.ArgMaxUnique | API/services.py:56 | any position with those two properties is the one `max` chooses |
| Dicts.Get | API/services.py:188 | looking a key up fails exactly when it is not a key, and a found value is paired with the key |
| Dicts.Put | API/services.py:188 | assigning a key gives it the new value, leaves every other key's value alone, appends the key only when it is new, and keeps the keys distinct |
| Dicts.Update | API/services.py:188 | `update` keeps the keys distinct when they were; GetUpdate states its lookups |
| Dicts.GetUpdate | API/services.py:188 | after `update`, a key of the argument has the argument's value and any other key keeps its old value |
| Dicts.FromZipGet | mlops_obesidad/inference/predictor.py:94-97 | the dict built from `zip(classes, row)` has exactly the keys paired with a value, stopping at the shorter sequence, and with distinct classes each maps to the value at its position |
| Dicts.MaxValue | API/services.py:183 | `max(d.values())` fails exactly on an empty dict, and otherwise is a value of the dict that no value exceeds |
| Schemas.GenderFromWire | API/schemas.py:12-16 | exactly `"Female"` and `"Male"` are accepted, each as the member whose wire string it is |
| Schemas.YesNoFromWire | API/schemas.py:19-23 | exactly `"yes"` and `"no"` are accepted |
| Schemas.FrequencyFromWire | API/schemas.py:26-41 | exactly `"no"`, `"Sometimes"`, `"Frequently"` and `"Always"` are accepted, for both CAEC and CALC |
| Schemas.TransportFromWire | API/schemas.py:44-51 | exactly the five transport names are accepted |
| Schemas.WireRoundTrips | API/schemas.py:12-51 | reading back the wire string of any enum member gives that member |
| Schemas.ValidRequestBounds | API/schemas.py:59-85 | a valid request has Age in [0, 120], Height in (0, 3], Weight in (0, 300], FCVC in [1, 3], NCP in [1, 4], CH2O in [1, 3], FAF in [0, 3] and TUE in [0, 2]; a positive Height makes the BMI division defined |
| Schemas.ParseRequest | API/schemas.py:55-87 | a body is accepted exactly when every field passes its check, and then yields a request within every bound; otherwise it is rejected with the non-empty set of failing fields |
| Schemas.ParseRequestExact | API/schemas.py:55-87 | a body is accepted as a request exactly when it encodes that request and the request is within bounds |
| Schemas.JsonRoundTrip | API/schemas.py:55-87 | serialising a request and validating it gives the request back exactly when it is within bounds, and is rejected otherwise |
| Schemas.NumberFieldsReported | API/schemas.py:59-85 | each numeric field that is missing, not a number or outside its bounds is among the reported fields |
| Schemas.EnumFieldsReported | API/schemas.py:58-87 | each categorical field that is missing, not a string or not one of its wire strings is among the reported fields |
| Schemas.MakeResponse | API/schemas.py:114-140 | a response is built exactly when the seven probabilities and the confidence lie in [0, 1] and the processing time is not negative; otherwise a validation error is raised |
| Predictor.RequestToDataFrame | mlops_obesidad/inference/predictor.py:30-52 | the frame has one row and the sixteen columns in request order, with distinct names |
| Predictor.RequestRoundTrip | mlops_obesidad/inference/predictor.py:30-47 | the request can be read back from its frame: enum fields are stored as their wire strings and numeric fields unchanged |
| Predictor.PredictSingle | mlops_obesidad/inference/predictor.py:73-105 | a failure to obtain the model propagates unchanged; any failure after that is re-raised as a plain exception |
| Predictor.PredictSingleReturns | mlops_obesidad/inference/predictor.py:82-101 | it returns exactly when the model is loaded, scoring succeeds and the labels, the matrix and its first row are non-empty; the label is the first decoded label, the array is row 0, and the dict pairs each class with the probability at its position |
| Services.Bmi | API/services.py:89 | the BMI times the squared height gives back the weight, and a positive weight has a positive BMI |
| Services.Bucket | API/services.py:89-142 | the bucket is chosen by half-open BMI ranges with the lower bound included: below 18.5, [18.5, 25), [25, 30), [30, 35), [35, 40), 40 and above |
| Services.BucketMonotone | API/services.py:95-142 | a larger BMI never lands in a lower bucket |
| Services.Template | API/services.py:95-142 | each bucket's branch assigns one value to each of the seven classes, in class order; TemplateIsDistribution and TemplateMargin state what the values are worth |
| Services.TemplateIsDistribution | API/services.py:92-142 | each of the six templates gives all seven classes a value in [0, 1], and the values sum to exactly 1 |
| Services.TemplateMargin | API/services.py:95-142 | each template's favoured class (Insufficient_Weight, Normal_Weight, Overweight_Level_I, Obesity_Type_I, Obesity_Type_II, Obesity_Type_III) holds at least 0.45 and leads every other class by at least 0.25, so it is the unique maximum |
| Services.Perturb | API/services.py:145-147 | after the noise step every value lies in [0, 1] |
| Services.DummyProbabilitiesFacts | API/services.py:81-154 | for any noise within ±0.05 the heuristic distribution sums to exactly 1, lies in [0, 1], and its unique maximum is the class the BMI bucket favours |
| Services.GenerateDummyProbabilities | API/services.py:81-154 | the template, the clamping loop over the classes and the normalisation produce the heuristic distribution of the request's BMI |
| Services.DummyResponse | API/services.py:33-78 | the heuristic answers exactly when the measured time is not negative, and otherwise raises a validation error |
| Services.DummyResponseFacts | API/services.py:33-78 | when the heuristic answers, it predicts the bucket's favoured class, always one of the seven, and its confidence is that class's probability, the largest of the seven; it carries version `1.0.0` and id `obesity-classifier-v1` |
| Services.DummyPredict | API/services.py:33-78 | generating the probabilities, taking the first largest and building the response gives the heuristic answer |
| Services.ZeroFilled | API/services.py:187 | the starting dict has the seven class names as keys, in order, each with 0.0 |
| Services.CompleteGet | API/services.py:187-188 | after the zero-fill and `update`, a class the model reports has the model's value, any other class has 0.0, and extra model keys are kept |
| Services.CompleteProbabilities | API/services.py:187-188 | the zero-fill followed by `update` pair by pair gives a dict with distinct keys in which every class has a value |
| Services.ClassProbabilities | API/services.py:196 | the seven response fields are read by class name from the completed dict |
| Services.TrainedResponse | API/services.py:180-209 | an exception from `predict_single` propagates unchanged; an empty probability dict raises ValueError from `max`, and so does an invalid response; a returned response carries the model's label and satisfies every response bound |
| Services.RealResponse | API/services.py:175-218 | every answer satisfies the response bounds, and the facade raises (a validation error) only when the heuristic's own measured time is negative |
| Services.RealPredictFallback | API/services.py:211-218 | when anything in the trained path raises (a missing model, a scoring failure, an empty dict, an invalid response) the answer is exactly the heuristic one |
| Services.RealPredictFacts | API/services.py:180-203 | a trained answer carries the model's label, and for each class either the model's value or 0.0; its confidence is the largest value the model reported; every answer satisfies the response bounds and carries the model version and id |
| Services.RealPredict | API/services.py:157-218 | the trained path step by step, with the heuristic in both handlers, gives the facade's answer |

## Left out

- Rounding of the confidence (`round(confidence, 2)` and `round(confidence, 4)`) and of the processing time is not modelled; the response carries the unrounded value.
- Services.DummyResponseFacts: states the unrounded confidence, not the 2-decimal rounding applied before the response is built.
- Services.RealPredictFacts: states the unrounded confidence, not the 4-decimal rounding applied before the response is built.
- Randomness: the seven draws of `random.uniform(-0.05, 0.05)` are a parameter, a sequence of seven reals within ±0.05 in class order.
- Time is a parameter: the elapsed milliseconds of each path. The `prediction_id` (uuid4) and the `timestamp` are left out of the response, and so is all logging.
- The model loader (`mlops_obesidad/inference/model_loader.py`) is reduced to its outcome: the exception `get_model` raises, or the loaded artifacts. Its file I/O, unpickling and unsynchronised process-wide cache are not modelled.
- The trained pipeline and label encoder are foreign objects, so they are a scoring function. It yields a failure, or the decoded labels, the probability matrix and `classes_`. Which classes it reports is therefore unconstrained.
- Predictor.PredictSingle: a failure to read the `model` or `label_encoder` entry of the artifacts would also propagate unchanged. The model folds it into the loader's outcome.
- pandas dtype inference (`select_dtypes`) is not modelled: the column kind is an input. The model assumes that `replace` and `apply` keep every column's kind; only `astype(str)` changes it, to text.
- Tables.ApplyToAll: keeps the kind of every column, whereas pandas before 3.0 downcasts an object column that `replace` leaves all-NaN or all-numeric to a float column, and `apply` may likewise infer a new dtype.
- LegacyCleaner.LegacyDataCleaner.Fit: learns the text columns from the normalised copy with the input's kinds. In pandas the `replace` downcast can leave a column of the input non-object there, so the legacy cleaner can miss a text column that the live one (which reads the input before replacing) lists. The model does not capture that divergence.
- Cells are null, a string, or a number (a real). Other Python objects in object columns, and `None` spelled out by `astype(str)` as `"None"`, are not distinguished.
- LegacyCleaner.LegacyTextCell: Python's formatting of a float by `astype(str)` is a parameter `render`, not the real algorithm.
- Strings.Lower: only ASCII letters are lowered; Python's full Unicode case mapping is not modelled.
- Tables with duplicate column names are outside the model: valid tables have distinct names, as every frame built from a dict does.
- Schemas.ParseRequest: pydantic's lax coercions are not modelled. These include numeric strings and booleans accepted as numbers, and integers accepted as floats. A JSON value is a number, a string or something else, and only numbers satisfy a float field.
- The HTTP layer is not part of this model: `API/main.py`, `API/routers.py` and `run_api.py`. Neither are the deployment script `models/deployment.py` and the test clients.
- IEEE floating point is not modelled: all arithmetic is on exact reals.

## Findings

| source | as written | input that shows it | evidently intended | confidence | as-written member | corrected member |
|---|---|---|---|---|---|---|
| mlops_obesidad/transformers.py:70 | `astype(str).str.strip()` turns every null of a learned text column into the string `"nan"` | a learned text column holding a null cell | nulls stay null, as the live copy states at mlops_obesidad/preprocessing/transformers.py:64-65 | not executed | LegacyCleaner.NullBecomesNanText | Cleaner.TransformCell |
| mlops_obesidad/transformers.py:64-65 | alias tokens are matched exactly before any trimming, so a padded token survives | the cell `" NA "` in a learned text column | a padded or differently cased alias becomes null, as in mlops_obesidad/preprocessing/transformers.py:74-81 | not executed | LegacyCleaner.PaddedAliasSurvives | Cleaner.TransformCell |
