# Loan decision endpoint — a Dafny model

The service answers `POST /predict_credit` with a loan decision. The repository
holds two variants of this handler, and both are modelled here as pure
functions:

- **app.py** converts `amount` (int), `rate` (float) and `person_income` (int).
  It rejects a conversion that raises ValueError or TypeError with
  `"Invalid input data"` and status 400. It
  rejects a non-positive amount or income, or a negative rate, with
  `"Invalid input: Please enter valid positive numbers"` and status 400. Only
  then does it build the frame `loan_amnt, loan_int_rate, person_income` and ask
  the model. Label `0` means approve. With no model loaded it answers
  `" Manual review required"` (with the leading space).
- **project.py** converts `duration`, `amount` and `age` (all int) with no range
  check and builds the frame `duration, amount, age`. Label `1` means approve.
  With no model loaded it approves amounts below 10000 and sends the rest to
  review. A failed conversion is not caught, so the request fails with a server
  error.

Modules:

- `Options`: the optional value.
- `Json`: the request body as an ordered list of JSON members. `Get` has Python
  dict semantics: a missing key gives nothing, and with a repeated key the last
  member wins.
- `PyConvert`: Python's `int()` and `float()` on JSON values. Numbers read from
  strings come from a `TextParsers` parameter.
- `Handler`: the one-row data frame, the model (`Option<Model>`, an uninterpreted
  `predict`), the response (`Reply(result, status)` or `Uncaught`), and
  `Decision`. A `Decision` pairs the response with the row that was handed to the
  model, if any. This is how "the model is never consulted" becomes a
  postcondition.
- `App`, `Project`: the two handlers and their properties.
- `Polarity`: the two variants side by side. Their label conventions are
  opposite, and the model states this rather than unifying them.

Facts about the code that the model keeps:

- Each variant hard-codes its three columns (app.py:63-67, project.py:50-55).
- A fault raised by `predict` is not caught (app.py:70, project.py:59), so the
  model has no outcome for it.
- Each variant has its own label literal: 0 approves in app.py:71, 1 approves
  in project.py:61.
- A missing key is read as `0` (app.py:51-53, project.py:51-53).

## Model

| member | source | states |
|---|---|---|
| Json.GetFindsLast | app.py:51-53 | `data.get(key)` finds a value exactly when some member has that key, and the value is the one from the last such member |
| Json.SwapKeepsGet | app.py:48-53 | exchanging two neighbouring members with different keys changes no lookup |
| Json.SwapAgrees | app.py:48-53 | after such an exchange the two requests answer every key the same way |
| Json.DuplicateOrderMatters | app.py:48-53 | of two members with the same key and no later one, the later member's value is read, so exchanging them changes the lookup |
| PyConvert.Truncate | app.py:51 | `int()` of a float truncates toward zero: the result lies between 0 and the float, less than 1 away |
| PyConvert.ToInt | app.py:51-53 | `int()` fails exactly on null, lists, objects and unreadable strings; it keeps ints, maps booleans to 0/1, truncates floats toward zero and reads strings with the int grammar |
| PyConvert.ToIntThroughFloat | app.py:51-53 | with floats read as exact reals, for every non-string value `int(v)` succeeds exactly when `float(v)` does and equals the truncation of `float(v)` |
| PyConvert.ToFloat | app.py:52 | `float()` fails exactly on null, lists, objects and unreadable strings; it keeps ints' and floats' values, maps booleans to 0.0/1.0 and reads strings with the float grammar |
| PyConvert.IntField | app.py:51 | `int(data.get(key, 0))`: a missing key gives 0, otherwise the conversion of the value present |
| PyConvert.FloatField | app.py:52 | `float(data.get(key, 0))`: a missing key gives 0.0, otherwise the conversion of the value present |
| App.ParseLoan | app.py:49-55 | the loan is read exactly when all three conversions succeed, and it carries their values |
| App.FeatureRowOf | app.py:63-68 | the frame's columns are exactly `loan_amnt, loan_int_rate, person_income` in that order, filled with the amount, rate and income |
| App.LabelResult | app.py:70-71 | the result is `"Approved(acceptable credit)"` exactly for label 0 and `"Rejected(high risk)"` for every other label |
| App.PredictCredit | app.py:47-78 | every ValueError and TypeError of a conversion is caught, so the handler always replies; a failed conversion gives 400 `"Invalid input data"`; an out-of-range value gives 400 with the positive-numbers message; status is 400 exactly when the request is invalid and 200 exactly when it is valid; the model is asked exactly when the request is valid and a model is loaded, with the validated frame, and its label decides the result; with no model a valid request gets `" Manual review required"` |
| App.ModelIrrelevantOnInvalidInput | app.py:49-59 | for a rejected request the decision is the same whichever model, or none, is loaded, and no row reaches a model |
| App.MissingAmountOrIncomeRejected | app.py:51-59 | a request without `amount` or without `person_income` always gets 400 and never reaches the model |
| App.MissingRateAccepted | app.py:52-59 | a request without `rate` but with a positive amount and income gets 200, and the model sees a rate of 0.0 |
| App.DependsOnlyOnKeys | app.py:48-53 | two requests that agree on `amount`, `rate` and `person_income` get the same decision |
| App.MemberOrderIrrelevant | app.py:48-53 | reordering two members with different keys in the request does not change the decision |
| App.NumericRequest | app.py:49-68 | for every amount and income sent as JSON integers and every rate sent as a JSON integer or decimal, the request is read as exactly that loan (an integer rate as its real value), is valid exactly when amount > 0, rate >= 0 and income > 0, and a loaded model is given exactly the frame of that loan |
| App.NoModelExample | app.py:73-78 | amount 5000, rate 10.0, income 40000 with no model gives `" Manual review required"`, 200 |
| App.NegativeAmountExample | app.py:58-59 | amount -100 is rejected with 400 and the positive-numbers message, and no model is asked |
| Project.ParseApplication | project.py:50-55 | the application is read exactly when all three conversions succeed, and it carries their values |
| Project.FeatureRowOf | project.py:50-56 | the frame's columns are exactly `duration, amount, age` in that order, filled with the converted values |
| Project.LabelResult | project.py:59-61 | the result is `"Approved (with good credit)"` exactly for label 1 and `"Rejected (high risk)"` for every other label |
| Project.FallbackResult | project.py:64 | with no model the result is `"Approved"` exactly when the amount is below 10000, and `"Requireing further manual review"` otherwise |
| Project.PredictCredit | project.py:46-66 | the request fails uncaught exactly when a conversion fails; otherwise it always replies 200 with no range check; the model is asked exactly when the conversions succeed and a model is loaded, with the converted frame, and its label decides the result; with no model the amount rule decides |
| Project.FallbackBoundary | project.py:64 | 9999 is approved; 10000 and 10001 go to review |
| Project.FallbackMonotone | project.py:64 | if an amount is approved by the fallback, every smaller amount is approved too |
| Project.FallbackDependsOnlyOnAmount | project.py:62-64 | with no model, two readable requests with the same amount get the same decision, whatever their duration and age |
| Project.MissingAmountApproved | project.py:52-64 | with no model, a readable request without `amount` is approved |
| Project.BadDurationOrAgeAborts | project.py:49-58 | an unreadable `duration` or `age` makes the request fail uncaught, even with no model loaded |
| Project.NoRangeValidation | project.py:50-59 | any integers, zero and negatives included, reach the model unchanged in the frame |
| Project.DependsOnlyOnKeys | project.py:47-55 | two requests that agree on `duration`, `amount` and `age` get the same decision |
| Project.MemberOrderIrrelevant | project.py:47-55 | reordering two members with different keys in the request does not change the decision |
| Polarity.OppositePolarity | project.py:59-61 | for labels 0 and 1, app.py approves (app.py:71) exactly when project.py rejects |
| Polarity.NeverApprovedByBoth | project.py:61 | no label is an approval in both variants; a label other than 0 or 1 is a rejection in both |

## Left out

- Flask routing, `render_template`, `jsonify` and `app.run` are HTTP plumbing. A response is a `(result, status)` pair. `Uncaught` stands for the 500 answer the framework gives when an exception escapes the handler.
- The `/chat` endpoint and its Groq client: a network call to an external chat model.
- Loading the model with `joblib.load` and the bare `except` around it: file I/O. The loaded model is an `Option<Model>` parameter. Python truthiness of the model object is taken as "present".
- Faults raised by `model.predict` itself: the code does not catch them, and the model has no outcome for them.
- The pandas DataFrame: it is a list of (column, cell) pairs.
- `print` logging.
- Request bodies that are not a JSON object, where `data.get` itself raises.
- The string grammars of Python `int()` and `float()` are not modelled: they are the `TextParsers` parameter.
- PyConvert.ToFloat: does not model rounding to a 64-bit float, the OverflowError on huge ints, or NaN and infinities, because floating point is out of scope. A `JFloat` holds the exact decimal of the JSON text, not the double Python decodes, so near a boundary the model can differ from the service: JSON `9999.99999999999999` decodes to 10000.0 in Python, so project.py:64 sends it to review, while the model truncates it to 9999 and approves it. A NaN rate (JSON `NaN`) would pass `rate < 0` in app.py, but it cannot be represented here.
- PyConvert.ToInt: does not model `int()` of an infinity or NaN (a JSON `1e400` or `NaN`), which raises OverflowError or ValueError, because IEEE special values are out of scope. Its truncation of a float applies to the exact decimal, not to the double Python decodes (see the line above).
- App.PredictCredit: does not model the OverflowError that `int()` of an infinite float (JSON `1e400` for `amount` or `person_income`) or `float()` of an int beyond the double range (for `rate`) raises at app.py:51-53. It is not caught by the except at app.py:54, so the service answers 500; the model, which reads these inputs as exact numbers, answers them with a reply instead.
- PyConvert.ToIntThroughFloat: holds in Python only for ints that a double represents exactly; `float(10**400)` raises OverflowError and `int(float(2**53 + 1))` is `2**53`, because the model reads floats as exact reals.
