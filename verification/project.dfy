/**
 The `/predict_credit` handler of project.py: it converts `duration`, `amount`
 and `age` without any range check, asks the model (label 1 means approve) or,
 with no model loaded, approves any amount below 10000. A failed conversion is
 not caught.
 */
module Project {
  import opened Options
  import opened Json
  import opened PyConvert
  import opened Handler

  const Approved := "Approved (with good credit)"
  const Rejected := "Rejected (high risk)"
  const FallbackApproved := "Approved"
  const FallbackReview := "Requireing further manual review"

  /** The label this model uses for good credit. */
  const ApproveLabel := 1

  /** Without a model, amounts strictly below this are approved. */
  const AmountCutoff := 10000

  /** The request keys the handler reads. */
  const Keys: set<string> := {"duration", "amount", "age"}

  datatype Application = Application(duration: int, amount: int, age: int)

  /** The three conversions that build the frame, in the order Python evaluates them. */
  function ParseApplication(data: Object, tp: TextParsers): (r: Option<Application>)
    ensures r.Some? <==>
      && IntField(data, "duration", tp).Some?
      && IntField(data, "amount", tp).Some?
      && IntField(data, "age", tp).Some?
    ensures r.Some? ==>
      && r.value.duration == IntField(data, "duration", tp).value
      && r.value.amount == IntField(data, "amount", tp).value
      && r.value.age == IntField(data, "age", tp).value
  {
    match (IntField(data, "duration", tp), IntField(data, "amount", tp), IntField(data, "age", tp))
    case (Some(duration), Some(amount), Some(age)) => Some(Application(duration, amount, age))
    case _ => None
  }

  /** The data frame, in the column order the model was trained with. */
  function FeatureRowOf(app: Application): (row: FeatureRow)
    ensures Columns(row) == ["duration", "amount", "age"]
    ensures row[0].1 == IntCell(app.duration)
    ensures row[1].1 == IntCell(app.amount)
    ensures row[2].1 == IntCell(app.age)
  {
    [("duration", IntCell(app.duration)),
     ("amount", IntCell(app.amount)),
     ("age", IntCell(app.age))]
  }

  /** Label 1 approves; every other label rejects. */
  function LabelResult(prediction: int): (s: string)
    ensures s == Approved <==> prediction == ApproveLabel
    ensures s == Approved || s == Rejected
  {
    if prediction == 1 then Approved else Rejected
  }

  /** The rule used when no model is loaded. */
  function FallbackResult(amount: int): (s: string)
    ensures s == FallbackApproved <==> amount < AmountCutoff
    ensures s == FallbackApproved || s == FallbackReview
  {
    if amount < 10000 then FallbackApproved else FallbackReview
  }

  function PredictCredit(data: Object, tp: TextParsers, model: Option<Model>): (d: Decision)
    // a failed conversion escapes the handler, with or without a model
    ensures d.response.Uncaught? <==> ParseApplication(data, tp).None?
    ensures ParseApplication(data, tp).None? ==> d.queried.None?
    // no range check: every parsed request is answered with 200
    ensures d.response.Reply? ==> d.response.status == StatusOk
    ensures d.queried.Some? <==> ParseApplication(data, tp).Some? && model.Some?
    ensures d.queried.Some? ==>
              && d.queried.value == FeatureRowOf(ParseApplication(data, tp).value)
              && d.response.result == LabelResult(model.value.predict(d.queried.value))
    ensures ParseApplication(data, tp).Some? && model.None? ==>
              d.response == Reply(FallbackResult(ParseApplication(data, tp).value.amount), StatusOk)
  {
    match ParseApplication(data, tp)
    case None => Decision(Uncaught, None)
    case Some(app) =>
      var row := FeatureRowOf(app);
      match model
      case Some(m) => Decision(Reply(LabelResult(m.predict(row)), StatusOk), Some(row))
      case None =>
        // the fallback converts `amount` a second time
        var amount := IntField(data, "amount", tp);
        Decision(Reply(FallbackResult(amount.value), StatusOk), None)
  }

  /** The fallback boundary is strict: 9999 is approved, 10000 and above go to review. */
  lemma FallbackBoundary()
    ensures FallbackResult(AmountCutoff - 1) == FallbackApproved
    ensures FallbackResult(AmountCutoff) == FallbackReview
    ensures FallbackResult(AmountCutoff + 1) == FallbackReview
  {
  }

  /** Lowering the amount never turns an approval into a review. */
  lemma FallbackMonotone(a: int, b: int)
    requires a <= b && FallbackResult(b) == FallbackApproved
    ensures FallbackResult(a) == FallbackApproved
  {
  }

  /** With no model, two parsed requests with equal amounts get the same answer. */
  lemma FallbackDependsOnlyOnAmount(d1: Object, d2: Object, tp: TextParsers)
    requires ParseApplication(d1, tp).Some? && ParseApplication(d2, tp).Some?
    requires IntField(d1, "amount", tp) == IntField(d2, "amount", tp)
    ensures PredictCredit(d1, tp, None) == PredictCredit(d2, tp, None)
  {
  }

  /** A missing amount is read as 0 and, with no model, approved. */
  lemma MissingAmountApproved(data: Object, tp: TextParsers)
    requires Get(data, "amount").None?
    requires ParseApplication(data, tp).Some?
    ensures PredictCredit(data, tp, None).response == Reply(FallbackApproved, StatusOk)
  {
  }

  /** An unreadable duration or age aborts the request even when only the amount would matter. */
  lemma BadDurationOrAgeAborts(data: Object, tp: TextParsers, model: Option<Model>)
    requires IntField(data, "duration", tp).None? || IntField(data, "age", tp).None?
    ensures PredictCredit(data, tp, model) == Decision(Uncaught, None)
  {
  }

  /** Any integers, zero and negatives included, reach the model unchanged. */
  lemma NoRangeValidation(duration: int, amount: int, age: int, tp: TextParsers, m: Model)
    ensures
      var data := [("duration", JInt(duration)), ("amount", JInt(amount)), ("age", JInt(age))];
      PredictCredit(data, tp, Some(m)).queried == Some(FeatureRowOf(Application(duration, amount, age)))
  {
    var data := [("duration", JInt(duration)), ("amount", JInt(amount)), ("age", JInt(age))];
    var front := data[..2];
    assert front[..1] == [("duration", JInt(duration))];
    assert Get(front, "duration") == Some(JInt(duration));
    assert Get(data, "duration") == Some(JInt(duration));
    assert Get(data, "amount") == Some(JInt(amount));
    assert Get(data, "age") == Some(JInt(age));
  }

  /** Only the three keys matter: objects that agree on them get the same decision. */
  lemma DependsOnlyOnKeys(a: Object, b: Object, tp: TextParsers, model: Option<Model>)
    requires AgreeOn(a, b, Keys)
    ensures PredictCredit(a, tp, model) == PredictCredit(b, tp, model)
  {
    assert Get(a, "duration") == Get(b, "duration");
    assert Get(a, "amount") == Get(b, "amount");
    assert Get(a, "age") == Get(b, "age");
  }

  /** Reordering two members with different keys in the request changes nothing. */
  lemma MemberOrderIrrelevant(data: Object, i: nat, tp: TextParsers, model: Option<Model>)
    requires i + 1 < |data| && data[i].0 != data[i + 1].0
    ensures PredictCredit(Swap(data, i), tp, model) == PredictCredit(data, tp, model)
  {
    SwapAgrees(data, i, Keys);
    DependsOnlyOnKeys(Swap(data, i), data, tp, model);
  }
}
