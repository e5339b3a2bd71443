/**
 The `/predict_credit` handler of app.py: it converts `amount`, `rate` and
 `person_income`, rejects malformed or non-positive input with 400, and only
 then asks the model (label 0 means approve) or, with no model loaded, answers
 that a manual review is needed.
 */
module App {
  import opened Options
  import opened Json
  import opened PyConvert
  import opened Handler

  const InvalidData := "Invalid input data"
  const NotPositive := "Invalid input: Please enter valid positive numbers"
  const Approved := "Approved(acceptable credit)"
  const Rejected := "Rejected(high risk)"
  const ManualReview := " Manual review required"

  /** The label this model uses for an acceptable applicant. */
  const ApproveLabel := 0

  /** The request keys the handler reads. */
  const Keys: set<string> := {"amount", "rate", "person_income"}

  datatype Loan = Loan(amount: int, rate: real, income: int)

  /** The three conversions of the try block; any failure is a client error. */
  function ParseLoan(data: Object, tp: TextParsers): (r: Option<Loan>)
    ensures r.Some? <==>
      && IntField(data, "amount", tp).Some?
      && FloatField(data, "rate", tp).Some?
      && IntField(data, "person_income", tp).Some?
    ensures r.Some? ==>
      && r.value.amount == IntField(data, "amount", tp).value
      && r.value.rate == FloatField(data, "rate", tp).value
      && r.value.income == IntField(data, "person_income", tp).value
  {
    match (IntField(data, "amount", tp), FloatField(data, "rate", tp), IntField(data, "person_income", tp))
    case (Some(amount), Some(rate), Some(income)) => Some(Loan(amount, rate, income))
    case _ => None
  }

  /** The range check: a positive amount and income, a rate that is not negative. */
  predicate InRange(loan: Loan)
  {
    !(loan.amount <= 0 || loan.rate < 0.0 || loan.income <= 0)
  }

  /** A request the handler lets through to the decision. */
  predicate Valid(data: Object, tp: TextParsers)
  {
    ParseLoan(data, tp).Some? && InRange(ParseLoan(data, tp).value)
  }

  /** The data frame, in the column order the model was trained with. */
  function FeatureRowOf(loan: Loan): (row: FeatureRow)
    ensures Columns(row) == ["loan_amnt", "loan_int_rate", "person_income"]
    ensures row[0].1 == IntCell(loan.amount)
    ensures row[1].1 == FloatCell(loan.rate)
    ensures row[2].1 == IntCell(loan.income)
  {
    [("loan_amnt", IntCell(loan.amount)),
     ("loan_int_rate", FloatCell(loan.rate)),
     ("person_income", IntCell(loan.income))]
  }

  /** Label 0 approves; every other label rejects. */
  function LabelResult(prediction: int): (s: string)
    ensures s == Approved <==> prediction == ApproveLabel
    ensures s == Approved || s == Rejected
  {
    if prediction == 0 then Approved else Rejected
  }

  function PredictCredit(data: Object, tp: TextParsers, model: Option<Model>): (d: Decision)
    // every ValueError and TypeError of a conversion is caught: the handler always replies
    ensures d.response.Reply?
    ensures d.response.result in {InvalidData, NotPositive, Approved, Rejected, ManualReview}
    ensures ParseLoan(data, tp).None? ==> d == Decision(Reply(InvalidData, StatusBadRequest), None)
    ensures ParseLoan(data, tp).Some? && !InRange(ParseLoan(data, tp).value) ==>
              d == Decision(Reply(NotPositive, StatusBadRequest), None)
    ensures d.response.status == StatusBadRequest <==> !Valid(data, tp)
    ensures d.response.status == StatusOk <==> Valid(data, tp)
    // the model is asked exactly when the request is valid and a model is loaded
    ensures d.queried.Some? <==> Valid(data, tp) && model.Some?
    ensures d.queried.Some? ==>
              && d.queried.value == FeatureRowOf(ParseLoan(data, tp).value)
              && d.response.result == LabelResult(model.value.predict(d.queried.value))
    ensures Valid(data, tp) && model.None? ==> d.response == Reply(ManualReview, StatusOk)
  {
    match ParseLoan(data, tp)
    case None => Decision(Reply(InvalidData, StatusBadRequest), None)
    case Some(loan) =>
      if !InRange(loan) then
        Decision(Reply(NotPositive, StatusBadRequest), None)
      else
        match model
        case Some(m) =>
          var row := FeatureRowOf(loan);
          Decision(Reply(LabelResult(m.predict(row)), StatusOk), Some(row))
        case None => Decision(Reply(ManualReview, StatusOk), None)
  }

  /** On a rejected request the decision is the same whatever model is loaded. */
  lemma ModelIrrelevantOnInvalidInput(data: Object, tp: TextParsers, m1: Option<Model>, m2: Option<Model>)
    requires !Valid(data, tp)
    ensures PredictCredit(data, tp, m1) == PredictCredit(data, tp, m2)
    ensures PredictCredit(data, tp, m1).queried.None?
  {
  }

  /** A missing amount or income is read as 0 and so is always rejected with 400. */
  lemma MissingAmountOrIncomeRejected(data: Object, tp: TextParsers, model: Option<Model>)
    requires Get(data, "amount").None? || Get(data, "person_income").None?
    ensures PredictCredit(data, tp, model).response.status == StatusBadRequest
    ensures PredictCredit(data, tp, model).queried.None?
  {
  }

  /** A missing rate is read as 0.0, which passes the range check. */
  lemma MissingRateAccepted(data: Object, tp: TextParsers, model: Option<Model>)
    requires Get(data, "rate").None?
    requires IntField(data, "amount", tp).Some? && IntField(data, "amount", tp).value > 0
    requires IntField(data, "person_income", tp).Some? && IntField(data, "person_income", tp).value > 0
    ensures PredictCredit(data, tp, model).response.status == StatusOk
    ensures model.Some? ==> PredictCredit(data, tp, model).queried.value[1].1 == FloatCell(0.0)
  {
  }

  /** Only the three keys matter: objects that agree on them get the same decision. */
  lemma DependsOnlyOnKeys(a: Object, b: Object, tp: TextParsers, model: Option<Model>)
    requires AgreeOn(a, b, Keys)
    ensures PredictCredit(a, tp, model) == PredictCredit(b, tp, model)
  {
    assert Get(a, "amount") == Get(b, "amount");
    assert Get(a, "rate") == Get(b, "rate");
    assert Get(a, "person_income") == Get(b, "person_income");
  }

  /** Reordering two members with different keys in the request changes nothing. */
  lemma MemberOrderIrrelevant(data: Object, i: nat, tp: TextParsers, model: Option<Model>)
    requires i + 1 < |data| && data[i].0 != data[i + 1].0
    ensures PredictCredit(Swap(data, i), tp, model) == PredictCredit(data, tp, model)
  {
    SwapAgrees(data, i, Keys);
    DependsOnlyOnKeys(Swap(data, i), data, tp, model);
  }

  /** The rate a JSON number stands for once `float()` has read it. */
  function RateOf(v: JsonValue): real
    requires v.JInt? || v.JFloat?
  {
    if v.JInt? then v.i as real else v.f
  }

  /**
   A request whose amount and income are JSON integers and whose rate is a JSON
   integer or decimal is read as the loan it spells, accepted exactly when it is
   in range, and framed as such.
   */
  lemma NumericRequest(amount: int, rateJson: JsonValue, income: int, tp: TextParsers, model: Option<Model>)
    requires rateJson.JInt? || rateJson.JFloat?
    ensures
      var data := [("amount", JInt(amount)), ("rate", rateJson), ("person_income", JInt(income))];
      var loan := Loan(amount, RateOf(rateJson), income);
      && ParseLoan(data, tp) == Some(loan)
      && (Valid(data, tp) <==> amount > 0 && loan.rate >= 0.0 && income > 0)
      && (Valid(data, tp) && model.Some? ==> PredictCredit(data, tp, model).queried == Some(FeatureRowOf(loan)))
  {
    var data := [("amount", JInt(amount)), ("rate", rateJson), ("person_income", JInt(income))];
    var front := data[..2];
    assert front[..1] == [("amount", JInt(amount))];
    assert Get(front, "amount") == Some(JInt(amount));
    assert Get(data, "amount") == Some(JInt(amount));
    assert Get(data, "rate") == Some(rateJson);
    assert Get(data, "person_income") == Some(JInt(income));
  }

  /** A loan of 5000 at 10% for an income of 40000 with no model loaded. */
  lemma NoModelExample(tp: TextParsers)
    ensures PredictCredit([("amount", JInt(5000)), ("rate", JFloat(10.0)), ("person_income", JInt(40000))], tp, None)
         == Decision(Reply(ManualReview, StatusOk), None)
  {
    var data := [("amount", JInt(5000)), ("rate", JFloat(10.0)), ("person_income", JInt(40000))];
    assert Get(data, "amount") == Some(JInt(5000));
    assert Get(data, "rate") == Some(JFloat(10.0));
    assert Get(data, "person_income") == Some(JInt(40000));
  }

  /** A negative amount is rejected before any model is asked. */
  lemma NegativeAmountExample(tp: TextParsers, model: Option<Model>)
    ensures PredictCredit([("amount", JInt(-100)), ("rate", JFloat(5.0)), ("person_income", JInt(30000))], tp, model)
         == Decision(Reply(NotPositive, StatusBadRequest), None)
  {
    var data := [("amount", JInt(-100)), ("rate", JFloat(5.0)), ("person_income", JInt(30000))];
    assert Get(data, "amount") == Some(JInt(-100));
    assert Get(data, "rate") == Some(JFloat(5.0));
    assert Get(data, "person_income") == Some(JInt(30000));
  }
}
