/**
 The two handlers read the model's label with opposite conventions: app.py
 approves on 0, project.py on 1. The lemmas here state that difference.
 */
module Polarity {
  import App
  import Project

  /** On the labels of a binary classifier the two handlers always disagree. */
  lemma OppositePolarity(prediction: int)
    requires prediction == 0 || prediction == 1
    ensures App.LabelResult(prediction) == App.Approved <==> Project.LabelResult(prediction) == Project.Rejected
  {
  }

  /** No label is an approval for both handlers, and any label outside {0, 1} is a rejection for both. */
  lemma NeverApprovedByBoth(prediction: int)
    ensures !(App.LabelResult(prediction) == App.Approved && Project.LabelResult(prediction) == Project.Approved)
    ensures prediction != 0 && prediction != 1 ==>
              App.LabelResult(prediction) == App.Rejected && Project.LabelResult(prediction) == Project.Rejected
  {
  }
}
