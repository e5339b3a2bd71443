/**
 What both handlers hand to and get back from their collaborators: the one-row
 data frame given to the model, the model itself, and the HTTP response.
 */
module Handler {
  import opened Options

  /** A cell of the data frame: the handlers put Python ints and floats in it. */
  datatype Cell = IntCell(i: int) | FloatCell(f: real)

  /** A one-row data frame: its columns in order, each with its single value. */
  type FeatureRow = seq<(string, Cell)>

  function Columns(row: FeatureRow): (names: seq<string>)
    ensures |names| == |row|
    ensures forall i :: 0 <= i < |row| ==> names[i] == row[i].0
  {
    seq(|row|, i requires 0 <= i < |row| => row[i].0)
  }

  /** A loaded classifier; `predict` yields the label of the row's first (only) prediction. */
  datatype Model = Model(predict: FeatureRow -> int)

  /**
   What the client gets: a JSON body `{"result": …}` with a status, or an
   exception that escaped the handler, which the web framework answers with 500.
   */
  datatype Response = Reply(result: string, status: int) | Uncaught

  const StatusOk := 200
  const StatusBadRequest := 400

  /** A handler's answer together with the row, if any, that it gave to the model. */
  datatype Decision = Decision(response: Response, queried: Option<FeatureRow>)
}
