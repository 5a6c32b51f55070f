/** Value shapes shared by the browser client and the scoring backend. */
module Common {

  /** A value that may be absent (`null`/`undefined` in the client, `None` in the backend). */
  datatype Option<+T> = None | Some(value: T)

  /** The outcome of an operation that can fail: a thrown exception or an HTTP error status. */
  datatype Result<+R, +E> = Success(value: R) | Failure(error: E)

  /** One per-class probability reported by the classifier, `{label, confidence}`; `className` holds `label`.
      Either member may be missing from what a client stores or sends. */
  datatype ClassScore = ClassScore(className: Option<string>, confidence: Option<real>)

  /** The classifier's verdict object `{label, confidences}`; `verdict` holds `label`. */
  datatype Confidence = Confidence(verdict: Option<string>, confidences: seq<ClassScore>)
}
