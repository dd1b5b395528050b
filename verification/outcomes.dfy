/**
  The outcome of one task execution (Go's `TaskResult`), how `executeTask`
  normalises it when the task body reports an error, and the single success
  predicate the whole scheduler relies on.
 */
module Outcomes {
  import opened Wrappers

  /** A Go `error` value, reduced to its message. Two distinct Go errors
      with the same message are equal here; nothing in the scheduler compares
      errors, it only attaches them. */
  datatype Error = Error(message: string)

  /** The `Data interface{}` payload, carried along unchanged and never inspected. */
  datatype Payload = NoData | Data(repr: string)

  /** `TaskResult`: a protocol-level code, an application-level code, an
      optional error and an opaque payload. Go's `int` codes are only compared,
      never computed with, so unbounded integers model them exactly. */
  datatype TaskResult = TaskResult(httpCode: int, businessCode: int, err: Option<Error>, data: Payload)

  /** The protocol code that counts as success. */
  const HttpOk: int := 200
  /** The protocol code substituted for an unset one when the task errs. */
  const ServerError: int := 500
  /** The application code substituted for an unset one when the task errs. */
  const GenericFailure: int := 1

  /** The only definition of success: protocol code 200 and application code 0.
      The `err` field and the payload play no part. */
  predicate IsSuccess(r: TaskResult) {
    r.httpCode == HttpOk && r.businessCode == 0
  }

  /** A code the task left at Go's zero value is replaced by `fallback`;
      one the task set explicitly is kept. */
  function DefaultCode(code: int, fallback: int): (c: int)
    requires fallback != 0
    ensures c != 0
    ensures code != 0 ==> c == code
    ensures code == 0 ==> c == fallback
  {
    if code == 0 then fallback else code
  }

  /** What `executeTask` makes of the pair `(result, err)` returned by the
      task body before it looks at success: with a nil error the result passes
      through untouched; with an error, the error is attached and unset codes
      get failure defaults. */
  function Normalize(result: TaskResult, err: Option<Error>): (r: TaskResult)
    ensures err.None? ==> r == result
    ensures err.Some? ==> r.err == err
    ensures err.Some? ==> r.httpCode != 0 && r.businessCode != 0
    ensures err.Some? && result.httpCode != 0 ==> r.httpCode == result.httpCode
    ensures err.Some? && result.httpCode == 0 ==> r.httpCode == ServerError
    ensures err.Some? && result.businessCode != 0 ==> r.businessCode == result.businessCode
    ensures err.Some? && result.businessCode == 0 ==> r.businessCode == GenericFailure
    ensures r.data == result.data
  {
    match err
    case None => result
    case Some(e) =>
      result.(err := err,
              httpCode := DefaultCode(result.httpCode, ServerError),
              businessCode := DefaultCode(result.businessCode, GenericFailure))
  }

  /** A task whose body returns a non-nil error never counts as a success:
      normalisation either keeps a non-zero application code or forces it to 1. */
  lemma ErrorNeverSucceeds(result: TaskResult, e: Error)
    ensures !IsSuccess(Normalize(result, Some(e)))
  {
  }

  /** Normalising an already normalised outcome with the same error changes
      nothing, so the defaults are applied at most once. */
  lemma NormalizeIdempotent(result: TaskResult, err: Option<Error>)
    ensures Normalize(Normalize(result, err), err) == Normalize(result, err)
  {
  }

  /** Normalisation changes a result exactly when an error is reported and the
      result does not already carry that error and two non-zero codes. */
  lemma NormalizeChangesOnlyOnError(result: TaskResult, err: Option<Error>)
    ensures Normalize(result, err) == result <==>
      (err.None? || (result.err == err && result.httpCode != 0 && result.businessCode != 0))
  {
    if err.Some? && Normalize(result, err) == result {
      assert result.httpCode == Normalize(result, err).httpCode;
      assert result.businessCode == Normalize(result, err).businessCode;
    }
  }

  /** The test scenario of a body returning a zero `TaskResult` and a plain
      error: the outcome is 500 / 1 with the original error attached. */
  lemma PlainErrorOutcome(e: Error)
    ensures Normalize(TaskResult(0, 0, None, NoData), Some(e)) == TaskResult(500, 1, Some(e), NoData)
  {
  }

  /** Success needs both codes: 200/1 and 500/0 are failures, 200/0 is not,
      whatever error field or payload the result carries. */
  lemma SuccessNeedsBothCodes(code: int, business: int, err: Option<Error>, data: Payload)
    ensures IsSuccess(TaskResult(code, business, err, data)) <==> code == 200 && business == 0
    ensures !IsSuccess(TaskResult(200, 1, err, data))
    ensures !IsSuccess(TaskResult(500, 0, err, data))
  {
  }
}
