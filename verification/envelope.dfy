/** The result envelope of src/result.py: a tagged union through which a
    fallible computation reports either a numeric value or a structured
    error. Python floats are modelled as exact reals. */
module Envelope {

  datatype Option<+T> = None | Some(value: T)

  /** A machine-readable code, a human-readable message and, optionally, the
      numeric values that caused the failure. `details` is absent unless the
      producer supplies it, as the pydantic default `None` says. */
  datatype ErrorDetails = ErrorDetails(
    code: string,
    message: string,
    details: Option<map<string, real>> := None)

  /** `Success` and `Failure` of src/result.py, with the `success` flag that
      defaults to true and false respectively. A caller may still pass the
      flag explicitly; `Tagged` says when it agrees with the variant. */
  datatype Result =
    | Success(data: real, success: bool := true)
    | Failure(error: ErrorDetails, success: bool := false)
  {
    /** The flag tells the truth about which variant this is. */
    predicate Tagged() {
      success == Success?
    }
  }

  /** A result is exactly one of the two variants. */
  lemma ExclusiveAndExhaustive(r: Result)
    ensures r.Success? != r.Failure?
    ensures r.Success? || r.Failure?
  {
  }

  /** A `Success` built without an explicit flag reports success and carries
      the given value. */
  lemma DefaultSuccess(x: real)
    ensures Success(x).success
    ensures Success(x).Tagged()
    ensures Success(x).data == x
  {
  }

  /** A `Failure` built without an explicit flag reports failure and carries
      exactly the one `ErrorDetails` it was given. */
  lemma DefaultFailure(e: ErrorDetails)
    ensures !Failure(e).success
    ensures Failure(e).Tagged()
    ensures Failure(e).error == e
  {
  }

  /** `ErrorDetails` always has a code and a message; built without
      `details`, it carries none. */
  lemma DefaultErrorDetails(code: string, message: string)
    ensures ErrorDetails(code, message).code == code
    ensures ErrorDetails(code, message).message == message
    ensures ErrorDetails(code, message).details == None
  {
  }
}
