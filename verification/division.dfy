/** The guarded division of src/divide.py.

    The source raises a `DivisionError` when the divisor is zero and is
    annotated to return a bare float, while its tests expect the result
    envelope of src/result.py (`Success`/`Failure`, code
    "DIVISION_BY_ZERO"). This module models both: `DivideAsWritten` is the
    raising function as src/divide.py states it, and `Divide` reports the same
    outcome through the envelope. The raise becomes the `Failure` variant;
    its `code` comes from the tests, its `message` and `details` from
    `DivisionError`. Floats are exact reals, so the quotient is the exact
    real quotient. */
module Division {
  import opened Envelope

  /** The message `divide` attaches to a zero divisor. */
  const ZeroDivisorMessage: string := "Cannot divide by zero"

  /** The machine-readable code the tests expect for a zero divisor. */
  const DivisionByZeroCode: string := "DIVISION_BY_ZERO"

  /** The keys of a division error's `details` map. */
  const DividendKey: string := "dividend"
  const DivisorKey: string := "divisor"

  /** The operand pair of a division, already validated as numbers. */
  datatype DivideParams = DivideParams(dividend: real, divisor: real)

  /** The error `divide` raises: the operands, a message, and the operands
      again as a `details` map. */
  datatype DivisionError = DivisionError(
    dividend: real,
    divisor: real,
    message: string,
    details: map<string, real>)
  {
    /** `details` names exactly the two operands and maps each to its
        field's value. */
    predicate Consistent() {
      && details.Keys == {DividendKey, DivisorKey}
      && details[DividendKey] == dividend
      && details[DivisorKey] == divisor
    }
  }

  /** The constructor of `DivisionError`: it records the operands and the
      message and derives `details` from the operands. */
  function NewDivisionError(dividend: real, divisor: real, message: string): (e: DivisionError)
    ensures e.Consistent()
    ensures e.dividend == dividend && e.divisor == divisor
    ensures e.message == message
  {
    DivisionError(dividend, divisor, message, map[DividendKey := dividend, DivisorKey := divisor])
  }

  /** What a Python call can do here: return a value or raise a
      `DivisionError`. */
  datatype Raising<+T> = Returns(value: T) | Raises(error: DivisionError)

  /** `divide` as src/divide.py writes it: a zero divisor raises, any other
      divisor returns the quotient as a bare number. */
  function DivideAsWritten(p: DivideParams): (r: Raising<real>)
    ensures r.Raises? <==> p.divisor == 0.0
    ensures r.Returns? ==> r.value * p.divisor == p.dividend
    ensures r.Raises? ==> r.error.Consistent()
    ensures r.Raises? ==> r.error.dividend == p.dividend && r.error.divisor == p.divisor
    ensures r.Raises? ==> r.error.message == ZeroDivisorMessage
  {
    if p.divisor == 0.0 then
      Raises(NewDivisionError(p.dividend, p.divisor, ZeroDivisorMessage))
    else
      Returns(p.dividend / p.divisor)
  }

  /** The `ErrorDetails` a `DivisionError` is reported as. */
  function ToErrorDetails(e: DivisionError): (d: ErrorDetails)
    ensures d.code == DivisionByZeroCode
    ensures d.message == e.message
    ensures d.details == Some(e.details)
  {
    ErrorDetails(DivisionByZeroCode, e.message, Some(e.details))
  }

  /** Recovers the `DivisionError` a caller of the raising style would have
      caught from a reported `ErrorDetails`; `None` when the code is not the
      division-by-zero code or the details do not name exactly the two
      operands. */
  function RecoverDivisionError(d: ErrorDetails): (r: Option<DivisionError>)
    ensures r.Some? <==>
      && d.code == DivisionByZeroCode
      && d.details.Some?
      && d.details.value.Keys == {DividendKey, DivisorKey}
    ensures r.Some? ==> r.value.Consistent() && r.value.message == d.message
    ensures r.Some? ==> r.value.details == d.details.value
  {
    match d.details
    case Some(m) =>
      if d.code == DivisionByZeroCode && m.Keys == {DividendKey, DivisorKey} then
        Some(DivisionError(m[DividendKey], m[DivisorKey], d.message, m))
      else
        None
    case None => None
  }

  /** Reporting a consistent error and recovering it loses nothing: the
      operands, the message and the details survive the envelope. */
  lemma RecoverAfterReport(e: DivisionError)
    requires e.Consistent()
    ensures RecoverDivisionError(ToErrorDetails(e)) == Some(e)
  {
  }

  /** Every recoverable `ErrorDetails` is exactly the report of the error
      recovered from it. */
  lemma ReportAfterRecover(d: ErrorDetails)
    requires RecoverDivisionError(d).Some?
    ensures ToErrorDetails(RecoverDivisionError(d).value) == d
  {
  }

  /** Turns the raising style into the envelope: a returned value is a
      `Success`, a raised error a `Failure`. */
  function Report(r: Raising<real>): (res: Result)
    ensures res.Tagged()
    ensures res.Success? <==> r.Returns?
    ensures r.Returns? ==> res.data == r.value
    ensures r.Raises? ==> res.error.code == DivisionByZeroCode && res.error.message == r.error.message
    ensures r.Raises? ==> res.error.details == Some(r.error.details)
    ensures r.Raises? && r.error.Consistent() ==> RecoverDivisionError(res.error) == Some(r.error)
  {
    match r
    case Returns(v) => Success(v)
    case Raises(e) => Failure(ToErrorDetails(e))
  }

  /** `divide` reporting through the result envelope, as the tests expect. */
  function Divide(p: DivideParams): (r: Result)
    ensures r.Tagged()
    ensures r.Failure? <==> p.divisor == 0.0
    ensures r.Success? ==> r.data * p.divisor == p.dividend
    ensures r.Failure? ==> r.error.code == DivisionByZeroCode
    ensures r.Failure? ==> r.error.message == ZeroDivisorMessage
    ensures r.Failure? ==> r.error.details.Some?
    ensures r.Failure? ==> r.error.details.value.Keys == {DividendKey, DivisorKey}
    ensures r.Failure? ==> r.error.details.value[DividendKey] == p.dividend
    ensures r.Failure? ==> r.error.details.value[DivisorKey] == p.divisor
  {
    Report(DivideAsWritten(p))
  }

  /** The division law, stated without computing a quotient: a zero divisor
      fails with the division-by-zero code, the message and exactly the two
      operands as details; any other divisor succeeds with a value that,
      multiplied by the divisor, gives back the dividend. */
  ghost predicate DivisionLaw(p: DivideParams, r: Result) {
    if p.divisor == 0.0 then
      && r.Failure?
      && !r.success
      && r.error.code == DivisionByZeroCode
      && r.error.message == ZeroDivisorMessage
      && r.error.details.Some?
      && r.error.details.value.Keys == {DividendKey, DivisorKey}
      && r.error.details.value[DividendKey] == p.dividend
      && r.error.details.value[DivisorKey] == p.divisor
    else
      && r.Success?
      && r.success
      && r.data * p.divisor == p.dividend
  }

  /** `Divide` is the one and only result the division law allows. */
  lemma DivideIsDivisionLaw(p: DivideParams, r: Result)
    ensures DivisionLaw(p, r) <==> r == Divide(p)
  {
    if DivisionLaw(p, r) && p.divisor == 0.0 {
      var m := r.error.details.value;
      assert m == map[DividendKey := p.dividend, DivisorKey := p.divisor];
    }
  }

  /** The envelope and the raising style agree: `Divide` fails exactly when
      src/divide.py raises, with the raised error recoverable from the failure,
      and otherwise succeeds with the number src/divide.py returns. */
  lemma DivideAgreesWithAsWritten(p: DivideParams)
    ensures Divide(p).Failure? <==> DivideAsWritten(p).Raises?
    ensures Divide(p).Failure? ==> RecoverDivisionError(Divide(p).error) == Some(DivideAsWritten(p).error)
    ensures Divide(p).Success? ==> Divide(p).data == DivideAsWritten(p).value
  {
  }

  /** The zero check is exact equality: every nonzero divisor, negative or
      fractional however small, succeeds. */
  lemma NonzeroDivisorSucceeds(p: DivideParams)
    requires p.divisor != 0.0
    ensures Divide(p).Success? && Divide(p).success
    ensures Divide(p).data == p.dividend / p.divisor
  {
  }
}
