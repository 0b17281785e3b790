/** The four concrete cases of src/test_divide.py, which are also the inputs
    of the demonstration in src/main.py, stated about the model. */
module Scenarios {
  import opened Envelope
  import opened Division
  import Rounding

  /** divide(10, 2) succeeds with 5. */
  lemma DivideTwoNumbers()
    ensures Divide(DivideParams(10.0, 2.0)).Success?
    ensures Divide(DivideParams(10.0, 2.0)).success
    ensures Divide(DivideParams(10.0, 2.0)).data == 5.0
  {
  }

  /** divide(10, 0) fails with the division-by-zero code, the message and
      exactly the operands as details. */
  lemma DivisionByZero()
    ensures Divide(DivideParams(10.0, 0.0)).Failure?
    ensures !Divide(DivideParams(10.0, 0.0)).success
    ensures Divide(DivideParams(10.0, 0.0)).error.code == "DIVISION_BY_ZERO"
    ensures Divide(DivideParams(10.0, 0.0)).error.message == "Cannot divide by zero"
    ensures Divide(DivideParams(10.0, 0.0)).error.details == Some(map["dividend" := 10.0, "divisor" := 0.0])
  {
  }

  /** divide(-10, 2) succeeds with -5. */
  lemma DivideNegativeNumbers()
    ensures Divide(DivideParams(-10.0, 2.0)).Success?
    ensures Divide(DivideParams(-10.0, 2.0)).success
    ensures Divide(DivideParams(-10.0, 2.0)).data == -5.0
  {
  }

  /** divide(10, 3) succeeds with a value that `round(_, 4)` turns into
      3.3333, that is, one strictly between 3.33325 and 3.33335. */
  lemma FractionalResults()
    ensures Divide(DivideParams(10.0, 3.0)).Success?
    ensures Divide(DivideParams(10.0, 3.0)).success
    ensures Rounding.Round(Divide(DivideParams(10.0, 3.0)).data, 4) == 3.3333
    ensures 3.33325 < Divide(DivideParams(10.0, 3.0)).data < 3.33335
  {
  }

  /** The source as written does not produce the envelope its tests
      inspect: divide(10, 0) raises instead of returning a `Failure`, and
      divide(10, 2) returns the bare number 5 instead of a `Success`. */
  lemma AsWrittenDoesNotReturnEnvelope()
    ensures DivideAsWritten(DivideParams(10.0, 0.0)).Raises?
    ensures DivideAsWritten(DivideParams(10.0, 0.0)).error.message == "Cannot divide by zero"
    ensures DivideAsWritten(DivideParams(10.0, 2.0)) == Returns(5.0)
  {
  }
}
