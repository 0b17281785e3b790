# Guarded division with a tagged result

A Dafny model of a small Python helper that divides two numbers and reports
division by zero as a structured failure instead of crashing. It covers:

- the result envelope (`src/result.py`): `ErrorDetails` (code, message,
  optional `details` map), `Success` (a number and a `success` flag that
  defaults to true), `Failure` (one `ErrorDetails` and a flag that defaults
  to false) and their union `Result` — module `Envelope`, file
  `envelope.dfy`;
- the division (`src/divide.py`): the operand pair `DivideParams`, the
  `DivisionError` record with its derived `details` map, the zero guard and
  the quotient — module `Division`, file `division.dfy`;
- Python's `round(x, ndigits)` on exact numbers (`Rounding.RoundHalfEven`
  rounds to an integer with ties to even, `Rounding.Round` to `ndigits`
  decimal digits), through which the tests observe a fractional quotient — module `Rounding`, file `rounding.dfy`;
- the four concrete cases of the test file — module `Scenarios`, file
  `scenarios.dfy`.

Floats are modelled as Dafny `real`, so the quotient is the exact real
quotient and `Success.data * divisor == dividend` holds exactly.

The code and its tests disagree on how a zero divisor is reported:
`divide` raises `DivisionError` and is annotated to return a bare float,
while the tests expect `Success`/`Failure` objects with the code
`"DIVISION_BY_ZERO"`. The model follows the code for the behaviour and the
tests for the reporting: `Division.DivideAsWritten` is the raising function
as written; `Division.Divide` reports the same outcome through the envelope,
the raise becoming a `Failure` whose `code` comes from the tests and whose
`message` and `details` come from `DivisionError`.
`Division.DivideAgreesWithAsWritten` proves that the two styles agree, and
`Division.RecoverAfterReport` that the raised error can be recovered from
the reported failure.

Every operation is a pure total function, so calling it twice on the same
operands gives the same result by construction.

## Model

| member | source | states |
|---|---|---|
| Envelope.ExclusiveAndExhaustive | src/result.py:22 | a `Result` is exactly one of `Success` or `Failure` |
| Envelope.DefaultSuccess | src/result.py:12-14 | a `Success` built without a flag reports success, is tagged consistently and carries the given number |
| Envelope.DefaultFailure | src/result.py:17-19 | a `Failure` built without a flag reports failure, is tagged consistently and carries exactly the one `ErrorDetails` given |
| Envelope.DefaultErrorDetails | src/result.py:6-9 | `ErrorDetails` keeps the code and message given, and carries no `details` unless supplied |
| Division.NewDivisionError | src/divide.py:6-10 | a new `DivisionError` keeps dividend, divisor and message unchanged, and its `details` maps "dividend" and "divisor" to those operands and holds no other key |
| Division.DivideAsWritten | src/divide.py:19-38 | raises exactly when the divisor is 0, with message "Cannot divide by zero" and the operands unchanged in fields and details; otherwise returns a number that times the divisor gives the dividend |
| Division.ToErrorDetails | src/test_divide.py:16-18 | a reported division error has code "DIVISION_BY_ZERO", keeps the error's message and carries exactly the error's details map |
| Division.RecoverDivisionError | src/divide.py:7-10 | a `DivisionError` is recovered exactly when the code is "DIVISION_BY_ZERO" and the details name exactly the two operands; the recovered error keeps the message and the stored details, and its dividend and divisor are the values stored under those keys |
| Division.RecoverAfterReport | src/divide.py:7-10 | reporting a division error through `ErrorDetails` and recovering it gives back the same error |
| Division.ReportAfterRecover | src/divide.py:7-10 | every `ErrorDetails` from which a division error can be recovered is exactly the report of that error |
| Division.Report | src/result.py:12-19 | a returned number becomes a tagged `Success` with that number; a raised error becomes a tagged `Failure` with the division-by-zero code, the same message and recoverable details |
| Division.Divide | src/divide.py:31-38 | tagged result; failure exactly when the divisor is 0, then with code "DIVISION_BY_ZERO", message "Cannot divide by zero" and details holding exactly the two operands; otherwise success with data times divisor equal to the dividend |
| Division.DivideIsDivisionLaw | src/divide.py:31-38 | a result satisfies the division law (zero divisor: the structured failure; otherwise: success with the quotient) if and only if it is the result of `Divide` |
| Division.DivideAgreesWithAsWritten | src/divide.py:31-38 | `Divide` fails exactly when the raising version raises, the raised error is recoverable from the failure, and otherwise the success carries the same number |
| Division.NonzeroDivisorSucceeds | src/divide.py:31 | the zero check is exact equality: every nonzero divisor, negative or fractional, succeeds with the quotient |
| Rounding.RoundHalfEvenNearest | src/test_divide.py:32 | no integer is closer to a number than its rounding |
| Rounding.RoundHalfEvenIsNearestEven | src/test_divide.py:32 | rounding gives an integer if and only if it is a nearest integer and, at a half, the even one |
| Rounding.RoundError | src/test_divide.py:32 | `round(x, n)` differs from `x` by at most half of 10^-n |
| Scenarios.DivideTwoNumbers | src/test_divide.py:5-9 | divide(10, 2) is a success with data 5 |
| Scenarios.DivisionByZero | src/test_divide.py:12-18 | divide(10, 0) is a failure with code "DIVISION_BY_ZERO", message "Cannot divide by zero" and details {"dividend": 10, "divisor": 0} |
| Scenarios.DivideNegativeNumbers | src/test_divide.py:21-25 | divide(-10, 2) is a success with data -5 |
| Scenarios.FractionalResults | src/test_divide.py:28-32 | divide(10, 3) is a success whose data rounds to 3.3333 at four digits and lies strictly between 3.33325 and 3.33335 |
| Scenarios.AsWrittenDoesNotReturnEnvelope | src/divide.py:19-38 | as written, divide(10, 0) raises instead of returning a failure and divide(10, 2) returns the bare number 5 instead of a success |

## Left out

- Pydantic validation and coercion of `DivideParams` and the envelope
  models (turning ints or strings into floats, rejecting non-numbers): the
  model takes operands that are already numbers.
- IEEE-754 semantics: rounding of the quotient, infinities, NaN and signed
  zero. `-0.0 == 0` holds in Python, and `0.0` is the only zero of `real`,
  so the guard agrees; the quotient is the exact real quotient.
- Python's exception machinery (`super().__init__(message)`): the raise is
  the `Raises` variant of `Division.Raising`.
- Overriding the `success` flag: a caller may pass any flag, which the
  datatypes allow; `Result.Tagged` says when the flag matches the variant,
  and every result the model produces is tagged.
- Rounding.Round: models `round(x, ndigits)` only for a non-negative
  `ndigits` on an exact real; a negative `ndigits`, `ndigits=None` and the
  final rounding to the nearest float are not modelled, because the tests
  call it with 4 digits only.
- Serialization of the envelope to JSON: it is library behaviour of the
  models, not logic of this repository.
- `src/main.py`: a demonstration that calls `divide` on the four test inputs
  and prints each result; printing is I/O. As written, the call at
  src/main.py:6 raises an uncaught `DivisionError`, so only the first result
  is printed.
- The test harness itself: its assertions are the lemmas of `Scenarios`.

## Findings

| source | as written | input that shows it | evidently intended | confidence | as-written member | corrected member |
|---|---|---|---|---|---|---|
| src/divide.py:19-38 | `divide` raises `DivisionError` on a zero divisor and returns a bare float otherwise | divide(10, 0) raises where src/test_divide.py:12-18 expects a `Failure` with code "DIVISION_BY_ZERO"; divide(10, 2) returns 5.0 where src/test_divide.py:5-9 expects a `Success`; the same raise ends src/main.py at line 6 | report both outcomes through the `Result` envelope of src/result.py | high that the tests fail against this code; not executed | Scenarios.AsWrittenDoesNotReturnEnvelope | Division.Divide |
