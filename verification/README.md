# IPS (semester grade-point average) of one student

The academic service answers `GET /api/acad/ips?nim=…` with the semester
grade-point average ("IPS", indeks prestasi semester) of one student ("NIM").
The enrollment rows come from the join of `mahasiswa`, `krs` and `mata_kuliah`.
Each row carries the student's identity, the letter grade ("nilai") of one
course and that course's credit count ("sks"). The service computes the IPS
from those rows as follows:

- Each grade is normalised: surrounding whitespace is stripped, then it is
  upper-cased.
- The normalised grade is looked up in a fixed table of nine weights
  ("bobot"), from A = 4.0 down to E = 0.0. A grade outside the table weighs
  0.0.
- Each weight is multiplied by the row's credits. The loop adds that product
  to a weighted total and the credits to a credit total.
- Each row also gets one detail entry.
- The IPS is the weighted total divided by the credit total. When the credit
  total is not positive, the IPS is 0.0.
- The identity fields are taken from the first row. No rows at all means
  "not found".

The model has three modules:

- `AsciiText` (`text.dfy`) models Python's `str.strip()` and `str.upper()` on
  ASCII text.
- `Grades` (`grades.dfy`) holds grade normalisation and the weight table.
- `Ips` (`ips.dfy`) holds the rows, the detail entries and the result. It
  models the accumulation loop as a method with loop invariants, proved
  against the recursive sums `SumSks` and `SumBobotXSks` over the row prefix.
  It also holds the lemmas on the sums and the average.

A fourth module, `IpsScenarios` (`scenarios.dfy`), works out concrete
requests from the contract of `GetIps` alone.

Weights are exact `real` values: every weight is a multiple of 0.25, and
the quotient is an exact rational. Credits are unbounded integers.

## Model

| member | source | states |
|---|---|---|
| Ips.GetIps | main.py:98-158 | No rows gives exactly `NotFound(nim)`, and only then. Otherwise: identity fields come from the first row; `totalSks` and `totalBobotXSks` are the sums over all rows in input order; one detail entry per row, in order, each describing its row; the IPS is the guarded quotient of the totals (by `IpsOf`'s contract, 0.0 when the credit total is not positive), and in [0.0, 4.0] when no credit count is negative |
| Ips.AccumulateRows | main.py:116-142 | The loop's credit total is the sum of `sks` over all rows, and its weighted total is the sum of weight(normalised grade) × sks. The detail list has one entry per row, in input order. Entry i is `DetailOf` of row i: row i's normalised grade and credits, the table weight of that grade and weight × credits |
| Ips.IpsOf | main.py:145-148 | A non-positive credit total gives exactly 0.0, so no division by zero. Otherwise the IPS times the credit total is the weighted total |
| Ips.DetailOf | main.py:127-142 | The detail entry of a row describes it: the normalised grade, the row's credits, the grade's table weight and weight × credits. The weight lies in [0.0, 4.0], and a grade outside the table gives weight 0.0 and contribution 0.0 |
| Ips.AppendRow | main.py:132-135 | Appending a row adds its credits to the credit total and its weighted points to the weighted total |
| Ips.SumsStep | main.py:126-135 | The sums over the first i + 1 rows are those over the first i rows plus row i's credits and weighted points |
| Ips.KontribusiBounds | main.py:130-132 | A row with non-negative credits contributes between 0 and 4 × sks points |
| Ips.SumBobotXSksBounds | main.py:116-135 | With non-negative credits, the weighted total lies between 0.0 and 4.0 × the credit total |
| Ips.IpsOfBounds | main.py:145-148 | The guarded quotient of a weighted total between 0 and 4 × the credit total lies in [0.0, 4.0] |
| Ips.IpsBounds | main.py:104-146 | With non-negative credits, the IPS of the rows lies in [0.0, 4.0] |
| Ips.IpsOfMoreCredits | main.py:145-148 | For a weighted total between 0 and 4 × the credit total, adding credits without adding points never raises the IPS |
| Ips.UnknownGradeAddsNoPoints | main.py:130-135 | For any credits, a row whose normalised grade is not in the table adds its full credits to the credit total and nothing to the weighted total |
| Ips.UnknownGradeLowersIps | main.py:127-135 | A row whose normalised grade is not in the table still adds its full credits but no points. With non-negative credits, such a row never raises the IPS |
| Ips.NegativeSksBreaksBound | main.py:128-146 | Credits are not validated: rows (A, 5 credits) and (E, -3 credits) give an IPS of 10.0, so the [0.0, 4.0] bound needs non-negative credits |
| Grades.Bobot | main.py:104-130 | A grade in the table gets its table weight, a grade missing from the table weighs 0.0, and every weight lies in [0.0, 4.0] |
| Grades.TableGrades | main.py:104-114 | The table holds exactly the nine grades A, A-, B+, B, B-, C+, C, D and E |
| Grades.NormalizeIgnoresCase | main.py:127 | For every grade, upper-casing it first does not change its normal form |
| Grades.NormalizeIgnoresPadding | main.py:127 | For every grade, whitespace added on either side does not change its normal form |
| Grades.WeightIgnoresCaseAndPadding | main.py:127-130 | Two grades that differ only in case and surrounding whitespace have the same normal form and the same weight |
| Grades.Normalize | main.py:127 | The normalised grade is no longer than the input, neither starts nor ends with whitespace, and holds no lower-case ASCII letter |
| Grades.NormalizeIdempotent | main.py:127 | Normalising a normalised grade changes nothing |
| Grades.NormalizePaddedLowerCase | main.py:127-130 | " b+ " normalises to "B+" and so weighs 3.5 |
| Grades.NormalizeTabbedLowerCase | main.py:127 | "\ta-\n" normalises to "A-" |
| Grades.NormalizeKeepsX | main.py:127 | "X" is already in normal form |
| Grades.UnknownGradeWeighsZero | main.py:130 | The grade "X" weighs 0.0 |
| Grades.TableGradeIsNormal | main.py:104-130 | Every table grade, typed as in the table, is its own normal form and gets its table weight |
| AsciiText.SpaceCharacters | main.py:127 | The characters `strip()` removes are exactly tab, line feed, vertical tab, form feed, carriage return, the file, group, record and unit separators, and space |
| AsciiText.Upper | main.py:127 | The upper-cased string has the input's length, and each of its characters is the upper-cased input character at the same position |
| AsciiText.UpperAppend | main.py:127 | Upper-casing distributes over concatenation |
| AsciiText.StripUpperCommute | main.py:127 | Stripping and upper-casing commute, for every string |
| AsciiText.StripIgnoresPadding | main.py:127 | Whitespace added on either side of any string does not change its strip |
| AsciiText.StripParts | main.py:127 | Every string is its strip with a run of whitespace on each side |
| AsciiText.UpperChar | main.py:127 | An ASCII lower-case letter becomes its upper-case letter (32 code points lower); every other character is unchanged; no lower-case letter results; whitespace is preserved |
| AsciiText.UpperIdempotent | main.py:127 | Upper-casing twice is upper-casing once |
| AsciiText.StripLeading | main.py:127 | Everything dropped from the front is whitespace, and what remains does not start with whitespace |
| AsciiText.StripLeadingIsSuffix | main.py:127 | What StripLeading keeps is a suffix of the input |
| AsciiText.StripTrailing | main.py:127 | Everything dropped from the back is whitespace, and what remains does not end with whitespace |
| AsciiText.StripTrailingIsPrefix | main.py:127 | What StripTrailing keeps is a prefix of the input |
| AsciiText.Strip | main.py:127 | The stripped string is no longer than the input and neither starts nor ends with whitespace |
| AsciiText.StripIsSlice | main.py:127 | The stripped string is a slice of the input, with only whitespace before and after it |
| AsciiText.StripKeepsTrimmed | main.py:127 | A string with no whitespace at either end is its own strip |
| AsciiText.StripIdempotent | main.py:127 | Stripping twice is stripping once |
| AsciiText.StripLeadingPadded | main.py:127 | Leading whitespace in front of a string that does not start with whitespace is exactly what is removed |
| AsciiText.StripTrailingPadded | main.py:127 | Trailing whitespace behind a string that does not end with whitespace is exactly what is removed |
| AsciiText.StripPadded | main.py:127 | Strip recovers any trimmed string from whitespace padding on both sides |
| IpsScenarios.ThreeCourseGrades | main.py:127 | The grades "A", "b+ " and "C" normalise to A, B+ and C |
| IpsScenarios.ThreeCourseKontribusi | main.py:127-132 | The rows A/3, "b+ "/4 and C/2 contribute 12.0, 14.0 and 4.0 points |
| IpsScenarios.ThreeCourseTotals | main.py:116-135 | Grades A/3, B+/4 and C/2 credits give 9 credits and 30.0 points |
| IpsScenarios.ThreeCourses | main.py:119-158 | For those rows the result is found, with 9 credits, 30.0 points, an IPS of 10/3 and the three detail entries in input order |
| IpsScenarios.UnknownGradeOnly | main.py:127-148 | A single course graded "X" over 3 credits gives 3 credits, 0.0 points, an IPS of 0.0 and one detail entry with weight 0.0 |
| IpsScenarios.NoEnrollments | main.py:98-102 | No rows gives exactly `NotFound("99999")` |

## Left out

- The HTTP layer is not modelled: the FastAPI application, CORS middleware, route declarations and the `/health` endpoint with its timestamp (main.py:11-20, 63-69). It is transport and clock, not logic.
- The `nim` query parameter defaults to "22002" when the request omits it (main.py:88). `GetIps` always takes the identifier explicitly, so this default is not modelled.
- The database is not modelled: its configuration from environment variables, the connection context manager with commit, rollback and close, and the startup probe (main.py:22-29, 42-61). The rows the query returns are the input sequence of `GetIps`, and the SQL text (main.py:93) is not part of this model.
- `get_mahasiswas` and `row_to_dict` (main.py:31-34, 71-84) are not modelled: one is a query passthrough, the other a plain dictionary conversion.
- The `Mahasiswa` Pydantic model (main.py:36-40) is not modelled, being a library validation wrapper.
- `round(..., 2)` on the contribution, the weighted total and the IPS (main.py:141, 156-157) is display rounding. It is not modelled; the model states properties of the unrounded values.
- The source computes the product, the two sums and the quotient (main.py:132-146) in IEEE double-precision floating point. The model uses exact `real` arithmetic instead. The weights and their products with integer credits are exact in both as long as they stay within double precision. The quotient is not: the model's IPS is the exact rational (10/3 in `ThreeCourses`), whereas the source computes the nearest double to it.
- Exceptions are not mapped to HTTP responses. "Not found" is the `NotFound` outcome, without the status code 404 or the message text (main.py:99-102). Any other exception becomes status 500 with the exception text (main.py:163-165). That covers database failures, and also failures of the row loop itself; neither is modelled.
- Every row is assumed to carry a grade string and an integer credit count (`Row.nilai: string`, `Row.sks: int`). A NULL grade makes `strip()` fail (main.py:127), and a NULL credit count makes the product fail (main.py:132). Either aborts the whole request with status 500, which the model cannot represent.
- `str.strip()` and `str.upper()` are restricted to ASCII. Whitespace is code points 9-13, 28-31 and 32; upper-casing applies to `a`-`z` only. Non-ASCII whitespace and letters are not modelled.
- Ips.IpsBounds: the [0.0, 4.0] bound holds only when every credit count is non-negative. The code does not validate credits, and `NegativeSksBreaksBound` shows the bound failing without that condition.
- The accumulation loop is the separate method `Ips.AccumulateRows`, which `Ips.GetIps` calls once. In the source, the loop sits inside `get_ips` itself.
