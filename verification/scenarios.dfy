/** Three requests to the IPS computation, worked out from the contract of
    GetIps alone: a student with three graded courses, a student whose only
    grade is not in the table, and an identifier with no rows. */
module IpsScenarios {
  import opened Grades
  import opened Ips

  /** Grades A, B+ (typed as "b+ ") and C on courses of 3, 4 and 2 credits. */
  const ThreeCourseRows: seq<Row> := [
    Row("22002", "Budi", "Informatika", "A", 3),
    Row("22002", "Budi", "Informatika", "b+ ", 4),
    Row("22002", "Budi", "Informatika", "C", 2)
  ]

  /** The grades normalise to A, B+ and C. */
  lemma ThreeCourseGrades()
    ensures Normalize(ThreeCourseRows[0].nilai) == "A"
    ensures Normalize(ThreeCourseRows[1].nilai) == "B+"
    ensures Normalize(ThreeCourseRows[2].nilai) == "C"
  {
    TableGradeIsNormal("A");
    TableGradeIsNormal("C");
    AsciiText.StripPadded("", "b+", " ");
    assert "" + "b+" + " " == "b+ ";
    UpperOfGrade("b+", "B+");
  }

  /** The rows contribute 4.0 × 3, 3.5 × 4 and 2.0 × 2 points. */
  lemma ThreeCourseKontribusi()
    ensures Kontribusi(ThreeCourseRows[0]) == 12.0
    ensures Kontribusi(ThreeCourseRows[1]) == 14.0
    ensures Kontribusi(ThreeCourseRows[2]) == 4.0
  {
    ThreeCourseGrades();
  }

  /** Contributions 12.0, 14.0 and 4.0: 9 credits and 30.0 points in all. */
  lemma ThreeCourseTotals()
    ensures SumSks(ThreeCourseRows) == 9
    ensures SumBobotXSks(ThreeCourseRows) == 30.0
  {
    var rows := ThreeCourseRows;
    ThreeCourseKontribusi();
    AppendRow([], rows[0]);
    assert [] + [rows[0]] == [rows[0]];
    AppendRow([rows[0]], rows[1]);
    assert [rows[0]] + [rows[1]] == [rows[0], rows[1]];
    AppendRow([rows[0], rows[1]], rows[2]);
    assert [rows[0], rows[1]] + [rows[2]] == rows;
  }

  /** The whole request for those rows: an IPS of 30/9 (3.33 once rounded
      for display), and one detail entry per course in input order. */
  method ThreeCourses() returns (outcome: Outcome)
    ensures outcome.Found?
    ensures outcome.result.nim == "22002"
    ensures outcome.result.totalSks == 9
    ensures outcome.result.totalBobotXSks == 30.0
    ensures outcome.result.ips == 10.0 / 3.0
    ensures |outcome.result.detailMataKuliah| == 3
    ensures outcome.result.detailMataKuliah[0] == Detail("A", 3, 4.0, 12.0)
    ensures outcome.result.detailMataKuliah[1] == Detail("B+", 4, 3.5, 14.0)
    ensures outcome.result.detailMataKuliah[2] == Detail("C", 2, 2.0, 4.0)
  {
    ThreeCourseGrades();
    ThreeCourseTotals();
    outcome := GetIps("22002", ThreeCourseRows);
  }

  /** A single course with the unknown grade "X" over 3 credits: weight 0.0,
      contribution 0.0, but still 3 credits, so the IPS is 0.0. */
  method UnknownGradeOnly() returns (outcome: Outcome)
    ensures outcome.Found?
    ensures outcome.result.totalSks == 3
    ensures outcome.result.totalBobotXSks == 0.0
    ensures outcome.result.ips == 0.0
    ensures outcome.result.detailMataKuliah == [Detail("X", 3, 0.0, 0.0)]
  {
    var rows := [Row("22003", "Sari", "Informatika", "X", 3)];
    NormalizeKeepsX();
    UnknownGradeWeighsZero();
    outcome := GetIps("22003", rows);
  }

  /** No rows for "99999": not found, and no aggregate. */
  method NoEnrollments() returns (outcome: Outcome)
    ensures outcome == NotFound("99999")
  {
    outcome := GetIps("99999", []);
  }
}
