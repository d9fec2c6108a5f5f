/** The semester grade-point average ("IPS", indeks prestasi semester) of one
    student, computed from the enrollment rows the database returns for that
    student's identifier ("NIM"). */
module Ips {
  import opened Grades

  /** One row of the join of mahasiswa, krs and mata_kuliah: the student's
      identity, the letter grade ("nilai") of one course and that course's
      credit count ("sks"). The credit count is not validated. */
  datatype Row = Row(nim: string, nama: string, jurusan: string, nilai: string, sks: int)

  /** One entry of detail_mata_kuliah. The contribution ("kontribusi") is kept
      unrounded. */
  datatype Detail = Detail(nilai: string, sks: int, bobot: real, kontribusi: real)

  datatype IpsResult = IpsResult(
    nim: string,
    nama: string,
    jurusan: string,
    detailMataKuliah: seq<Detail>,
    totalSks: int,
    totalBobotXSks: real,
    ips: real)

  /** Either no rows came back for the requested NIM, or the computed result. */
  datatype Outcome = NotFound(nim: string) | Found(result: IpsResult)

  /** A weight times a credit count. */
  function BobotXSks(bobot: real, sks: int): real {
    bobot * sks as real
  }

  /** The detail entry the loop builds for `row`: its normalised grade, its
      credits, the grade's weight and weight times credits. */
  function DetailOf(row: Row): (d: Detail)
    ensures Describes(d, row)
    ensures 0.0 <= d.bobot <= 4.0
    ensures d.nilai !in BobotNilai ==> d.bobot == 0.0 && d.kontribusi == 0.0
  {
    var nilai := Normalize(row.nilai);
    var bobot := Bobot(nilai);
    Detail(nilai, row.sks, bobot, BobotXSks(bobot, row.sks))
  }

  /** The weighted points one row contributes: the weight of its normalised
      grade times its credits. */
  function Kontribusi(row: Row): real {
    DetailOf(row).kontribusi
  }

  /** The sum of the credits of `rows`, added up in input order. */
  function SumSks(rows: seq<Row>): int {
    if rows == [] then 0 else SumSks(rows[..|rows| - 1]) + rows[|rows| - 1].sks
  }

  /** The sum of the weighted points of `rows`, added up in input order. */
  function SumBobotXSks(rows: seq<Row>): real {
    if rows == [] then 0.0 else SumBobotXSks(rows[..|rows| - 1]) + Kontribusi(rows[|rows| - 1])
  }

  /** `f` applied to every element of `s`, in order, as a loop that appends
      one result per element builds it. */
  function MapSeq<A, B>(f: A -> B, s: seq<A>): (r: seq<B>)
    ensures |r| == |s|
  {
    if s == [] then [] else MapSeq(f, s[..|s| - 1]) + [f(s[|s| - 1])]
  }

  /** The average with its zero-credit guard: the quotient when the credit
      total is positive, and exactly 0.0 otherwise. */
  function IpsOf(totalBobotXSks: real, totalSks: int): (ips: real)
    ensures totalSks <= 0 ==> ips == 0.0
    ensures totalSks > 0 ==> ips * totalSks as real == totalBobotXSks
  {
    if totalSks > 0 then totalBobotXSks / totalSks as real else 0.0
  }

  /** `d` is the detail entry for `row`: the normalised grade, the row's
      credits, the grade's weight and weight times credits. This is
      `d == DetailOf(row)` spelled out field by field, as contracts state it. */
  predicate Describes(d: Detail, row: Row) {
    && d.nilai == Normalize(row.nilai)
    && d.sks == row.sks
    && d.bobot == Bobot(d.nilai)
    && d.kontribusi == BobotXSks(d.bobot, d.sks)
  }

  predicate NonNegativeSks(rows: seq<Row>) {
    forall i :: 0 <= i < |rows| ==> rows[i].sks >= 0
  }

  /** The loop over the rows: normalise each grade, look up its weight,
      multiply by the credits, add to both running totals and append a
      detail entry. The totals are the sums over all rows in input order, and
      the detail list has one entry per row, in the same order. */
  method AccumulateRows(rows: seq<Row>)
    returns (totalBobotXSks: real, totalSks: int, detailMk: seq<Detail>)
    ensures totalSks == SumSks(rows)
    ensures totalBobotXSks == SumBobotXSks(rows)
    ensures |detailMk| == |rows|
    ensures forall i :: 0 <= i < |rows| ==> detailMk[i] == DetailOf(rows[i])
  {
    totalBobotXSks := 0.0;
    totalSks := 0;
    detailMk := [];
    for i := 0 to |rows|
      invariant totalSks == SumSks(rows[..i])
      invariant totalBobotXSks == SumBobotXSks(rows[..i])
      invariant detailMk == MapSeq(DetailOf, rows[..i])
    {
      var nilai := Normalize(rows[i].nilai);
      var sks := rows[i].sks;
      var bobot := Bobot(nilai);
      var bobotXSks := BobotXSks(bobot, sks);
      var d := Detail(nilai, sks, bobot, bobotXSks);
      assert d == DetailOf(rows[i]);
      SumsStep(rows, i);
      totalBobotXSks := totalBobotXSks + bobotXSks;
      totalSks := totalSks + sks;
      detailMk := detailMk + [d];
    }
    assert rows[..|rows|] == rows;
    MapSeqIndex(DetailOf, rows);
  }

  /** The IPS computation for the student `nim`, given the rows the query
      returned for it: not found when there are no rows; otherwise the
      identity of the first row, the per-course details, both totals and the
      guarded average, which lies in [0.0, 4.0] when no credit count is
      negative. */
  method GetIps(nim: string, rows: seq<Row>) returns (outcome: Outcome)
    ensures rows == [] <==> outcome.NotFound?
    ensures rows == [] ==> outcome == NotFound(nim)
    ensures rows != [] ==>
      var r := outcome.result;
      && r.nim == rows[0].nim
      && r.nama == rows[0].nama
      && r.jurusan == rows[0].jurusan
      && r.totalSks == SumSks(rows)
      && r.totalBobotXSks == SumBobotXSks(rows)
      && |r.detailMataKuliah| == |rows|
      && (forall i :: 0 <= i < |rows| ==> Describes(r.detailMataKuliah[i], rows[i]))
      && r.ips == IpsOf(r.totalBobotXSks, r.totalSks)
      && (NonNegativeSks(rows) ==> 0.0 <= r.ips <= 4.0)
  {
    if rows == [] {
      return NotFound(nim);
    }
    var totalBobotXSks, totalSks, detailMk := AccumulateRows(rows);
    var ips := IpsOf(totalBobotXSks, totalSks);
    if NonNegativeSks(rows) {
      IpsBounds(rows);
    }
    outcome := Found(IpsResult(rows[0].nim, rows[0].nama, rows[0].jurusan,
                               detailMk, totalSks, totalBobotXSks, ips));
  }

  /** Scaling a weight in [0.0, 4.0] by a non-negative credit count. */
  lemma ScaleBounds(w: real, c: real)
    requires 0.0 <= w <= 4.0 && 0.0 <= c
    ensures 0.0 <= w * c <= 4.0 * c
  {
  }

  /** One row with non-negative credits contributes between zero and four
      points per credit. */
  lemma KontribusiBounds(row: Row)
    requires row.sks >= 0
    ensures 0.0 <= Kontribusi(row) <= 4.0 * row.sks as real
  {
    ScaleBounds(Bobot(Normalize(row.nilai)), row.sks as real);
  }

  /** With non-negative credits, the weighted total lies between zero and four
      times the credit total. */
  lemma {:induction false} SumBobotXSksBounds(rows: seq<Row>)
    requires NonNegativeSks(rows)
    ensures 0.0 <= SumBobotXSks(rows) <= 4.0 * SumSks(rows) as real
  {
    if rows != [] {
      SumBobotXSksBounds(rows[..|rows| - 1]);
      KontribusiBounds(rows[|rows| - 1]);
    }
  }

  /** The guarded quotient of a weighted total at most four points per
      credit lies in [0.0, 4.0]. */
  lemma IpsOfBounds(totalBobotXSks: real, totalSks: int)
    requires 0.0 <= totalBobotXSks <= 4.0 * totalSks as real
    ensures 0.0 <= IpsOf(totalBobotXSks, totalSks) <= 4.0
  {
  }

  /** With non-negative credits, the IPS lies between 0.0 and 4.0. */
  lemma IpsBounds(rows: seq<Row>)
    requires NonNegativeSks(rows)
    ensures 0.0 <= IpsOf(SumBobotXSks(rows), SumSks(rows)) <= 4.0
  {
    SumBobotXSksBounds(rows);
    IpsOfBounds(SumBobotXSks(rows), SumSks(rows));
  }

  /** Appending a row adds its credits to the credit total and its weighted
      points to the weighted total. */
  lemma AppendRow(rows: seq<Row>, row: Row)
    ensures SumSks(rows + [row]) == SumSks(rows) + row.sks
    ensures SumBobotXSks(rows + [row]) == SumBobotXSks(rows) + Kontribusi(row)
  {
    assert (rows + [row])[..|rows|] == rows;
  }

  /** The sums and the detail list over the first i + 1 rows extend those
      over the first i. */
  lemma SumsStep(rows: seq<Row>, i: int)
    requires 0 <= i < |rows|
    ensures SumSks(rows[..i + 1]) == SumSks(rows[..i]) + rows[i].sks
    ensures SumBobotXSks(rows[..i + 1]) == SumBobotXSks(rows[..i]) + Kontribusi(rows[i])
    ensures MapSeq(DetailOf, rows[..i + 1]) == MapSeq(DetailOf, rows[..i]) + [DetailOf(rows[i])]
  {
    assert rows[..i + 1] == rows[..i] + [rows[i]];
    AppendRow(rows[..i], rows[i]);
    MapSeqAppend(DetailOf, rows[..i], rows[i]);
  }

  /** Element i of MapSeq(f, s) is f applied to element i of s. */
  lemma {:induction false} MapSeqIndex<A, B>(f: A -> B, s: seq<A>)
    ensures forall i :: 0 <= i < |s| ==> MapSeq(f, s)[i] == f(s[i])
  {
    if s != [] {
      var init := s[..|s| - 1];
      MapSeqIndex(f, init);
      assert forall i :: 0 <= i < |init| ==> s[i] == init[i];
    }
  }

  /** Appending an element appends its image. */
  lemma MapSeqAppend<A, B>(f: A -> B, s: seq<A>, x: A)
    ensures MapSeq(f, s + [x]) == MapSeq(f, s) + [f(x)]
  {
    assert (s + [x])[..|s|] == s;
  }

  /** More credits for the same weighted total never raise the guarded
      average. */
  lemma IpsOfMoreCredits(totalBobotXSks: real, totalSks: int, extra: int)
    requires 0.0 <= totalBobotXSks <= 4.0 * totalSks as real
    requires extra >= 0
    ensures IpsOf(totalBobotXSks, totalSks + extra) <= IpsOf(totalBobotXSks, totalSks)
  {
    var t, n, m := totalBobotXSks, totalSks as real, (totalSks + extra) as real;
    if totalSks > 0 {
      var before, after := IpsOf(t, totalSks), IpsOf(t, totalSks + extra);
      IpsOfBounds(t, totalSks);
      assert after * m == before * n;
      assert before * n <= before * m;
      assert after * m <= before * m;
    } else if totalSks + extra > 0 {
      assert t == 0.0;
    }
  }

  /** For any credits, a grade outside the table adds its credits to the
      credit total and nothing to the weighted total. */
  lemma UnknownGradeAddsNoPoints(rows: seq<Row>, row: Row)
    requires Normalize(row.nilai) !in BobotNilai
    ensures SumSks(rows + [row]) == SumSks(rows) + row.sks
    ensures SumBobotXSks(rows + [row]) == SumBobotXSks(rows)
  {
    AppendRow(rows, row);
    assert Kontribusi(row) == 0.0;
  }

  /** With non-negative credits, a course whose grade is outside the table
      can only pull the IPS down. */
  lemma UnknownGradeLowersIps(rows: seq<Row>, row: Row)
    requires NonNegativeSks(rows) && row.sks >= 0
    requires Normalize(row.nilai) !in BobotNilai
    ensures SumSks(rows + [row]) == SumSks(rows) + row.sks
    ensures SumBobotXSks(rows + [row]) == SumBobotXSks(rows)
    ensures IpsOf(SumBobotXSks(rows + [row]), SumSks(rows + [row]))
         <= IpsOf(SumBobotXSks(rows), SumSks(rows))
  {
    UnknownGradeAddsNoPoints(rows, row);
    SumBobotXSksBounds(rows);
    IpsOfMoreCredits(SumBobotXSks(rows), SumSks(rows), row.sks);
  }

  /** The bound on the IPS needs non-negative credits: one negative credit
      count can push it past 4.0. */
  lemma NegativeSksBreaksBound()
    ensures var rows := [Row("1", "N", "J", "A", 5), Row("1", "N", "J", "E", -3)];
      IpsOf(SumBobotXSks(rows), SumSks(rows)) == 10.0
  {
    var rows := [Row("1", "N", "J", "A", 5), Row("1", "N", "J", "E", -3)];
    TableGradeIsNormal("A");
    TableGradeIsNormal("E");
    assert rows[..1] == [rows[0]];
    assert SumSks(rows) == 2;
    assert SumBobotXSks(rows) == 20.0;
  }
}
