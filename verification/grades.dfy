/** The letter-grade side of the IPS computation: how a grade read from an
    enrollment row is normalised, and the fixed table of grade weights. */
module Grades {
  import opened AsciiText

  /** The weight ("bobot") of each recognised letter grade. Every weight is a
      multiple of 0.25, so `real` holds them exactly. */
  const BobotNilai: map<string, real> := map[
    "A"  := 4.0,
    "A-" := 3.75,
    "B+" := 3.5,
    "B"  := 3.0,
    "B-" := 2.75,
    "C+" := 2.5,
    "C"  := 2.0,
    "D"  := 1.0,
    "E"  := 0.0
  ]

  /** The grade as it is looked up: surrounding whitespace removed, then
      upper-cased. */
  function Normalize(nilai: string): (g: string)
    ensures |g| <= |nilai|
    ensures g == [] || (!IsSpace(g[0]) && !IsSpace(g[|g| - 1]))
    ensures forall k :: 0 <= k < |g| ==> !IsLower(g[k])
  {
    Upper(Strip(nilai))
  }

  /** Table lookup with 0.0 as the default for a grade the table lacks. The
      weight is always between 0.0 and 4.0. */
  function Bobot(grade: string): (w: real)
    ensures 0.0 <= w <= 4.0
    ensures grade in BobotNilai ==> w == BobotNilai[grade]
    ensures grade !in BobotNilai ==> w == 0.0
  {
    if grade in BobotNilai then BobotNilai[grade] else 0.0
  }

  /** The table has exactly the nine grades A, A-, B+, B, B-, C+, C, D, E. */
  lemma TableGrades()
    ensures BobotNilai.Keys == {"A", "A-", "B+", "B", "B-", "C+", "C", "D", "E"}
    ensures |BobotNilai| == 9
  {
  }

  /** Normalising a normalised grade changes nothing. */
  lemma NormalizeIdempotent(nilai: string)
    ensures Normalize(Normalize(nilai)) == Normalize(nilai)
  {
    var g := Normalize(nilai);
    StripKeepsTrimmed(g);
    UpperIdempotent(Strip(nilai));
  }

  /** Case and surrounding whitespace do not matter: a lower-case grade with
      blanks around it gets the weight of the bare upper-case grade. */
  lemma NormalizePaddedLowerCase()
    ensures Normalize(" b+ ") == "B+"
    ensures Bobot(Normalize(" b+ ")) == 3.5
  {
    StripPadded(" ", "b+", " ");
    assert " " + "b+" + " " == " b+ ";
    UpperOfGrade("b+", "B+");
  }

  /** The same holds for other whitespace characters, here a tab and a line
      feed around "a-". */
  lemma NormalizeTabbedLowerCase()
    ensures Normalize("\ta-\n") == "A-"
  {
    StripPadded("\t", "a-", "\n");
    assert "\t" + "a-" + "\n" == "\ta-\n";
    UpperOfGrade("a-", "A-");
  }

  lemma UpperOfGrade(s: string, u: string)
    requires |s| == |u|
    requires forall k :: 0 <= k < |s| ==> UpperChar(s[k]) == u[k]
    ensures Upper(s) == u
  {
  }

  /** "X" is already in normal form. */
  lemma NormalizeKeepsX()
    ensures Normalize("X") == "X"
  {
    StripKeepsTrimmed("X");
    UpperOfGrade("X", "X");
  }

  /** A grade outside the table, such as "X", weighs nothing. */
  lemma UnknownGradeWeighsZero()
    ensures Bobot(Normalize("X")) == 0.0
  {
    NormalizeKeepsX();
  }

  /** Every grade of the table is already in normal form, so each of them,
      typed exactly as in the table, gets its table weight. */
  lemma TableGradeIsNormal(g: string)
    requires g in BobotNilai
    ensures Normalize(g) == g
    ensures Bobot(Normalize(g)) == BobotNilai[g]
  {
    TableGrades();
    assert g == [] || (!IsSpace(g[0]) && !IsSpace(g[|g| - 1]));
    StripKeepsTrimmed(g);
    UpperOfGrade(g, g);
  }

  /** Case never matters: upper-casing a grade first does not change its
      normal form. */
  lemma NormalizeIgnoresCase(nilai: string)
    ensures Normalize(Upper(nilai)) == Normalize(nilai)
  {
    StripUpperCommute(nilai);
    UpperIdempotent(Strip(nilai));
  }

  /** Whitespace around a grade never matters. */
  lemma NormalizeIgnoresPadding(a: string, nilai: string, b: string)
    requires AllSpace(a) && AllSpace(b)
    ensures Normalize(a + nilai + b) == Normalize(nilai)
  {
    StripIgnoresPadding(a, nilai, b);
  }

  /** Two grades that differ only in case or in surrounding whitespace get
      the same weight. */
  lemma WeightIgnoresCaseAndPadding(s: string, t: string, a: string, b: string, c: string, d: string)
    requires Upper(s) == Upper(t)
    requires AllSpace(a) && AllSpace(b) && AllSpace(c) && AllSpace(d)
    ensures Normalize(a + s + b) == Normalize(c + t + d)
    ensures Bobot(Normalize(a + s + b)) == Bobot(Normalize(c + t + d))
  {
    NormalizeIgnoresPadding(a, s, b);
    NormalizeIgnoresPadding(c, t, d);
    NormalizeIgnoresCase(s);
    NormalizeIgnoresCase(t);
  }
}
