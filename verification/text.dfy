/** The two string operations the grade normalisation relies on, Python's
    `str.strip()` and `str.upper()`, restricted to ASCII text. */
module AsciiText {

  /** Python's `str.isspace()` on the ASCII range: tab, line feed, vertical
      tab, form feed and carriage return (9-13), the four information
      separators (28-31) and the space itself (32). */
  predicate IsSpace(c: char) {
    var n := c as int;
    (9 <= n <= 13) || (28 <= n <= 32)
  }

  /** The whitespace characters by name: tab, line feed, vertical tab, form
      feed, carriage return, the file, group, record and unit separators, and
      the space. */
  lemma SpaceCharacters(c: char)
    ensures IsSpace(c) <==>
      c in {'\t', '\n', '\U{000B}', '\U{000C}', '\r', '\U{001C}', '\U{001D}', '\U{001E}', '\U{001F}', ' '}
  {
  }

  predicate IsLower(c: char) {
    'a' <= c <= 'z'
  }

  predicate IsUpper(c: char) {
    'A' <= c <= 'Z'
  }

  /** Upper-cases one ASCII letter; every other character is left alone. */
  function UpperChar(c: char): (u: char)
    ensures !IsLower(u)
    ensures IsLower(c) ==> IsUpper(u) && u as int + 32 == c as int
    ensures !IsLower(c) ==> u == c
    ensures IsSpace(u) == IsSpace(c)
  {
    if IsLower(c) then (c as int - 32) as char else c
  }

  /** Upper-cases every ASCII letter of `s`, position by position, so no
      lower-case letter is left. */
  function Upper(s: string): (r: string)
    ensures |r| == |s|
    ensures forall k :: 0 <= k < |s| ==> r[k] == UpperChar(s[k])
  {
    seq(|s|, k requires 0 <= k < |s| => UpperChar(s[k]))
  }

  /** Drops the whitespace at the front of `s`: everything dropped is
      whitespace, and what remains does not start with whitespace. That what
      remains is a suffix of `s` is StripLeadingIsSuffix. */
  function StripLeading(s: string): (r: string)
    ensures |r| <= |s|
    ensures forall k :: 0 <= k < |s| - |r| ==> IsSpace(s[k])
    ensures r == [] || !IsSpace(r[0])
  {
    if |s| > 0 && IsSpace(s[0]) then StripLeading(s[1..]) else s
  }

  lemma {:induction false} StripLeadingIsSuffix(s: string)
    ensures StripLeading(s) == s[|s| - |StripLeading(s)|..]
  {
    if |s| > 0 && IsSpace(s[0]) {
      StripLeadingIsSuffix(s[1..]);
    }
  }

  /** Drops the whitespace at the back of `s`, symmetrically; that what
      remains is a prefix of `s` is StripTrailingIsPrefix. */
  function StripTrailing(s: string): (r: string)
    ensures |r| <= |s|
    ensures forall k :: |r| <= k < |s| ==> IsSpace(s[k])
    ensures r == [] || !IsSpace(r[|r| - 1])
  {
    if |s| > 0 && IsSpace(s[|s| - 1]) then StripTrailing(s[..|s| - 1]) else s
  }

  lemma {:induction false} StripTrailingIsPrefix(s: string)
    ensures StripTrailing(s) == s[..|StripTrailing(s)|]
  {
    if |s| > 0 && IsSpace(s[|s| - 1]) {
      StripTrailingIsPrefix(s[..|s| - 1]);
    }
  }

  /** Python's `s.strip()`: the whitespace on both sides removed. The result
      neither starts nor ends with whitespace; StripIsSlice shows it is the
      slice of `s` between two runs of whitespace, and StripPadded that it is
      the only such slice. */
  function Strip(s: string): (r: string)
    ensures |r| <= |s|
    ensures r == [] || (!IsSpace(r[0]) && !IsSpace(r[|r| - 1]))
  {
    var t := StripLeading(s);
    var r := StripTrailing(t);
    assert r != [] ==> r[0] == t[0] by {
      StripTrailingIsPrefix(t);
    }
    r
  }

  /** What Strip keeps is a slice of its input, and what it drops on either
      side is whitespace. */
  lemma StripIsSlice(s: string)
    ensures var r, i := Strip(s), |s| - |StripLeading(s)|;
      && i + |r| <= |s|
      && r == s[i..i + |r|]
      && AllSpace(s[..i])
      && AllSpace(s[i + |r|..])
  {
    StripLeadingIsSuffix(s);
    var t := StripLeading(s);
    StripTrailingIsPrefix(t);
    var r, i := Strip(s), |s| - |t|;
    assert r == s[i..i + |r|];
  }

  /** A string with no whitespace at either end is its own strip. */
  lemma StripKeepsTrimmed(s: string)
    requires s == [] || (!IsSpace(s[0]) && !IsSpace(s[|s| - 1]))
    ensures Strip(s) == s
  {
  }

  /** Stripping twice is stripping once. */
  lemma StripIdempotent(s: string)
    ensures Strip(Strip(s)) == Strip(s)
  {
    StripKeepsTrimmed(Strip(s));
  }

  /** Upper-casing twice is upper-casing once. */
  lemma UpperIdempotent(s: string)
    ensures Upper(Upper(s)) == Upper(s)
  {
  }

  predicate AllSpace(s: string) {
    forall k :: 0 <= k < |s| ==> IsSpace(s[k])
  }

  /** Whitespace in front of a string that does not start with whitespace is
      exactly what StripLeading removes. */
  lemma {:induction false} StripLeadingPadded(a: string, m: string)
    requires AllSpace(a)
    requires m == [] || !IsSpace(m[0])
    ensures StripLeading(a + m) == m
  {
    if a != [] {
      assert (a + m)[1..] == a[1..] + m;
      StripLeadingPadded(a[1..], m);
    } else {
      assert a + m == m;
    }
  }

  /** Whitespace behind a string that does not end with whitespace is exactly
      what StripTrailing removes. */
  lemma {:induction false} StripTrailingPadded(m: string, b: string)
    requires AllSpace(b)
    requires m == [] || !IsSpace(m[|m| - 1])
    ensures StripTrailing(m + b) == m
  {
    if b != [] {
      assert (m + b)[..|m + b| - 1] == m + b[..|b| - 1];
      StripTrailingPadded(m, b[..|b| - 1]);
    } else {
      assert m + b == m;
    }
  }

  /** Strip recovers the text between any whitespace padding on either side,
      so together with its contract this pins Strip down completely. */
  lemma StripPadded(a: string, m: string, b: string)
    requires AllSpace(a) && AllSpace(b)
    requires m == [] || (!IsSpace(m[0]) && !IsSpace(m[|m| - 1]))
    ensures Strip(a + m + b) == m
  {
    if m == [] {
      assert a + m + b == a + b;
      StripLeadingPadded(a + b, []);
      assert a + b + [] == a + b;
    } else {
      assert a + m + b == a + (m + b);
      StripLeadingPadded(a, m + b);
      StripTrailingPadded(m, b);
    }
  }

  /** Upper-casing works character by character, so it distributes over
      concatenation. */
  lemma UpperAppend(a: string, b: string)
    ensures Upper(a + b) == Upper(a) + Upper(b)
  {
    assert forall k :: 0 <= k < |a + b| ==> Upper(a + b)[k] == (Upper(a) + Upper(b))[k];
  }

  /** Upper-casing keeps whitespace whitespace. */
  lemma UpperKeepsSpace(s: string)
    requires AllSpace(s)
    ensures AllSpace(Upper(s))
  {
  }

  /** A string is its strip with a whitespace run on either side. */
  lemma StripParts(s: string) returns (p: string, q: string)
    ensures AllSpace(p) && AllSpace(q)
    ensures s == p + Strip(s) + q
  {
    StripIsSlice(s);
    var m, i := Strip(s), |s| - |StripLeading(s)|;
    p, q := s[..i], s[i + |m|..];
  }

  lemma AllSpaceAppend(a: string, b: string)
    requires AllSpace(a) && AllSpace(b)
    ensures AllSpace(a + b)
  {
  }

  /** Stripping and upper-casing commute: upper-casing neither creates nor
      removes whitespace. */
  lemma StripUpperCommute(s: string)
    ensures Strip(Upper(s)) == Upper(Strip(s))
  {
    var m := Strip(s);
    var p, q := StripParts(s);
    UpperAppend(p + m, q);
    UpperAppend(p, m);
    UpperKeepsSpace(p);
    UpperKeepsSpace(q);
    StripPadded(Upper(p), Upper(m), Upper(q));
  }

  /** Extra whitespace on either side does not change the strip. */
  lemma StripIgnoresPadding(a: string, s: string, b: string)
    requires AllSpace(a) && AllSpace(b)
    ensures Strip(a + s + b) == Strip(s)
  {
    var m := Strip(s);
    var p, q := StripParts(s);
    assert a + s + b == (a + p) + m + (q + b);
    AllSpaceAppend(a, p);
    AllSpaceAppend(q, b);
    StripPadded(a + p, m, q + b);
  }
}
