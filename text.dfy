/**
 * Text operations of SQLite and JavaScript that the queries and routes rely on:
 * comparison of TEXT values under the default binary collation, the
 * ASCII-only case folding of `LIKE`, and `split('T')[0]`.
 */
module Text {

  /**
   * `a <= b` on TEXT values under SQLite's default BINARY collation: byte-wise
   * comparison of the UTF-8 encodings, which orders like the code points;
   * a proper prefix sorts first.
   */
  predicate LexLe(a: string, b: string)
  {
    a == [] || (b != [] && (a[0] < b[0] || (a[0] == b[0] && LexLe(a[1..], b[1..]))))
  }

  lemma {:induction false} LexLeTotal(a: string, b: string)
    ensures LexLe(a, b) || LexLe(b, a)
  {
    if a != [] && b != [] && a[0] == b[0] {
      LexLeTotal(a[1..], b[1..]);
    }
  }

  lemma {:induction false} LexLeTransitive(a: string, b: string, c: string)
    requires LexLe(a, b) && LexLe(b, c)
    ensures LexLe(a, c)
  {
    if a != [] && a[0] == b[0] && b[0] == c[0] {
      LexLeTransitive(a[1..], b[1..], c[1..]);
    }
  }

  lemma {:induction false} LexLeAntisymmetric(a: string, b: string)
    requires LexLe(a, b) && LexLe(b, a)
    ensures a == b
  {
    if a != [] && b != [] {
      LexLeAntisymmetric(a[1..], b[1..]);
      assert a == [a[0]] + a[1..] && b == [b[0]] + b[1..];
    }
  }

  /** A text that strictly extends b does not sort at or before b. */
  lemma {:induction false} ExtensionSortsAfter(a: string, b: string)
    requires |b| < |a| && a[..|b|] == b
    ensures !LexLe(a, b)
  {
    if b != [] {
      assert a[0] == b[0];
      assert a[1..][..|b[1..]|] == b[1..];
      ExtensionSortsAfter(a[1..], b[1..]);
    }
  }

  // ----- NUMERIC affinity -----

  predicate IsDigit(c: char) { '0' <= c <= '9' }

  /** SQLite's white space: blank, tab, line feed, vertical tab, form feed, carriage return. */
  predicate IsSpace(c: char) { c == ' ' || 9 <= c as int <= 13 }

  /** The length of the longest prefix of s whose characters all satisfy p. */
  function Run(s: string, p: char -> bool): (n: nat)
    ensures n <= |s|
    ensures forall i :: 0 <= i < n ==> p(s[i])
    ensures n < |s| ==> !p(s[n])
    decreases |s|
  {
    if s != [] && p(s[0]) then 1 + Run(s[1..], p) else 0
  }

  function SignLength(s: string): nat
  {
    if s != [] && (s[0] == '+' || s[0] == '-') then 1 else 0
  }

  predicate AllSpaces(s: string)
  {
    Run(s, IsSpace) == |s|
  }

  /** What may follow the mantissa: an exponent with at least one digit, or nothing, then white space. */
  predicate ExponentThenSpaces(w: string)
  {
    if w != [] && (w[0] == 'e' || w[0] == 'E') then
      var x := w[1..];
      var sg := SignLength(x);
      var d := Run(x[sg..], IsDigit);
      d > 0 && AllSpaces(x[sg + d..])
    else
      AllSpaces(w)
  }

  /**
   * A text SQLite's NUMERIC affinity turns into a number: optional white
   * space, an optional sign, digits with an optional fraction (at least one
   * digit in all), an optional exponent, optional white space. "2024" is one;
   * "2024-01-15" is not, so a timestamp stays TEXT.
   */
  predicate NumericLiteral(s: string)
  {
    var t := s[Run(s, IsSpace)..];
    var u := t[SignLength(t)..];
    var m := Run(u, IsDigit);
    var v := u[m..];
    var f := if v != [] && v[0] == '.' then 1 + Run(v[1..], IsDigit) else 0;
    (m > 0 || f > 1) && ExponentThenSpaces(v[f..])
  }

  /** A year written alone, such as "2024", is a numeric literal. */
  lemma YearIsNumericLiteral()
    ensures NumericLiteral("2024")
  {
    var s := "2024";
    assert !IsSpace(s[0]) && IsDigit(s[0]) && IsDigit(s[1]) && IsDigit(s[2]) && IsDigit(s[3]);
    assert Run(s, IsSpace) == 0;
    assert s[0..] == s;
    assert Run(s, IsDigit) == 4;
    assert s[4..] == [];
  }

  /** A day such as "2024-01-15" is no numeric literal: it stays TEXT. */
  lemma DayIsNoNumericLiteral()
    ensures !NumericLiteral("2024-01-15")
  {
    var s := "2024-01-15";
    assert !IsSpace(s[0]) && IsDigit(s[0]) && IsDigit(s[1]) && IsDigit(s[2]) && IsDigit(s[3]) && !IsDigit(s[4]);
    assert Run(s, IsSpace) == 0;
    assert s[0..] == s;
    assert Run(s, IsDigit) == 4;
    var v := s[4..];
    assert v[0] == '-' && !IsSpace(v[0]) && v[0] != '.' && v[0] != 'e' && v[0] != 'E';
    assert v[0..] == v;
    assert Run(v, IsSpace) == 0;
    assert !AllSpaces(v);
    assert !ExponentThenSpaces(v);
  }

  /** SQLite folds case for the 26 ASCII letters only. */
  function LowerAscii(c: char): char
  {
    if 'A' <= c <= 'Z' then (c as int + 32) as char else c
  }

  /** The text with its ASCII letters folded to lower case, character by character. */
  function Lower(s: string): (r: string)
    ensures |r| == |s|
    ensures forall i :: 0 <= i < |s| ==> r[i] == LowerAscii(s[i])
    decreases |s|
  {
    if s == [] then [] else [LowerAscii(s[0])] + Lower(s[1..])
  }

  predicate IsPrefix(p: string, s: string)
  {
    |p| <= |s| && s[..|p|] == p
  }

  /** p occurs in s as a contiguous substring, searched from the left. */
  predicate Contains(s: string, p: string)
    decreases |s|
  {
    IsPrefix(p, s) || (s != [] && Contains(s[1..], p))
  }

  /** p occurs in s starting at position i. */
  predicate OccursAt(s: string, p: string, i: nat)
  {
    i + |p| <= |s| && s[i..i + |p|] == p
  }

  lemma {:induction false} ContainsAt(s: string, p: string)
    ensures Contains(s, p) <==> exists i: nat :: OccursAt(s, p, i)
    decreases |s|
  {
    if s != [] {
      ContainsAt(s[1..], p);
      if Contains(s[1..], p) {
        var i: nat :| OccursAt(s[1..], p, i);
        assert OccursAt(s, p, i + 1);
      }
      if i: nat :| OccursAt(s, p, i) {
        if i > 0 {
          assert OccursAt(s[1..], p, i - 1);
        } else {
          assert IsPrefix(p, s);
        }
      }
    }
    if IsPrefix(p, s) {
      assert OccursAt(s, p, 0);
    }
    if s == [] && OccursAt(s, p, 0) {
      assert IsPrefix(p, s);
    }
  }

  /** p matches s at position i, each character up to ASCII case. */
  ghost predicate LikeAt(s: string, p: string, i: nat)
  {
    i + |p| <= |s| && forall j :: 0 <= j < |p| ==> LowerAscii(s[i + j]) == LowerAscii(p[j])
  }

  /** `s LIKE '%p%'` for a pattern p without wildcards. */
  ghost predicate LikeSubstring(s: string, p: string)
  {
    exists i: nat :: LikeAt(s, p, i)
  }

  /** The classifier used for `LIKE '%p%'`: substring search over ASCII-lowercased text. */
  predicate ContainsIgnoringCase(s: string, p: string)
  {
    Contains(Lower(s), Lower(p))
  }

  lemma LikeAtIsOccursAtLower(s: string, p: string, i: nat)
    ensures LikeAt(s, p, i) <==> OccursAt(Lower(s), Lower(p), i)
  {
    var ls, lp := Lower(s), Lower(p);
    if i + |p| <= |s| {
      if LikeAt(s, p, i) {
        assert forall j :: 0 <= j < |lp| ==> ls[i..i + |lp|][j] == lp[j];
      }
      if OccursAt(ls, lp, i) {
        forall j | 0 <= j < |p|
          ensures LowerAscii(s[i + j]) == LowerAscii(p[j])
        {
          assert ls[i..i + |lp|][j] == lp[j];
        }
      }
    }
  }

  /** The classifier agrees with the meaning of `LIKE '%p%'`, in both directions. */
  lemma ContainsIgnoringCaseIsLike(s: string, p: string)
    ensures ContainsIgnoringCase(s, p) <==> LikeSubstring(s, p)
  {
    ContainsAt(Lower(s), Lower(p));
    if ContainsIgnoringCase(s, p) {
      var i: nat :| OccursAt(Lower(s), Lower(p), i);
      LikeAtIsOccursAtLower(s, p, i);
    }
    if LikeSubstring(s, p) {
      var i: nat :| LikeAt(s, p, i);
      LikeAtIsOccursAtLower(s, p, i);
    }
  }

  /** If p's first two characters never occur side by side in s, up to case, p does not occur in s. */
  lemma NoLeadingPair(s: string, p: string)
    requires |p| >= 2
    requires forall i :: 0 <= i < |s| - 1 ==>
      LowerAscii(s[i]) != LowerAscii(p[0]) || LowerAscii(s[i + 1]) != LowerAscii(p[1])
    ensures !ContainsIgnoringCase(s, p)
  {
    forall i: nat
      ensures !LikeAt(s, p, i)
    {
      if i + |p| <= |s| {
        assert LowerAscii(s[i]) != LowerAscii(p[0]) || LowerAscii(s[i + 1]) != LowerAscii(p[1]);
      }
    }
    ContainsIgnoringCaseIsLike(s, p);
  }

  /** JavaScript's `s.split('T')[0]`: the text before the first 'T', or all of s when it has none. */
  function BeforeFirstT(s: string): (r: string)
    ensures IsPrefix(r, s)
    ensures 'T' !in r
    ensures r == s || s[|r|] == 'T'
    decreases |s|
  {
    if s == [] then []
    else if s[0] == 'T' then []
    else [s[0]] + BeforeFirstT(s[1..])
  }
}
