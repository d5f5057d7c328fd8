/**
 * Two string helpers of main.js: `escapeMarkdown` (defined but never called)
 * and the trailing-zero strip of `formatSmallNumber`, which the balance
 * display applies to the output of `toFixed(8)`.
 */
module Text {

  // ---------------------------------------------------------------------
  // escapeMarkdown
  // ---------------------------------------------------------------------

  /**
   * The character class `[_*[\]()~`>#+-=|{}.!]`. Written inside a class,
   * `+-=` is the RANGE from '+' to '=', so besides '+', '-' and '=' it also
   * takes ',', '.', '/', the ten digits, ':', ';' and '<'.
   */
  predicate Escaped(c: char) {
    c in "_*[]()~`>#|{}.!" || '+' <= c <= '='
  }

  /** `text.replace(/[...]/g, '\\$&')`: a backslash before every such character. */
  function EscapeMarkdown(s: string): (r: string)
    ensures |r| >= |s|
    ensures |s| > 0 && Escaped(s[0]) ==> |r| >= 2 && r[..2] == ['\\', s[0]]
    ensures |s| > 0 && !Escaped(s[0]) ==> |r| >= 1 && r[0] == s[0]
    ensures |s| == 1 ==> r == if Escaped(s[0]) then ['\\', s[0]] else s
  {
    if |s| == 0 then ""
    else if Escaped(s[0]) then ['\\', s[0]] + EscapeMarkdown(s[1..])
    else [s[0]] + EscapeMarkdown(s[1..])
  }

  /** The replacement works character by character: escaping a concatenation
      escapes each part. With the one-character case of EscapeMarkdown, this
      fixes the output for every input. */
  lemma {:induction false} EscapeDistributes(a: string, b: string)
    ensures EscapeMarkdown(a + b) == EscapeMarkdown(a) + EscapeMarkdown(b)
  {
    if |a| > 0 {
      assert (a + b)[0] == a[0];
      assert (a + b)[1..] == a[1..] + b;
      EscapeDistributes(a[1..], b);
    } else {
      assert a + b == b;
    }
  }

  /** Markdown's reading of an escaped text: a backslash makes the next
      character literal. */
  function Unescape(r: string): string
    decreases |r|
  {
    if |r| == 0 then ""
    else if r[0] == '\\' && |r| >= 2 then [r[1]] + Unescape(r[2..])
    else [r[0]] + Unescape(r[1..])
  }

  /** On text without backslashes, escaping is undone by Markdown's reading:
      no character is lost or changed. */
  lemma {:induction false} EscapeRoundTrip(s: string)
    requires '\\' !in s
    ensures Unescape(EscapeMarkdown(s)) == s
  {
    if |s| > 0 {
      assert '\\' !in s[1..] by {
        assert forall c :: c in s[1..] ==> c in s;
      }
      EscapeRoundTrip(s[1..]);
      var rest := EscapeMarkdown(s[1..]);
      if Escaped(s[0]) {
        assert (['\\', s[0]] + rest)[2..] == rest;
      } else {
        assert ([s[0]] + rest)[1..] == rest;
      }
    }
  }

  /** The number of characters the escaping adds. */
  function CountEscaped(s: string): nat {
    if |s| == 0 then 0 else (if Escaped(s[0]) then 1 else 0) + CountEscaped(s[1..])
  }

  lemma {:induction false} EscapeLength(s: string)
    ensures |EscapeMarkdown(s)| == |s| + CountEscaped(s)
  {
    if |s| > 0 {
      EscapeLength(s[1..]);
    }
  }

  /** Because of the range, a price such as "1.5" has all three characters escaped. */
  lemma EscapeMarkdownEscapesDigits()
    ensures EscapeMarkdown("1.5") == "\\1\\.\\5"
  {
    assert Escaped('1') && Escaped('.') && Escaped('5');
    assert EscapeMarkdown("5") == "\\5" by {
      assert "5"[1..] == "";
    }
    assert EscapeMarkdown(".5") == "\\." + EscapeMarkdown("5") by {
      assert ".5"[1..] == "5";
    }
    assert "1.5"[1..] == ".5";
  }

  // ---------------------------------------------------------------------
  // formatSmallNumber
  // ---------------------------------------------------------------------

  predicate IsDigit(c: char) {
    '0' <= c <= '9'
  }

  /** A string as `toFixed(8)` renders a number below 1e21: an integer part
      without a dot, a dot, and exactly eight digits. */
  predicate IsFixed8(s: string) {
    && |s| >= 10
    && s[|s| - 9] == '.'
    && '.' !in s[..|s| - 9]
    && forall i :: |s| - 8 <= i < |s| ==> IsDigit(s[i])
  }

  /** The number of '0' characters at the end of s. */
  function TrailingZeros(s: string): (z: nat)
    ensures z <= |s|
    ensures forall i :: |s| - z <= i < |s| ==> s[i] == '0'
    ensures z < |s| ==> s[|s| - z - 1] != '0'
    decreases |s|
  {
    if |s| == 0 || s[|s| - 1] != '0' then 0
    else 1 + TrailingZeros(s[..|s| - 1])
  }

  /**
   * `formatted.replace(/\.?0+$/, '')`: the leftmost match of `\.?0+$` is the
   * longest suffix made of zeros, together with the dot before them if there
   * is one; that suffix is removed.
   */
  function StripTrailingZeros(s: string): (r: string)
    ensures |r| <= |s| && r == s[..|r|]
    ensures |r| == |s| <==> |s| == 0 || s[|s| - 1] != '0'
    ensures |r| < |s| ==> s[|r|] == '0' || s[|r|] == '.'
    ensures forall i :: |r| < i < |s| ==> s[i] == '0'
    ensures |r| > 0 && r[|r| - 1] == '0' ==> s[|r|] == '.'
    ensures |r| < |s| && s[|r|] == '0' && |r| > 0 ==> s[|r| - 1] != '.'
  {
    var z := TrailingZeros(s);
    if z == 0 then s
    else if z < |s| && s[|s| - z - 1] == '.' then s[..|s| - z - 1]
    else s[..|s| - z]
  }

  /** The zeros a Pad restores. */
  function Zeros(n: nat): (r: string)
    ensures |r| == n && forall i :: 0 <= i < n ==> r[i] == '0'
  {
    if n == 0 then "" else "0" + Zeros(n - 1)
  }

  /** The number of characters after the last dot. */
  function Decimals(r: string): (d: nat)
    requires '.' in r
    ensures d < |r| && r[|r| - d - 1] == '.'
    ensures forall i :: |r| - d <= i < |r| ==> r[i] != '.'
    decreases |r|
  {
    if r[|r| - 1] == '.' then 0
    else
      assert '.' in r[..|r| - 1] by {
        var k :| 0 <= k < |r| && r[k] == '.';
        assert r[..|r| - 1][k] == '.';
      }
      1 + Decimals(r[..|r| - 1])
  }

  /** Back to eight decimals: what `toFixed(8)` would print for the stripped value. */
  function Pad(r: string): string {
    if '.' !in r then r + "." + Zeros(8)
    else if Decimals(r) <= 8 then r + Zeros(8 - Decimals(r))
    else r
  }

  /** The strip loses nothing on a `toFixed(8)` string: padding the result
      back to eight decimals gives the original. The integer part is always
      kept, and the result ends in a dot or a zero only when it is the
      integer part. */
  lemma StripRoundTrip(s: string)
    requires IsFixed8(s)
    ensures var r := StripTrailingZeros(s);
      && Pad(r) == s
      && |r| >= |s| - 9
      && ('.' in r ==> r[|r| - 1] != '0' && r[|r| - 1] != '.')
  {
    var z := TrailingZeros(s);
    var r := StripTrailingZeros(s);
    var p := |s| - 9;
    assert s[p] == '.' && s[p] != '0';
    assert z <= 8;
    if z == 8 {
      assert r == s[..p];
      assert '.' !in r;
      assert Pad(r) == s;
    } else {
      assert r == s[..|s| - z];
      assert r[p] == '.';
      assert '.' in r;
      assert forall i :: p < i < |r| ==> r[i] == s[i] && IsDigit(s[i]);
      assert Decimals(r) == 8 - z;
      assert Pad(r) == s;
    }
  }

  /** A value whose eight decimals are all zero is shown as its integer part. */
  lemma WholeValueLosesDot(s: string)
    requires IsFixed8(s)
    requires forall i :: |s| - 8 <= i < |s| ==> s[i] == '0'
    ensures StripTrailingZeros(s) == s[..|s| - 9]
  {
    assert s[|s| - 9] != '0';
  }

  /** The two ways a zero is shown: stripping `(0).toFixed(8)` gives "0", the
      same as the early return of `formatSmallNumber` for 0; a negative value
      that rounds to zero at eight decimals is shown as "-0". */
  lemma ZeroOutputs()
    ensures StripTrailingZeros("0.00000000") == "0"
    ensures StripTrailingZeros("-0.00000000") == "-0"
  {
    WholeValueLosesDot("0.00000000");
    WholeValueLosesDot("-0.00000000");
  }
}
