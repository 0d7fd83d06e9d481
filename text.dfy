/** String operations the server and the grid use: ASCII lower-casing,
    suffix and substring search, literal replacement (first occurrence and
    global), and the decimal rendering of an integer. */
module Text {

  /** `toLowerCase` on one character, for the ASCII range. */
  function LowerChar(c: char): char
  {
    if 'A' <= c <= 'Z' then (c as int + 32) as char else c
  }

  /** `toLowerCase` on a string, for the ASCII range. */
  function Lower(s: string): (r: string)
    ensures |r| == |s|
    ensures forall i :: 0 <= i < |s| ==> r[i] == LowerChar(s[i])
  {
    if s == [] then [] else [LowerChar(s[0])] + Lower(s[1..])
  }

  lemma LowerIdempotent(s: string)
    ensures Lower(Lower(s)) == Lower(s)
  {
  }

  /** Lower-casing commutes with taking a suffix. */
  lemma LowerSuffix(s: string, k: nat)
    requires k <= |s|
    ensures Lower(s)[k..] == Lower(s[k..])
  {
  }

  predicate EndsWith(s: string, suffix: string)
  {
    |suffix| <= |s| && s[|s| - |suffix|..] == suffix
  }

  /** `pat` occurs in `s` at position `k`. */
  predicate MatchAt(s: string, pat: string, k: nat)
  {
    k + |pat| <= |s| && s[k..k + |pat|] == pat
  }

  /** `indexOf(pat, i)`: the first position at or after `i` where `pat`
      occurs, or -1. */
  function IndexFrom(s: string, pat: string, i: nat): (r: int)
    requires i <= |s|
    ensures r == -1 || (i <= r && MatchAt(s, pat, r))
    ensures r == -1 ==> forall k: nat :: i <= k ==> !MatchAt(s, pat, k)
    ensures r != -1 ==> forall k: nat :: i <= k < r ==> !MatchAt(s, pat, k)
    decreases |s| - i
  {
    if i + |pat| > |s| then -1
    else if s[i..i + |pat|] == pat then i
    else IndexFrom(s, pat, i + 1)
  }

  function IndexOf(s: string, pat: string): int
  {
    IndexFrom(s, pat, 0)
  }

  /** `s.includes(pat)`. */
  predicate Contains(s: string, pat: string)
  {
    IndexOf(s, pat) != -1
  }

  /** `includes` holds exactly when the pattern occurs at some position. */
  lemma ContainsIff(s: string, pat: string)
    ensures Contains(s, pat) <==> exists k: nat :: MatchAt(s, pat, k)
  {
    var r := IndexOf(s, pat);
    if r != -1 {
      assert MatchAt(s, pat, r as nat);
    }
  }

  lemma ContainsAt(s: string, pat: string, k: nat)
    requires MatchAt(s, pat, k)
    ensures Contains(s, pat)
  {
  }

  /** `s.replace(pat, rep)` with a string pattern: only the first
      occurrence is replaced. */
  function ReplaceFirst(s: string, pat: string, rep: string): (r: string)
    ensures !Contains(s, pat) ==> r == s
    ensures Contains(s, pat) ==>
      var k := IndexOf(s, pat);
      0 <= k && MatchAt(s, pat, k) &&
      r == s[..k] + rep + s[k + |pat|..] &&
      forall j: nat :: j < k ==> !MatchAt(s, pat, j)
  {
    var k := IndexOf(s, pat);
    if k < 0 then s else s[..k] + rep + s[k + |pat|..]
  }

  /** `s.replace(/pat/g, rep)` for a literal, non-empty pattern: matches are
      found left to right and do not overlap. */
  function ReplaceAll(s: string, pat: string, rep: string): string
    requires |pat| > 0
    decreases |s|
  {
    if |s| < |pat| then s
    else if s[..|pat|] == pat then rep + ReplaceAll(s[|pat|..], pat, rep)
    else [s[0]] + ReplaceAll(s[1..], pat, rep)
  }

  /** HTML-escaping of ampersands, as the remote feed applies it to the
      URLs it embeds in its JSON. */
  function EscapeAmp(s: string): (r: string)
    ensures |r| >= |s|
  {
    if s == [] then []
    else if s[0] == '&' then "&amp;" + EscapeAmp(s[1..])
    else [s[0]] + EscapeAmp(s[1..])
  }

  /** Replacing every `&amp;` by `&` undoes the escaping, for every string. */
  lemma {:induction false} UnescapeEscapeAmp(s: string)
    ensures ReplaceAll(EscapeAmp(s), "&amp;", "&") == s
  {
    if s == [] {
    } else if s[0] == '&' {
      var e := EscapeAmp(s[1..]);
      assert EscapeAmp(s) == "&amp;" + e;
      assert ("&amp;" + e)[..5] == "&amp;";
      assert ("&amp;" + e)[5..] == e;
      UnescapeEscapeAmp(s[1..]);
    } else {
      var e := EscapeAmp(s[1..]);
      assert EscapeAmp(s) == [s[0]] + e;
      if |[s[0]] + e| >= 5 {
        assert ([s[0]] + e)[..5][0] == s[0];
      }
      assert ([s[0]] + e)[1..] == e;
      UnescapeEscapeAmp(s[1..]);
    }
  }

  // Decimal rendering of integers (JavaScript `${n}` for an integer value).

  function DigitChar(d: nat): char
    requires d < 10
  {
    ('0' as int + d) as char
  }

  function DigitValue(c: char): int
  {
    c as int - '0' as int
  }

  predicate IsDigit(c: char)
  {
    '0' <= c <= '9'
  }

  function NatText(n: nat): string
    decreases n
  {
    if n < 10 then [DigitChar(n)] else NatText(n / 10) + [DigitChar(n % 10)]
  }

  function IntText(n: int): string
  {
    if n < 0 then "-" + NatText(-n) else NatText(n)
  }

  /** The value of a string of decimal digits. */
  function DigitsValue(s: string): int
  {
    if s == [] then 0 else DigitsValue(s[..|s| - 1]) * 10 + DigitValue(s[|s| - 1])
  }

  /** Reads back what `IntText` writes: an optional minus sign, then digits. */
  function ParseInt(s: string): int
  {
    if |s| > 0 && s[0] == '-' then -DigitsValue(s[1..]) else DigitsValue(s)
  }

  lemma {:induction false} NatTextRoundTrip(n: nat)
    ensures |NatText(n)| > 0
    ensures forall i :: 0 <= i < |NatText(n)| ==> IsDigit(NatText(n)[i])
    ensures DigitsValue(NatText(n)) == n
    decreases n
  {
    if n >= 10 {
      var q, d := n / 10, n % 10;
      NatTextRoundTrip(q);
      var t := NatText(n);
      assert t == NatText(q) + [DigitChar(d)];
      assert t[..|t| - 1] == NatText(q) && t[|t| - 1] == DigitChar(d);
      assert DigitsValue(t) == q * 10 + d;
    }
  }

  /** The score rendered in the overlay reads back as the same number. */
  lemma IntTextRoundTrip(n: int)
    ensures ParseInt(IntText(n)) == n
  {
    if n < 0 {
      NatTextRoundTrip(-n);
      assert IntText(n)[1..] == NatText(-n);
    } else {
      NatTextRoundTrip(n);
      assert IsDigit(NatText(n)[0]);
    }
  }
}
