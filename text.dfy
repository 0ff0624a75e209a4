/** String helpers shared by the analyzer, the lead-record assembly and the UI rules.
    Each one stands for a Python built-in the source relies on: `in` on strings,
    `str.lower`, `str.strip`, `str.replace(x, "")`, `str.join`, slicing `[:n]`
    and `"c" * n`. Strings are sequences of Unicode code points, as in Python 3. */
module Text {

  /** A value that may be missing: Python's `None` or a value. */
  datatype Option<T> = None | Some(value: T)

  /** Python's `str.isspace()` for a single code point. */
  predicate IsSpace(c: char)
  {
    ('\U{9}' <= c <= '\U{D}') || ('\U{1C}' <= c <= '\U{20}') || c == '\U{85}' || c == '\U{A0}' ||
    c == '\U{1680}' || ('\U{2000}' <= c <= '\U{200A}') || c == '\U{2028}' || c == '\U{2029}' ||
    c == '\U{202F}' || c == '\U{205F}' || c == '\U{3000}'
  }

  /** `sub` occurs in `s` starting at index `i`. */
  predicate OccursAt(s: string, sub: string, i: int)
  {
    0 <= i && i + |sub| <= |s| && s[i..i + |sub|] == sub
  }

  /** `sub in s`: `sub` occurs as a contiguous piece of `s`. */
  predicate Contains(s: string, sub: string)
  {
    exists i | 0 <= i <= |s| - |sub| :: OccursAt(s, sub, i)
  }

  /** `any(k in s for k in keywords)` */
  predicate ContainsAny(s: string, keywords: seq<string>)
  {
    exists k | k in keywords :: Contains(s, k)
  }

  lemma ContainsPiece(s: string, i: nat, sub: string)
    requires i + |sub| <= |s| && s[i..i + |sub|] == sub
    ensures Contains(s, sub)
  {
    assert OccursAt(s, sub, i);
  }

  /** A string contains itself wherever it is glued into a longer one. */
  lemma {:induction false} ContainsInContext(a: string, sub: string, b: string)
    ensures Contains(a + sub + b, sub)
  {
    var s := a + sub + b;
    assert s[|a|..|a| + |sub|] == sub;
    ContainsPiece(s, |a|, sub);
  }

  /** A piece found in `s` is also found in any string that has `s` inside it. */
  lemma {:induction false} ContainsTransitive(a: string, s: string, b: string, sub: string)
    requires Contains(s, sub)
    ensures Contains(a + s + b, sub)
  {
    var i :| 0 <= i <= |s| - |sub| && OccursAt(s, sub, i);
    var t := a + s + b;
    assert t[|a| + i..|a| + i + |sub|] == s[i..i + |sub|];
    ContainsPiece(t, |a| + i, sub);
  }

  /** `sub` cannot occur in `s` when its character at offset `d` is missing from
      every place of `s` where that character of an occurrence would have to be. */
  lemma NotContainsAt(s: string, sub: string, d: nat)
    requires d < |sub|
    requires |sub| <= |s| ==> sub[d] !in s[d..|s| - |sub| + d + 1]
    ensures !Contains(s, sub)
  {
  }

  /** ASCII case folding; every other code point is left alone. */
  function LowerChar(c: char): char
  {
    if 'A' <= c <= 'Z' then (c as int - 'A' as int + 'a' as int) as char else c
  }

  /** `str.lower()`, restricted to ASCII letters. */
  function Lower(s: string): (r: string)
    ensures |r| == |s|
  {
    seq(|s|, i requires 0 <= i < |s| => LowerChar(s[i]))
  }

  predicate HasNoUpper(s: string)
  {
    forall i | 0 <= i < |s| :: !('A' <= s[i] <= 'Z')
  }

  /** Lowercasing changes nothing in text without ASCII capitals, so the
      Japanese keywords and the lower-case ASCII keywords are their own lower case. */
  lemma LowerFixesLowercase(s: string)
    requires HasNoUpper(s)
    ensures Lower(s) == s
  {
  }

  /** `s.lstrip()` */
  function TrimStart(s: string): (r: string)
    ensures |r| <= |s| && r == s[|s| - |r|..]
    ensures r == [] || !IsSpace(r[0])
    ensures forall k | 0 <= k < |s| - |r| :: IsSpace(s[k])
  {
    if |s| > 0 && IsSpace(s[0]) then TrimStart(s[1..]) else s
  }

  /** `s.rstrip()` */
  function TrimEnd(s: string): (r: string)
    ensures |r| <= |s| && r == s[..|r|]
    ensures r == [] || !IsSpace(r[|r| - 1])
    ensures forall k | |r| <= k < |s| :: IsSpace(s[k])
  {
    if |s| > 0 && IsSpace(s[|s| - 1]) then TrimEnd(s[..|s| - 1]) else s
  }

  /** `s.strip()`: what is left after whitespace is removed from both ends
      neither begins nor ends with whitespace, and it is the piece of `s`
      between a whitespace-only head and a whitespace-only tail. */
  function Strip(s: string): (r: string)
    ensures r == [] || (!IsSpace(r[0]) && !IsSpace(r[|r| - 1]))
    ensures exists i | 0 <= i <= |s| - |r| :: Framed(s, r, i)
  {
    var t := TrimStart(s);
    var r := TrimEnd(t);
    var i := |s| - |t|;
    assert Framed(s, r, i);
    r
  }

  /** `s` is `r` at index `i`, with only whitespace before and after it. */
  predicate Framed(s: string, r: string, i: int)
  {
    OccursAt(s, r, i) &&
    (forall k | 0 <= k < i :: IsSpace(s[k])) &&
    (forall k | i + |r| <= k < |s| :: IsSpace(s[k]))
  }

  /** Stripping removes exactly the surrounding whitespace: a piece with
      non-space ends, padded with whitespace on both sides, comes back unchanged. */
  lemma {:induction false} StripPadded(a: string, b: string, c: string)
    requires forall k | 0 <= k < |a| :: IsSpace(a[k])
    requires forall k | 0 <= k < |c| :: IsSpace(c[k])
    requires b == [] || (!IsSpace(b[0]) && !IsSpace(b[|b| - 1]))
    requires b != [] || c == []
    ensures Strip(a + b + c) == b
  {
    TrimStartPadded(a, b + c);
    assert a + b + c == a + (b + c);
    TrimEndPadded(b, c);
  }

  lemma {:induction false} TrimStartPadded(a: string, rest: string)
    requires forall k | 0 <= k < |a| :: IsSpace(a[k])
    requires rest == [] || !IsSpace(rest[0])
    ensures TrimStart(a + rest) == rest
    decreases |a|
  {
    if a != [] {
      assert (a + rest)[1..] == a[1..] + rest;
      TrimStartPadded(a[1..], rest);
    } else {
      assert a + rest == rest;
    }
  }

  lemma {:induction false} TrimEndPadded(b: string, c: string)
    requires forall k | 0 <= k < |c| :: IsSpace(c[k])
    requires b == [] || !IsSpace(b[|b| - 1])
    requires b != [] || c == []
    ensures TrimEnd(b + c) == b
    decreases |c|
  {
    if c != [] {
      assert (b + c)[..|b + c| - 1] == b + c[..|c| - 1];
      TrimEndPadded(b, c[..|c| - 1]);
    } else {
      assert b + c == b;
    }
  }

  /** `sep.join(parts)` */
  function Join(parts: seq<string>, sep: string): (r: string)
    ensures parts == [] ==> r == []
    ensures |parts| == 1 ==> r == parts[0]
  {
    if parts == [] then [] else if |parts| == 1 then parts[0] else parts[0] + sep + Join(parts[1..], sep)
  }

  /** Every part is found in the joined text. */
  lemma {:induction false} JoinContainsParts(parts: seq<string>, sep: string, j: nat)
    requires j < |parts|
    ensures Contains(Join(parts, sep), parts[j])
    decreases |parts|
  {
    if |parts| == 1 {
      assert Join(parts, sep) == [] + parts[0] + [];
      ContainsInContext([], parts[0], []);
    } else if j == 0 {
      assert Join(parts, sep) == [] + parts[0] + (sep + Join(parts[1..], sep));
      ContainsInContext([], parts[0], sep + Join(parts[1..], sep));
    } else {
      JoinContainsParts(parts[1..], sep, j - 1);
      assert Join(parts, sep) == (parts[0] + sep) + Join(parts[1..], sep) + [];
      ContainsTransitive(parts[0] + sep, Join(parts[1..], sep), [], parts[j]);
    }
  }

  /** `s[:n]`: the first `n` code points, or all of `s` when it is shorter. */
  function Truncate(s: string, n: nat): (r: string)
    ensures |r| == if |s| <= n then |s| else n
    ensures r == s[..|r|]
  {
    if |s| <= n then s else s[..n]
  }

  /** `s.replace(pat, "")`: occurrences of `pat` are removed from left to
      right without overlapping; the text that remains is not scanned again. */
  function RemoveAll(s: string, pat: string): (r: string)
    requires pat != []
    ensures |r| <= |s|
    decreases |s|
  {
    if |s| < |pat| then s
    else if s[..|pat|] == pat then RemoveAll(s[|pat|..], pat)
    else [s[0]] + RemoveAll(s[1..], pat)
  }

  /** Text with no occurrence of the pattern is returned as it is. */
  lemma {:induction false} RemoveAllAbsent(s: string, pat: string)
    requires pat != [] && !Contains(s, pat)
    ensures RemoveAll(s, pat) == s
    decreases |s|
  {
    if |s| >= |pat| {
      assert s[0..|pat|] == s[..|pat|];
      assert !OccursAt(s, pat, 0);
      if !Contains(s[1..], pat) {
        RemoveAllAbsent(s[1..], pat);
        assert s == [s[0]] + s[1..];
      } else {
        var i :| 0 <= i <= |s[1..]| - |pat| && OccursAt(s[1..], pat, i);
        assert OccursAt(s, pat, i + 1);
      }
    }
  }

  /** A leading label is dropped and the rest is kept when it holds no further label. */
  lemma {:induction false} RemoveAllLabel(pat: string, rest: string)
    requires pat != [] && !Contains(rest, pat)
    ensures RemoveAll(pat + rest, pat) == rest
  {
    assert (pat + rest)[..|pat|] == pat;
    assert (pat + rest)[|pat|..] == rest;
    RemoveAllAbsent(rest, pat);
  }

  /** `c * n` for a one-character string `c`. */
  function Repeat(c: char, n: nat): (r: string)
    ensures |r| == n
  {
    seq(n, _ => c)
  }

  function DigitChar(d: nat): char
    requires d < 10
  {
    "0123456789"[d]
  }

  /** The number a string of decimal digits denotes. */
  function DigitsValue(s: string): nat
    requires forall k | 0 <= k < |s| :: '0' <= s[k] <= '9'
  {
    if s == [] then 0 else DigitsValue(s[..|s| - 1]) * 10 + ((s[|s| - 1] as int) - ('0' as int))
  }

  /** Decimal notation of a natural number, as `str(n)` prints it. */
  function NatToString(n: nat): (r: string)
    ensures |r| >= 1
    ensures forall k | 0 <= k < |r| :: '0' <= r[k] <= '9'
    ensures r[0] == '0' ==> n == 0
    ensures DigitsValue(r) == n
    decreases n
  {
    if n < 10 then [DigitChar(n)] else NatToString(n / 10) + [DigitChar(n % 10)]
  }
}
