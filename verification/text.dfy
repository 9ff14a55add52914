/**
 Character- and string-level primitives the scraper borrows from Python's `str`:
 `isspace`/`strip`, `lower`/`upper` and the `in` substring test.
 */
module Text {

  /** Python's `str.isspace` for one character (the full set Python's `strip()` removes). */
  predicate IsSpace(c: char)
  {
    var n := c as int;
    || n == 0x20
    || 0x09 <= n <= 0x0D
    || 0x1C <= n <= 0x1F
    || n == 0x85 || n == 0xA0 || n == 0x1680
    || 0x2000 <= n <= 0x200A
    || n == 0x2028 || n == 0x2029 || n == 0x202F || n == 0x205F || n == 0x3000
  }

  ghost predicate AllSpace(s: string)
  {
    forall i :: 0 <= i < |s| ==> IsSpace(s[i])
  }

  /** No whitespace at either end: what `strip()` guarantees of its result. */
  ghost predicate Trimmed(s: string)
  {
    s == [] || (!IsSpace(s[0]) && !IsSpace(s[|s| - 1]))
  }

  /** Drops leading whitespace (`lstrip()`). */
  function TrimStart(s: string): string
  {
    if s == [] || !IsSpace(s[0]) then s else TrimStart(s[1..])
  }

  /** `lstrip()` removes a whitespace prefix and stops at the first non-space character. */
  lemma {:induction false} TrimStartSpec(s: string)
    ensures var r := TrimStart(s);
      && |r| <= |s| && r == s[|s| - |r|..]
      && AllSpace(s[..|s| - |r|])
      && (r == [] || !IsSpace(r[0]))
  {
    if s != [] && IsSpace(s[0]) {
      TrimStartSpec(s[1..]);
      var r := TrimStart(s);
      assert s[..|s| - |r|] == [s[0]] + s[1..][..|s| - 1 - |r|];
    }
  }

  /** Drops trailing whitespace (`rstrip()`). */
  function TrimEnd(s: string): string
  {
    if s == [] || !IsSpace(s[|s| - 1]) then s else TrimEnd(s[..|s| - 1])
  }

  /** `rstrip()` removes a whitespace suffix and stops at the last non-space character. */
  lemma {:induction false} TrimEndSpec(s: string)
    ensures var r := TrimEnd(s);
      && |r| <= |s| && r == s[..|r|]
      && AllSpace(s[|r|..])
      && (r == [] || !IsSpace(r[|r| - 1]))
  {
    if s != [] && IsSpace(s[|s| - 1]) {
      TrimEndSpec(s[..|s| - 1]);
      var r := TrimEnd(s);
      assert s[|r|..] == s[..|s| - 1][|r|..] + [s[|s| - 1]];
    }
  }

  /** Python's `strip()`: the result has no whitespace at either end (StripEmpty and StripKeepsPrefix say more). */
  function Strip(s: string): (r: string)
    ensures Trimmed(r)
  {
    var t := TrimStart(s);
    TrimStartSpec(s);
    TrimEndSpec(t);
    var r := TrimEnd(t);
    assert r != [] ==> r[0] == t[0];
    r
  }

  /** `strip()` returns the empty string exactly when the input is all whitespace. */
  lemma StripEmpty(s: string)
    ensures Strip(s) == [] <==> AllSpace(s)
  {
    var t := TrimStart(s);
    TrimStartSpec(s);
    TrimEndSpec(t);
    var r := TrimEnd(t);
    if r == [] {
      assert s == s[..|s| - |t|] + t;
      assert AllSpace(t) by { assert t[|r|..] == t; }
    }
  }

  /** Stripping a string that already has no whitespace at its ends returns it unchanged. */
  lemma StripTrimmed(s: string)
    requires Trimmed(s)
    ensures Strip(s) == s
  {
    assert TrimStart(s) == s;
    assert TrimEnd(s) == s;
  }

  /**
   A string that starts with a non-space character and has another at position `j`
   strips to a prefix that keeps everything up to `j`; only trailing whitespace goes.
   */
  lemma StripKeepsPrefix(s: string, j: nat)
    requires j < |s| && !IsSpace(s[0]) && !IsSpace(s[j])
    ensures var t := Strip(s);
      && j < |t| && t[..j] == s[..j] && t[0] == s[0]
      && exists tail :: s == t + tail && AllSpace(tail)
  {
    assert TrimStart(s) == s;
    TrimEndSpec(s);
    var t := TrimEnd(s);
    assert s == t + s[|t|..];
  }

  /** Python's `str.lower()` on one character: ASCII and Latin-1 capitals, and U+0178. */
  function LowerChar(c: char): char
  {
    var n := c as int;
    if 0x41 <= n <= 0x5A || (0xC0 <= n <= 0xDE && n != 0xD7) then (n + 0x20) as char
    else if n == 0x178 then 0xFF as char
    else c
  }

  /**
   Python's `str.upper()` on one character: ASCII and Latin-1 small letters, U+00FF to U+0178,
   and the micro sign U+00B5 to the Greek capital mu U+039C.
   */
  function UpperChar(c: char): char
  {
    var n := c as int;
    if 0x61 <= n <= 0x7A || (0xE0 <= n <= 0xFE && n != 0xF7) then (n - 0x20) as char
    else if n == 0xFF then 0x178 as char
    else if n == 0xB5 then 0x39C as char
    else c
  }

  function Lower(s: string): (r: string)
    ensures |r| == |s|
  {
    seq(|s|, i requires 0 <= i < |s| => LowerChar(s[i]))
  }

  function Upper(s: string): (r: string)
    ensures |r| == |s|
    ensures forall i :: 0 <= i < |s| ==> r[i] == UpperChar(s[i])
  {
    seq(|s|, i requires 0 <= i < |s| => UpperChar(s[i]))
  }

  /** A string `upper()` leaves unchanged: it holds no letter with a capital form. */
  ghost predicate IsUpperCase(s: string)
  {
    forall i :: 0 <= i < |s| ==> UpperChar(s[i]) == s[i]
  }

  /** `upper()` is idempotent and leaves whitespace where it was. */
  lemma UpperProperties(s: string)
    ensures IsUpperCase(Upper(s))
    ensures Trimmed(s) ==> Trimmed(Upper(s))
  {
  }

  /** `pat` occurs in `s` starting at position `i`. */
  ghost predicate OccursAt(s: string, pat: string, i: int)
  {
    0 <= i && i + |pat| <= |s| && s[i..i + |pat|] == pat
  }

  /** An occurrence at position 0 is a prefix. */
  lemma OccursAtStart(s: string, pat: string)
    ensures OccursAt(s, pat, 0) <==> pat <= s
  {
  }

  /** Occurrences in `s[1..]` are the occurrences in `s` shifted left by one. */
  lemma OccursShift(s: string, pat: string, i: nat)
    requires s != []
    ensures OccursAt(s, pat, i + 1) <==> OccursAt(s[1..], pat, i)
  {
    if i + 1 + |pat| <= |s| {
      assert s[1..][i..i + |pat|] == s[i + 1..i + 1 + |pat|];
    }
  }

  /** Python's `pat in s`. */
  function Contains(s: string, pat: string): bool
    decreases |s|
  {
    if pat <= s then true
    else if s == [] then false
    else Contains(s[1..], pat)
  }

  /** `pat in s` holds exactly when `pat` occurs at some position of `s`. */
  lemma {:induction false} ContainsSpec(s: string, pat: string)
    ensures Contains(s, pat) <==> exists i :: OccursAt(s, pat, i)
    decreases |s|
  {
    OccursAtStart(s, pat);
    if !(pat <= s) && s != [] {
      ContainsSpec(s[1..], pat);
      if Contains(s, pat) {
        var i :| OccursAt(s[1..], pat, i);
        OccursShift(s, pat, i);
      }
      if i :| OccursAt(s, pat, i) {
        OccursShift(s, pat, i - 1);
      }
    }
  }

  /** Whether any phrase of the list occurs in `s`. */
  function ContainsAny(s: string, pats: seq<string>): bool
  {
    if pats == [] then false
    else Contains(s, pats[0]) || ContainsAny(s, pats[1..])
  }

  /** The search succeeds exactly when some phrase of the list occurs at some position of `s`. */
  lemma {:induction false} ContainsAnySpec(s: string, pats: seq<string>)
    ensures ContainsAny(s, pats) <==> exists k, i :: 0 <= k < |pats| && OccursAt(s, pats[k], i)
  {
    if pats != [] {
      ContainsSpec(s, pats[0]);
      ContainsAnySpec(s, pats[1..]);
      if k, i :| 0 < k < |pats| && OccursAt(s, pats[k], i) {
        assert OccursAt(s, pats[1..][k - 1], i);
      }
      if ContainsAny(s, pats[1..]) {
        var k, i :| 0 <= k < |pats[1..]| && OccursAt(s, pats[1..][k], i);
        assert OccursAt(s, pats[k + 1], i);
      }
    }
  }

  /** Searching for the phrases of two lists is searching for either list's. */
  lemma {:induction false} ContainsAnyAppend(s: string, a: seq<string>, b: seq<string>)
    ensures ContainsAny(s, a + b) <==> ContainsAny(s, a) || ContainsAny(s, b)
  {
    if a == [] {
      assert a + b == b;
    } else {
      assert (a + b)[0] == a[0] && (a + b)[1..] == a[1..] + b;
      ContainsAnyAppend(s, a[1..], b);
    }
  }
}
