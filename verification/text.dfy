/** Results of operations that raise a Python `ValueError` (or any exception), and optional values. */
module Results {
  /** `Failure` carries the exception's message text. */
  datatype Result<+T> = Success(value: T) | Failure(error: string)

  /** Python's `None` or a value. */
  datatype Option<+T> = None | Some(value: T)
}

/** String helpers shared by the modules: Python's `in` on strings, `str.lower`,
    `str.endswith`, `"sep".join` and `str(int)`. */
module Text {

  /** Python's `k in s` for two strings: `k` occurs as a contiguous run of `s`. */
  predicate Contains(s: string, k: string) {
    exists i :: 0 <= i <= |s| - |k| && OccursAt(s, k, i)
  }

  /** `k` occurs in `s` starting at index `i`. */
  predicate OccursAt(s: string, k: string, i: int) {
    0 <= i && i + |k| <= |s| && s[i..i + |k|] == k
  }

  /** Python's `any(k in s for k in keywords)`. */
  predicate HasAny(s: string, keywords: seq<string>) {
    exists k :: k in keywords && Contains(s, k)
  }

  /** Python's `s.endswith(suffix)`. */
  predicate EndsWith(s: string, suffix: string) {
    |suffix| <= |s| && s[|s| - |suffix|..] == suffix
  }

  lemma {:induction false} ContainsAt(s: string, k: string, i: nat)
    requires i + |k| <= |s| && s[i..i + |k|] == k
    ensures Contains(s, k)
  {
    assert OccursAt(s, k, i);
  }

  /** Every string contains itself. */
  lemma ContainsSelf(s: string)
    ensures Contains(s, s)
  {
    assert s[0..|s|] == s;
    ContainsAt(s, s, 0);
  }

  /** A string ends with its own suffix, so it contains it. */
  lemma {:induction false} ContainsSuffix(a: string, b: string)
    ensures Contains(a + b, b)
  {
    assert (a + b)[|a|..|a| + |b|] == b;
    ContainsAt(a + b, b, |a|);
  }

  /** A string contains its own prefix. */
  lemma {:induction false} ContainsPrefix(a: string, b: string)
    ensures Contains(a + b, a)
  {
    assert (a + b)[0..|a|] == a;
    ContainsAt(a + b, a, 0);
  }

  /** Text around an occurrence does not hide it. */
  lemma {:induction false} ContainsWithin(a: string, b: string, c: string, k: string)
    requires Contains(b, k)
    ensures Contains(a + b + c, k)
  {
    var i :| 0 <= i <= |b| - |k| && OccursAt(b, k, i);
    assert b[i..i + |k|] == k;
    assert (a + b + c)[|a| + i..|a| + i + |k|] == b[i..i + |k|];
    ContainsAt(a + b + c, k, |a| + i);
  }

  /** A string cannot contain a word one of whose characters it lacks. */
  lemma MissingCharRulesOut(s: string, k: string, j: nat)
    requires j < |k| && k[j] !in s
    ensures !Contains(s, k)
  {
    forall i | 0 <= i <= |s| - |k| ensures !OccursAt(s, k, i) {
      if i + |k| <= |s| {
        assert s[i..i + |k|][j] == s[i + j];
      }
    }
  }

  // ---------------------------------------------------------------------------
  // Lower-casing

  /** Python's `str.lower` on one character, for the characters an Azerbaijani
      spreadsheet user types: ASCII capitals, the Latin-1 capitals (Ç, Ö, Ü, ...),
      Ğ, Ş and Ə; İ becomes the two characters "i" + U+0307 as in Python.
      Every other character is returned as it is. */
  function LowerChar(c: char): (r: string)
    ensures 1 <= |r| <= 2
  {
    if 'A' <= c <= 'Z' then [(c as int + 32) as char]
    else if '\U{00C0}' <= c <= '\U{00DE}' && c != '\U{00D7}' then [(c as int + 32) as char]
    else if c == '\U{011E}' then ['\U{011F}']            // Ğ -> ğ
    else if c == '\U{015E}' then ['\U{015F}']            // Ş -> ş
    else if c == '\U{018F}' then ['\U{0259}']            // Ə -> ə
    else if c == '\U{0130}' then ['i', '\U{0307}']       // İ -> i + combining dot above
    else [c]
  }

  /** True when `LowerChar` changes `c`. */
  predicate IsUpper(c: char) {
    LowerChar(c) != [c]
  }

  /** Python's `s.lower()`. */
  function Lower(s: string): (r: string)
    ensures |s| <= |r|
  {
    if s == [] then [] else LowerChar(s[0]) + Lower(s[1..])
  }

  /** No character that lower-casing produces is changed by lower-casing again. */
  lemma LowerCharOutputIsLower(c: char)
    ensures forall i :: 0 <= i < |LowerChar(c)| ==> !IsUpper(LowerChar(c)[i])
  {
  }

  lemma {:induction false} LowerAppend(a: string, b: string)
    ensures Lower(a + b) == Lower(a) + Lower(b)
  {
    if a == [] {
      assert a + b == b;
    } else {
      assert (a + b)[0] == a[0];
      assert (a + b)[1..] == a[1..] + b;
      LowerAppend(a[1..], b);
    }
  }

  /** A string without capitals is its own lower-case form. */
  lemma {:induction false} LowerOfLowerString(s: string)
    requires forall i :: 0 <= i < |s| ==> !IsUpper(s[i])
    ensures Lower(s) == s
  {
    if s != [] {
      assert LowerChar(s[0]) == [s[0]];
      LowerOfLowerString(s[1..]);
    }
  }

  /** `str.lower` is idempotent: lower-casing twice is lower-casing once. */
  lemma {:induction false} LowerIdempotent(s: string)
    ensures Lower(Lower(s)) == Lower(s)
  {
    if s != [] {
      var head := LowerChar(s[0]);
      LowerCharOutputIsLower(s[0]);
      LowerOfLowerString(head);
      LowerIdempotent(s[1..]);
      LowerAppend(head, Lower(s[1..]));
    }
  }

  // ---------------------------------------------------------------------------
  // Decimal text of integers (Python's `str(n)` and f-string `{n}`)

  function DigitChar(d: nat): (c: char)
    requires d < 10
    ensures '0' <= c <= '9'
  {
    ('0' as int + d) as char
  }

  function DigitValue(c: char): nat {
    if '0' <= c <= '9' then c as int - '0' as int else 0
  }

  /** Every character of `s` is a decimal digit. */
  predicate IsDigits(s: string) {
    forall i :: 0 <= i < |s| ==> '0' <= s[i] <= '9'
  }

  /** The decimal digits of `n`, most significant first, no leading zero. */
  function NatToString(n: nat): (r: string)
    ensures |r| >= 1
    ensures IsDigits(r)
    ensures |r| > 1 ==> r[0] != '0'
  {
    if n < 10 then [DigitChar(n)] else NatToString(n / 10) + [DigitChar(n % 10)]
  }

  /** Reads a run of decimal digits back as a number. */
  function ParseNat(s: string): nat {
    if s == [] then 0 else ParseNat(s[..|s| - 1]) * 10 + DigitValue(s[|s| - 1])
  }

  /** Python's `str(n)` for an `int`. */
  function IntToString(n: int): (r: string)
    ensures |r| >= 1
  {
    if n < 0 then "-" + NatToString(-n) else NatToString(n)
  }

  /** Reads `IntToString`'s format back. */
  function ParseInt(s: string): int {
    if |s| > 0 && s[0] == '-' then -(ParseNat(s[1..]) as int) else ParseNat(s)
  }

  /** Reading the decimal text of `n` gives `n` back. */
  lemma {:induction false} NatToStringRoundTrip(n: nat)
    ensures ParseNat(NatToString(n)) == n
  {
    if n >= 10 {
      var s := NatToString(n);
      assert s[..|s| - 1] == NatToString(n / 10);
      NatToStringRoundTrip(n / 10);
    } else {
      assert NatToString(n)[..0] == [];
    }
  }

  /** Reading `str(n)` gives `n` back, negative numbers included. */
  lemma {:induction false} IntToStringRoundTrip(n: int)
    ensures ParseInt(IntToString(n)) == n
  {
    if n < 0 {
      NatToStringRoundTrip(-n);
      assert IntToString(n)[1..] == NatToString(-n);
    } else {
      NatToStringRoundTrip(n);
    }
  }

  // ---------------------------------------------------------------------------
  // Joining lines

  /** Python's `sep.join(parts)`. */
  function Join(parts: seq<string>, sep: string): string {
    if parts == [] then ""
    else if |parts| == 1 then parts[0]
    else parts[0] + sep + Join(parts[1..], sep)
  }

  /** Every part occurs in the joined text. */
  lemma {:induction false} JoinContainsPart(parts: seq<string>, sep: string, i: nat)
    requires i < |parts|
    ensures Contains(Join(parts, sep), parts[i])
  {
    if |parts| == 1 {
      assert Join(parts, sep) == parts[0];
      assert parts[0][0..|parts[0]|] == parts[0];
      ContainsAt(parts[0], parts[0], 0);
    } else if i == 0 {
      assert Join(parts, sep) == parts[0] + (sep + Join(parts[1..], sep));
      ContainsPrefix(parts[0], sep + Join(parts[1..], sep));
    } else {
      JoinContainsPart(parts[1..], sep, i - 1);
      assert parts[1..][i - 1] == parts[i];
      var rest := Join(parts[1..], sep);
      var j :| 0 <= j <= |rest| - |parts[i]| && OccursAt(rest, parts[i], j);
      assert j + |parts[i]| <= |rest| && rest[j..j + |parts[i]|] == parts[i];
      var pre := parts[0] + sep;
      assert Join(parts, sep) == pre + rest;
      assert (pre + rest)[|pre| + j..|pre| + j + |parts[i]|] == rest[j..j + |parts[i]|];
      ContainsAt(pre + rest, parts[i], |pre| + j);
    }
  }
}
