/**
 * The few Python `str` operations the core relies on, with their Python
 * meaning: `pat in s`, `s.split(sep)`, `s.strip(chars)`, `s.replace(c, '')`,
 * `s.lower()` (ASCII letters only) and `s.startswith(p)`.
 */
module PyStr {
  import opened Common

  /** `pat` occurs in `s` starting at index `i`. */
  ghost predicate OccursAt(s: string, pat: string, i: int) {
    0 <= i && i + |pat| <= |s| && s[i..i + |pat|] == pat
  }

  lemma OccursAtShift(s: string, pat: string)
    requires |s| > 0
    ensures forall j :: OccursAt(s[1..], pat, j) ==> OccursAt(s, pat, j + 1)
    ensures forall j :: 1 <= j && OccursAt(s, pat, j) ==> OccursAt(s[1..], pat, j - 1)
  {
    forall j | OccursAt(s[1..], pat, j) ensures OccursAt(s, pat, j + 1) {
      assert s[1..][j..j + |pat|] == s[j + 1..j + 1 + |pat|];
    }
    forall j | 1 <= j && OccursAt(s, pat, j) ensures OccursAt(s[1..], pat, j - 1) {
      assert s[1..][j - 1..j - 1 + |pat|] == s[j..j + |pat|];
    }
  }

  /** Index of the first occurrence of `pat` in `s`; `str.find` without the -1. */
  function Find(s: string, pat: string): (r: Option<nat>)
    ensures r.Some? ==> OccursAt(s, pat, r.value)
    ensures r.Some? ==> forall j :: 0 <= j < r.value ==> !OccursAt(s, pat, j)
    ensures r.None? ==> forall j :: !OccursAt(s, pat, j)
    decreases |s|
  {
    if |s| < |pat| then None
    else if s[..|pat|] == pat then Some(0)
    else
      OccursAtShift(s, pat);
      match Find(s[1..], pat)
      case None => None
      case Some(i) => Some(i + 1)
  }

  /** Python's `pat in s`. */
  predicate Contains(s: string, pat: string) {
    Find(s, pat).Some?
  }

  lemma ContainsWitness(s: string, pat: string, i: int)
    requires OccursAt(s, pat, i)
    ensures Contains(s, pat)
  {
  }

  lemma ContainsConcat(a: string, pat: string, b: string)
    ensures Contains(a + pat + b, pat)
  {
    assert (a + pat + b)[|a|..|a| + |pat|] == pat;
    ContainsWitness(a + pat + b, pat, |a|);
  }

  /** For a one-character pattern, `[c] in s` is membership of `c`. */
  lemma ContainsChar(s: string, c: char)
    ensures Contains(s, [c]) <==> c in s
  {
    if c in s {
      var i :| 0 <= i < |s| && s[i] == c;
      assert s[i..i + 1] == [c];
      ContainsWitness(s, [c], i);
    }
    if Contains(s, [c]) {
      var i := Find(s, [c]).value;
      assert s[i..i + 1] == [c];
      assert s[i] == c;
    }
  }

  /** Every character of an occurring pattern is a character of `s`. */
  lemma ContainedCharacter(s: string, pat: string, k: int)
    requires Contains(s, pat) && 0 <= k < |pat|
    ensures pat[k] in s
  {
    var i := Find(s, pat).value;
    assert s[i..i + |pat|][k] == s[i + k];
  }

  /** `pat` cannot occur in `s` when one of its characters is missing from `s`. */
  lemma MissingCharacter(s: string, pat: string, c: char)
    requires c in pat && c !in s
    ensures !Contains(s, pat)
  {
    if Contains(s, pat) {
      var k :| 0 <= k < |pat| && pat[k] == c;
      ContainedCharacter(s, pat, k);
      assert false;
    }
  }

  lemma ContainsItself(s: string)
    ensures Contains(s, s)
  {
    assert s[0..|s|] == s;
    ContainsWitness(s, s, 0);
  }

  lemma NoOccurrenceBefore(s: string, pat: string, i: nat)
    requires pat != []
    requires Find(s, pat) == Some(i)
    ensures !Contains(s[..i], pat)
  {
    forall j | 0 <= j && j + |pat| <= i ensures !OccursAt(s[..i], pat, j) {
      assert s[..i][j..j + |pat|] == s[j..j + |pat|];
      assert !OccursAt(s, pat, j);
    }
  }

  /** Python's `sep.join(pieces)`. */
  function Join(pieces: seq<string>, sep: string): string {
    if |pieces| == 0 then ""
    else if |pieces| == 1 then pieces[0]
    else pieces[0] + sep + Join(pieces[1..], sep)
  }

  /**
   * Python's `s.split(sep)` for a non-empty separator: the pieces between
   * the occurrences of `sep`, found left to right without overlap.
   */
  function Split(s: string, sep: string): (pieces: seq<string>)
    requires sep != []
    ensures |pieces| >= 1
    ensures Join(pieces, sep) == s
    ensures forall k :: 0 <= k < |pieces| ==> !Contains(pieces[k], sep)
    ensures Find(s, sep).None? ==> pieces == [s]
    ensures Find(s, sep).Some? ==> |pieces| >= 2 && pieces[0] == s[..Find(s, sep).value]
    decreases |s|
  {
    match Find(s, sep)
    case None => [s]
    case Some(i) =>
      NoOccurrenceBefore(s, sep, i);
      var rest := Split(s[i + |sep|..], sep);
      var pieces := [s[..i]] + rest;
      assert pieces[1..] == rest;
      assert s == s[..i] + sep + s[i + |sep|..] by {
        assert s[i..i + |sep|] == sep;
      }
      pieces
  }

  /** The first occurrence of `sep` in `p + sep + t` is the one after `p`,
      when `p` holds none and the last character of `sep` occurs in `sep`
      nowhere else (so no occurrence can straddle the end of `p`). */
  lemma {:induction false} SplitAfterFirst(p: string, sep: string, t: string)
    requires sep != []
    requires !Contains(p, sep)
    requires forall k :: 0 <= k < |sep| - 1 ==> sep[k] != sep[|sep| - 1]
    ensures Split(p + sep + t, sep) == [p] + Split(t, sep)
  {
    var s := p + sep + t;
    assert s[|p|..|p| + |sep|] == sep;
    assert OccursAt(s, sep, |p|);
    forall j | 0 <= j < |p| ensures !OccursAt(s, sep, j) {
      if j + |sep| <= |p| {
        assert p[j..j + |sep|] == s[j..j + |sep|];
        assert !OccursAt(p, sep, j);
      } else {
        var k := j + |sep| - 1 - |p|;
        assert s[j..j + |sep|][|sep| - 1] == s[j + |sep| - 1] == sep[k];
        assert sep[k] != sep[|sep| - 1];
      }
    }
    var m := Find(s, sep).value;
    assert m == |p|;
    assert s[..m] == p;
    assert s[m + |sep|..] == t;
  }

  /** `s.split(sep)[0]` ends where `s` holds no more characters or the first `sep` starts. */
  lemma SplitFirstPrefix(s: string, sep: string)
    requires sep != []
    ensures Split(s, sep)[0] <= s
    ensures |Split(s, sep)[0]| < |s| ==> OccursAt(s, sep, |Split(s, sep)[0]|)
  {
  }

  /** Splitting on a single character that the first piece lacks. */
  lemma SplitCharFirst(p: string, c: char, t: string)
    requires c !in p
    ensures Split(p + [c] + t, [c]) == [p] + Split(t, [c])
  {
    ContainsChar(p, c);
    SplitAfterFirst(p, [c], t);
  }

  lemma SplitCharNone(s: string, c: char)
    requires c !in s
    ensures Split(s, [c]) == [s]
  {
    ContainsChar(s, c);
  }

  /** Python's `s.lstrip(chars)`: drops leading characters that occur in `chars`. */
  function LStrip(s: string, chars: string): (r: string)
    ensures |r| <= |s| && r == s[|s| - |r|..]
    ensures forall k :: 0 <= k < |s| - |r| ==> s[k] in chars
    ensures r == [] || r[0] !in chars
  {
    if s != [] && s[0] in chars then LStrip(s[1..], chars) else s
  }

  /** Python's `s.rstrip(chars)`: drops trailing characters that occur in `chars`. */
  function RStrip(s: string, chars: string): (r: string)
    ensures |r| <= |s| && r == s[..|r|]
    ensures forall k :: |r| <= k < |s| ==> s[k] in chars
    ensures r == [] || r[|r| - 1] !in chars
  {
    if s != [] && s[|s| - 1] in chars then RStrip(s[..|s| - 1], chars) else s
  }

  /** `r` is the slice `s[i..i + |r|]` and everything outside it is in `chars`. */
  ghost predicate StrippedAt(s: string, chars: string, r: string, i: int) {
    && 0 <= i && i + |r| <= |s| && r == s[i..i + |r|]
    && (forall k :: 0 <= k < i ==> s[k] in chars)
    && (forall k :: i + |r| <= k < |s| ==> s[k] in chars)
  }

  /** An `lstrip` followed by an `rstrip` leaves a slice with only characters of `chars` removed. */
  lemma LStripThenRStrip(s: string, chars: string, l: string, r: string)
    requires |l| <= |s| && l == s[|s| - |l|..]
    requires forall k :: 0 <= k < |s| - |l| ==> s[k] in chars
    requires l == [] || l[0] !in chars
    requires |r| <= |l| && r == l[..|r|]
    requires forall k :: |r| <= k < |l| ==> l[k] in chars
    requires r == [] || r[|r| - 1] !in chars
    ensures StrippedAt(s, chars, r, |s| - |l|)
    ensures r == [] || (r[0] !in chars && r[|r| - 1] !in chars)
  {
    forall k | |s| - |l| + |r| <= k < |s| ensures s[k] in chars {
      assert s[k] == l[k - (|s| - |l|)];
    }
    if r != [] {
      assert r[0] == l[0];
    }
  }

  /**
   * Python's `s.strip(chars)`: the argument is a SET of characters, not a
   * suffix, so `'videos.csv'.strip('.csv') == 'ideo'`.
   */
  function Strip(s: string, chars: string): (r: string)
    ensures exists i :: StrippedAt(s, chars, r, i)
    ensures r == [] || (r[0] !in chars && r[|r| - 1] !in chars)
  {
    var l := LStrip(s, chars);
    var r := RStrip(l, chars);
    LStripThenRStrip(s, chars, l, r);
    r
  }

  lemma {:induction false} LStripFrom(s: string, chars: string, i: int)
    requires 0 <= i <= |s|
    requires forall k :: 0 <= k < i ==> s[k] in chars
    requires i == |s| || s[i] !in chars
    ensures LStrip(s, chars) == s[i..]
    decreases i
  {
    if i > 0 {
      LStripFrom(s[1..], chars, i - 1);
      assert s[1..][i - 1..] == s[i..];
    }
  }

  lemma {:induction false} RStripTo(s: string, chars: string, j: int)
    requires 0 <= j <= |s|
    requires forall k :: j <= k < |s| ==> s[k] in chars
    requires j == 0 || s[j - 1] !in chars
    ensures RStrip(s, chars) == s[..j]
    decreases |s| - j
  {
    if j < |s| {
      RStripTo(s[..|s| - 1], chars, j);
      assert s[..|s| - 1][..j] == s[..j];
    }
  }

  /** The two postconditions of `Strip` determine its result. */
  lemma StripUnique(s: string, chars: string, r: string, i: int)
    requires StrippedAt(s, chars, r, i)
    requires r == [] || (r[0] !in chars && r[|r| - 1] !in chars)
    ensures Strip(s, chars) == r
  {
    if r == [] {
      LStripFrom(s, chars, |s|);
    } else {
      var t := s[i..];
      assert s[i] == r[0];
      LStripFrom(s, chars, i);
      assert t[|r| - 1] == r[|r| - 1];
      forall k | |r| <= k < |t| ensures t[k] in chars {
        assert t[k] == s[i + k];
      }
      RStripTo(t, chars, |r|);
      assert t[..|r|] == r;
    }
  }

  lemma StripIdempotent(s: string, chars: string)
    ensures Strip(Strip(s, chars), chars) == Strip(s, chars)
  {
    var r := Strip(s, chars);
    assert r[0..|r|] == r;
    StripUnique(r, chars, r, 0);
  }

  /** Stripping twice removes only characters of either set and leaves a slice of the original. */
  lemma StrippedAtCompose(s: string, a: string, m: string, i: int, b: string, r: string, j: int) returns (k: int)
    requires StrippedAt(s, a, m, i) && StrippedAt(m, b, r, j)
    ensures k == i + j && StrippedAt(s, a + b, r, k)
  {
    k := i + j;
    assert r == s[i + j..i + j + |r|] by {
      forall k | 0 <= k < |r| ensures r[k] == s[i + j + k] {
        assert r[k] == m[j + k] == s[i + j + k];
      }
    }
    forall k | 0 <= k < i + j ensures s[k] in a + b {
      if k >= i { assert s[k] == m[k - i]; }
    }
    forall k | i + j + |r| <= k < |s| ensures s[k] in a + b {
      if k < i + |m| { assert s[k] == m[k - i]; }
    }
  }

  /** Where the slice `Strip` keeps starts. */
  lemma StripStart(s: string, chars: string) returns (i: int)
    ensures StrippedAt(s, chars, Strip(s, chars), i)
  {
    i :| StrippedAt(s, chars, Strip(s, chars), i);
  }

  /** Python's `s.replace(c, '')` for a one-character `c`. */
  function RemoveChar(s: string, c: char): (r: string)
    ensures c !in r
    ensures forall x :: x != c ==> multiset(r)[x] == multiset(s)[x]
    ensures |r| <= |s|
    ensures |s| == 1 ==> (r == [] <==> s[0] == c) && (r != [] ==> r == s)
  {
    if s == [] then []
    else
      assert s == [s[0]] + s[1..];
      (if s[0] == c then [] else [s[0]]) + RemoveChar(s[1..], c)
  }

  /**
   * Removing a character works piece by piece and keeps the order of what
   * is left: with the one-character cases of `RemoveChar`, this determines
   * its result for every string.
   */
  lemma {:induction false} RemoveCharConcat(a: string, b: string, c: char)
    ensures RemoveChar(a + b, c) == RemoveChar(a, c) + RemoveChar(b, c)
    decreases |a|
  {
    if a == [] {
      assert a + b == b;
    } else {
      assert (a + b)[1..] == a[1..] + b;
      RemoveCharConcat(a[1..], b, c);
    }
  }

  /** A string without the character is left as it is. */
  lemma {:induction false} RemoveCharAbsent(s: string, c: char)
    requires c !in s
    ensures RemoveChar(s, c) == s
    decreases |s|
  {
    if s != [] {
      assert c !in s[1..];
      RemoveCharAbsent(s[1..], c);
      assert s == [s[0]] + s[1..];
    }
  }

  /** Python's `ch.lower()` for ASCII letters; other characters are unchanged. */
  function LowerChar(ch: char): char {
    if 'A' <= ch <= 'Z' then (ch as int + 32) as char else ch
  }

  function Lower(s: string): string {
    seq(|s|, i requires 0 <= i < |s| => LowerChar(s[i]))
  }

  /** Python's `s.startswith(p)`. */
  predicate StartsWith(s: string, p: string) {
    p <= s
  }

  predicate IsDigit(c: char) {
    '0' <= c <= '9'
  }

  function DigitChar(d: nat): (c: char)
    requires d < 10
    ensures IsDigit(c)
  {
    ('0' as int + d) as char
  }

  function DigitValue(c: char): nat {
    if IsDigit(c) then c as int - '0' as int else 0
  }

  /** Python's `str(n)` for a non-negative integer. */
  function DecimalString(n: nat): (s: string)
    ensures |s| >= 1
  {
    if n < 10 then [DigitChar(n)] else DecimalString(n / 10) + [DigitChar(n % 10)]
  }

  /** `s` is a string `str` can return for a non-negative integer: digits, and no leading zero. */
  predicate IsDecimalNumeral(s: string) {
    && |s| >= 1
    && (forall i :: 0 <= i < |s| ==> IsDigit(s[i]))
    && (s[0] == '0' ==> |s| == 1)
  }

  /** The number a string of decimal digits spells. */
  function DecimalValue(s: string): nat {
    if s == [] then 0 else DecimalValue(s[..|s| - 1]) * 10 + DigitValue(s[|s| - 1])
  }

  lemma {:induction false} DecimalStringRoundTrip(n: nat)
    ensures IsDecimalNumeral(DecimalString(n))
    ensures DecimalValue(DecimalString(n)) == n
    decreases n
  {
    var s := DecimalString(n);
    if n < 10 {
      assert s[..0] == [];
    } else {
      DecimalStringRoundTrip(n / 10);
      var p := DecimalString(n / 10);
      assert s == p + [DigitChar(n % 10)];
      assert s[..|s| - 1] == p;
      assert s[0] == p[0];
      forall i | 0 <= i < |s| ensures IsDigit(s[i]) {
        if i < |p| {
          assert s[i] == p[i];
        }
      }
      assert p[0] != '0' by {
        if |p| == 1 {
          assert p[..0] == [];
          assert DecimalValue(p) == DigitValue(p[0]);
        }
      }
    }
  }

  lemma {:induction false} LeadingDigitBound(s: string)
    requires IsDecimalNumeral(s) && |s| >= 2
    ensures DecimalValue(s) >= 10
    decreases |s|
  {
    var p := s[..|s| - 1];
    assert p[0] == s[0];
    if |p| >= 2 {
      forall i | 0 <= i < |p| ensures IsDigit(p[i]) {
        assert p[i] == s[i];
      }
      LeadingDigitBound(p);
    } else {
      assert p[..0] == [];
      assert DecimalValue(p) == DigitValue(s[0]) >= 1;
    }
  }

  lemma {:induction false} DecimalValueRoundTrip(s: string)
    requires IsDecimalNumeral(s)
    ensures DecimalString(DecimalValue(s)) == s
    decreases |s|
  {
    var c := s[|s| - 1];
    assert IsDigit(c);
    assert DigitChar(DigitValue(c)) == c;
    if |s| == 1 {
      assert s[..0] == [];
      assert s == [c];
    } else {
      var p := s[..|s| - 1];
      assert p[0] == s[0];
      forall i | 0 <= i < |p| ensures IsDigit(p[i]) {
        assert p[i] == s[i];
      }
      LeadingDigitBound(s);
      DecimalValueRoundTrip(p);
      var n := DecimalValue(s);
      assert n / 10 == DecimalValue(p) && n % 10 == DigitValue(c);
      assert s == p + [c];
    }
  }

  /** Distinct numbers have distinct decimal strings. */
  lemma DecimalStringInjective()
    ensures forall m: nat, n: nat :: DecimalString(m) == DecimalString(n) ==> m == n
  {
    forall m: nat, n: nat | DecimalString(m) == DecimalString(n) ensures m == n {
      DecimalStringRoundTrip(m);
      DecimalStringRoundTrip(n);
    }
  }
}
