/** String helpers with the semantics of the Python built-ins the gate software uses:
    `str.strip`, `in` / `str.find` on substrings, `str.split` on one character,
    `str.isdigit` filtering and `int(...)` / `str(...)` on decimal digit strings.
    Characters are restricted to what the OCR whitelist and the serial protocol produce:
    upper-case ASCII letters and ASCII digits. */
module Text {

  datatype Option<T> = None | Some(value: T)

  predicate IsUpper(c: char) { 'A' <= c <= 'Z' }

  predicate IsDigit(c: char) { '0' <= c <= '9' }

  predicate AllUpper(s: string) { forall i :: 0 <= i < |s| ==> IsUpper(s[i]) }

  predicate AllDigits(s: string) { forall i :: 0 <= i < |s| ==> IsDigit(s[i]) }

  /** The code points Python's `str.isspace` accepts, i.e. those `str.strip()` removes. */
  predicate IsSpace(c: char) {
    var n := c as int;
    (9 <= n <= 13) || (28 <= n <= 32) || n == 0x85 || n == 0xA0 || n == 0x1680
    || (0x2000 <= n <= 0x200A) || n == 0x2028 || n == 0x2029 || n == 0x202F
    || n == 0x205F || n == 0x3000
  }

  predicate AllSpace(s: string) { forall i :: 0 <= i < |s| ==> IsSpace(s[i]) }

  // ---------------------------------------------------------------- strip

  /** The first index at or after `i` that does not hold whitespace (or |s|). */
  function SkipSpaces(s: string, i: nat): (k: nat)
    requires i <= |s|
    ensures i <= k <= |s|
    ensures forall j :: i <= j < k ==> IsSpace(s[j])
    ensures k < |s| ==> !IsSpace(s[k])
    decreases |s| - i
  {
    if i < |s| && IsSpace(s[i]) then SkipSpaces(s, i + 1) else i
  }

  /** The end of `s[lo..i]` once its trailing whitespace is dropped. */
  function SkipSpacesBack(s: string, lo: nat, i: nat): (k: nat)
    requires lo <= i <= |s|
    ensures lo <= k <= i
    ensures forall j :: k <= j < i ==> IsSpace(s[j])
    ensures lo < k ==> !IsSpace(s[k - 1])
  {
    if lo < i && IsSpace(s[i - 1]) then SkipSpacesBack(s, lo, i - 1) else i
  }

  /** Python `s.strip()`. */
  function Strip(s: string): string {
    var lo := SkipSpaces(s, 0);
    s[lo..SkipSpacesBack(s, lo, |s|)]
  }

  /** `r` is `s` with a whitespace prefix of length `k` and a whitespace suffix removed. */
  predicate StripsTo(s: string, r: string, k: int) {
    0 <= k && k + |r| <= |s| && s[k..k + |r|] == r
    && (forall i :: 0 <= i < k ==> IsSpace(s[i]))
    && (forall i :: k + |r| <= i < |s| ==> IsSpace(s[i]))
  }

  /** `strip` removes leading and trailing whitespace and nothing else. */
  lemma StripMeans(s: string)
    ensures StripsTo(s, Strip(s), SkipSpaces(s, 0))
    ensures Strip(s) != [] ==> !IsSpace(Strip(s)[0]) && !IsSpace(Strip(s)[|Strip(s)| - 1])
  {
    var lo := SkipSpaces(s, 0);
    var hi := SkipSpacesBack(s, lo, |s|);
    assert Strip(s) == s[lo..hi];
    if lo < hi {
      assert Strip(s)[0] == s[lo] && Strip(s)[hi - lo - 1] == s[hi - 1];
    }
  }

  /** `strip` removes exactly the padding around a string with non-space ends. */
  lemma StripPadded(pre: string, x: string, post: string)
    requires AllSpace(pre) && AllSpace(post)
    requires x != [] ==> !IsSpace(x[0]) && !IsSpace(x[|x| - 1])
    ensures Strip(pre + x + post) == x
  {
    var w := pre + x + post;
    assert forall j :: 0 <= j < |pre| ==> w[j] == pre[j];
    assert forall j :: 0 <= j < |post| ==> w[|pre| + |x| + j] == post[j];
    var lo := SkipSpaces(w, 0);
    var hi := SkipSpacesBack(w, lo, |w|);
    if x == [] {
      assert forall j :: 0 <= j < |w| ==> IsSpace(w[j]) by {
        forall j | 0 <= j < |w| ensures IsSpace(w[j]) {
          if j >= |pre| { assert w[j] == post[j - |pre|]; }
        }
      }
      assert lo == |w|;
    } else {
      assert w[|pre|] == x[0] && w[|pre| + |x| - 1] == x[|x| - 1];
      assert lo == |pre|;
      assert hi == |pre| + |x|;
      assert w[lo..hi] == x;
    }
  }

  /** `strip` is idempotent. */
  lemma StripIdempotent(s: string)
    ensures Strip(Strip(s)) == Strip(s)
  {
    StripMeans(s);
    StripPadded([], Strip(s), []);
    assert [] + Strip(s) + [] == Strip(s);
  }

  /** A string that does not start or end with whitespace is its own `strip`. */
  lemma StripUnpadded(s: string)
    requires s != [] ==> !IsSpace(s[0]) && !IsSpace(s[|s| - 1])
    ensures Strip(s) == s
  {
    StripPadded([], s, []);
    assert [] + s + [] == s;
  }

  /** Python `s.replace(c, "")` for one character `c`. */
  function RemoveAll(s: string, c: char): (r: string)
    ensures |r| <= |s| && c !in r
    ensures forall x :: x != c ==> multiset(r)[x] == multiset(s)[x]
    ensures c !in s ==> r == s
  {
    if s == [] then []
    else
      assert s == [s[0]] + s[1..];
      (if s[0] == c then [] else [s[0]]) + RemoveAll(s[1..], c)
  }

  /** Removal keeps the order of the remaining characters: it distributes over concatenation. */
  lemma {:induction false} RemoveAllAppend(a: string, b: string, c: char)
    ensures RemoveAll(a + b, c) == RemoveAll(a, c) + RemoveAll(b, c)
  {
    if a == [] {
      assert a + b == b;
    } else {
      assert (a + b)[0] == a[0] && (a + b)[1..] == a[1..] + b;
      RemoveAllAppend(a[1..], b, c);
    }
  }

  // ---------------------------------------------------------------- substrings

  predicate OccursAt(s: string, t: string, i: int) {
    0 <= i && i + |t| <= |s| && s[i..i + |t|] == t
  }

  /** Python `t in s`. */
  predicate Contains(s: string, t: string) {
    exists i | 0 <= i <= |s| - |t| :: OccursAt(s, t, i)
  }

  function FindFrom(s: string, t: string, k: nat): (r: int)
    ensures r == -1 || k <= r
    ensures r == -1 <==> forall i :: k <= i ==> !OccursAt(s, t, i)
    ensures r != -1 ==> OccursAt(s, t, r) && forall i :: k <= i < r ==> !OccursAt(s, t, i)
    decreases |s| - k
  {
    if k + |t| > |s| then -1
    else if s[k..k + |t|] == t then assert OccursAt(s, t, k); k
    else assert !OccursAt(s, t, k); FindFrom(s, t, k + 1)
  }

  /** Python `s.find(t)`: the first index at which `t` occurs, or -1. */
  function Find(s: string, t: string): (r: int)
    ensures r == -1 <==> !Contains(s, t)
    ensures r != -1 ==> OccursAt(s, t, r) && forall i :: 0 <= i < r ==> !OccursAt(s, t, i)
  {
    FindFrom(s, t, 0)
  }

  /** If some character of `t` never appears in `s`, then `t` does not occur in `s`. */
  lemma {:induction false} NotContainsMissingChar(s: string, t: string, j: nat)
    requires j < |t| && t[j] !in s
    ensures !Contains(s, t)
  {
    forall i | 0 <= i <= |s| - |t| ensures !OccursAt(s, t, i) {
      assert s[i..i + |t|][j] == s[i + j];
      assert s[i + j] in s;
    }
  }

  // ---------------------------------------------------------------- split / join

  function Join(parts: seq<string>, sep: char): string
    requires |parts| >= 1
  {
    if |parts| == 1 then parts[0] else parts[0] + [sep] + Join(parts[1..], sep)
  }

  /** Python `s.split(sep)` for a one-character separator. */
  function Split(s: string, sep: char): (parts: seq<string>)
    ensures parts != []
  {
    if s == [] then [[]]
    else
      var rest := Split(s[1..], sep);
      if s[0] == sep then [[]] + rest else [[s[0]] + rest[0]] + rest[1..]
  }

  /** There is one more part than there are separators. */
  lemma {:induction false} SplitCount(s: string, sep: char)
    ensures |Split(s, sep)| == multiset(s)[sep] + 1
  {
    if s != [] {
      SplitCount(s[1..], sep);
      assert s == [s[0]] + s[1..];
      assert multiset(s) == multiset([s[0]]) + multiset(s[1..]);
    }
  }

  /** No part holds the separator. */
  lemma {:induction false} SplitParts(s: string, sep: char)
    ensures forall i :: 0 <= i < |Split(s, sep)| ==> sep !in Split(s, sep)[i]
  {
    if s != [] {
      SplitParts(s[1..], sep);
      var rest := Split(s[1..], sep);
      if s[0] != sep {
        var parts := [[s[0]] + rest[0]] + rest[1..];
        assert forall i :: 1 <= i < |parts| ==> parts[i] == rest[i];
      }
    }
  }

  /** Joining the parts with the separator gives the string back. */
  lemma {:induction false} SplitJoins(s: string, sep: char)
    ensures Join(Split(s, sep), sep) == s
  {
    if s != [] {
      SplitJoins(s[1..], sep);
      var rest := Split(s[1..], sep);
      assert s == [s[0]] + s[1..];
      if s[0] == sep {
        assert ([[]] + rest)[1..] == rest;
      } else {
        var parts := [[s[0]] + rest[0]] + rest[1..];
        assert parts[1..] == rest[1..];
        if |rest| > 1 {
          assert Join(rest, sep) == rest[0] + [sep] + Join(rest[1..], sep);
          assert Join(parts, sep) == parts[0] + [sep] + Join(rest[1..], sep);
        }
      }
    }
  }

  /** A string with exactly one separator is its two parts around it. */
  lemma SplitTwo(s: string, sep: char)
    requires |Split(s, sep)| == 2
    ensures s == Split(s, sep)[0] + [sep] + Split(s, sep)[1]
  {
    SplitJoins(s, sep);
    var parts := Split(s, sep);
    assert parts[1..] == [parts[1]];
    assert Join(parts[1..], sep) == parts[1];
  }

  lemma {:induction false} SplitNoSeparator(a: string, sep: char)
    requires sep !in a
    ensures Split(a, sep) == [a]
  {
    if a != [] {
      assert a[1..] == a[1..] && sep !in a[1..] by {
        forall i | 0 <= i < |a[1..]| ensures a[1..][i] != sep { assert a[1..][i] == a[i + 1]; }
      }
      SplitNoSeparator(a[1..], sep);
      assert [a[0]] + a[1..] == a;
    }
  }

  lemma {:induction false} SplitAfterPart(a: string, sep: char, s: string)
    requires sep !in a
    ensures Split(a + [sep] + s, sep) == [a] + Split(s, sep)
  {
    var w := a + [sep] + s;
    if a == [] {
      assert w[0] == sep && w[1..] == s;
    } else {
      assert w[0] == a[0] && w[0] != sep;
      assert w[1..] == a[1..] + [sep] + s;
      assert sep !in a[1..] by {
        forall i | 0 <= i < |a[1..]| ensures a[1..][i] != sep { assert a[1..][i] == a[i + 1]; }
      }
      SplitAfterPart(a[1..], sep, s);
      var rest := Split(w[1..], sep);
      assert rest == [a[1..]] + Split(s, sep);
      assert rest[0] == a[1..] && rest[1..] == Split(s, sep);
      assert Split(w, sep) == [[w[0]] + rest[0]] + rest[1..];
      assert [a[0]] + a[1..] == a;
    }
  }

  /** Splitting undoes joining whenever no part contains the separator. */
  lemma {:induction false} SplitJoin(parts: seq<string>, sep: char)
    requires |parts| >= 1
    requires forall i :: 0 <= i < |parts| ==> sep !in parts[i]
    ensures Split(Join(parts, sep), sep) == parts
  {
    if |parts| == 1 {
      SplitNoSeparator(parts[0], sep);
    } else {
      SplitJoin(parts[1..], sep);
      SplitAfterPart(parts[0], sep, Join(parts[1..], sep));
      assert [parts[0]] + parts[1..] == parts;
    }
  }

  // ---------------------------------------------------------------- digits

  /** Python `''.join(c for c in s if c.isdigit())`. */
  function FilterDigits(s: string): (r: string)
    ensures |r| <= |s| && AllDigits(r)
    ensures forall c :: IsDigit(c) ==> multiset(r)[c] == multiset(s)[c]
    ensures AllDigits(s) ==> r == s
  {
    if s == [] then []
    else
      assert s == [s[0]] + s[1..];
      (if IsDigit(s[0]) then [s[0]] else []) + FilterDigits(s[1..])
  }

  /** Filtering keeps the order of the digits: it distributes over concatenation. */
  lemma {:induction false} FilterDigitsAppend(a: string, b: string)
    ensures FilterDigits(a + b) == FilterDigits(a) + FilterDigits(b)
  {
    if a == [] {
      assert a + b == b;
    } else {
      assert (a + b)[0] == a[0] && (a + b)[1..] == a[1..] + b;
      FilterDigitsAppend(a[1..], b);
    }
  }

  function DigitValue(c: char): nat
    requires IsDigit(c)
  {
    (c as int) - ('0' as int)
  }

  function DigitChar(d: nat): (c: char)
    requires d < 10
    ensures IsDigit(c) && DigitValue(c) == d
  {
    (('0' as int) + d) as char
  }

  /** Python `int(s)` for a non-empty string of ASCII digits (leading zeros allowed). */
  function DigitsValue(s: string): (n: nat)
    requires AllDigits(s)
  {
    if s == [] then 0 else 10 * DigitsValue(s[..|s| - 1]) + DigitValue(s[|s| - 1])
  }

  /** Python `str(n)` for a natural number. */
  function NatToDecimal(n: nat): (s: string)
    ensures s != [] && AllDigits(s)
    ensures s[0] == '0' ==> s == "0"
  {
    if n < 10 then [DigitChar(n)] else NatToDecimal(n / 10) + [DigitChar(n % 10)]
  }

  lemma {:induction false} DecimalRoundTrip(n: nat)
    ensures DigitsValue(NatToDecimal(n)) == n
  {
    var s := NatToDecimal(n);
    if n >= 10 {
      DecimalRoundTrip(n / 10);
      assert s[..|s| - 1] == NatToDecimal(n / 10);
    }
  }

  lemma {:induction false} LeadingDigitPositive(s: string)
    requires AllDigits(s) && s != [] && s[0] != '0'
    ensures DigitsValue(s) > 0
  {
    if |s| > 1 {
      assert s[..|s| - 1][0] == s[0];
      LeadingDigitPositive(s[..|s| - 1]);
    }
  }

  /** A digit string without leading zeros is what `str` prints for its value. */
  lemma {:induction false} DecimalCanonical(s: string)
    requires AllDigits(s) && s != [] && (s[0] == '0' ==> |s| == 1)
    ensures NatToDecimal(DigitsValue(s)) == s
  {
    var n := DigitsValue(s);
    var init := s[..|s| - 1];
    if |s| == 1 {
      assert DigitChar(DigitValue(s[0])) == s[0];
    } else {
      assert init[0] == s[0];
      LeadingDigitPositive(init);
      DecimalCanonical(init);
      assert n / 10 == DigitsValue(init) && n % 10 == DigitValue(s[|s| - 1]);
      assert DigitChar(DigitValue(s[|s| - 1])) == s[|s| - 1];
      assert init + [s[|s| - 1]] == s;
    }
  }
}
