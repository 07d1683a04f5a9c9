/** The pieces of Python's `str` the pipeline uses: `str(n)` for a non-negative int,
    `replace(c, '')`, `split(sep)[0]` and slicing with negative bounds. */
module Strings {
  import opened Arith

  predicate IsDigit(c: char) {
    '0' <= c <= '9'
  }

  predicate AllDigits(s: string) {
    forall i :: 0 <= i < |s| ==> IsDigit(s[i])
  }

  function DigitChar(d: nat): (c: char)
    requires d < 10
    ensures IsDigit(c)
  {
    ('0' as int + d) as char
  }

  function DigitValue(c: char): (d: nat)
    requires IsDigit(c)
    ensures d < 10
  {
    c as int - '0' as int
  }

  /** `str(n)`: the decimal digits of `n`, without leading zeros ("0" for zero). */
  function DecimalString(n: nat): (s: string)
    ensures AllDigits(s)
    ensures |s| == 1 <==> n < 10
    ensures |s| >= 1 && (|s| == 1 || s[0] != '0')
  {
    if n < 10 then [DigitChar(n)] else DecimalString(n / 10) + [DigitChar(n % 10)]
  }

  /** `int(s)` for a string of decimal digits (leading zeros allowed). */
  function DigitsValue(s: string): nat
    requires AllDigits(s)
  {
    if s == [] then 0 else DigitsValue(s[..|s| - 1]) * 10 + DigitValue(s[|s| - 1])
  }

  /** Reading back the decimal string of `n` gives `n`. */
  lemma {:induction false} DecimalRoundTrip(n: nat)
    ensures DigitsValue(DecimalString(n)) == n
  {
    var s := DecimalString(n);
    if n >= 10 {
      DecimalRoundTrip(n / 10);
      assert s[..|s| - 1] == DecimalString(n / 10);
    }
  }

  /** One leading zero does not change the value read back. */
  lemma {:induction false} LeadingZeroValue(s: string)
    requires AllDigits(s)
    ensures AllDigits("0" + s) && DigitsValue("0" + s) == DigitsValue(s)
  {
    if s != [] {
      LeadingZeroValue(s[..|s| - 1]);
      assert ("0" + s)[..|s|] == "0" + s[..|s| - 1];
    }
  }

  /** A numeral is worth at least its leading digit. */
  lemma {:induction false} DigitsValueAtLeastFirst(s: string)
    requires AllDigits(s) && |s| >= 1
    ensures DigitsValue(s) >= DigitValue(s[0])
  {
    if |s| > 1 {
      DigitsValueAtLeastFirst(s[..|s| - 1]);
    }
  }

  /** A numeral without a leading zero is `str` of its value: the other direction of
      `DecimalRoundTrip`. */
  lemma {:induction false} DigitsRoundTrip(s: string)
    requires AllDigits(s) && |s| >= 1 && s[0] != '0'
    ensures DecimalString(DigitsValue(s)) == s
  {
    var v := DigitsValue(s);
    var last := s[|s| - 1];
    if |s| == 1 {
      assert s[..0] == [] && DigitsValue(s[..0]) == 0;
      assert v == DigitsValue(s[..0]) * 10 + DigitValue(last);
      assert DigitChar(DigitValue(last)) == last;
      assert s == [last];
    } else {
      var init := s[..|s| - 1];
      DigitsValueAtLeastFirst(init);
      DigitsRoundTrip(init);
      assert v == DigitsValue(init) * 10 + DigitValue(last);
      DivModUnique(DigitsValue(init), 10, DigitValue(last));
      assert DigitChar(DigitValue(last)) == last;
      assert s == init + [last];
    }
  }

  /** The value of a two-digit numeral, digit by digit. */
  lemma TwoDigitsValue(s: string)
    requires |s| == 2 && AllDigits(s)
    ensures DigitsValue(s) == 10 * DigitValue(s[0]) + DigitValue(s[1])
  {
    var high := s[..1];
    assert high[..0] == [] && high[0] == s[0];
    assert DigitsValue(high) == DigitsValue(high[..0]) * 10 + DigitValue(high[0]);
    assert s[..|s| - 1] == high;
  }

  /** The value of a four-digit numeral, digit by digit. */
  lemma FourDigitsValue(s: string)
    requires |s| == 4 && AllDigits(s)
    ensures DigitsValue(s) == 1000 * DigitValue(s[0]) + 100 * DigitValue(s[1]) + 10 * DigitValue(s[2]) + DigitValue(s[3])
  {
    assert s[..3][..2] == s[..2];
    TwoDigitsValue(s[..2]);
  }

  /** Numbers 10..99 have two decimal digits, 1000..9999 four. */
  lemma DecimalLength(n: nat)
    ensures 10 <= n < 100 ==> |DecimalString(n)| == 2
    ensures 1000 <= n < 10000 ==> |DecimalString(n)| == 4
  {
    if 1000 <= n < 10000 {
      assert |DecimalString(n / 10)| == 3 by {
        assert |DecimalString(n / 100)| == 2;
      }
    }
  }

  /** `s.replace(c, '')`: `s` with every occurrence of `c` removed. */
  function RemoveAll(s: string, c: char): (r: string)
    ensures c !in r
    ensures |r| <= |s|
  {
    if s == [] then []
    else
      assert s == [s[0]] + s[1..];
      (if s[0] == c then [] else [s[0]]) + RemoveAll(s[1..], c)
  }

  /** Every character other than `c` is kept as often as it occurs. */
  lemma {:induction false} RemoveAllCounts(s: string, c: char)
    ensures forall x :: x != c ==> multiset(RemoveAll(s, c))[x] == multiset(s)[x]
  {
    if s != [] {
      RemoveAllCounts(s[1..], c);
      assert s == [s[0]] + s[1..];
    }
  }

  /** Removal adds no character. */
  lemma {:induction false} RemoveAllKeepsAbsent(s: string, c: char, x: char)
    requires x !in s
    ensures x !in RemoveAll(s, c)
  {
    if s != [] {
      RemoveAllKeepsAbsent(s[1..], c, x);
    }
  }

  /** Removal works piecewise, so the characters that stay keep their order. */
  lemma {:induction false} RemoveAllConcat(a: string, b: string, c: char)
    ensures RemoveAll(a + b, c) == RemoveAll(a, c) + RemoveAll(b, c)
  {
    if a != [] {
      assert (a + b)[1..] == a[1..] + b;
      RemoveAllConcat(a[1..], b, c);
    } else {
      assert a + b == b;
    }
  }

  /** A string without `c` is left as it is. */
  lemma {:induction false} RemoveAllAbsent(s: string, c: char)
    requires c !in s
    ensures RemoveAll(s, c) == s
  {
    if s != [] {
      RemoveAllAbsent(s[1..], c);
    }
  }

  /** A leading `c` is removed like any other. */
  lemma RemoveLeading(c: char, x: string)
    ensures RemoveAll([c] + x, c) == RemoveAll(x, c)
  {
    assert ([c] + x)[1..] == x;
  }

  /** Removing `c` from `y`, a `c` and `x`, where `y` has no `c`, leaves `y` followed by `x`
      without its `c`s. */
  lemma RemoveAfterSeparator(y: string, x: string, c: char)
    requires c !in y
    ensures RemoveAll(y + ([c] + x), c) == y + RemoveAll(x, c)
  {
    RemoveAllAbsent(y, c);
    RemoveAllConcat(y, [c] + x, c);
    RemoveLeading(c, x);
  }

  lemma JoinAssoc(y: string, m: string, d: string, c: char)
    ensures y + [c] + m + [c] + d == y + ([c] + (m + ([c] + d)))
  {
  }

  /** Removing the two separators from `y`, `c`, `m`, `c`, `d` leaves `y`, `m` and `d` side by side. */
  lemma RemoveSeparators(y: string, m: string, d: string, c: char)
    requires c !in y && c !in m && c !in d
    ensures RemoveAll(y + [c] + m + [c] + d, c) == y + m + d
  {
    RemoveAllAbsent(d, c);
    RemoveAfterSeparator(m, d, c);
    RemoveAfterSeparator(y, m + ([c] + d), c);
    JoinAssoc(y, m, d, c);
  }

  /** `sep` occurs in `s` starting at position `i`. */
  predicate OccursAt(s: string, sep: string, i: int) {
    0 <= i && i + |sep| <= |s| && s[i..i + |sep|] == sep
  }

  /** `s.split(sep)[0]`: the text before the first occurrence of `sep`, or all of `s` when
      `sep` does not occur. */
  function SplitHead(s: string, sep: string): (r: string)
    requires sep != []
    ensures r <= s
    ensures forall i :: 0 <= i < |r| ==> !OccursAt(s, sep, i)
    ensures r == s || OccursAt(s, sep, |r|)
    decreases |s|
  {
    if |s| < |sep| then s
    else if s[..|sep|] == sep then []
    else
      var rest := SplitHead(s[1..], sep);
      var r := [s[0]] + rest;
      forall i | 1 <= i < |r| ensures !OccursAt(s, sep, i) {
        OccursShift(s, sep, i);
      }
      assert r == s || OccursAt(s, sep, |r|) by {
        if rest == s[1..] {
          assert s == [s[0]] + s[1..];
        } else {
          OccursShift(s, sep, |r|);
        }
      }
      r
  }

  /** Dropping the first character moves every later occurrence one place to the left. */
  lemma OccursShift(s: string, sep: string, i: int)
    requires 1 <= i && |s| >= 1
    ensures OccursAt(s, sep, i) <==> OccursAt(s[1..], sep, i - 1)
  {
    if i + |sep| <= |s| {
      assert s[1..][i - 1..i - 1 + |sep|] == s[i..i + |sep|];
    }
  }

  /** `c` at position `i` of `s` is an occurrence of the one-character string `[c]`. */
  lemma OccursAtChar(s: string, c: char, i: int)
    requires 0 <= i < |s|
    ensures OccursAt(s, [c], i) <==> s[i] == c
  {
    if s[i] == c {
      assert s[i..i + 1] == [c];
    }
  }

  /** An occurrence inside a prefix is an occurrence in the whole string, and back. */
  lemma OccursInPrefix(t: string, s: string, sep: string, i: int)
    requires t <= s && 0 <= i && i + |sep| <= |t|
    ensures OccursAt(t, sep, i) <==> OccursAt(s, sep, i)
  {
    assert t[i..i + |sep|] == s[i..i + |sep|];
  }

  /** The contract of `SplitHead` pins it down: when `sep` occurs first at `k`, the head is the
      `k` characters before it, and when `sep` does not occur, the head is all of `s`. */
  lemma SplitHeadFirst(s: string, sep: string, k: int)
    requires sep != []
    requires forall i :: 0 <= i < k ==> !OccursAt(s, sep, i)
    requires OccursAt(s, sep, k) || k == |s|
    ensures 0 <= k <= |s| && SplitHead(s, sep) == s[..k]
  {
  }

  /** Python's reading of a slice bound `i` for a string of length `n`. */
  function SliceBound(i: int, n: nat): (b: nat)
    ensures b <= n
  {
    if i < 0 then (if i + n < 0 then 0 else i + n)
    else if i > n then n
    else i
  }

  /** `s[lo:hi]` with Python's rules: negative bounds count from the end, bounds out of range
      are clamped, and a slice whose start is not before its end is empty. */
  function Slice(s: string, lo: int, hi: int): (r: string)
    ensures |r| <= |s|
  {
    var a, b := SliceBound(lo, |s|), SliceBound(hi, |s|);
    if a < b then s[a..b] else []
  }
}
