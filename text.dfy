/**
 * String helpers shared by the server and the clients: decimal rendering of
 * numbers (what a JavaScript template string does with an integer),
 * `String.prototype.split` on a one-character separator, `Array.prototype.join`,
 * and `split(sep).pop()`.
 */
module Text {
  import opened Wrappers

  predicate IsDigit(c: char) { '0' <= c <= '9' }

  predicate AllDigits(s: string) { forall i :: 0 <= i < |s| ==> IsDigit(s[i]) }

  function DigitChar(d: nat): (c: char)
    requires d < 10
    ensures IsDigit(c) && c as int - '0' as int == d
  {
    ('0' as int + d) as char
  }

  /** Value of a digit string, most significant digit first; "" is 0. */
  function DigitsValue(s: string): nat
    requires AllDigits(s)
  {
    if |s| == 0 then 0
    else DigitsValue(s[..|s| - 1]) * 10 + (s[|s| - 1] as int - '0' as int)
  }

  /** Decimal rendering of a natural number, as `${n}` prints it. */
  function NatToString(n: nat): (s: string)
    ensures |s| >= 1 && AllDigits(s)
    ensures s[0] == '0' <==> n == 0
  {
    if n < 10 then [DigitChar(n)] else NatToString(n / 10) + [DigitChar(n % 10)]
  }

  /**
   * Decimal rendering of an integer, as `${i}` prints it: a '-' exactly when
   * the integer is negative, then the digits of its magnitude without
   * leading zeros.
   */
  function IntToString(i: int): (s: string)
    ensures |s| >= 1
    ensures s[0] == '-' <==> i < 0
    ensures var d := if i < 0 then s[1..] else s;
            && |d| >= 1 && AllDigits(d) && (d[0] == '0' ==> |d| == 1)
            && DigitsValue(d) == (if i < 0 then -i else i)
  {
    if i < 0 then
      DigitsValueOfNatToString(-i);
      assert ("-" + NatToString(-i))[1..] == NatToString(-i);
      "-" + NatToString(-i)
    else
      DigitsValueOfNatToString(i);
      NatToString(i)
  }

  /** Reads a non-empty digit string (leading zeros allowed). */
  function ParseNat(s: string): Option<nat>
  {
    if |s| > 0 && AllDigits(s) then Some(DigitsValue(s)) else None
  }

  lemma {:induction false} DigitsValueOfNatToString(n: nat)
    ensures DigitsValue(NatToString(n)) == n
  {
    if n >= 10 {
      var s := NatToString(n);
      assert s[..|s| - 1] == NatToString(n / 10);
      DigitsValueOfNatToString(n / 10);
    }
  }

  /** Reading back a rendered number gives the number. */
  lemma NatToStringRoundTrip(n: nat)
    ensures ParseNat(NatToString(n)) == Some(n)
  {
    DigitsValueOfNatToString(n);
  }

  /** Number of occurrences of `c` in `s`. */
  function Count(s: string, c: char): nat
  {
    if |s| == 0 then 0 else (if s[0] == c then 1 else 0) + Count(s[1..], c)
  }

  /**
   * `s.split(sep)` for a one-character separator: the maximal runs between
   * separators, including empty ones at either end.
   */
  function Split(s: string, sep: char): (parts: seq<string>)
    ensures |parts| >= 1
    ensures forall i :: 0 <= i < |parts| ==> sep !in parts[i]
    ensures |parts| == 1 <==> sep !in s
    ensures |parts| == 1 ==> parts[0] == s
  {
    if |s| == 0 then [""]
    else if s[0] == sep then [""] + Split(s[1..], sep)
    else
      var rest := Split(s[1..], sep);
      [[s[0]] + rest[0]] + rest[1..]
  }

  /** `parts.join(sep)` for a one-character separator. */
  function Join(parts: seq<string>, sep: char): string
  {
    if |parts| == 0 then ""
    else if |parts| == 1 then parts[0]
    else parts[0] + [sep] + Join(parts[1..], sep)
  }

  /** `s.split(sep).pop()`: the last element of the split. */
  function LastSegment(s: string, sep: char): (r: string)
    ensures sep !in r
    ensures sep !in s ==> r == s
  {
    var parts := Split(s, sep);
    parts[|parts| - 1]
  }

  /**
   * Reference definition of the last segment: a suffix of `s` free of `sep`
   * that is either all of `s` or directly preceded by `sep`.
   */
  predicate IsLastSegment(s: string, sep: char, r: string)
  {
    && |r| <= |s|
    && r == s[|s| - |r|..]
    && sep !in r
    && (|r| == |s| || s[|s| - |r| - 1] == sep)
  }

  lemma {:induction false} SplitCount(s: string, sep: char)
    ensures |Split(s, sep)| == Count(s, sep) + 1
  {
    if |s| > 0 {
      SplitCount(s[1..], sep);
    }
  }

  /** Splitting at a separator splits each side on its own. */
  lemma {:induction false} SplitConcat(a: string, b: string, sep: char)
    ensures Split(a + [sep] + b, sep) == Split(a, sep) + Split(b, sep)
  {
    var s := a + [sep] + b;
    if |a| == 0 {
      assert s[1..] == b;
    } else {
      assert s[1..] == a[1..] + [sep] + b;
      SplitConcat(a[1..], b, sep);
    }
  }

  /** Splitting a join gives back the parts when no part holds the separator. */
  lemma {:induction false} SplitJoin(parts: seq<string>, sep: char)
    requires |parts| >= 1
    requires forall i :: 0 <= i < |parts| ==> sep !in parts[i]
    ensures Split(Join(parts, sep), sep) == parts
  {
    if |parts| > 1 {
      SplitJoin(parts[1..], sep);
      SplitConcat(parts[0], Join(parts[1..], sep), sep);
    }
  }

  /** A join starts with its first part and ends with its last. */
  lemma {:induction false} JoinEnds(parts: seq<string>, sep: char)
    requires |parts| > 0
    ensures var j := Join(parts, sep);
            && |j| >= |parts[0]| && j[..|parts[0]|] == parts[0]
            && |j| >= |parts[|parts| - 1]| && j[|j| - |parts[|parts| - 1]|..] == parts[|parts| - 1]
  {
    if |parts| > 1 {
      JoinEnds(parts[1..], sep);
      var j := Join(parts, sep);
      var rest := Join(parts[1..], sep);
      assert j == parts[0] + [sep] + rest;
      assert j[..|parts[0]|] == parts[0];
      assert j[|j| - |rest|..] == rest;
    }
  }

  /** Joining a split gives back the string. */
  lemma {:induction false} JoinSplit(s: string, sep: char)
    ensures Join(Split(s, sep), sep) == s
  {
    if |s| > 0 {
      JoinSplit(s[1..], sep);
      var rest := Split(s[1..], sep);
      if s[0] == sep {
        assert [""] + rest == Split(s, sep);
        assert ([""] + rest)[1..] == rest;
      } else {
        var parts := Split(s, sep);
        if |rest| > 1 {
          assert parts[1..] == rest[1..];
        }
      }
    }
  }

  lemma {:induction false} LastSegmentOfSplit(s: string, sep: char)
    ensures IsLastSegment(s, sep, LastSegment(s, sep))
  {
    if |s| > 0 {
      LastSegmentOfSplit(s[1..], sep);
      var rest := Split(s[1..], sep);
      var r := LastSegment(s, sep);
      if s[0] == sep || |rest| > 1 {
        assert r == LastSegment(s[1..], sep);
        assert s[1..][|s| - 1 - |r|..] == s[|s| - |r|..];
        if |r| < |s| - 1 {
          assert s[1..][|s| - 1 - |r| - 1] == s[|s| - |r| - 1];
        }
      } else {
        assert r == [s[0]] + s[1..] == s;
      }
    }
  }

  /** A longer suffix contains the character just before a shorter one. */
  lemma LongerSuffixCovers(s: string, r: string, t: string)
    requires |r| < |t| <= |s|
    requires r == s[|s| - |r|..] && t == s[|s| - |t|..]
    ensures t[|t| - |r| - 1] == s[|s| - |r| - 1]
  {
  }

  /** Only one string satisfies the reference definition. */
  lemma LastSegmentUnique(s: string, sep: char, r1: string, r2: string)
    requires IsLastSegment(s, sep, r1) && IsLastSegment(s, sep, r2)
    ensures r1 == r2
  {
    if |r1| < |r2| {
      LongerSuffixCovers(s, r1, r2);
    } else if |r2| < |r1| {
      LongerSuffixCovers(s, r2, r1);
    }
  }

  /** `split(sep).pop()` is exactly the reference last segment. */
  lemma LastSegmentSpec(s: string, sep: char, r: string)
    ensures r == LastSegment(s, sep) <==> IsLastSegment(s, sep, r)
  {
    LastSegmentOfSplit(s, sep);
    if IsLastSegment(s, sep, r) {
      LastSegmentUnique(s, sep, r, LastSegment(s, sep));
    }
  }

  /** The middle of `s` when it starts with `prefix` and ends with `suffix`. */
  function Between(s: string, prefix: string, suffix: string): Option<string>
  {
    if |prefix| + |suffix| <= |s| && s[..|prefix|] == prefix && s[|s| - |suffix|..] == suffix
    then Some(s[|prefix|..|s| - |suffix|])
    else None
  }

  lemma BetweenOfConcat(prefix: string, middle: string, suffix: string)
    ensures Between(prefix + middle + suffix, prefix, suffix) == Some(middle)
  {
    var s := prefix + middle + suffix;
    assert s[..|prefix|] == prefix;
    assert s[|s| - |suffix|..] == suffix;
    assert s[|prefix|..|s| - |suffix|] == middle;
  }

  /** The number written between `prefix` and `suffix` in `s`, if any. */
  function NumberBetween(s: string, prefix: string, suffix: string): Option<nat>
  {
    match Between(s, prefix, suffix)
    case None => None
    case Some(m) => ParseNat(m)
  }

  /** A number rendered between a prefix and a suffix is read back unchanged. */
  lemma NumberBetweenRoundTrip(prefix: string, n: nat, suffix: string)
    ensures NumberBetween(prefix + NatToString(n) + suffix, prefix, suffix) == Some(n)
  {
    BetweenOfConcat(prefix, NatToString(n), suffix);
    NatToStringRoundTrip(n);
  }
}
