/**
 * Port numbers and the textual port range `<start>-<end>`: the port bounds,
 * `validatePort`, the range regular expression `^[0-9]{1,5}-[0-9]{1,5}$`,
 * `String.prototype.split`, `Number` on digit strings (and back), and
 * `portsToRange`.
 */
module Ports {

  const MIN_PORT: int := 0
  const MAX_PORT: int := 65535

  /** `validatePort`: the number lies within [MIN_PORT, MAX_PORT]. */
  predicate ValidatePort(p: int)
    ensures ValidatePort(p) <==> 0 <= p < 0x1_0000
  {
    MIN_PORT <= p <= MAX_PORT
  }

  predicate IsDigit(c: char)
  {
    '0' <= c <= '9'
  }

  predicate AllDigits(s: string)
  {
    forall i :: 0 <= i < |s| ==> IsDigit(s[i])
  }

  /** The regular-expression atom `[0-9]{1,5}`. */
  predicate DigitGroup(g: string)
  {
    1 <= |g| <= 5 && AllDigits(g)
  }

  /**
   * The anchored regular expression `^[0-9]{1,5}-[0-9]{1,5}$`: the whole
   * string is a digit group, a dash and a digit group.
   */
  predicate MatchesRange(s: string)
    ensures MatchesRange(s) ==> 3 <= |s| <= 11 && '-' in s
  {
    exists k | 0 <= k < |s| :: s[k] == '-' && DigitGroup(s[..k]) && DigitGroup(s[k + 1..])
  }

  /** Characters `portsToRange` converts without producing `NaN`. */
  predicate RangeAlphabet(s: string)
  {
    forall i :: 0 <= i < |s| ==> IsDigit(s[i]) || s[i] == '-'
  }

  function DigitValue(c: char): (d: nat)
    requires IsDigit(c)
    ensures d < 10
  {
    c as int - '0' as int
  }

  function DigitChar(d: nat): (c: char)
    requires d < 10
    ensures IsDigit(c) && DigitValue(c) == d
  {
    ('0' as int + d) as char
  }

  /** `Number(g)` for a string of decimal digits; `Number("")` is 0. */
  function Value(g: string): (r: nat)
    requires AllDigits(g)
    ensures r < Pow10(|g|)
    decreases |g|
  {
    if g == [] then 0 else 10 * Value(g[..|g| - 1]) + DigitValue(g[|g| - 1])
  }

  function Pow10(n: nat): (r: nat)
    ensures r >= 1
  {
    if n == 0 then 1 else 10 * Pow10(n - 1)
  }

  /** The decimal text of a non-negative integer, as JavaScript renders a `Number`. */
  function Decimal(n: nat): (r: string)
    ensures 1 <= |r| && AllDigits(r)
    ensures Value(r) == n
    decreases n
  {
    if n < 10 then
      ValueSnoc([], DigitChar(n));
      [] + [DigitChar(n)]
    else
      var prefix := Decimal(n / 10);
      ValueSnoc(prefix, DigitChar(n % 10));
      prefix + [DigitChar(n % 10)]
  }

  /** `s.split(sep)`: the pieces between the separators, at least one. */
  function Split(s: string, sep: char): (parts: seq<string>)
    ensures |parts| >= 1
    decreases |s|
  {
    if s == [] then [[]]
    else
      var rest := Split(s[1..], sep);
      if s[0] == sep then [[]] + rest else [[s[0]] + rest[0]] + rest[1..]
  }

  /**
   * `parts.join(sep)`: the pieces in order with `sep` between each two, so
   * two or more pieces put the separator in. `JoinSplit` and `SplitJoin`
   * make it the inverse of `Split`.
   */
  function Join(parts: seq<string>, sep: char): (s: string)
    ensures |parts| >= 2 ==> sep in s
    decreases |parts|
  {
    if |parts| == 0 then []
    else if |parts| == 1 then parts[0]
    else
      assert (parts[0] + [sep] + Join(parts[1..], sep))[|parts[0]|] == sep;
      parts[0] + [sep] + Join(parts[1..], sep)
  }

  /** `portsToRange`: split on `-` and convert every piece with `Number`. */
  function PortsToRange(s: string): (bounds: seq<nat>)
    requires RangeAlphabet(s)
    ensures |bounds| == |Split(s, '-')|
  {
    var parts := Split(s, '-');
    SplitDigitPieces(s);
    seq(|parts|, i requires 0 <= i < |parts| => Value(parts[i]))
  }

  // ---------------------------------------------------------------------
  // Number and its decimal rendering

  lemma {:induction false} Pow10Monotone(m: nat, n: nat)
    requires m <= n
    ensures Pow10(m) <= Pow10(n)
    decreases n
  {
    if m < n {
      Pow10Monotone(m, n - 1);
    }
  }

  /** A `[0-9]{1,5}` group denotes at most 99999: it can exceed MAX_PORT. */
  lemma DigitGroupBound(g: string)
    requires DigitGroup(g)
    ensures Value(g) <= 99999
  {
    Pow10Monotone(|g|, 5);
    assert Pow10(5) == 100000 by {
      assert Pow10(1) == 10;
      assert Pow10(3) == 1000;
    }
  }

  /** Appending one digit multiplies by ten and adds the digit. */
  lemma ValueSnoc(g: string, c: char)
    requires AllDigits(g) && IsDigit(c)
    ensures AllDigits(g + [c]) && Value(g + [c]) == 10 * Value(g) + DigitValue(c)
  {
    assert (g + [c])[..|g + [c]| - 1] == g;
  }

  /** A number below 10^k has at most k decimal digits. */
  lemma {:induction false} DecimalLength(n: nat, k: nat)
    requires 1 <= k && n < Pow10(k)
    ensures |Decimal(n)| <= k
    decreases n
  {
    if n >= 10 {
      DecimalLength(n / 10, k - 1);
    }
  }

  /** Every number up to 99999 has decimal text that is a `[0-9]{1,5}` group of the same value. */
  lemma DecimalIsGroup(n: nat)
    requires n <= 99999
    ensures DigitGroup(Decimal(n)) && Value(Decimal(n)) == n
    ensures '-' !in Decimal(n)
  {
    assert Pow10(5) == 100000 by {
      assert Pow10(1) == 10;
      assert Pow10(3) == 1000;
    }
    DecimalLength(n, 5);
    NoDashInDigits(Decimal(n));
  }

  // ---------------------------------------------------------------------
  // Split and Join

  /** Splitting a piece free of separators in front of `t` glues it onto `t`'s first piece. */
  lemma {:induction false} SplitPrefix(a: string, t: string, sep: char)
    requires sep !in a
    ensures Split(a + t, sep) == [a + Split(t, sep)[0]] + Split(t, sep)[1..]
    decreases |a|
  {
    if a == [] {
      var ts := Split(t, sep);
      assert a + t == t && a + ts[0] == ts[0];
      assert [ts[0]] + ts[1..] == ts;
    } else {
      var at := a + t;
      assert at[0] == a[0] && at[0] != sep;
      assert at[1..] == a[1..] + t;
      SplitPrefix(a[1..], t, sep);
      var rest := Split(at[1..], sep);
      assert rest == [a[1..] + Split(t, sep)[0]] + Split(t, sep)[1..];
      assert Split(at, sep) == [[at[0]] + rest[0]] + rest[1..];
      assert [a[0]] + (a[1..] + Split(t, sep)[0]) == a + Split(t, sep)[0];
    }
  }

  lemma SplitAtSeparator(a: string, b: string, sep: char)
    requires sep !in a
    ensures Split(a + [sep] + b, sep) == [a] + Split(b, sep)
  {
    var t := [sep] + b;
    assert a + [sep] + b == a + t;
    SplitPrefix(a, t, sep);
    assert t[0] == sep && t[1..] == b;
    assert Split(t, sep) == [[]] + Split(b, sep);
    assert a + [] == a;
  }

  lemma SplitWithoutSeparator(a: string, sep: char)
    requires sep !in a
    ensures Split(a, sep) == [a]
  {
    assert a + [] == a;
    SplitPrefix(a, [], sep);
  }

  /** Joining the pieces of a split with the same separator restores the string. */
  lemma {:induction false} JoinSplit(s: string, sep: char)
    ensures Join(Split(s, sep), sep) == s
    decreases |s|
  {
    if s != [] {
      var rest := Split(s[1..], sep);
      JoinSplit(s[1..], sep);
      if s[0] == sep {
        assert Split(s, sep) == [[]] + rest;
        assert ([[]] + rest)[1..] == rest;
        assert s == [sep] + s[1..];
      } else {
        var parts := [[s[0]] + rest[0]] + rest[1..];
        assert Split(s, sep) == parts;
        if |rest| == 1 {
          assert s == [s[0]] + s[1..];
        } else {
          assert parts[1..] == rest[1..];
          assert Join(rest, sep) == rest[0] + [sep] + Join(rest[1..], sep);
          assert s == [s[0]] + s[1..];
        }
      }
    }
  }

  /** Splitting a join of separator-free pieces gives the pieces back. */
  lemma {:induction false} SplitJoin(parts: seq<string>, sep: char)
    requires |parts| >= 1
    requires forall i :: 0 <= i < |parts| ==> sep !in parts[i]
    ensures Split(Join(parts, sep), sep) == parts
    decreases |parts|
  {
    if |parts| == 1 {
      SplitWithoutSeparator(parts[0], sep);
    } else {
      SplitJoin(parts[1..], sep);
      SplitAtSeparator(parts[0], Join(parts[1..], sep), sep);
      assert [parts[0]] + parts[1..] == parts;
    }
  }

  /** The pieces of a string over digits and `-`, split on `-`, are digit strings. */
  lemma {:induction false} SplitDigitPieces(s: string)
    requires RangeAlphabet(s)
    ensures forall i :: 0 <= i < |Split(s, '-')| ==> AllDigits(Split(s, '-')[i])
    decreases |s|
  {
    if s != [] {
      SplitDigitPieces(s[1..]);
    }
  }

  // ---------------------------------------------------------------------
  // The range regular expression and portsToRange

  /** A string matching the range expression uses only digits and `-`. */
  lemma MatchedAlphabet(s: string)
    requires MatchesRange(s)
    ensures RangeAlphabet(s)
  {
    var k :| 0 <= k < |s| && s[k] == '-' && DigitGroup(s[..k]) && DigitGroup(s[k + 1..]);
    forall i | 0 <= i < |s| ensures IsDigit(s[i]) || s[i] == '-' {
      if i < k {
        assert s[i] == s[..k][i];
      } else if i > k {
        assert s[i] == s[k + 1..][i - k - 1];
      }
    }
  }

  /**
   * For a string that matches at the dash `k`, splitting on `-` yields the
   * two digit groups and `portsToRange` their decimal values, in order.
   */
  lemma PortsToRangeOfMatch(s: string, k: nat)
    requires k < |s| && s[k] == '-' && DigitGroup(s[..k]) && DigitGroup(s[k + 1..])
    ensures Split(s, '-') == [s[..k], s[k + 1..]]
    ensures RangeAlphabet(s)
    ensures PortsToRange(s) == [Value(s[..k]), Value(s[k + 1..])]
  {
    var a, b := s[..k], s[k + 1..];
    NoDashInDigits(a);
    NoDashInDigits(b);
    assert s == a + ['-'] + b;
    SplitAtSeparator(a, b, '-');
    SplitWithoutSeparator(b, '-');
    MatchedAlphabet(s);
  }

  lemma NoDashInDigits(g: string)
    requires AllDigits(g)
    ensures '-' !in g
  {
  }

  /**
   * The range expression matches exactly the strings that split on `-` into
   * two `[0-9]{1,5}` groups.
   */
  lemma MatchesRangeIffTwoGroups(s: string)
    ensures MatchesRange(s) <==>
      |Split(s, '-')| == 2 && DigitGroup(Split(s, '-')[0]) && DigitGroup(Split(s, '-')[1])
  {
    var parts := Split(s, '-');
    if MatchesRange(s) {
      var k :| 0 <= k < |s| && s[k] == '-' && DigitGroup(s[..k]) && DigitGroup(s[k + 1..]);
      PortsToRangeOfMatch(s, k);
    }
    if |parts| == 2 && DigitGroup(parts[0]) && DigitGroup(parts[1]) {
      JoinSplit(s, '-');
      var k := |parts[0]|;
      assert s == parts[0] + ['-'] + parts[1];
      assert s[..k] == parts[0];
      assert s[k + 1..] == parts[1];
      assert s[k] == '-';
    }
  }

  /**
   * Every pair of numbers up to 99999, written `<lo>-<hi>` in decimal,
   * matches the range expression, and `portsToRange` reads the pair back.
   */
  lemma FormattedRangeMatches(lo: nat, hi: nat)
    requires lo <= 99999 && hi <= 99999
    ensures MatchesRange(Decimal(lo) + "-" + Decimal(hi))
    ensures RangeAlphabet(Decimal(lo) + "-" + Decimal(hi))
    ensures PortsToRange(Decimal(lo) + "-" + Decimal(hi)) == [lo, hi]
  {
    DecimalIsGroup(lo);
    DecimalIsGroup(hi);
    GroupsMatch(Decimal(lo), Decimal(hi));
  }

  /**
   * The decimal text has no leading zero unless it is `0` itself: it is the
   * text JavaScript writes for a number, not a zero-padded form.
   */
  lemma {:induction false} DecimalCanonical(n: nat)
    ensures |Decimal(n)| == 1 || Decimal(n)[0] != '0'
    decreases n
  {
    if n >= 10 {
      DecimalCanonical(n / 10);
    }
  }

  /** Two digit groups joined by a dash match, and read back as their values. */
  lemma GroupsMatch(a: string, b: string)
    requires DigitGroup(a) && DigitGroup(b)
    ensures MatchesRange(a + "-" + b)
    ensures RangeAlphabet(a + "-" + b)
    ensures PortsToRange(a + "-" + b) == [Value(a), Value(b)]
  {
    var s := a + "-" + b;
    var k := |a|;
    assert s[..k] == a && s[k + 1..] == b && s[k] == '-';
    PortsToRangeOfMatch(s, k);
  }
}
