/**
 * String helpers shared by the model: prefix tests, the lexicographic order of
 * std::string (used by std::list::sort and std::map), the sort-then-unique
 * idiom, and the decimal and hexadecimal text of numbers.
 */
module Strings {

  /** `s.rfind(p, 0) == 0`, the C++ idiom for "s starts with p". */
  predicate StartsWith(s: string, p: string)
  {
    |p| <= |s| && s[..|p|] == p
  }

  /** True when `p` occurs in `s` at index `k`. */
  predicate OccursAt(s: string, p: string, k: nat)
  {
    k + |p| <= |s| && s[k..k + |p|] == p
  }

  /**
   * `s.rfind(p) == 0` (no start position): the LAST occurrence of `p` in `s`
   * is at index 0, i.e. `s` starts with `p` and `p` occurs nowhere later.
   */
  predicate LastOccurrenceAtStart(s: string, p: string)
  {
    OccursAt(s, p, 0) && forall k :: 0 < k <= |s| ==> !OccursAt(s, p, k)
  }

  /** Index of the last occurrence of `p` in `s`, if any (std::string::rfind). */
  function RFind(s: string, p: string): (r: int)
    ensures -1 <= r <= |s|
    ensures r >= 0 ==> OccursAt(s, p, r) && forall k :: r < k <= |s| ==> !OccursAt(s, p, k)
    ensures r == -1 ==> forall k :: 0 <= k <= |s| ==> !OccursAt(s, p, k)
  {
    RFindFrom(s, p, |s|)
  }

  function RFindFrom(s: string, p: string, k: nat): (r: int)
    requires k <= |s|
    ensures -1 <= r <= k
    ensures r >= 0 ==> OccursAt(s, p, r) && forall j :: r < j <= k ==> !OccursAt(s, p, j)
    ensures r == -1 ==> forall j :: 0 <= j <= k ==> !OccursAt(s, p, j)
  {
    if OccursAt(s, p, k) then k
    else if k == 0 then -1
    else RFindFrom(s, p, k - 1)
  }

  /** True when `c` occurs anywhere in `s`. */
  predicate HasChar(s: string, c: char)
  {
    exists i :: 0 <= i < |s| && s[i] == c
  }

  /**
   * `a < b` for std::string: lexicographic by character, a proper prefix
   * being smaller.
   */
  predicate Less(a: string, b: string)
    decreases |a|
  {
    if |b| == 0 then false
    else if |a| == 0 then true
    else if a[0] != b[0] then a[0] < b[0]
    else Less(a[1..], b[1..])
  }

  lemma {:induction false} LessIrreflexive(a: string)
    ensures !Less(a, a)
    decreases |a|
  {
    if |a| > 0 {
      LessIrreflexive(a[1..]);
    }
  }

  lemma {:induction false} LessTransitive(a: string, b: string, c: string)
    requires Less(a, b) && Less(b, c)
    ensures Less(a, c)
    decreases |a|
  {
    if |a| > 0 && a[0] == b[0] && b[0] == c[0] {
      LessTransitive(a[1..], b[1..], c[1..]);
    }
  }

  lemma {:induction false} LessTotal(a: string, b: string)
    requires a != b
    ensures Less(a, b) || Less(b, a)
    decreases |a|
  {
    if |a| > 0 && |b| > 0 && a[0] == b[0] {
      assert a == [a[0]] + a[1..] && b == [b[0]] + b[1..];
      LessTotal(a[1..], b[1..]);
    }
  }

  lemma LessAsymmetric(a: string, b: string)
    ensures Less(a, b) ==> !Less(b, a)
  {
    if Less(a, b) && Less(b, a) {
      LessTransitive(a, b, a);
      LessIrreflexive(a);
    }
  }

  /** Sorted without duplicates: what `list.sort(); list.unique();` leaves. */
  ghost predicate StrictlySorted(s: seq<string>)
  {
    forall i, j :: 0 <= i < j < |s| ==> Less(s[i], s[j])
  }

  /** Inserts `x` into a strictly sorted list unless it is already there. */
  function InsertSorted(x: string, s: seq<string>): (r: seq<string>)
    requires StrictlySorted(s)
    ensures StrictlySorted(r)
    ensures forall y :: y in r <==> y == x || y in s
  {
    if s == [] then [x]
    else if x == s[0] then s
    else if Less(x, s[0]) then
      assert forall j :: 0 < j < |s| ==> Less(s[0], s[j]);
      forall j | 0 <= j < |s| ensures Less(x, s[j]) {
        if j > 0 { LessTransitive(x, s[0], s[j]); }
      }
      [x] + s
    else
      LessTotal(x, s[0]);
      var rest := InsertSorted(x, s[1..]);
      assert forall y :: y in rest ==> Less(s[0], y);
      [s[0]] + rest
  }

  /** The result of `sort()` followed by `unique()` on a list of strings. */
  function SortUnique(s: seq<string>): (r: seq<string>)
    ensures StrictlySorted(r)
    ensures forall y :: y in r <==> y in s
    ensures |r| <= |s|
  {
    if s == [] then []
    else
      var r := InsertSorted(s[|s| - 1], SortUnique(s[..|s| - 1]));
      assert forall y :: y in s <==> y == s[|s| - 1] || y in s[..|s| - 1];
      StrictlyShorter(r, s);
      r
  }

  /** A duplicate-free list has no more elements than any list holding all of them. */
  lemma StrictlyShorter(r: seq<string>, s: seq<string>)
    requires StrictlySorted(r)
    requires forall y :: y in r ==> y in s
    ensures |r| <= |s|
  {
    var rs := set y | y in r;
    var ss := set y | y in s;
    assert rs <= ss;
    DistinctCard(r);
    SeqSetCard(s);
    assert |rs| <= |ss| by { SubsetCard(rs, ss); }
  }

  lemma SubsetCard(a: set<string>, b: set<string>)
    requires a <= b
    ensures |a| <= |b|
  {
    assert b == a + (b - a);
  }

  lemma {:induction false} DistinctCard(r: seq<string>)
    requires StrictlySorted(r)
    ensures |set y | y in r| == |r|
  {
    if r != [] {
      var t := r[1..];
      assert StrictlySorted(t);
      DistinctCard(t);
      assert r[0] !in t by {
        forall j | 0 <= j < |t| ensures t[j] != r[0] {
          assert Less(r[0], t[j]);
          LessIrreflexive(r[0]);
        }
      }
      assert (set y | y in r) == {r[0]} + (set y | y in t);
    }
  }

  lemma {:induction false} SeqSetCard(s: seq<string>)
    ensures |set y | y in s| <= |s|
  {
    if s != [] {
      SeqSetCard(s[1..]);
      assert (set y | y in s) == {s[0]} + (set y | y in s[1..]);
    }
  }

  /** The first element of a strictly sorted list is below every other element. */
  lemma HeadIsLeast(s: seq<string>, y: string)
    requires StrictlySorted(s) && y in s
    ensures y == s[0] || Less(s[0], y)
  {
    var j :| 0 <= j < |s| && s[j] == y;
    if j > 0 {
      assert Less(s[0], s[j]);
    }
  }

  /**
   * Two strictly sorted lists with the same elements are equal: the result
   * of sort-then-unique depends only on the set of names.
   */
  lemma {:induction false} StrictlySortedUnique(a: seq<string>, b: seq<string>)
    requires StrictlySorted(a) && StrictlySorted(b)
    requires forall y :: y in a <==> y in b
    ensures a == b
  {
    assert a != [] ==> a[0] in a;
    assert b != [] ==> b[0] in b;
    if a != [] && b != [] {
      HeadIsLeast(a, b[0]);
      HeadIsLeast(b, a[0]);
      LessAsymmetric(a[0], b[0]);
      assert a[0] == b[0];
      forall y ensures y in a[1..] <==> y in b[1..] {
        if y in a[1..] {
          var i :| 0 <= i < |a| - 1 && a[1..][i] == y;
          assert Less(a[0], a[i + 1]);
          LessIrreflexive(y);
          assert y in b && y != b[0];
          var k :| 0 <= k < |b| && b[k] == y;
          assert k > 0 && b[1..][k - 1] == y;
        }
        if y in b[1..] {
          var i :| 0 <= i < |b| - 1 && b[1..][i] == y;
          assert Less(b[0], b[i + 1]);
          LessIrreflexive(y);
          assert y in a && y != a[0];
          var k :| 0 <= k < |a| && a[k] == y;
          assert k > 0 && a[1..][k - 1] == y;
        }
      }
      StrictlySortedUnique(a[1..], b[1..]);
      assert a == [a[0]] + a[1..] && b == [b[0]] + b[1..];
    }
  }

  /** `std::isdigit` in the C locale. */
  predicate IsDigit(c: char)
  {
    '0' <= c <= '9'
  }

  function DigitChar(d: nat): (c: char)
    requires d < 10
    ensures IsDigit(c)
  {
    ('0' as int + d) as char
  }

  function DigitValue(c: char): (d: nat)
    requires IsDigit(c)
    ensures d < 10 && DigitChar(d) == c
  {
    (c as int - '0' as int) as nat
  }

  /** Decimal text of a natural number, without leading zeros. */
  function NatText(n: nat): (r: string)
    ensures |r| >= 1
    ensures forall i :: 0 <= i < |r| ==> IsDigit(r[i])
    ensures n > 0 ==> r[0] != '0'
    decreases n
  {
    if n < 10 then [DigitChar(n)] else NatText(n / 10) + [DigitChar(n % 10)]
  }

  /**
   * `std::to_string` of an int: the digits of its magnitude with no
   * leading zero, after a '-' when it is negative, reading back as `n`.
   */
  function IntText(n: int): (r: string)
    ensures |r| >= 1
    ensures n >= 0 ==> AllDigits(r) && DigitsValue(r) == n && (n > 0 ==> r[0] != '0')
    ensures n < 0 ==> |r| >= 2 && r[0] == '-' && AllDigits(r[1..]) && DigitsValue(r[1..]) == -n && r[1] != '0'
  {
    if n >= 0 then
      DigitsValueOfNatText(n);
      NatText(n)
    else
      var t := NatText(-n);
      DigitsValueOfNatText(-n);
      assert ("-" + t)[1..] == t;
      "-" + t
  }

  predicate AllDigits(s: string)
  {
    forall i :: 0 <= i < |s| ==> IsDigit(s[i])
  }

  /** Numeric value of a run of decimal digits. */
  function DigitsValue(s: string): (v: nat)
    requires AllDigits(s)
    decreases |s|
  {
    if s == [] then 0 else DigitsValue(s[..|s| - 1]) * 10 + DigitValue(s[|s| - 1])
  }

  /** Reading back the decimal text of `n` gives `n`. */
  lemma {:induction false} DigitsValueOfNatText(n: nat)
    ensures DigitsValue(NatText(n)) == n
    decreases n
  {
    if n >= 10 {
      DigitsValueOfNatText(n / 10);
      var t := NatText(n);
      var init := NatText(n / 10);
      assert t == init + [DigitChar(n % 10)];
      assert t[..|t| - 1] == init;
    }
  }

  function HexDigit(d: nat): (c: char)
    requires d < 16
  {
    "0123456789abcdef"[d]
  }

  /** Text written for an integer by a stream in `std::hex` mode. */
  function HexText(n: nat): (r: string)
    ensures |r| >= 1
    decreases n
  {
    if n < 16 then [HexDigit(n)] else HexText(n / 16) + [HexDigit(n % 16)]
  }
}
