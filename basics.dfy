/** Small value-level helpers shared by the client (TypeScript) and backend (Python) models:
    an Option type, the two languages' notions of whitespace, decimal conversion of integers
    and substring search. */
module Basics {

  datatype Option<+T> = None | Some(value: T)

  // ---------------------------------------------------------------------------
  // Whitespace

  /** The characters JavaScript's String.prototype.trim removes: WhiteSpace and LineTerminator. */
  predicate IsJsSpace(c: char) {
    c == '\t' || c == '\n' || c == '\U{B}' || c == '\U{C}' || c == '\r' || c == ' '
    || c == '\U{A0}' || c == '\U{1680}' || ('\U{2000}' <= c <= '\U{200A}')
    || c == '\U{2028}' || c == '\U{2029}' || c == '\U{202F}' || c == '\U{205F}'
    || c == '\U{3000}' || c == '\U{FEFF}'
  }

  /** The characters Python's str.strip() removes (those for which str.isspace() holds). */
  predicate IsPySpace(c: char) {
    ('\t' <= c <= '\r') || ('\U{1C}' <= c <= '\U{1F}') || c == ' ' || c == '\U{85}'
    || c == '\U{A0}' || c == '\U{1680}' || ('\U{2000}' <= c <= '\U{200A}')
    || c == '\U{2028}' || c == '\U{2029}' || c == '\U{202F}' || c == '\U{205F}' || c == '\U{3000}'
  }

  /** `r` is `s[a..b]`, and every character of `s` outside `a..b` satisfies `space`. */
  predicate CutAt(s: string, r: string, a: nat, b: nat, space: char -> bool) {
    a <= b <= |s| && r == s[a..b]
    && (forall i :: 0 <= i < a ==> space(s[i])) && (forall i :: b <= i < |s| ==> space(s[i]))
  }

  /** `r` is `s` with some leading and some trailing characters removed, every removed
      character satisfying `space`. */
  ghost predicate CutFrom(s: string, r: string, space: char -> bool) {
    exists a: nat, b: nat :: CutAt(s, r, a, b, space)
  }

  lemma {:induction false} CutWhole(s: string, space: char -> bool)
    ensures CutFrom(s, s, space)
  {
    assert CutAt(s, s, 0, |s|, space);
  }

  lemma {:induction false} CutAfterFirst(s: string, r: string, space: char -> bool)
    requires |s| > 0 && space(s[0]) && CutFrom(s[1..], r, space)
    ensures CutFrom(s, r, space)
  {
    var a: nat, b: nat :| CutAt(s[1..], r, a, b, space);
    assert r == s[a + 1..b + 1];
    assert forall i :: 1 <= i < a + 1 ==> s[i] == s[1..][i - 1];
    assert forall i :: b + 1 <= i < |s| ==> s[i] == s[1..][i - 1];
    assert CutAt(s, r, a + 1, b + 1, space);
  }

  lemma {:induction false} CutBeforeLast(s: string, r: string, space: char -> bool)
    requires |s| > 0 && space(s[|s| - 1]) && CutFrom(s[..|s| - 1], r, space)
    ensures CutFrom(s, r, space)
  {
    var t := s[..|s| - 1];
    var a: nat, b: nat :| CutAt(t, r, a, b, space);
    assert r == s[a..b];
    assert forall i :: 0 <= i < |t| ==> s[i] == t[i];
    assert CutAt(s, r, a, b, space);
  }

  /** Two cuts with non-space ends start at the same place, the first non-space position of
      `s`, and stop at the same place, just after the last one. */
  lemma {:induction false} CutBoundsAgree(s: string, r1: string, a1: nat, b1: nat, r2: string, a2: nat, b2: nat,
                                          space: char -> bool)
    requires CutAt(s, r1, a1, b1, space) && CutAt(s, r2, a2, b2, space)
    requires r1 != "" && !space(r1[0]) && !space(r1[|r1| - 1])
    requires r2 != "" && !space(r2[0]) && !space(r2[|r2| - 1])
    ensures a1 == a2 && b1 == b2
  {
    assert s[a1] == r1[0] && s[b1 - 1] == r1[|r1| - 1];
    assert s[a2] == r2[0] && s[b2 - 1] == r2[|r2| - 1];
  }

  /** A cut whose ends are not spaces is unique: together with that, `CutFrom` fixes the
      stripped text. */
  lemma {:induction false} CutIsUnique(s: string, r1: string, r2: string, space: char -> bool)
    requires CutFrom(s, r1, space) && CutFrom(s, r2, space)
    requires r1 != "" && !space(r1[0]) && !space(r1[|r1| - 1])
    requires r2 != "" && !space(r2[0]) && !space(r2[|r2| - 1])
    ensures r1 == r2
  {
    var a1: nat, b1: nat :| CutAt(s, r1, a1, b1, space);
    var a2: nat, b2: nat :| CutAt(s, r2, a2, b2, space);
    CutBoundsAgree(s, r1, a1, b1, r2, a2, b2, space);
  }

  /** Padding made of `space` characters around `s` can be cut away as well. */
  lemma {:induction false} CutThroughPadding(pre: string, s: string, post: string, r: string, space: char -> bool)
    requires forall i :: 0 <= i < |pre| ==> space(pre[i])
    requires forall i :: 0 <= i < |post| ==> space(post[i])
    requires CutFrom(s, r, space)
    ensures CutFrom(pre + s + post, r, space)
  {
    var t := pre + s + post;
    var a: nat, b: nat :| CutAt(s, r, a, b, space);
    assert r == t[|pre| + a..|pre| + b];
    forall i | 0 <= i < |pre| + a ensures space(t[i]) {
      if i < |pre| { assert t[i] == pre[i]; } else { assert t[i] == s[i - |pre|]; }
    }
    forall i | |pre| + b <= i < |t| ensures space(t[i]) {
      if i < |pre| + |s| { assert t[i] == s[i - |pre|]; } else { assert t[i] == post[i - |pre| - |s|]; }
    }
    assert CutAt(t, r, |pre| + a, |pre| + b, space);
  }

  /** Padding `s`, itself made of `space` characters, with more of them leaves only those. */
  lemma {:induction false} AllSpacePadded(pre: string, s: string, post: string, space: char -> bool)
    requires forall i :: 0 <= i < |pre| ==> space(pre[i])
    requires forall i :: 0 <= i < |s| ==> space(s[i])
    requires forall i :: 0 <= i < |post| ==> space(post[i])
    ensures forall i :: 0 <= i < |pre + s + post| ==> space((pre + s + post)[i])
  {
    var t := pre + s + post;
    forall i | 0 <= i < |t| ensures space(t[i]) {
      if i < |pre| { assert t[i] == pre[i]; }
      else if i < |pre| + |s| { assert t[i] == s[i - |pre|]; }
      else { assert t[i] == post[i - |pre| - |s|]; }
    }
  }

  /** `s.trim()` in JavaScript: `s` with its leading and trailing whitespace removed. */
  function JsTrim(s: string): (r: string)
    ensures |r| <= |s|
    ensures r == "" <==> forall i :: 0 <= i < |s| ==> IsJsSpace(s[i])
    ensures r != "" ==> !IsJsSpace(r[0]) && !IsJsSpace(r[|r| - 1])
    ensures CutFrom(s, r, IsJsSpace)
  {
    if |s| == 0 then CutWhole(s, IsJsSpace); s
    else if IsJsSpace(s[0]) then
      var r := JsTrim(s[1..]);
      CutAfterFirst(s, r, IsJsSpace);
      r
    else if IsJsSpace(s[|s| - 1]) then
      var r := JsTrim(s[..|s| - 1]);
      CutBeforeLast(s, r, IsJsSpace);
      r
    else CutWhole(s, IsJsSpace); s
  }

  /** `s.strip()` in Python: `s` with its leading and trailing whitespace removed. */
  function PyStrip(s: string): (r: string)
    ensures |r| <= |s|
    ensures r == "" <==> forall i :: 0 <= i < |s| ==> IsPySpace(s[i])
    ensures r != "" ==> !IsPySpace(r[0]) && !IsPySpace(r[|r| - 1])
    ensures CutFrom(s, r, IsPySpace)
  {
    if |s| == 0 then CutWhole(s, IsPySpace); s
    else if IsPySpace(s[0]) then
      var r := PyStrip(s[1..]);
      CutAfterFirst(s, r, IsPySpace);
      r
    else if IsPySpace(s[|s| - 1]) then
      var r := PyStrip(s[..|s| - 1]);
      CutBeforeLast(s, r, IsPySpace);
      r
    else CutWhole(s, IsPySpace); s
  }

  // ---------------------------------------------------------------------------
  // Decimal text of integers: JavaScript's String(n) for a property key and Python's str(n),
  // and JavaScript's parseInt reading it back.

  predicate IsDigit(c: char) { '0' as int <= c as int <= '9' as int }

  function DigitChar(d: nat): (c: char)
    requires d < 10
    ensures IsDigit(c)
  {
    (('0' as int) + d) as char
  }

  function NatToDecimal(n: nat): (r: string)
    ensures |r| >= 1 && forall i :: 0 <= i < |r| ==> IsDigit(r[i])
  {
    if n < 10 then [DigitChar(n)] else NatToDecimal(n / 10) + [DigitChar(n % 10)]
  }

  /** Decimal text of an integer, with a leading '-' when negative. */
  function IntToDecimal(n: int): string {
    if n < 0 then "-" + NatToDecimal(-n) else NatToDecimal(n)
  }

  /** The value of a string made of decimal digits. */
  function DigitsValue(ds: string): nat
    requires forall i :: 0 <= i < |ds| ==> IsDigit(ds[i])
  {
    if |ds| == 0 then 0
    else
      var last := ds[|ds| - 1];
      assert IsDigit(last);
      DigitsValue(ds[..|ds| - 1]) * 10 + ((last as int) - ('0' as int))
  }

  /** Length of the longest prefix of `s` made of decimal digits. */
  function DigitRun(s: string): (k: nat)
    ensures k <= |s|
    ensures forall i :: 0 <= i < k ==> IsDigit(s[i])
    ensures k < |s| ==> !IsDigit(s[k])
  {
    if |s| == 0 || !IsDigit(s[0]) then 0 else 1 + DigitRun(s[1..])
  }

  /** JavaScript's parseInt(s) without a radix, on text that does not start with "0x" or "0X"
      (which parseInt would read as hexadecimal): leading whitespace is skipped, then an
      optional sign, then the longest run of decimal digits; no digit at all gives NaN (here
      None). It is applied to record keys only, which are decimal integers or "undefined". */
  function ParseInt(s: string): Option<int> {
    if |s| > 0 && IsJsSpace(s[0]) then ParseInt(s[1..])
    else
      var negative := |s| > 0 && s[0] == '-';
      var rest := if |s| > 0 && (s[0] == '-' || s[0] == '+') then s[1..] else s;
      var k := DigitRun(rest);
      if k == 0 then None
      else
        var v: int := DigitsValue(rest[..k]);
        Some(if negative then -v else v)
  }

  lemma {:induction false} DigitsValueOfDecimal(n: nat)
    ensures DigitsValue(NatToDecimal(n)) == n
  {
    if n >= 10 {
      var r := NatToDecimal(n);
      assert r[..|r| - 1] == NatToDecimal(n / 10);
      DigitsValueOfDecimal(n / 10);
    }
  }

  lemma {:induction false} DigitRunOfDigits(s: string)
    requires forall i :: 0 <= i < |s| ==> IsDigit(s[i])
    ensures DigitRun(s) == |s|
  {
    if |s| > 0 {
      DigitRunOfDigits(s[1..]);
    }
  }

  /** parseInt reads back the decimal text of every integer. */
  lemma {:induction false} ParseIntOfDecimal(n: int)
    ensures ParseInt(IntToDecimal(n)) == Some(n)
  {
    var m: nat := if n < 0 then -n else n;
    var ds := NatToDecimal(m);
    DigitRunOfDigits(ds);
    DigitsValueOfDecimal(m);
    if n < 0 {
      assert IntToDecimal(n)[1..] == ds;
    }
    assert ds[..|ds|] == ds;
  }

  // ---------------------------------------------------------------------------
  // Substrings

  /** JavaScript's `s.includes(q)` (case-sensitive). */
  predicate Contains(s: string, q: string) {
    exists i :: 0 <= i <= |s| - |q| && OccursAt(s, q, i)
  }

  /** `q` occurs in `s` starting at index `i`. */
  predicate OccursAt(s: string, q: string, i: int)
    requires 0 <= i <= |s| - |q|
  {
    s[i..i + |q|] == q
  }

  lemma {:induction false} EmptyContained(s: string)
    ensures Contains(s, "")
  {
    assert OccursAt(s, "", 0);
  }

  // ---------------------------------------------------------------------------
  // Integer sets in ascending order (the order in which JavaScript enumerates the
  // integer-like keys of an object)

  /** `m` is the least element of `s`. */
  predicate IsLeast(m: int, s: set<int>) {
    m in s && forall x :: x in s ==> m <= x
  }

  lemma {:induction false} MinimumExists(s: set<int>)
    requires s != {}
    ensures exists m :: IsLeast(m, s)
    decreases |s|
  {
    if forall x :: x !in s {
      assert false;
    }
    var y :| y in s;
    if s == {y} {
      assert IsLeast(y, s);
    } else {
      MinimumExists(s - {y});
      var m :| IsLeast(m, s - {y});
      var least := if y < m then y else m;
      forall x | x in s
        ensures least <= x
      {
        if x != y {
          assert x in s - {y};
        }
      }
      assert IsLeast(least, s);
    }
  }

  function Minimum(s: set<int>): (m: int)
    requires s != {}
    ensures m in s && forall x :: x in s ==> m <= x
  {
    MinimumExists(s);
    var m :| IsLeast(m, s);
    m
  }

  /** The elements of `s` in strictly ascending order. */
  function Ascending(s: set<int>): (r: seq<int>)
    ensures |r| == |s|
    ensures forall x :: x in r <==> x in s
    ensures forall i, j :: 0 <= i < j < |r| ==> r[i] < r[j]
    decreases |s|
  {
    if s == {} then []
    else
      var m := Minimum(s);
      [m] + Ascending(s - {m})
  }

  // ---------------------------------------------------------------------------
  // Filtering in order

  /** `xs.filter(keep)`: the elements satisfying `keep`, in their order in `xs`. */
  function Keep<T>(xs: seq<T>, keep: T -> bool): (r: seq<T>)
    ensures |r| <= |xs|
  {
    if |xs| == 0 then []
    else Keep(xs[..|xs| - 1], keep) + (if keep(xs[|xs| - 1]) then [xs[|xs| - 1]] else [])
  }

  lemma {:induction false} KeepSnoc<T>(xs: seq<T>, x: T, keep: T -> bool)
    ensures Keep(xs + [x], keep) == Keep(xs, keep) + (if keep(x) then [x] else [])
  {
    assert (xs + [x])[..|xs|] == xs;
  }

  /** When every element passes, the filter keeps the whole sequence. */
  lemma {:induction false} KeepAll<T>(xs: seq<T>, keep: T -> bool)
    requires forall i :: 0 <= i < |xs| ==> keep(xs[i])
    ensures Keep(xs, keep) == xs
  {
    if |xs| > 0 {
      KeepAll(xs[..|xs| - 1], keep);
      assert xs == xs[..|xs| - 1] + [xs[|xs| - 1]];
    }
  }

  /** Filtering a concatenation filters each part: what is kept stays in its original order. */
  lemma {:induction false} KeepSplit<T>(front: seq<T>, back: seq<T>, keep: T -> bool)
    ensures Keep(front + back, keep) == Keep(front, keep) + Keep(back, keep)
  {
    if |back| == 0 {
      assert front + back == front;
    } else {
      var init, last := back[..|back| - 1], back[|back| - 1];
      var tail := if keep(last) then [last] else [];
      calc {
        Keep(front + back, keep);
        { assert front + back == (front + init) + [last]; }
        Keep((front + init) + [last], keep);
        { KeepSnoc(front + init, last, keep); }
        Keep(front + init, keep) + tail;
        { KeepSplit(front, init, keep); }
        (Keep(front, keep) + Keep(init, keep)) + tail;
        Keep(front, keep) + (Keep(init, keep) + tail);
        { KeepSnoc(init, last, keep); assert back == init + [last]; }
        Keep(front, keep) + Keep(back, keep);
      }
    }
  }

  // ---------------------------------------------------------------------------
  // Removing every occurrence of a value

  /** `values.filter(v => v !== x)`: every occurrence of `x` removed, the rest kept in order. */
  function Without<T(==)>(values: seq<T>, x: T): (r: seq<T>)
    ensures |r| <= |values|
    ensures multiset(r) == multiset(values)[x := 0]
  {
    if |values| == 0 then []
    else
      var last := values[|values| - 1];
      assert values == values[..|values| - 1] + [last];
      Without(values[..|values| - 1], x) + (if last == x then [] else [last])
  }

  lemma {:induction false} WithoutAbsent<T>(values: seq<T>, x: T)
    requires x !in values
    ensures Without(values, x) == values
  {
    if |values| > 0 {
      var init := values[..|values| - 1];
      var last := values[|values| - 1];
      assert values == init + [last];
      assert x !in init && last != x;
      WithoutAbsent(init, x);
      assert Without(values, x) == Without(init, x) + [last];
    }
  }
}
