/**
  The string operations the generator borrows from the JavaScript runtime:
  printing a non-negative integer inside a template literal, `Array.prototype.join`
  and `String.prototype.toLowerCase` (restricted to ASCII letters).
 */
module Text {

  predicate IsDigit(c: char) {
    '0' <= c <= '9'
  }

  predicate AllDigits(s: string) {
    forall i :: 0 <= i < |s| ==> IsDigit(s[i])
  }

  function DigitValue(c: char): (d: nat)
    requires IsDigit(c)
    ensures d < 10
  {
    c as int - '0' as int
  }

  function DigitChar(d: nat): (c: char)
    requires d < 10
    ensures IsDigit(c) && DigitValue(c) == d
  {
    (d + '0' as int) as char
  }

  /** The value of a string of decimal digits, most significant first. */
  function DigitsValue(s: string): nat
    requires AllDigits(s)
  {
    if s == [] then 0 else 10 * DigitsValue(s[..|s| - 1]) + DigitValue(s[|s| - 1])
  }

  /** How `${n}` prints a non-negative integer: decimal digits, no leading zero. */
  function NatToString(n: nat): (s: string)
    ensures |s| >= 1 && AllDigits(s)
    ensures (|s| == 1) == (n < 10)
    ensures s[0] == '0' ==> n == 0
  {
    if n < 10 then [DigitChar(n)] else NatToString(n / 10) + [DigitChar(n % 10)]
  }

  /** Reading the digits back gives the number: NatToString is injective. */
  lemma {:induction false} NatToStringRoundTrip(n: nat)
    ensures DigitsValue(NatToString(n)) == n
  {
    if n >= 10 {
      var s := NatToString(n);
      NatToStringRoundTrip(n / 10);
      assert s[..|s| - 1] == NatToString(n / 10);
    }
  }

  /** Printing the value of a canonical digit string (no leading zero) gives the string back. */
  lemma {:induction false} DigitsValueRoundTrip(s: string)
    requires |s| >= 1 && AllDigits(s)
    requires |s| > 1 ==> s[0] != '0'
    ensures NatToString(DigitsValue(s)) == s
  {
    var init := s[..|s| - 1];
    if |s| > 1 {
      assert init[0] == s[0];
      DigitsValueRoundTrip(init);
      LeadingDigitNonZero(init);
      assert DigitsValue(s) / 10 == DigitsValue(init);
    }
  }

  lemma {:induction false} LeadingDigitNonZero(s: string)
    requires |s| >= 1 && AllDigits(s) && s[0] != '0'
    ensures DigitsValue(s) >= 1
  {
    if |s| > 1 {
      assert s[..|s| - 1][0] == s[0];
      LeadingDigitNonZero(s[..|s| - 1]);
    }
  }

  /** Sum of the lengths of a sequence of strings. */
  function TotalLength(xs: seq<string>): nat
  {
    if xs == [] then 0 else TotalLength(xs[..|xs| - 1]) + |xs[|xs| - 1]|
  }

  /** `xs.join(sep)`: the elements in order, with `sep` between neighbours. */
  function Join(xs: seq<string>, sep: string): (r: string)
    ensures xs == [] ==> r == []
    ensures xs != [] ==> |r| == TotalLength(xs) + (|xs| - 1) * |sep|
    ensures xs != [] ==> xs[0] <= r
  {
    if |xs| <= 1 then (if xs == [] then [] else xs[0])
    else
      var init := xs[..|xs| - 1];
      assert init[0] == xs[0];
      Join(init, sep) + sep + xs[|xs| - 1]
  }

  /** Where element `i` of `xs` begins in `Join(xs, sep)`: after each element before it and one separator. */
  function JoinOffset(xs: seq<string>, sep: string, i: nat): nat
    requires i <= |xs|
  {
    if i == 0 then 0 else JoinOffset(xs, sep, i - 1) + |xs[i - 1]| + |sep|
  }

  /** Dropping the last element moves none of the offsets before it. */
  lemma {:induction false} JoinOffsetInit(xs: seq<string>, sep: string, i: nat)
    requires i < |xs|
    ensures JoinOffset(xs, sep, i) == JoinOffset(xs[..|xs| - 1], sep, i)
  {
    if i > 0 {
      JoinOffsetInit(xs, sep, i - 1);
      assert xs[i - 1] == xs[..|xs| - 1][i - 1];
    }
  }

  /** The join ends right after its last element, which starts at the last offset. */
  lemma {:induction false} JoinLengthOffset(xs: seq<string>, sep: string)
    requires xs != []
    ensures |Join(xs, sep)| == JoinOffset(xs, sep, |xs| - 1) + |xs[|xs| - 1]|
  {
    var n := |xs|;
    if n > 1 {
      var init := xs[..n - 1];
      JoinLengthOffset(init, sep);
      JoinOffsetInit(xs, sep, n - 2);
      assert init[n - 2] == xs[n - 2];
      assert |Join(xs, sep)| == |Join(init, sep)| + |sep| + |xs[n - 1]|;
    }
  }

  /** Element `i` of `xs` stands in `r` at its offset. */
  predicate PartAt(r: string, xs: seq<string>, sep: string, i: nat)
    requires i < |xs|
  {
    var o := JoinOffset(xs, sep, i);
    o + |xs[i]| <= |r| && r[o..o + |xs[i]|] == xs[i]
  }

  /** Between element `i` and element `i + 1` of `xs`, `r` holds exactly `sep`. */
  predicate GapAt(r: string, xs: seq<string>, sep: string, i: nat)
    requires i + 1 < |xs|
  {
    var a, b := JoinOffset(xs, sep, i) + |xs[i]|, JoinOffset(xs, sep, i + 1);
    a <= b <= |r| && r[a..b] == sep
  }

  lemma JoinSnoc(xs: seq<string>, sep: string)
    requires 1 < |xs|
    ensures var r, head := Join(xs, sep), Join(xs[..|xs| - 1], sep);
            |head| <= |r| && r[..|head|] == head
  {
    var head := Join(xs[..|xs| - 1], sep);
    assert Join(xs, sep) == head + (sep + xs[|xs| - 1]);
  }

  /** An element placed in `head` stays in place in any `r` that extends `head`. */
  lemma PartAtExtends(xs: seq<string>, sep: string, i: nat, head: string, r: string)
    requires 1 < |xs| && i < |xs| - 1
    requires |head| <= |r| && r[..|head|] == head
    requires PartAt(head, xs[..|xs| - 1], sep, i)
    ensures PartAt(r, xs, sep, i)
  {
    var init := xs[..|xs| - 1];
    JoinOffsetInit(xs, sep, i);
    assert xs[i] == init[i];
    var o := JoinOffset(xs, sep, i);
    assert r[o..o + |xs[i]|] == head[o..o + |xs[i]|];
  }

  /** So does a separator placed in `head`. */
  lemma GapAtExtends(xs: seq<string>, sep: string, i: nat, head: string, r: string)
    requires 2 < |xs| && i < |xs| - 2
    requires |head| <= |r| && r[..|head|] == head
    requires GapAt(head, xs[..|xs| - 1], sep, i)
    ensures GapAt(r, xs, sep, i)
  {
    var init := xs[..|xs| - 1];
    JoinOffsetInit(xs, sep, i);
    JoinOffsetInit(xs, sep, i + 1);
    assert xs[i] == init[i];
    var a, b := JoinOffset(xs, sep, i) + |xs[i]|, JoinOffset(xs, sep, i + 1);
    assert r[a..b] == head[a..b];
  }

  /** The last element starts one separator after the join of the ones before it. */
  lemma LastOffset(xs: seq<string>, sep: string)
    requires 1 < |xs|
    ensures JoinOffset(xs, sep, |xs| - 1) == |Join(xs[..|xs| - 1], sep)| + |sep|
    ensures JoinOffset(xs, sep, |xs| - 2) + |xs[|xs| - 2]| == |Join(xs[..|xs| - 1], sep)|
  {
    var n := |xs|;
    var init := xs[..n - 1];
    JoinLengthOffset(init, sep);
    JoinOffsetInit(xs, sep, n - 2);
    assert init[n - 2] == xs[n - 2];
  }

  lemma PartAtLast(xs: seq<string>, sep: string)
    requires 1 < |xs|
    ensures PartAt(Join(xs, sep), xs, sep, |xs| - 1)
  {
    var head := Join(xs[..|xs| - 1], sep);
    LastOffset(xs, sep);
    assert Join(xs, sep) == head + sep + xs[|xs| - 1];
    assert Join(xs, sep)[|head| + |sep|..] == xs[|xs| - 1];
  }

  lemma GapAtLast(xs: seq<string>, sep: string)
    requires 1 < |xs|
    ensures GapAt(Join(xs, sep), xs, sep, |xs| - 2)
  {
    var head := Join(xs[..|xs| - 1], sep);
    LastOffset(xs, sep);
    assert Join(xs, sep) == head + sep + xs[|xs| - 1];
    assert Join(xs, sep)[|head|..|head| + |sep|] == sep;
  }

  /**
    `xs.join(sep)` is the elements in order with `sep` between neighbours: element `i`
    stands at `JoinOffset(xs, sep, i)`, and a separator fills the gap up to the next
    element.
   */
  lemma {:induction false} JoinParts(xs: seq<string>, sep: string)
    ensures forall i :: 0 <= i < |xs| ==> PartAt(Join(xs, sep), xs, sep, i)
    ensures forall i :: 0 <= i < |xs| - 1 ==> GapAt(Join(xs, sep), xs, sep, i)
  {
    var n := |xs|;
    if n == 1 {
      assert xs[..0] == [];
      assert PartAt(Join(xs, sep), xs, sep, 0);
    } else if n > 1 {
      var r, head := Join(xs, sep), Join(xs[..n - 1], sep);
      JoinParts(xs[..n - 1], sep);
      JoinSnoc(xs, sep);
      forall i | 0 <= i < n
        ensures PartAt(r, xs, sep, i)
      {
        if i < n - 1 {
          PartAtExtends(xs, sep, i, head, r);
        } else {
          PartAtLast(xs, sep);
        }
      }
      forall i | 0 <= i < n - 1
        ensures GapAt(r, xs, sep, i)
      {
        if i < n - 2 {
          GapAtExtends(xs, sep, i, head, r);
        } else {
          GapAtLast(xs, sep);
        }
      }
    }
  }

  function LowerChar(c: char): char
  {
    if 'A' <= c <= 'Z' then (c as int + 32) as char else c
  }

  /** `s.toLowerCase()` for ASCII: upper-case letters become lower-case, nothing else changes. */
  function Lower(s: string): (r: string)
    ensures |r| == |s|
    ensures forall i :: 0 <= i < |r| ==> !('A' <= r[i] <= 'Z')
    ensures forall i :: 0 <= i < |r| ==> r[i] == s[i] || ('A' <= s[i] <= 'Z' && r[i] as int == s[i] as int + 32)
  {
    seq(|s|, i requires 0 <= i < |s| => LowerChar(s[i]))
  }
}
