/**
  The catalog's price range: every variant price is parsed (`parseFloat`), and the
  minimum and maximum (`Math.min`, `Math.max`) are printed with two decimals
  (`toFixed(2)`). Numbers are exact reals; a string without a leading number parses
  to NaN, and NaN propagates through the minimum and maximum as in JavaScript.
 */
module Prices {
  import opened Text
  import opened Catalog

  datatype Amount = Num(value: real) | NaN

  /** The longest run of decimal digits at the front of `s`. */
  function LeadingDigits(s: string): (d: string)
    ensures d <= s && AllDigits(d)
    ensures |d| < |s| ==> !IsDigit(s[|d|])
  {
    if s != [] && IsDigit(s[0]) then [s[0]] + LeadingDigits(s[1..]) else []
  }

  /** The value of the digits after a decimal point. */
  function FractionValue(d: string): (v: real)
    requires AllDigits(d)
    ensures 0.0 <= v < 1.0
  {
    if d == [] then 0.0 else (DigitValue(d[0]) as real + FractionValue(d[1..])) / 10.0
  }

  /**
    `parseFloat(s)` on unsigned decimal text: the longest prefix of the form
    digits [ "." digits ] with at least one digit; the rest of the string is ignored.
   */
  function ParsePrice(s: string): (a: Amount)
    ensures a.Num? ==> a.value >= 0.0
    ensures a.NaN? <==> !((|s| > 0 && IsDigit(s[0])) || (|s| > 1 && s[0] == '.' && IsDigit(s[1])))
  {
    var whole := LeadingDigits(s);
    var rest := s[|whole|..];
    var frac := if |rest| > 0 && rest[0] == '.' then LeadingDigits(rest[1..]) else [];
    if whole == [] && frac == [] then NaN
    else Num(DigitsValue(whole) as real + FractionValue(frac))
  }

  /** `x.toFixed(2)` for x >= 0: round to the nearest hundredth, ties away from zero. */
  function Fixed2Unsigned(x: real): (s: string)
    requires x >= 0.0
    ensures |s| >= 4 && s[|s| - 3] == '.'
  {
    var n := (x * 100.0 + 0.5).Floor;
    NatToString(n / 100) + "." + [DigitChar(n % 100 / 10), DigitChar(n % 10)]
  }

  /**
    `toFixed(2)` rounds to the nearest hundredth: the text is digits, a point and two
    digits, and the number of cents it prints is within half a cent of the amount
    (halves rounded up).
   */
  lemma Fixed2UnsignedRounds(x: real)
    requires x >= 0.0
    ensures var s := Fixed2Unsigned(x);
            && AllDigits(s[..|s| - 3]) && AllDigits(s[|s| - 2..])
            && var cents := 100 * DigitsValue(s[..|s| - 3]) + DigitsValue(s[|s| - 2..]);
               cents as real <= x * 100.0 + 0.5 < cents as real + 1.0
  {
    var n := (x * 100.0 + 0.5).Floor;
    var w, f := NatToString(n / 100), [DigitChar(n % 100 / 10), DigitChar(n % 10)];
    var s := Fixed2Unsigned(x);
    assert s == w + "." + f;
    assert s[..|s| - 3] == w && s[|s| - 2..] == f;
    NatToStringRoundTrip(n / 100);
    TwoDigitValue(n % 100 / 10, n % 10);
    CentsDigits(n);
  }

  /** Two digit characters are worth their two-digit number. */
  lemma TwoDigitValue(hi: nat, lo: nat)
    requires hi < 10 && lo < 10
    ensures DigitsValue([DigitChar(hi), DigitChar(lo)]) == 10 * hi + lo
  {
    var d := [DigitChar(hi), DigitChar(lo)];
    assert d[..|d| - 1] == [DigitChar(hi)];
    assert [DigitChar(hi)][..0] == [];
    assert DigitsValue([DigitChar(hi)]) == hi;
  }

  /** `a.toFixed(2)`: a sign for negatives, exactly two decimals, "NaN" for NaN. */
  function Fixed2(a: Amount): (s: string)
    ensures |s| >= 3
    ensures a.NaN? <==> s == "NaN"
    ensures s[0] == '-' <==> a.Num? && a.value < 0.0
  {
    match a
    case NaN => "NaN"
    case Num(x) => if x < 0.0 then "-" + Fixed2Unsigned(-x) else Fixed2Unsigned(x)
  }

  lemma {:induction false} LeadingDigitsOfDigits(d: string, rest: string)
    requires AllDigits(d)
    requires rest == [] || !IsDigit(rest[0])
    ensures LeadingDigits(d + rest) == d
  {
    if d != [] {
      assert (d + rest)[1..] == d[1..] + rest;
      LeadingDigitsOfDigits(d[1..], rest);
    }
  }

  /** Two fraction digits are worth their two-digit number of hundredths. */
  lemma TwoDigitFraction(hi: nat, lo: nat)
    requires hi < 10 && lo < 10
    ensures FractionValue([DigitChar(hi), DigitChar(lo)]) == (10 * hi + lo) as real / 100.0
  {
    var d := [DigitChar(hi), DigitChar(lo)];
    assert d[1..] == [DigitChar(lo)];
    assert FractionValue([DigitChar(lo)]) == lo as real / 10.0 by {
      assert [DigitChar(lo)][1..] == [];
    }
  }

  /** Whole digits, a point and fraction digits parse to the whole value plus the fraction. */
  lemma ParseDecimal(w: string, d: string)
    requires |w| >= 1 && AllDigits(w) && AllDigits(d)
    ensures ParsePrice(w + "." + d) == Num(DigitsValue(w) as real + FractionValue(d))
  {
    var s := w + "." + d;
    assert s == w + ("." + d);
    LeadingDigitsOfDigits(w, "." + d);
    assert LeadingDigits(s) == w;
    var rest := s[|w|..];
    assert rest == "." + d;
    assert rest[1..] == d + [];
    LeadingDigitsOfDigits(d, []);
  }

  /** How `toFixed(2)` prints a whole number of cents: the whole part, a point and the two cent digits. */
  lemma Fixed2OfCents(cents: nat)
    ensures Fixed2(Num(cents as real / 100.0)) ==
            NatToString(cents / 100) + "." + [DigitChar(cents % 100 / 10), DigitChar(cents % 10)]
  {
    var x := cents as real / 100.0;
    assert x * 100.0 == cents as real;
    var n := (x * 100.0 + 0.5).Floor;
    assert n == cents;
    assert Fixed2(Num(x)) == Fixed2Unsigned(x);
  }

  /** A number of cents is its whole hundreds, its tens digit and its units digit. */
  lemma CentsDigits(cents: nat)
    ensures cents == 100 * (cents / 100) + 10 * (cents % 100 / 10) + cents % 10
  {
    var q, m := cents / 100, cents % 100;
    assert cents == 100 * q + m;
    assert m == 10 * (m / 10) + m % 10;
    assert cents == 10 * (10 * q + m / 10) + m % 10;
    assert cents % 10 == m % 10;
  }

  /**
    Printing an amount that is a whole number of cents and parsing the text back
    gives the same amount.
   */
  lemma Fixed2RoundTrip(cents: nat)
    ensures ParsePrice(Fixed2(Num(cents as real / 100.0))) == Num(cents as real / 100.0)
  {
    var w, hi, lo := NatToString(cents / 100), cents % 100 / 10, cents % 10;
    Fixed2OfCents(cents);
    ParseDecimal(w, [DigitChar(hi), DigitChar(lo)]);
    NatToStringRoundTrip(cents / 100);
    TwoDigitFraction(hi, lo);
    CentsDigits(cents);
  }

  /** `variants.map(v => parseFloat(v.price))` */
  function VariantPrices(vs: seq<Variant>): (r: seq<Amount>)
    ensures |r| == |vs|
  {
    seq(|vs|, i requires 0 <= i < |vs| => ParsePrice(vs[i].price))
  }

  /** `products.flatMap(p => p.variants.map(v => parseFloat(v.price)))` */
  function AllPrices(ps: seq<Product>): (r: seq<Amount>)
    ensures |r| == VariantCount(ps)
  {
    if ps == [] then [] else AllPrices(ps[..|ps| - 1]) + VariantPrices(ps[|ps| - 1].variants)
  }

  function VariantCount(ps: seq<Product>): nat
  {
    if ps == [] then 0 else VariantCount(ps[..|ps| - 1]) + |ps[|ps| - 1].variants|
  }

  /** Every variant of every product contributes one parsed price, and nothing else does. */
  lemma {:induction false} AllPricesComplete(ps: seq<Product>)
    ensures |AllPrices(ps)| == VariantCount(ps)
    ensures forall i, j :: 0 <= i < |ps| && 0 <= j < |ps[i].variants| ==>
              ParsePrice(ps[i].variants[j].price) in AllPrices(ps)
    ensures forall a :: a in AllPrices(ps) ==>
              exists i, j :: 0 <= i < |ps| && 0 <= j < |ps[i].variants| && a == ParsePrice(ps[i].variants[j].price)
  {
    if ps != [] {
      var init, last := ps[..|ps| - 1], ps[|ps| - 1];
      AllPricesComplete(init);
      var r := AllPrices(ps);
      assert r == AllPrices(init) + VariantPrices(last.variants);
      forall i, j | 0 <= i < |ps| && 0 <= j < |ps[i].variants|
        ensures ParsePrice(ps[i].variants[j].price) in r
      {
        if i < |ps| - 1 {
          assert ps[i] == init[i];
        } else {
          assert VariantPrices(last.variants)[j] == ParsePrice(ps[i].variants[j].price);
        }
      }
      forall a | a in r
        ensures exists i, j :: 0 <= i < |ps| && 0 <= j < |ps[i].variants| && a == ParsePrice(ps[i].variants[j].price)
      {
        if a in AllPrices(init) {
          var i, j :| 0 <= i < |init| && 0 <= j < |init[i].variants| && a == ParsePrice(init[i].variants[j].price);
          assert ps[i] == init[i];
        } else {
          var j :| 0 <= j < |last.variants| && VariantPrices(last.variants)[j] == a;
          assert a == ParsePrice(ps[|ps| - 1].variants[j].price);
        }
      }
    }
  }

  /** `Math.min(...xs)` for non-empty xs: NaN if any element is NaN. */
  function Least(xs: seq<Amount>): (m: Amount)
    requires xs != []
    ensures m.NaN? <==> NaN in xs
    ensures m.Num? ==> m in xs && forall a :: a in xs ==> m.value <= a.value
  {
    if |xs| == 1 then xs[0]
    else
      var m := Least(xs[..|xs| - 1]);
      var x := xs[|xs| - 1];
      assert xs == xs[..|xs| - 1] + [x];
      if m.NaN? || x.NaN? then NaN
      else if x.value < m.value then x else m
  }

  /** `Math.max(...xs)` for non-empty xs: NaN if any element is NaN. */
  function Greatest(xs: seq<Amount>): (m: Amount)
    requires xs != []
    ensures m.NaN? <==> NaN in xs
    ensures m.Num? ==> m in xs && forall a :: a in xs ==> a.value <= m.value
  {
    if |xs| == 1 then xs[0]
    else
      var m := Greatest(xs[..|xs| - 1]);
      var x := xs[|xs| - 1];
      assert xs == xs[..|xs| - 1] + [x];
      if m.NaN? || x.NaN? then NaN
      else if x.value > m.value then x else m
  }

  /** The (min, max) pair of the price range; both 0 when there is no price at all. */
  function PriceBounds(xs: seq<Amount>): (r: (Amount, Amount))
    ensures xs == [] ==> r == (Num(0.0), Num(0.0))
    ensures NaN in xs ==> r == (NaN, NaN)
    ensures xs != [] && NaN !in xs ==>
              r.0.Num? && r.1.Num? && r.0 in xs && r.1 in xs &&
              forall a :: a in xs ==> r.0.value <= a.value <= r.1.value
  {
    if xs == [] then (Num(0.0), Num(0.0)) else (Least(xs), Greatest(xs))
  }
}
