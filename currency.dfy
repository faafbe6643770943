/** The currency utilities (src/utils/currency.ts): the symbol table, the
    fixed exchange-rate table with the Indian rupee as base, conversion with
    rounding to cents, formatting, and currency de-duplication. */
module Currencies {
  import opened Types
  import opened Seqs

  /** `currencyConfig[c].symbol`. */
  function Symbol(c: Currency): (s: string)
    ensures |s| > 0
  {
    match c
    case INR => "\U{20B9}"
    case VND => "\U{20AB}"
    case MYR => "RM"
    case USD => "$"
  }

  /** `exchangeRates[c]`: units of `c` per Indian rupee. */
  function Rate(c: Currency): (r: real)
    ensures r > 0.0
    ensures c == INR <==> r == 1.0
  {
    match c
    case INR => 1.0
    case VND => 297.0
    case USD => 0.011
    case MYR => 0.047
  }

  /** True when `x` is a whole number of cents. */
  predicate IsCents(x: real)
  {
    (x * 100.0).Floor as real == x * 100.0
  }

  /** `Math.round(x * 100) / 100`, where `Math.round(y)` is `floor(y + 1/2)`. */
  function Round2(x: real): real
  {
    (x * 100.0 + 0.5).Floor as real / 100.0
  }

  /** Rounding gives a whole number of cents. */
  lemma Round2Cents(x: real)
    ensures IsCents(Round2(x))
  {
  }

  /** Rounding to cents moves a value by at most half a cent. */
  lemma Round2Error(x: real)
    ensures x - 0.005 < Round2(x) <= x + 0.005
  {
  }

  /** `convertCurrency`: unchanged within one currency, otherwise through the
      rupee base and rounded to cents. */
  function Convert(amount: real, from: Currency, to: Currency): (r: real)
    ensures from == to ==> r == amount
  {
    if from == to then amount else Rescale(amount, Rate(from), Rate(to))
  }

  /** The conversion through the base currency at rates `rf` and `rt`, rounded to cents. */
  function Rescale(amount: real, rf: real, rt: real): real
    requires rf > 0.0
  {
    Round2(amount / rf * rt)
  }

  /** Across two currencies the result is a whole number of cents. */
  lemma ConvertCents(amount: real, from: Currency, to: Currency)
    requires from != to
    ensures IsCents(Convert(amount, from, to))
  {
    Round2Cents(amount / Rate(from) * Rate(to));
  }

  /** Across two currencies the result is within half a cent of the exact
      rate-table value. */
  lemma ConvertError(amount: real, from: Currency, to: Currency)
    requires from != to
    ensures var exact := amount / Rate(from) * Rate(to);
      exact - 0.005 < Convert(amount, from, to) <= exact + 0.005
  {
    RescaleError(amount, Rate(from), Rate(to));
  }

  lemma RescaleError(amount: real, rf: real, rt: real)
    requires rf > 0.0
    ensures amount / rf * rt - 0.005 < Rescale(amount, rf, rt) <= amount / rf * rt + 0.005
  {
    Round2Error(amount / rf * rt);
  }

  lemma ScaleMonotone(a: real, b: real, rf: real, rt: real)
    requires rf > 0.0 && rt > 0.0 && a <= b
    ensures a / rf * rt <= b / rf * rt
  {
    assert b / rf - a / rf == (b - a) / rf;
    assert (b - a) / rf >= 0.0;
    assert b / rf * rt - a / rf * rt == (b / rf - a / rf) * rt;
  }

  lemma Round2Monotone(x: real, y: real)
    requires x <= y
    ensures Round2(x) <= Round2(y)
  {
    assert (x * 100.0 + 0.5).Floor <= (y * 100.0 + 0.5).Floor;
  }

  /** For a fixed pair of currencies, conversion never reverses the order of two amounts. */
  lemma ConvertMonotone(a: real, b: real, from: Currency, to: Currency)
    requires a <= b
    ensures Convert(a, from, to) <= Convert(b, from, to)
  {
    if from != to {
      ConvertAcrossMonotone(a, b, from, to);
    }
  }

  lemma ConvertAcrossMonotone(a: real, b: real, from: Currency, to: Currency)
    requires a <= b && from != to
    ensures Convert(a, from, to) <= Convert(b, from, to)
  {
    ScaledRoundMonotone(a, b, Rate(from), Rate(to));
  }

  lemma ScaledRoundMonotone(a: real, b: real, rf: real, rt: real)
    requires rf > 0.0 && rt > 0.0 && a <= b
    ensures Rescale(a, rf, rt) <= Rescale(b, rf, rt)
  {
    RoundedScaleMonotone(a, b, rf, rt);
  }

  lemma RoundedScaleMonotone(a: real, b: real, rf: real, rt: real)
    requires rf > 0.0 && rt > 0.0 && a <= b
    ensures Round2(a / rf * rt) <= Round2(b / rf * rt)
  {
    ScaleMonotone(a, b, rf, rt);
    Round2Monotone(a / rf * rt, b / rf * rt);
  }

  lemma ScaleBack(x: real, y: real, ra: real, rb: real, e: real)
    requires ra > 0.0 && rb > 0.0
    requires x / ra * rb - e < y <= x / ra * rb + e
    ensures x - e * ra / rb < y / rb * ra <= x + e * ra / rb
  {
    var d := y - x / ra * rb;
    assert -e < d <= e;
    assert y / rb * ra == x + d * ra / rb;
    assert d * (ra / rb) <= e * (ra / rb);
    assert -e * (ra / rb) < d * (ra / rb);
  }

  /** Converting there and back loses at most half a cent in each direction,
      the first half-cent scaled back by the rate between the two currencies. */
  lemma ConvertRoundTrip(x: real, a: Currency, b: Currency)
    ensures var z := Convert(Convert(x, a, b), b, a);
      x - 0.005 * Rate(a) / Rate(b) - 0.005 < z <= x + 0.005 * Rate(a) / Rate(b) + 0.005
  {
    if a != b {
      RescaleRoundTrip(x, Rate(a), Rate(b));
    }
  }

  lemma RescaleRoundTrip(x: real, ra: real, rb: real)
    requires ra > 0.0 && rb > 0.0
    ensures var z := Rescale(Rescale(x, ra, rb), rb, ra);
      x - 0.005 * ra / rb - 0.005 < z <= x + 0.005 * ra / rb + 0.005
  {
    var y := Rescale(x, ra, rb);
    RescaleError(x, ra, rb);
    ScaleBack(x, y, ra, rb, 0.005);
    RescaleError(y, rb, ra);
  }

  /** A one-dong amount converted to dollars rounds to nothing, so the round
      trip does not return within a cent of the start. */
  lemma RoundTripCanLoseSmallAmounts()
    ensures Convert(Convert(1.0, VND, USD), USD, VND) == 0.0
  {
    assert Convert(1.0, VND, USD) == 0.0 by {
      assert 1.0 / 297.0 * 0.011 * 100.0 + 0.5 == 0.5 + 1.1 / 297.0;
      assert (0.5 + 1.1 / 297.0).Floor == 0;
    }
  }

  /** `amount % 1 !== 0`. */
  predicate HasDecimals(x: real)
  {
    x.Floor as real != x
  }

  /** `formatCurrency`: the currency's symbol followed by the locale rendering of
      the amount, with two decimals exactly when the amount is not whole. The
      locale rendering (`toLocaleString`) is the parameter `render`. */
  function FormatCurrency(amount: real, c: Currency, render: (real, bool) -> string): (s: string)
    ensures |s| >= |Symbol(c)| && s[..|Symbol(c)|] == Symbol(c)
    ensures s[|Symbol(c)|..] == render(amount, HasDecimals(amount))
  {
    Symbol(c) + render(amount, HasDecimals(amount))
  }

  /** `formatCurrencyWithConversion`: the converted amount in the display
      currency, followed by the original in parentheses only when asked for and
      the currencies differ. */
  function FormatWithConversion(amount: real, original: Currency, display: Currency,
                                showOriginal: bool, render: (real, bool) -> string): (s: string)
    ensures !(showOriginal && original != display) ==>
      s == FormatCurrency(Convert(amount, original, display), display, render)
    ensures showOriginal && original != display ==>
      s == FormatCurrency(Convert(amount, original, display), display, render)
           + " (" + FormatCurrency(amount, original, render) + ")"
  {
    var formatted := FormatCurrency(Convert(amount, original, display), display, render);
    if showOriginal && original != display then
      formatted + " (" + FormatCurrency(amount, original, render) + ")"
    else formatted
  }

  /** Within one currency the conversion is the identity, so the result is the
      plain formatting of the amount whatever `showOriginal` says. */
  lemma FormatSameCurrency(amount: real, c: Currency, showOriginal: bool, render: (real, bool) -> string)
    ensures FormatWithConversion(amount, c, c, showOriginal, render) == FormatCurrency(amount, c, render)
  {
  }

  /** `getUniqueCurrencies`: each currency once, in first-occurrence order. */
  function UniqueCurrencies(cs: seq<Currency>): (r: seq<Currency>)
    ensures forall c :: c in r <==> c in cs
    ensures Distinct(r)
    ensures forall i, j :: 0 <= i < j < |r| ==> FirstIndex(cs, r[i]) < FirstIndex(cs, r[j])
  {
    DedupFirstOccurrenceOrder(cs);
    Dedup(cs)
  }
}
