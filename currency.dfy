/** The currency selection and the conversion/formatting of euro prices
    (src/context/CurrencyContext.tsx). */
module CurrencyContext {
  import opened Wrappers
  import opened Text

  datatype Currency = EUR | CHF | GBP

  datatype CurrencyConfig = CurrencyConfig(code: Currency, symbol: string, rate: real)

  /** The static rate table; rates are destination units per euro. */
  function Currencies(c: Currency): (cfg: CurrencyConfig)
    ensures cfg.code == c
    ensures cfg.rate > 0.0
  {
    match c
    case EUR => CurrencyConfig(EUR, "€", 1.0)
    case CHF => CurrencyConfig(CHF, "CHF", 0.94)
    case GBP => CurrencyConfig(GBP, "£", 0.86)
  }

  /** `convertPrice` for the currency `c`: `Math.round(price * rate * 100) / 100`.
      The result is a whole number of cents, and lies within half a cent of the exact product. */
  function Convert(c: Currency, priceInEur: real): (r: real)
    ensures OnGrid(r, 2)
    ensures priceInEur * Currencies(c).rate - 1.0 / 200.0 < r <= priceInEur * Currencies(c).rate + 1.0 / 200.0
  {
    var exact := priceInEur * Currencies(c).rate;
    var cents := RoundHalfUp(exact * 100.0);
    CentsNear(exact, cents);
    cents as real / 100.0
  }

  /** A whole number of cents rounded from `x * 100` is on the cent grid and within
      half a cent of `x`. */
  lemma CentsNear(x: real, cents: int)
    requires cents as real - 1.0 / 2.0 <= x * 100.0 < cents as real + 1.0 / 2.0
    ensures OnGrid(cents as real / 100.0, 2)
    ensures x - 1.0 / 200.0 < cents as real / 100.0 <= x + 1.0 / 200.0
  {
    assert Pow10(2) == 100;
    assert (cents as real / 100.0) * 100.0 == cents as real;
  }

  /** `formatPrice` for the currency `c`: the converted price with two decimals,
      the symbol before it for CHF and after it for every other currency. */
  function Format(c: Currency, priceInEur: real): (s: string)
  {
    var converted := ToFixed(Convert(c, priceInEur), 2);
    if c == CHF then Currencies(c).symbol + " " + converted
    else converted + " " + Currencies(c).symbol
  }

  /** The euro rate is the identity on prices given in whole cents. */
  lemma ConvertEurIdentity(priceInEur: real)
    requires OnGrid(priceInEur, 2)
    ensures Convert(EUR, priceInEur) == priceInEur
  {
    var y := priceInEur * 1.0 * 100.0;
    assert y == priceInEur * Pow10(2) as real;
    RoundHalfUpUnique(y, y.Floor);
  }

  /** Conversion never reverses the order of two prices. */
  lemma ConvertMonotone(c: Currency, p: real, q: real)
    requires p <= q
    ensures Convert(c, p) <= Convert(c, q)
  {
    var rate := Currencies(c).rate;
    assert p * rate * 100.0 <= q * rate * 100.0;
    RoundHalfUpMonotone(p * rate * 100.0, q * rate * 100.0);
  }

  /** A zero price converts to zero in every currency. */
  lemma ConvertZero(c: Currency)
    ensures Convert(c, 0.0) == 0.0
  {
    RoundHalfUpUnique(0.0 * Currencies(c).rate * 100.0, 0);
  }

  /** The string shows the converted value: the part beside the symbol reads back as
      `Convert(c, priceInEur)`, never as the raw euro price. */
  lemma FormatShowsConvertedValue(c: Currency, priceInEur: real)
    ensures var s := Format(c, priceInEur);
            var symbol := Currencies(c).symbol;
            if c == CHF then
              StartsWith(s, symbol + " ")
              && ParseFixed(s[|symbol| + 1..], 2) == Some(Convert(c, priceInEur))
            else
              |s| >= |symbol| + 1 && s[|s| - |symbol| - 1..] == " " + symbol
              && ParseFixed(s[..|s| - |symbol| - 1], 2) == Some(Convert(c, priceInEur))
  {
    var v := Convert(c, priceInEur);
    var t := ToFixed(v, 2);
    ToFixedRoundTrip(v, 2);
    var symbol := Currencies(c).symbol;
    if c == CHF {
      SymbolFirst(symbol, t);
    } else {
      SymbolLast(symbol, t);
    }
  }

  /** Where the text sits in `symbol + " " + text`. */
  lemma SymbolFirst(symbol: string, text: string)
    ensures var s := symbol + " " + text;
            StartsWith(s, symbol + " ") && s[|symbol| + 1..] == text
  {
    var s := symbol + " " + text;
    assert s == (symbol + " ") + text;
  }

  /** Where the text sits in `text + " " + symbol`. */
  lemma SymbolLast(symbol: string, text: string)
    ensures var s := text + " " + symbol;
            |s| >= |symbol| + 1 && s[|s| - |symbol| - 1..] == " " + symbol
            && s[..|s| - |symbol| - 1] == text
  {
    var s := text + " " + symbol;
    assert s == text + (" " + symbol);
  }

  lemma ToFixedExample(v: real, cents: nat, text: string)
    requires v * 100.0 == cents as real && FixedDigits(cents, 2) == text
    ensures ToFixed(v, 2) == text
  {
    assert Pow10(2) == 100;
    RoundHalfUpUnique(v * 100.0, cents);
  }

  /** Ten euros display as "8.60 £" in pounds. */
  lemma FormatPoundsExample()
    ensures Format(GBP, 10.0) == "8.60 £"
  {
    RoundHalfUpUnique(10.0 * 0.86 * 100.0, 860);
    assert Convert(GBP, 10.0) == 8.6;
    assert NatToString(860) == "860";
    ToFixedExample(8.6, 860, "8.60");
  }

  /** Ten euros display as "CHF 9.40" in francs, symbol first. */
  lemma FormatFrancsExample()
    ensures Format(CHF, 10.0) == "CHF 9.40"
  {
    RoundHalfUpUnique(10.0 * 0.94 * 100.0, 940);
    assert Convert(CHF, 10.0) == 9.4;
    assert NatToString(940) == "940";
    ToFixedExample(9.4, 940, "9.40");
  }

  /** The selected currency: the state of the currency provider. */
  class CurrencyStore {
    var currency: Currency

    /** The selection starts at the euro. */
    constructor ()
      ensures currency == EUR
    {
      currency := EUR;
    }

    method SetCurrency(c: Currency)
      modifies this
      ensures currency == c
    {
      currency := c;
    }

    /** `convertPrice` reads the selected currency's rate: whole cents, within half a cent
        of the price times that rate. */
    function ConvertPrice(priceInEur: real): (r: real)
      reads this
      ensures r == Convert(currency, priceInEur)
      ensures OnGrid(r, 2)
      ensures priceInEur * Currencies(currency).rate - 1.0 / 200.0 < r
              <= priceInEur * Currencies(currency).rate + 1.0 / 200.0
    {
      Convert(currency, priceInEur)
    }

    /** `formatPrice` formats in the selected currency: its symbol in front for CHF and
        behind otherwise, around a number that reads back as the converted price. */
    function FormatPrice(priceInEur: real): (s: string)
      reads this
      ensures s == Format(currency, priceInEur)
      ensures var symbol := Currencies(currency).symbol;
              if currency == CHF then
                StartsWith(s, symbol + " ")
                && ParseFixed(s[|symbol| + 1..], 2) == Some(ConvertPrice(priceInEur))
              else
                |s| >= |symbol| + 1 && s[|s| - |symbol| - 1..] == " " + symbol
                && ParseFixed(s[..|s| - |symbol| - 1], 2) == Some(ConvertPrice(priceInEur))
    {
      FormatShowsConvertedValue(currency, priceInEur);
      Format(currency, priceInEur)
    }
  }
}
