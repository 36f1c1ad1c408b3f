/**
 * Reading one price shown on the page: the currency symbol table and the
 * arithmetic that turns the whole and fraction texts into a number.
 */
module Prices {
  import opened Wrappers
  import opened JsNumber
  import opened Settings

  /** The symbol the page shows for the base currency. */
  const RupeeSymbol: string := "₹"

  /** The 21 currency symbols the extension recognises, with their codes. */
  const CurrencyMapping: map<string, string> := map[
    "₹" := "INR",
    "$" := "USD",
    "€" := "EUR",
    "£" := "GBP",
    "¥" := "JPY",
    "C$" := "CAD",
    "A$" := "AUD",
    "CHF" := "CHF",
    "HK$" := "HKD",
    "S$" := "SGD",
    "₩" := "KRW",
    "R$" := "BRL",
    "RUB" := "RUB",
    "₱" := "PHP",
    "MX$" := "MXN",
    "NZ$" := "NZD",
    "ZAR" := "ZAR",
    "₺" := "TRY",
    "₪" := "ILS",
    "د.إ" := "AED",
    "kr" := "SEK"
  ]

  /**
   * The currency a price must be converted from: none for the rupee sign and
   * for any symbol outside the table (those prices are used as they are);
   * never the base currency itself.
   */
  function ConversionTarget(symbol: string): (code: Option<string>)
    ensures code.None? <==> symbol == RupeeSymbol || symbol !in CurrencyMapping
    ensures code.Some? ==> code.value == CurrencyMapping[symbol] && code.value != BaseCurrency
  {
    if symbol != RupeeSymbol && symbol in CurrencyMapping then Some(CurrencyMapping[symbol]) else None
  }

  /**
   * The price in its own currency: the whole text with every comma removed,
   * read as a number, plus the fraction text read as a number and divided by
   * 100; a missing fraction element counts as 0.
   */
  function ParsePrice(wholeText: string, fractionText: Option<string>): (r: Number)
    ensures Trim(wholeText) == [] ==> r.NaN?
    ensures r.Num? <==> ParseFloat(RemoveCommas(Trim(wholeText))).Num?
                        && (fractionText.None? || ParseFloat(Trim(fractionText.value)).Num?)
    ensures fractionText.None? ==> r == ParseFloat(RemoveCommas(Trim(wholeText)))
    ensures r.Num? && fractionText.Some? ==>
              (r.v - ParseFloat(RemoveCommas(Trim(wholeText))).v) * 100.0 == ParseFloat(Trim(fractionText.value)).v
  {
    var whole := ParseFloat(RemoveCommas(Trim(wholeText)));
    var fraction := if fractionText.Some? then ParseFloat(Trim(fractionText.value)) else Num(0.0);
    Add(whole, Div(fraction, 100.0))
  }

  /** The value of a fraction element: its digits, or 0 when there is none. */
  function FractionDigitsValue(fractionText: Option<string>): nat
    requires fractionText.Some? ==> AllDigits(fractionText.value)
  {
    if fractionText.Some? then DigitsValue(fractionText.value) else 0
  }

  lemma DigitsAndCommasUnpadded(s: string)
    requires s != [] && DigitsAndCommas(s)
    ensures Trim(s) == s
  {
    assert !IsSpace(s[0]) && !IsSpace(s[|s| - 1]);
    TrimUnpadded(s);
  }

  /**
   * On digit-and-comma text the price is the comma-free whole digits plus the
   * fraction digits over 100.
   */
  lemma ParsePriceOfDigits(wholeText: string, fractionText: Option<string>)
    requires DigitsAndCommas(wholeText) && RemoveCommas(wholeText) != []
    requires fractionText.Some? ==> fractionText.value != [] && AllDigits(fractionText.value)
    ensures ParsePrice(wholeText, fractionText)
            == Num(DigitsValue(RemoveCommas(wholeText)) as real + FractionDigitsValue(fractionText) as real / 100.0)
  {
    DigitsAndCommasUnpadded(wholeText);
    ParseFloatDigits(RemoveCommas(wholeText));
    if fractionText.Some? {
      var f := fractionText.value;
      assert DigitsAndCommas(f);
      DigitsAndCommasUnpadded(f);
      ParseFloatDigits(f);
    }
  }

  lemma CommaRemovedExample()
    ensures RemoveCommas("1,234") == "1234"
  {
    assert "1,234" == "1" + "," + "234";
    SeparatorDropped("1", "234");
    assert "1" + "234" == "1234";
    RemoveCommasNoComma("1234");
  }

  lemma DigitsOf1234()
    ensures AllDigits("1234") && DigitsValue("1234") == 1234
  {
    assert DigitsValue("1") == 1;
    assert DigitsValue("12") == 12 by { assert "12"[..1] == "1"; }
    assert DigitsValue("123") == 123 by { assert "123"[..2] == "12"; }
    assert "1234"[..3] == "123";
  }

  lemma DigitsOf56()
    ensures AllDigits("56") && DigitsValue("56") == 56
  {
    assert DigitsValue("5") == 5;
    assert "56"[..1] == "5";
  }

  lemma DigitsOf250()
    ensures AllDigits("250") && DigitsValue("250") == 250
  {
    assert DigitsValue("2") == 2;
    assert DigitsValue("25") == 25 by { assert "25"[..1] == "2"; }
    assert "250"[..2] == "25";
  }

  lemma DigitsOf00()
    ensures AllDigits("00") && DigitsValue("00") == 0
  {
    assert DigitsValue("0") == 0;
    assert "00"[..1] == "0";
  }

  /** "1,234" and "56" read as 1234.56. */
  lemma ParsePriceExample()
    ensures ParsePrice("1,234", Some("56")) == Num(1234.56)
  {
    assert DigitsAndCommas("1,234");
    CommaRemovedExample();
    DigitsOf1234();
    DigitsOf56();
    ParsePriceFromValues("1,234", Some("56"), 1234, 56);
  }

  /** The price from the values of its digit runs, for text whose digits are known. */
  lemma ParsePriceFromValues(wholeText: string, fractionText: Option<string>, whole: nat, fraction: nat)
    requires DigitsAndCommas(wholeText) && RemoveCommas(wholeText) != []
    requires fractionText.Some? ==> fractionText.value != [] && AllDigits(fractionText.value)
    requires DigitsValue(RemoveCommas(wholeText)) == whole && FractionDigitsValue(fractionText) == fraction
    ensures ParsePrice(wholeText, fractionText) == Num(whole as real + fraction as real / 100.0)
  {
    ParsePriceOfDigits(wholeText, fractionText);
  }

  /** "250" and "00" read as 250. */
  lemma ParsePriceRoundExample()
    ensures ParsePrice("250", Some("00")) == Num(250.0)
  {
    assert DigitsAndCommas("250") && ',' !in "250";
    RemoveCommasNoComma("250");
    DigitsOf250();
    DigitsOf00();
    ParsePriceFromValues("250", Some("00"), 250, 0);
  }

  /** A thousands separator between two runs of digits does not change the price. */
  lemma ParsePriceIgnoresSeparator(a: string, b: string, fractionText: Option<string>)
    requires DigitsAndCommas(a) && DigitsAndCommas(b)
    ensures ParsePrice(a + "," + b, fractionText) == ParsePrice(a + b, fractionText)
  {
    var withComma, without := a + "," + b, a + b;
    assert DigitsAndCommas(withComma) by {
      forall i | 0 <= i < |withComma| ensures IsDigit(withComma[i]) || withComma[i] == ',' {
        if i < |a| { assert withComma[i] == a[i]; }
        else if i > |a| { assert withComma[i] == b[i - |a| - 1]; }
      }
    }
    assert DigitsAndCommas(without) by {
      forall i | 0 <= i < |without| ensures IsDigit(without[i]) || without[i] == ',' {
        if i < |a| { assert without[i] == a[i]; } else { assert without[i] == b[i - |a|]; }
      }
    }
    DigitsAndCommasUnpadded(withComma);
    SeparatorDropped(a, b);
    if without != [] {
      DigitsAndCommasUnpadded(without);
    } else {
      assert RemoveCommas(withComma) == [];
    }
  }

  /** With a fraction of at most two digits, the price lies between its whole part and the next unit. */
  lemma PriceWithinOneUnit(wholeText: string, fractionText: Option<string>)
    requires DigitsAndCommas(wholeText) && RemoveCommas(wholeText) != []
    requires fractionText.Some? ==> fractionText.value != [] && AllDigits(fractionText.value) && |fractionText.value| <= 2
    ensures ParsePrice(wholeText, fractionText).Num?
    ensures var whole := DigitsValue(RemoveCommas(wholeText)) as real;
            whole <= ParsePrice(wholeText, fractionText).v < whole + 1.0
  {
    ParsePriceOfDigits(wholeText, fractionText);
    if fractionText.Some? {
      var f := fractionText.value;
      assert Pow10(|f|) <= 100 by {
        assert |f| == 1 || |f| == 2;
      }
    }
  }
}
