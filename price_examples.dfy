/** Worked inputs of the price-text parser, each proved from the general
    lemmas of module Price. */
module PriceExamples {
  import opened Wrappers
  import opened Text
  import opened Price

  lemma SmallValues()
    ensures DecimalValue("5000") == 5000 && DecimalValue("100") == 100
    ensures DecimalValue("50") == 50 && DecimalValue("5") == 5
  {
    assert "5000"[..3] == "500" && "500"[..2] == "50" && "50"[..1] == "5" && "5"[..0] == "";
    assert "100"[..2] == "10" && "10"[..1] == "1" && "1"[..0] == "";
  }

  lemma WholeAmount(t: string, n: nat)
    requires |t| > 0 && AllDigits(t) && DecimalValue(t) == n
    ensures ToAmount(RemoveCommas(t)) == Number(n * 100)
  {
    RemoveCommasFree(t);
  }

  // "$1,234.56" is 1234.56 US dollars.

  lemma CommaAndCentsMatch()
    ensures MatchAt(Patterns[0], "$1,234.56", 0) == Some("1,234.56")
  {
    var s := "$1,234.56";
    assert SkipSpaces(s, 1) == 1;
    assert SkipDigitsCommas(s, 6) == 6;
    assert SkipDigitsCommas(s, 2) == 6;
    assert s[6] == '.' && IsDigit(s[7]) && IsDigit(s[8]);
    assert s[1..9] == "1,234.56";
    NotLiteralAt(s, 0, "usd");
    NotLiteralAt(s, 0, "us");
    assert LiteralAt(s, 0, "$");
  }

  /** A whole part, a point and two digits of cents. */
  lemma FractionAmount(w: string, c: string)
    requires |w| > 0 && AllDigits(w) && |c| == 2 && AllDigits(c)
    ensures ToAmount(w + "." + c) == Number(DecimalValue(w) * 100 + DecimalValue(c))
  {
    var t := w + "." + c;
    assert t[|w|] == '.';
    assert t[..|t| - 3] == w;
    assert t[|t| - 2..] == c;
  }

  lemma CommaAndCentsRemoved()
    ensures RemoveCommas("1,234.56") == "1234.56"
  {
    assert "1,234.56" == "1" + "," + "234.56";
    RemoveOneComma("1", "234.56");
    assert "1" + "234.56" == "1234.56";
  }

  lemma CommaAndCentsAmount()
    ensures ToAmount("1234.56") == Number(123456)
  {
    assert "1234.56" == "1234" + "." + "56";
    FractionAmount("1234", "56");
    assert "1234"[..3] == "123" && "123"[..2] == "12" && "12"[..1] == "1" && "1"[..0] == "";
    assert "56"[..1] == "5" && "5"[..0] == "";
    assert DecimalValue("1234") == 1234 && DecimalValue("56") == 56;
  }

  lemma DollarsWithCommaAndCents()
    ensures ParsePrice("$1,234.56") == Some(PriceMatch(USD, Number(123456)))
  {
    CommaAndCentsMatch();
    MatchAtStart("$1,234.56", 0);
    CommaAndCentsRemoved();
    CommaAndCentsAmount();
  }

  // "¥<digits>" is that many yen; "¥5000" is 5000 yen.

  lemma YenMatch(digits: string)
    requires |digits| > 0 && AllDigits(digits)
    ensures MatchAt(Patterns[5], [Yen] + digits, 0) == Some(digits)
  {
    var s := [Yen] + digits;
    assert Patterns[5] == Pattern([Literal("jpy"), Literal([Yen])], false, JPY);
    NotLiteralAt(s, 0, "jpy");
    assert LiteralAt(s, 0, [Yen]);
    assert MarkerEnds(Literal([Yen]), s, 0) == [1];
    assert SkipSpaces(s, 1) == 1;
    assert forall k :: 1 <= k < |s| ==> s[k] == digits[k - 1];
    assert s[1..|s|] == digits;
    assert AmountAt(s, 1, false) == Some(digits);
    assert MarkersAt([Literal([Yen])], s, 0, false) == Some(digits);
    assert [Literal("jpy"), Literal([Yen])][1..] == [Literal([Yen])];
  }

  lemma YenNoEarlierPattern(digits: string)
    requires AllDigits(digits)
    ensures forall j :: 0 <= j < 5 ==> Search(Patterns[j], [Yen] + digits).None?
  {
    var s := [Yen] + digits;
    forall j | 0 <= j < 5 ensures Search(Patterns[j], s).None? {
      forall i, m | 0 <= i < |s| && 0 <= m < |Patterns[j].markers|
        ensures !CanStart(Patterns[j].markers[m], Fold(s[i]))
      {
        if i >= 1 {
          assert IsDigit(digits[i - 1]);
        }
      }
      SearchNeedsStart(Patterns[j], s);
    }
  }

  /** A whole number of yen written with the yen sign. */
  lemma YenSign(digits: string)
    requires |digits| > 0 && AllDigits(digits)
    ensures ParsePrice([Yen] + digits) == Some(PriceMatch(JPY, Number(DecimalValue(digits) * 100)))
  {
    YenNoEarlierPattern(digits);
    YenMatch(digits);
    MatchAtStart([Yen] + digits, 5);
    WholeAmount(digits, DecimalValue(digits));
  }

  lemma Yen5000()
    ensures ParsePrice([Yen] + "5000") == Some(PriceMatch(JPY, Number(500000)))
  {
    YenSign("5000");
    SmallValues();
  }

  /** The euro marker comes first in the text, yet the dollar wins. */
  lemma DollarBeatsEarlierEuro()
    ensures ParsePrice([Euro] + "9 / $10").Some?
    ensures ParsePrice([Euro] + "9 / $10").value.currency == USD
  {
    var s := [Euro] + "9 / $10";
    assert s[5] == '$';
    assert SkipSpaces(s, 6) == 6;
    DollarMeansUsd(s, 5);
  }

  // "C$<digits>" (such as "C$100") is read as US dollars, through the bare
  // `$` of the USD pattern, which matches one character in.

  lemma CanadianSignNoMatchAtStart(digits: string)
    ensures MatchAt(Patterns[0], "C$" + digits, 0).None?
  {
    var s := "C$" + digits;
    assert Fold(s[0]) == 'c';
    forall i | 0 <= i < |Patterns[0].markers| ensures !CanStart(Patterns[0].markers[i], Fold(s[0])) {
      assert Patterns[0].markers[i] in [Literal("usd"), UsDollar, Literal("$")];
    }
    MarkersAtNeedStart(Patterns[0].markers, s, 0, true);
  }

  lemma CanadianSignMatch(digits: string)
    requires |digits| > 0 && AllDigits(digits)
    ensures MatchAt(Patterns[0], "C$" + digits, 1) == Some(digits)
  {
    var s := "C$" + digits;
    var ms := Patterns[0].markers;
    assert ms == [Literal("usd"), UsDollar, Literal("$")];
    NotLiteralAt(s, 1, "usd");
    NotLiteralAt(s, 1, "us");
    assert LiteralAt(s, 1, "$");
    assert MarkerEnds(ms[0], s, 1) == [] && MarkerEnds(ms[1], s, 1) == [];
    assert MarkerEnds(ms[2], s, 1) == [2];
    assert SkipSpaces(s, 2) == 2;
    assert forall k :: 2 <= k < |s| ==> s[k] == digits[k - 2];
    assert SkipDigitsCommas(s, 3) == |s|;
    assert s[2..|s|] == digits;
    assert AmountAt(s, 2, true) == Some(digits);
    assert FirstAmount(s, [2], true) == Some(digits);
    assert ms[1..][1..] == ms[2..];
    assert MarkersAt(ms[2..], s, 1, true) == Some(digits);
    assert MarkersAt(ms[1..], s, 1, true) == Some(digits);
    assert MarkersAt(ms, s, 1, true) == Some(digits);
  }

  lemma CanadianSign(digits: string)
    requires |digits| > 0 && AllDigits(digits)
    ensures ParsePrice("C$" + digits) == Some(PriceMatch(USD, Number(DecimalValue(digits) * 100)))
  {
    var s := "C$" + digits;
    CanadianSignNoMatchAtStart(digits);
    CanadianSignMatch(digits);
    forall q | 0 <= q < 1 ensures MatchAt(Patterns[0], s, q).None? {
      assert q == 0;
    }
    SearchFinds(Patterns[0], s, 1);
    FirstMatchIs(Patterns, s, 0);
    WholeAmount(digits, DecimalValue(digits));
  }

  // "CAD", any run of whitespace (possibly none), then digits reaches the CAD
  // pattern: no earlier pattern can start anywhere in such a text.

  predicate AllSpaces(w: string) {
    forall k :: 0 <= k < |w| ==> IsSpace(w[k])
  }

  lemma CadWordMatch(spaces: string, digits: string)
    requires AllSpaces(spaces) && |digits| > 0 && AllDigits(digits)
    ensures MatchAt(Patterns[3], "CAD" + spaces + digits, 0) == Some(digits)
  {
    var s := "CAD" + spaces + digits;
    var d := 3 + |spaces|;
    assert Patterns[3] == Pattern([Literal("cad"), Literal("c$")], true, CAD);
    assert s[0] == 'C' && s[1] == 'A' && s[2] == 'D';
    assert LiteralAt(s, 0, "cad");
    assert MarkerEnds(Literal("cad"), s, 0) == [3];
    assert forall k :: 3 <= k < d ==> s[k] == spaces[k - 3];
    assert forall k :: d <= k < |s| ==> s[k] == digits[k - d];
    SkipSpacesOver(s, 3, d);
    assert SkipDigitsCommas(s, d + 1) == |s|;
    assert s[d..|s|] == digits;
    assert AmountAt(s, 3, true) == Some(digits);
  }

  /** `\s*` from `q` stops at `d` when whitespace runs up to `d` and a digit sits there. */
  lemma SkipSpacesOver(s: string, q: nat, d: nat)
    requires q <= d < |s| && IsDigit(s[d])
    requires forall k :: q <= k < d ==> IsSpace(s[k])
    ensures SkipSpaces(s, q) == d
  {
    assert !IsSpace(s[d]);
  }

  lemma CadNoEarlierPattern(spaces: string, digits: string)
    requires AllSpaces(spaces) && AllDigits(digits)
    ensures forall j :: 0 <= j < 3 ==> Search(Patterns[j], "CAD" + spaces + digits).None?
  {
    var s := "CAD" + spaces + digits;
    var d := 3 + |spaces|;
    forall j | 0 <= j < 3 ensures Search(Patterns[j], s).None? {
      forall i, m | 0 <= i < |s| && 0 <= m < |Patterns[j].markers|
        ensures !CanStart(Patterns[j].markers[m], Fold(s[i]))
      {
        if i >= d {
          assert s[i] == digits[i - d] && IsDigit(digits[i - d]);
        } else if i >= 3 {
          assert s[i] == spaces[i - 3] && IsSpace(spaces[i - 3]);
        }
      }
      SearchNeedsStart(Patterns[j], s);
    }
  }

  /** A whole number of Canadian dollars written with the currency code,
      separated from it by any whitespace or none. */
  lemma CadWord(spaces: string, digits: string)
    requires AllSpaces(spaces) && |digits| > 0 && AllDigits(digits)
    ensures ParsePrice("CAD" + spaces + digits) == Some(PriceMatch(CAD, Number(DecimalValue(digits) * 100)))
  {
    CadNoEarlierPattern(spaces, digits);
    CadWordMatch(spaces, digits);
    MatchAtStart("CAD" + spaces + digits, 3);
    WholeAmount(digits, DecimalValue(digits));
  }

  // The leftmost dollar amount is taken: "$5 or $10" is 5 dollars.

  lemma LeftmostMatch()
    ensures MatchAt(Patterns[0], "$5 or $10", 0) == Some("5")
  {
    var s := "$5 or $10";
    NotLiteralAt(s, 0, "usd");
    NotLiteralAt(s, 0, "us");
    assert LiteralAt(s, 0, "$");
    assert SkipSpaces(s, 1) == 1;
    assert SkipDigitsCommas(s, 2) == 2;
    assert s[1..2] == "5";
  }

  lemma LeftmostAmount()
    ensures ParsePrice("$5 or $10") == Some(PriceMatch(USD, Number(500)))
  {
    LeftmostMatch();
    MatchAtStart("$5 or $10", 0);
    SmallValues();
    WholeAmount("5", 5);
  }

  // "usd 50", "USD 50" and "us$50" are all 50 US dollars.

  lemma UsdWordMatch()
    ensures MatchAt(Patterns[0], "usd 50", 0) == Some("50")
  {
    var s := "usd 50";
    assert LiteralAt(s, 0, "usd");
    assert SkipSpaces(s, 3) == 4;
    assert SkipDigitsCommas(s, 5) == 6;
    assert s[4..6] == "50";
  }

  lemma UsDollarMatch()
    ensures MatchAt(Patterns[0], "us$50", 0) == Some("50")
  {
    var t := "us$50";
    assert !LiteralAt(t, 0, "usd") by {
      assert Fold(t[0 + 2]) != "usd"[2];
    }
    assert LiteralAt(t, 0, "us");
    assert MarkerEnds(UsDollar, t, 0) == [3];
    assert SkipSpaces(t, 3) == 3;
    assert SkipDigitsCommas(t, 4) == 5;
    assert t[3..5] == "50";
    assert Patterns[0].markers[1..][0] == UsDollar;
  }

  lemma UsdWord()
    ensures ParsePrice("usd 50") == Some(PriceMatch(USD, Number(5000)))
  {
    UsdWordMatch();
    MatchAtStart("usd 50", 0);
    SmallValues();
    WholeAmount("50", 50);
  }

  lemma UsDollarSign()
    ensures ParsePrice("us$50") == Some(PriceMatch(USD, Number(5000)))
  {
    UsDollarMatch();
    MatchAtStart("us$50", 0);
    SmallValues();
    WholeAmount("50", 50);
  }

  lemma UsdUpperCase()
    ensures ParsePrice("USD 50") == Some(PriceMatch(USD, Number(5000)))
  {
    UsdWord();
    assert SameIgnoringCase("usd 50", "USD 50");
    ParsePriceIgnoresCase("usd 50", "USD 50");
  }

  lemma UsdSpellings()
    ensures ParsePrice("usd 50") == Some(PriceMatch(USD, Number(5000)))
    ensures ParsePrice("USD 50") == Some(PriceMatch(USD, Number(5000)))
    ensures ParsePrice("us$50") == Some(PriceMatch(USD, Number(5000)))
  {
    UsdWord();
    UsdUpperCase();
    UsDollarSign();
  }

  // Continental notation is not understood: "€2.000,00" is read as 2.00
  // euros, because `.00` completes the amount.

  lemma ContinentalMatch()
    ensures MatchAt(Patterns[1], [Euro] + "2.000,00", 0) == Some("2.00")
  {
    var s := [Euro] + "2.000,00";
    assert Patterns[1] == Pattern([Literal("eur"), Literal([Euro])], true, EUR);
    NotLiteralAt(s, 0, "eur");
    assert LiteralAt(s, 0, [Euro]);
    assert MarkerEnds(Literal([Euro]), s, 0) == [1];
    assert SkipSpaces(s, 1) == 1;
    assert SkipDigitsCommas(s, 2) == 2;
    assert s[2] == '.' && IsDigit(s[3]) && IsDigit(s[4]);
    assert s[1..5] == "2.00";
    assert AmountAt(s, 1, true) == Some("2.00");
    assert MarkersAt([Literal([Euro])], s, 0, true) == Some("2.00");
    assert [Literal("eur"), Literal([Euro])][1..] == [Literal([Euro])];
  }

  lemma ContinentalAmount()
    ensures ToAmount(RemoveCommas("2.00")) == Number(200)
  {
    RemoveCommasFree("2.00");
    assert "2.00" == "2" + "." + "00";
    FractionAmount("2", "00");
    TwoAndNoCents();
  }

  lemma TwoAndNoCents()
    ensures DecimalValue("2") == 2 && DecimalValue("00") == 0
  {
    assert "2"[..0] == "" && "00"[..1] == "0" && "0"[..0] == "";
  }

  lemma ContinentalEuroNotation()
    ensures ParsePrice([Euro] + "2.000,00") == Some(PriceMatch(EUR, Number(200)))
  {
    var s := [Euro] + "2.000,00";
    SearchNeedsStart(Patterns[0], s);
    ContinentalMatch();
    MatchAtStart(s, 1);
    ContinentalAmount();
  }

  /** Empty text and a bare number have no price. */
  lemma NoPrice()
    ensures ParsePrice("") == None
    ensures ParsePrice("1000") == None
  {
    NoMarkerNoPrice("1000");
  }
}
