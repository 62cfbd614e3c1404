/**
 * The parser on particular receipt lines. Each line is passed in as a
 * parameter fixed by the precondition, and each step (the skip patterns, the
 * price match, its value, the label) is its own lemma, so that the verifier
 * works on one step at a time.
 */
module ReceiptExamples {
  import opened Options
  import opened Strings
  import opened Receipt
  import opened ReceiptFacts

  /** A trimmed line that begins with a digit, has no `#` and is not an "N items" counter matches no skip pattern. */
  lemma DigitLineMatchesNoPattern(t: string)
    requires |t| > 0 && IsDigit(t[0]) && '#' !in t && !IsItemCounter(t)
    ensures !MatchesSkipPattern(t)
  {
    assert Upper(t[0]) == t[0];
    FirstLetterRules(t, "ОБЩА");
    FirstLetterRules(t, "СУМА");
    FirstLetterRules(t, "В");
    FirstLetterRules(t, "БОН:");
    FirstLetterRules(t, "TOTAN");
    FirstLetterRules(t, "Пг.#");
    NoHashSum(t);
  }

  /** A trimmed line that begins with a digit, has no `#` and is not an "N items" counter is not skipped. */
  lemma DigitLineKept(s: string)
    requires Trimmed(s) && |s| > 0 && IsDigit(s[0]) && '#' !in s && !IsItemCounter(s)
    ensures !IsReceiptSkipLine(s)
  {
    TrimNoop(s);
    DigitLineMatchesNoPattern(s);
  }

  /** A trimmed line that begins with an ASCII letter other than T and has no `#` is not skipped. */
  lemma LatinLineKept(s: string)
    requires Trimmed(s) && |s| > 0 && '#' !in s
    requires ('a' <= s[0] <= 'z' || 'A' <= s[0] <= 'Z') && s[0] != 't' && s[0] != 'T'
    ensures !IsReceiptSkipLine(s)
  {
    TrimNoop(s);
    LatinLineMatchesNoPattern(s);
  }

  /** The match at `at`, with none before it, reaching the end of the line, is the line's last match. */
  lemma OnlyMatch(s: string, at: nat, m: PriceMatch)
    requires at < |s| && m.end == |s|
    requires forall p :: 0 <= p < at ==> MatchAt(s, p).None?
    requires MatchAt(s, at) == Some(m)
    ensures LastPriceMatch(s) == Some(m)
  {
    ExecReaches(s, 0, at);
    ExecNone(s, m.end);
    LastOfOne(s, m);
  }

  /** A kept line whose last price match `m` reads as `cents` makes the row of that price and of the label before it. */
  lemma ParsedAs(s: string, m: PriceMatch, title: string, cents: nat, qty: nat)
    requires !IsReceiptSkipLine(s) && LastPriceMatch(s) == Some(m)
    requires WellFormed(m) && PriceCents(m) == cents && 0 < cents <= MaxPriceCents
    requires m.start <= |s| && LabelOf(Trim(s[..m.start])) == (title, qty)
    ensures ParseLine(s) == Some(Parsed(title, cents, qty))
  {
    RowOfLine(s, m);
  }

  // ----- "Coffee 3 2,50": the integer part runs across the space -----

  lemma CoffeeAt(s: string)
    requires s == "Coffee 3 2,50"
    ensures MatchAt(s, 6) == Some(PriceMatch(6, 13, " 3 2", "50"))
  {
    SpanIs(s, 6, DigitOrSpace, 10);
    SpanIs(s, 13, Space, 13);
    assert s[6..10] == " 3 2" && s[11..13] == "50";
    assert CurrencyLength(s, 13) == 0;
  }

  lemma CoffeeNoEarlierMatch(s: string)
    requires s == "Coffee 3 2,50"
    ensures forall p :: 0 <= p < 6 ==> MatchAt(s, p).None?
  {
    forall p | 0 <= p < 6 ensures MatchAt(s, p).None? {
      NoMatchAt(s, p);
    }
  }

  lemma CoffeeMatch(s: string)
    requires s == "Coffee 3 2,50"
    ensures LastPriceMatch(s) == Some(PriceMatch(6, 13, " 3 2", "50"))
  {
    CoffeeAt(s);
    CoffeeNoEarlierMatch(s);
    OnlyMatch(s, 6, PriceMatch(6, 13, " 3 2", "50"));
  }

  lemma CoffeeCents(m: PriceMatch)
    requires m == PriceMatch(6, 13, " 3 2", "50")
    ensures WellFormed(m) && PriceCents(m) == 3250
  {
    CoffeeWellFormed(m);
    CoffeeDigits(m.intPart);
    assert DigitsValue("32") == 32;
  }

  lemma CoffeeWellFormed(m: PriceMatch)
    requires m == PriceMatch(6, 13, " 3 2", "50")
    ensures WellFormed(m)
  {
    assert forall k :: 0 <= k < 4 ==> InClass(m.intPart[k], DigitOrSpace);
  }

  lemma CoffeeDigits(t: string)
    requires t == " 3 2"
    ensures RemoveSpaces(t) == "32"
  {
    assert "2"[1..] == "" && RemoveSpaces("2") == "2";
    assert " 2"[1..] == "2" && RemoveSpaces(" 2") == "2";
    assert "3 2"[1..] == " 2" && RemoveSpaces("3 2") == "32";
    assert t[1..] == "3 2";
  }

  lemma CoffeeLabel(t: string)
    requires t == "Coffee"
    ensures LabelOf(Trim(t)) == ("Coffee", 1)
  {
    PlainLabel(t);
  }

  lemma CoffeeBefore(s: string)
    requires s == "Coffee 3 2,50"
    ensures LabelOf(Trim(s[..6])) == ("Coffee", 1)
  {
    assert s[..6] == "Coffee";
    CoffeeLabel(s[..6]);
  }

  /**
   * `[\d\s]+` is greedy across white space: on "Coffee 3 2,50" the price is
   * 32.50, not 2.50 with a stray 3 in the label.
   */
  lemma GreedyIntegerPart(s: string)
    requires s == "Coffee 3 2,50"
    ensures ParseLine(s) == Some(Parsed("Coffee", 3250, 1))
  {
    var m := PriceMatch(6, 13, " 3 2", "50");
    assert '#' !in s && Trimmed(s);
    LatinLineKept(s);
    CoffeeMatch(s);
    CoffeeCents(m);
    CoffeeBefore(s);
    ParsedAs(s, m, "Coffee", 3250, 1);
  }

  // ----- "3x Coffee 2,50": a quantity prefix -----

  lemma PrefixKept(s: string)
    requires s == "3x Coffee 2,50"
    ensures !IsReceiptSkipLine(s)
  {
    PrefixNotCounter(s);
    assert '#' !in s && Trimmed(s);
    DigitLineKept(s);
  }

  lemma PrefixNotCounter(s: string)
    requires s == "3x Coffee 2,50"
    ensures !IsItemCounter(s)
  {
    SpanIs(s, 0, Digit, 1);
    SpanIs(s, 1, Space, 1);
  }

  lemma PrefixNoEarlierMatch(s: string)
    requires s == "3x Coffee 2,50"
    ensures forall p :: 0 <= p < 9 ==> MatchAt(s, p).None?
  {
    forall p | 0 <= p < 9 ensures MatchAt(s, p).None? {
      if p == 0 {
        NoSeparatorAfter(s, 0, 1);
      } else if p == 2 {
        NoSeparatorAfter(s, 2, 3);
      } else {
        NoMatchAt(s, p);
      }
    }
  }

  lemma PrefixAt(s: string)
    requires s == "3x Coffee 2,50"
    ensures MatchAt(s, 9) == Some(PriceMatch(9, 14, " 2", "50"))
  {
    SpanIs(s, 9, DigitOrSpace, 11);
    SpanIs(s, 14, Space, 14);
    assert s[9..11] == " 2" && s[12..14] == "50";
    assert CurrencyLength(s, 14) == 0;
  }

  lemma PrefixMatch(s: string)
    requires s == "3x Coffee 2,50"
    ensures LastPriceMatch(s) == Some(PriceMatch(9, 14, " 2", "50"))
  {
    PrefixAt(s);
    PrefixNoEarlierMatch(s);
    OnlyMatch(s, 9, PriceMatch(9, 14, " 2", "50"));
  }

  lemma PrefixCents(m: PriceMatch)
    requires m == PriceMatch(9, 14, " 2", "50")
    ensures WellFormed(m) && PriceCents(m) == 250
  {
    assert "2"[1..] == "" && RemoveSpaces("2") == "2";
    assert " 2"[1..] == "2" && RemoveSpaces(" 2") == "2";
  }

  lemma PrefixQty(t: string)
    requires t == "3x Coffee"
    ensures QtyPrefixMatch(t) == Some(QtyPrefix(3, 3))
  {
    SpanIs(t, 0, Digit, 1);
    SpanIs(t, 1, Space, 1);
    SpanIs(t, 2, Space, 3);
    assert t[..1] == "3";
    assert DigitsValue(t[..1]) == 3;
  }

  lemma PrefixLabel(t: string)
    requires t == "3x Coffee"
    ensures LabelOf(t) == ("Coffee", 3)
  {
    PrefixQty(t);
    assert t[3..] == "Coffee";
    PrefixedLabel(t, QtyPrefix(3, 3));
  }

  lemma PrefixBefore(s: string)
    requires s == "3x Coffee 2,50"
    ensures LabelOf(Trim(s[..9])) == ("Coffee", 3)
  {
    assert s[..9] == "3x Coffee";
    TrimNoop(s[..9]);
    PrefixLabel(s[..9]);
  }

  /** A leading "3x " is taken off the label and gives the quantity: "3x Coffee 2,50" is three coffees at 2.50. */
  lemma QuantityPrefix(s: string)
    requires s == "3x Coffee 2,50"
    ensures ParseLine(s) == Some(Parsed("Coffee", 250, 3))
  {
    var m := PriceMatch(9, 14, " 2", "50");
    PrefixKept(s);
    PrefixMatch(s);
    PrefixCents(m);
    PrefixBefore(s);
    ParsedAs(s, m, "Coffee", 250, 3);
  }

  // ----- "Cola 3x 1,20": a quantity written after the name -----

  lemma ColaNoEarlierMatch(s: string)
    requires s == "Cola 3x 1,20"
    ensures forall p :: 0 <= p < 7 ==> MatchAt(s, p).None?
  {
    SpanIs(s, 4, DigitOrSpace, 6);
    SpanIs(s, 5, DigitOrSpace, 6);
    assert MatchAt(s, 4).None? && MatchAt(s, 5).None?;
  }

  lemma ColaAt(s: string)
    requires s == "Cola 3x 1,20"
    ensures MatchAt(s, 7) == Some(PriceMatch(7, 12, " 1", "20"))
  {
    SpanIs(s, 7, DigitOrSpace, 9);
    SpanIs(s, 12, Space, 12);
    assert s[7..9] == " 1" && s[10..12] == "20";
    assert CurrencyLength(s, 12) == 0;
  }

  lemma ColaMatch(s: string)
    requires s == "Cola 3x 1,20"
    ensures LastPriceMatch(s) == Some(PriceMatch(7, 12, " 1", "20"))
  {
    ColaAt(s);
    ColaNoEarlierMatch(s);
    OnlyMatch(s, 7, PriceMatch(7, 12, " 1", "20"));
  }

  lemma ColaCents(m: PriceMatch)
    requires m == PriceMatch(7, 12, " 1", "20")
    ensures WellFormed(m) && PriceCents(m) == 120
  {
    assert "1"[1..] == "" && RemoveSpaces("1") == "1";
    assert " 1"[1..] == "1" && RemoveSpaces(" 1") == "1";
    assert DigitsValue("20") == 20;
  }

  lemma ColaLabel(t: string)
    requires t == "Cola 3x"
    ensures LabelOf(Trim(t)) == ("Cola 3x", 1)
  {
    PlainLabel(t);
  }

  lemma ColaBefore(s: string)
    requires s == "Cola 3x 1,20"
    ensures LabelOf(Trim(s[..7])) == ("Cola 3x", 1)
  {
    assert s[..7] == "Cola 3x";
    ColaLabel(s[..7]);
  }

  /**
   * The quantity prefix is anchored at the start of the label: "Cola 3x 1,20"
   * keeps "Cola 3x" as its label and has quantity 1.
   */
  lemma QuantityAfterName(s: string)
    requires s == "Cola 3x 1,20"
    ensures ParseLine(s) == Some(Parsed("Cola 3x", 120, 1))
  {
    var m := PriceMatch(7, 12, " 1", "20");
    assert '#' !in s && Trimmed(s);
    LatinLineKept(s);
    ColaMatch(s);
    ColaCents(m);
    ColaBefore(s);
    ParsedAs(s, m, "Cola 3x", 120, 1);
  }

  // ----- "ОБЩА СУМА": the total line -----

  lemma TotalLineMatches(s: string)
    requires s == "ОБЩА СУМА"
    ensures IsTwoWords(s, "ОБЩА", "СУМА")
  {
    SpanIs(s, 4, Space, 5);
    assert WordAt(s, 0, "ОБЩА") && WordAt(s, 5, "СУМА");
  }

  /** The bare total line matches `/^ОБЩА\s+СУМА$/i` and gives no row. */
  lemma TotalLineSkipped(s: string)
    requires s == "ОБЩА СУМА"
    ensures IsReceiptSkipLine(s) && ParseLine(s).None?
  {
    TrimNoop(s);
    TotalLineMatches(s);
  }

  lemma TotalNotBare(s: string)
    requires s == "ОБЩА СУМА 16,10"
    ensures !IsTwoWords(s, "ОБЩА", "СУМА") && !IsWord(s, "СУМА") && !IsWord(s, "TOTAN")
  {
    SpanIs(s, 4, Space, 5);
  }

  lemma TotalOtherLetter(s: string)
    requires s == "ОБЩА СУМА 16,10"
    ensures !IsTwoWords(s, "В", "БРОЙ") && !WordAt(s, 0, "БОН:") && !IsFooterCode(s) && !IsItemCounter(s)
  {
    assert Upper(s[0]) == s[0];
    FirstLetterRules(s, "В");
    FirstLetterRules(s, "БОН:");
    FirstLetterRules(s, "Пг.#");
    SpanIs(s, 0, Digit, 0);
  }

  lemma TotalKept(s: string)
    requires s == "ОБЩА СУМА 16,10"
    ensures !IsReceiptSkipLine(s)
  {
    TotalNotBare(s);
    TotalOtherLetter(s);
    NoHashSum(s);
    NoSkipPattern(s);
  }

  lemma TotalNoEarlierMatch(s: string)
    requires s == "ОБЩА СУМА 16,10"
    ensures forall p :: 0 <= p < 9 ==> MatchAt(s, p).None?
  {
    SpanIs(s, 4, DigitOrSpace, 5);
    assert MatchAt(s, 4).None?;
  }

  lemma TotalAt(s: string)
    requires s == "ОБЩА СУМА 16,10"
    ensures MatchAt(s, 9) == Some(PriceMatch(9, 15, " 16", "10"))
  {
    SpanIs(s, 9, DigitOrSpace, 12);
    SpanIs(s, 15, Space, 15);
    assert s[9..12] == " 16" && s[13..15] == "10";
    assert CurrencyLength(s, 15) == 0;
  }

  lemma TotalMatch(s: string)
    requires s == "ОБЩА СУМА 16,10"
    ensures LastPriceMatch(s) == Some(PriceMatch(9, 15, " 16", "10"))
  {
    TotalAt(s);
    TotalNoEarlierMatch(s);
    OnlyMatch(s, 9, PriceMatch(9, 15, " 16", "10"));
  }

  lemma TotalCents(m: PriceMatch)
    requires m == PriceMatch(9, 15, " 16", "10")
    ensures WellFormed(m) && PriceCents(m) == 1610
  {
    TotalWellFormed(m);
    assert m.intPart[1..] == "16";
    SpaceThenDigits(m.intPart);
    assert DigitsValue("16") == 16;
    assert DigitsValue("10") == 10;
  }

  lemma TotalWellFormed(m: PriceMatch)
    requires m == PriceMatch(9, 15, " 16", "10")
    ensures WellFormed(m)
  {
    assert forall k :: 0 <= k < 3 ==> InClass(m.intPart[k], DigitOrSpace);
  }

  lemma TotalLabel(t: string)
    requires t == "ОБЩА СУМА"
    ensures LabelOf(Trim(t)) == ("ОБЩА СУМА", 1)
  {
    PlainLabel(t);
  }

  lemma TotalBefore(s: string)
    requires s == "ОБЩА СУМА 16,10"
    ensures LabelOf(Trim(s[..9])) == ("ОБЩА СУМА", 1)
  {
    assert s[..9] == "ОБЩА СУМА";
    TotalLabel(s[..9]);
  }

  /**
   * The skip patterns are anchored at both ends: a total line that carries
   * its amount, "ОБЩА СУМА 16,10", is not skipped and gives a row.
   */
  lemma TotalWithAmountKept(s: string)
    requires s == "ОБЩА СУМА 16,10"
    ensures ParseLine(s) == Some(Parsed("ОБЩА СУМА", 1610, 1))
  {
    var m := PriceMatch(9, 15, " 16", "10");
    TotalKept(s);
    TotalMatch(s);
    TotalCents(m);
    TotalBefore(s);
    ParsedAs(s, m, "ОБЩА СУМА", 1610, 1);
  }

  // ----- "1 234,56": white space inside the integer part -----

  lemma ThousandsKept(s: string)
    requires s == "1 234,56"
    ensures !IsReceiptSkipLine(s)
  {
    ThousandsNotCounter(s);
    assert '#' !in s && Trimmed(s);
    DigitLineKept(s);
  }

  lemma ThousandsNotCounter(s: string)
    requires s == "1 234,56"
    ensures !IsItemCounter(s)
  {
    SpanIs(s, 0, Digit, 1);
    SpanIs(s, 1, Space, 2);
  }

  lemma ThousandsAt(s: string)
    requires s == "1 234,56"
    ensures MatchAt(s, 0) == Some(PriceMatch(0, 8, "1 234", "56"))
  {
    SpanIs(s, 0, DigitOrSpace, 5);
    SpanIs(s, 8, Space, 8);
    assert s[0..5] == "1 234" && s[6..8] == "56";
    assert CurrencyLength(s, 8) == 0;
  }

  lemma ThousandsMatch(s: string)
    requires s == "1 234,56"
    ensures LastPriceMatch(s) == Some(PriceMatch(0, 8, "1 234", "56"))
  {
    ThousandsAt(s);
    OnlyMatch(s, 0, PriceMatch(0, 8, "1 234", "56"));
  }

  lemma ThousandsDigits(t: string)
    requires t == "1 234"
    ensures RemoveSpaces(t) == "1234"
  {
    assert t[1..] == " 234" && t[1..][1..] == "234";
    SpaceThenDigits(t[1..]);
  }

  lemma ThousandsValue()
    ensures DigitsValue("1234") == 1234 && DigitsValue("56") == 56
  {
    assert "1234"[..3] == "123" && "123"[..2] == "12" && "12"[..1] == "1" && "1"[..0] == "";
    assert DigitsValue("1") == 1;
    assert DigitsValue("12") == 12;
    assert DigitsValue("123") == 123;
  }

  lemma ThousandsWellFormed(m: PriceMatch)
    requires m == PriceMatch(0, 8, "1 234", "56")
    ensures WellFormed(m)
  {
    assert forall k :: 0 <= k < 5 ==> InClass(m.intPart[k], DigitOrSpace);
  }

  lemma ThousandsCents(m: PriceMatch)
    requires m == PriceMatch(0, 8, "1 234", "56")
    ensures WellFormed(m) && PriceCents(m) == 123456
  {
    ThousandsWellFormed(m);
    ThousandsDigits(m.intPart);
    ThousandsValue();
  }

  lemma EmptyLabel(t: string)
    requires t == ""
    ensures LabelOf(Trim(t)) == (Unreadable, 1)
  {
    TrimNoop(t);
    SpanIs(t, 0, Digit, 0);
  }

  /**
   * White space inside the integer part is dropped, "1 234,56" reading as
   * 1234.56; with nothing before the price the row gets the unreadable label.
   */
  lemma ThousandsSeparator(s: string)
    requires s == "1 234,56"
    ensures ParseLine(s) == Some(Parsed(Unreadable, 123456, 1))
  {
    var m := PriceMatch(0, 8, "1 234", "56");
    ThousandsKept(s);
    ThousandsMatch(s);
    ThousandsCents(m);
    EmptyLabel(s[..0]);
    ParsedAs(s, m, Unreadable, 123456, 1);
  }

  // ----- "Milk 1,20 2,40": two prices on one line -----

  lemma NoCurrencyAtDigit(s: string, i: nat)
    requires i < |s| && IsDigit(s[i])
    ensures CurrencyLength(s, i) == 0
  {
    assert Upper(s[i]) == s[i];
    FirstLetterRulesAt(s, i, "€");
    FirstLetterRulesAt(s, i, "eur");
    FirstLetterRulesAt(s, i, "лв");
    FirstLetterRulesAt(s, i, "лв.");
    FirstLetterRulesAt(s, i, "bgn");
  }

  lemma MilkFirst(s: string)
    requires s == "Milk 1,20 2,40"
    ensures ExecFrom(s, 0) == Some(PriceMatch(4, 10, " 1", "20"))
  {
    MilkFirstAt(s);
    forall p | 0 <= p < 4 ensures MatchAt(s, p).None? {
      NoMatchAt(s, p);
    }
    ExecReaches(s, 0, 4);
  }

  lemma MilkFirstAt(s: string)
    requires s == "Milk 1,20 2,40"
    ensures MatchAt(s, 4) == Some(PriceMatch(4, 10, " 1", "20"))
  {
    MilkFirstRuns(s);
    assert s[4..6] == " 1" && s[7..9] == "20";
  }

  lemma MilkFirstRuns(s: string)
    requires s == "Milk 1,20 2,40"
    ensures Span(s, 4, DigitOrSpace) == 6 && Span(s, 9, Space) == 10 && CurrencyLength(s, 10) == 0
  {
    SpanIs(s, 4, DigitOrSpace, 6);
    SpanIs(s, 9, Space, 10);
    NoCurrencyAtDigit(s, 10);
  }

  lemma MilkSecond(s: string)
    requires s == "Milk 1,20 2,40"
    ensures ExecFrom(s, 10) == Some(PriceMatch(10, 14, "2", "40"))
  {
    SpanIs(s, 10, DigitOrSpace, 11);
    SpanIs(s, 14, Space, 14);
    assert CurrencyLength(s, 14) == 0;
    assert s[10..11] == "2" && s[12..14] == "40";
    assert MatchAt(s, 10) == Some(PriceMatch(10, 14, "2", "40"));
    ExecReaches(s, 10, 10);
  }

  lemma MilkMatch(s: string)
    requires s == "Milk 1,20 2,40"
    ensures LastPriceMatch(s) == Some(PriceMatch(10, 14, "2", "40"))
  {
    MilkFirst(s);
    MilkSecond(s);
    ExecNone(s, 14);
    LastOfTwo(s, PriceMatch(4, 10, " 1", "20"), PriceMatch(10, 14, "2", "40"));
  }

  lemma MilkCents(m: PriceMatch)
    requires m == PriceMatch(10, 14, "2", "40")
    ensures WellFormed(m) && PriceCents(m) == 240
  {
    assert "2"[1..] == "" && RemoveSpaces("2") == "2";
    assert DigitsValue("40") == 40;
  }

  lemma MilkLabel(t: string)
    requires t == "Milk 1,20 "
    ensures LabelOf(Trim(t)) == ("Milk 1,20", 1)
  {
    MilkTrim(t);
    PlainLabel("Milk 1,20");
  }

  lemma MilkTrim(t: string)
    requires t == "Milk 1,20 "
    ensures Trim(t) == "Milk 1,20"
  {
    SpanIs(t, 0, Space, 0);
    assert SpaceBefore(t, 9) == 9;
    assert SpaceBefore(t, 10) == 9;
  }

  lemma MilkBefore(s: string)
    requires s == "Milk 1,20 2,40"
    ensures LabelOf(Trim(s[..10])) == ("Milk 1,20", 1)
  {
    assert s[..10] == "Milk 1,20 ";
    MilkLabel(s[..10]);
  }

  /** The rightmost price on a line wins: "Milk 1,20 2,40" costs 2.40 and keeps "Milk 1,20" as its label. */
  lemma RightmostPrice(s: string)
    requires s == "Milk 1,20 2,40"
    ensures ParseLine(s) == Some(Parsed("Milk 1,20", 240, 1))
  {
    var m := PriceMatch(10, 14, "2", "40");
    assert '#' !in s && Trimmed(s);
    LatinLineKept(s);
    MilkMatch(s);
    MilkCents(m);
    MilkBefore(s);
    ParsedAs(s, m, "Milk 1,20", 240, 1);
  }
}
