/**
 * The worked examples of the receipt processor, proved about the model. Each example
 * takes its input as a parameter pinned to one literal by its `requires` (for instance
 * `requires s == "Target"`): it is a statement about that one value, not a general lemma.
 * Stating it this way keeps the literal out of the callers' proof contexts.
 */
module Scenarios {
  import opened Wrappers
  import opened Text
  import opened Numbers
  import opened Rules
  import opened Validator

  /** The value of a one- or two-digit literal. */
  lemma SmallNumber(s: string, n: nat)
    requires |s| == 2 && IsDigit(s[0]) && IsDigit(s[1]) && n == 10 * DigitValue(s[0]) + DigitValue(s[1])
    ensures ParseNat(s) == Some(n)
  {
    assert s == [s[0], s[1]];
    TwoDigitsValue(s[0], s[1]);
  }

  /** An amount `W.CC` with a two-digit whole part. */
  lemma SmallAmount(s: string, cents: nat)
    requires |s| == 5 && s[2] == '.'
    requires forall i :: 0 <= i < 5 && i != 2 ==> IsDigit(s[i])
    requires cents == 1000 * DigitValue(s[0]) + 100 * DigitValue(s[1]) + 10 * DigitValue(s[3]) + DigitValue(s[4])
    ensures ParseCents(s) == Some(cents)
  {
    assert s[..2] == [s[0], s[1]];
    assert s[3..] == [s[3], s[4]];
    TwoDigitsValue(s[0], s[1]);
    TwoDigitsValue(s[3], s[4]);
    assert IsMoney(s);
  }

  /** An amount `W.CC` with a one-digit whole part. */
  lemma TinyAmount(s: string, cents: nat)
    requires |s| == 4 && s[1] == '.'
    requires forall i :: 0 <= i < 4 && i != 1 ==> IsDigit(s[i])
    requires cents == 100 * DigitValue(s[0]) + 10 * DigitValue(s[2]) + DigitValue(s[3])
    ensures ParseCents(s) == Some(cents)
  {
    assert s[..1] == [s[0]];
    assert s[..1][..0] == [];
    assert s[2..] == [s[2], s[3]];
    assert DigitsValue(s[..1]) == DigitValue(s[0]);
    TwoDigitsValue(s[2], s[3]);
    assert IsMoney(s);
  }

  /** A description with no surrounding whitespace and only BMP characters. */
  lemma PlainLength(s: string)
    requires |s| > 0 && !IsJsWhitespace(s[0]) && !IsJsWhitespace(s[|s| - 1])
    requires forall i :: 0 <= i < |s| ==> s[i] as int <= 0xFFFF
    ensures TrimmedLength(s) == |s|
  {
    TrimOfTrimmed(s);
  }

  /** Rule 1: "Target" has six alphanumeric characters. */
  lemma TargetRetailer(s: string)
    requires s == "Target"
    ensures AlnumCount(s) == 6
  {
    AlnumCountExtremes(s);
  }

  /** Rule 1: "M&M Corner Market" has fourteen; the `&` and the spaces do not count. */
  lemma CornerMarketRetailer(s: string)
    requires s == "M&M Corner Market"
    ensures AlnumCount(s) == 14
  {
    assert s == "M&M" + " Corner" + " Market";
    AlnumCountOfThree("M&M", " Corner", " Market");
    InitialsCount("M&M");
    SpacedWordCount(" Corner", "Corner");
    SpacedWordCount(" Market", "Market");
  }

  /** Rule 1 over three consecutive parts. */
  lemma AlnumCountOfThree(a: string, b: string, c: string)
    ensures AlnumCount(a + b + c) == AlnumCount(a) + AlnumCount(b) + AlnumCount(c)
  {
    AlnumCountConcat(a + b, c);
    AlnumCountConcat(a, b);
  }

  /** "M&M" has two alphanumeric characters. */
  lemma InitialsCount(s: string)
    requires s == "M&M"
    ensures AlnumCount(s) == 2
  {
    assert s == "M" + "&" + "M";
    AlnumCountOfThree("M", "&", "M");
    AlnumCountExtremes("M");
    AlnumCountExtremes("&");
  }

  /** A space followed by a word of letters counts the letters only. */
  lemma SpacedWordCount(s: string, word: string)
    requires s == " " + word
    requires forall i :: 0 <= i < |word| ==> IsAsciiAlnum(word[i])
    ensures AlnumCount(s) == |word|
  {
    AlnumCountConcat(" ", word);
    AlnumCountExtremes(" ");
    AlnumCountExtremes(word);
  }

  /** Rules 2 and 3: "35.00" earns 50 + 25. */
  lemma RoundTotal(s: string)
    requires s == "35.00"
    ensures ParseCents(s) == Some(3500)
    ensures RoundDollarPoints(s) == 50 && QuarterPoints(3500) == 25
  {
    SmallAmount(s, 3500);
  }

  /** Rules 2 and 3: "35.35" earns nothing from either. */
  lemma PlainTotal(s: string)
    requires s == "35.35"
    ensures ParseCents(s) == Some(3535)
    ensures RoundDollarPoints(s) == 0 && QuarterPoints(3535) == 0
  {
    SmallAmount(s, 3535);
  }

  /** Rules 2 and 3: "9.00" earns 50 + 25. */
  lemma NineDollarTotal(s: string)
    requires s == "9.00"
    ensures ParseCents(s) == Some(900)
    ensures RoundDollarPoints(s) == 50 && QuarterPoints(900) == 25
  {
    TinyAmount(s, 900);
  }

  /** Rule 4: 4 and 5 items both earn 10, a single item nothing. */
  lemma PairExamples()
    ensures PairPoints(4) == 10 && PairPoints(5) == 10 && PairPoints(1) == 0
  {
  }

  /** Rule 6: "2022-01-01" falls on day 1, which is odd. */
  lemma OddDate(d: string)
    requires d == "2022-01-01"
    ensures DayOfMonth(d) == Some(1) && OddDayPoints(1) == 6
  {
    assert d == "2022" + "-" + "01" + "-" + "01";
    DayOfMonthOfFields("2022", "01", "01");
    SmallNumber("01", 1);
  }

  /** Rule 6: "2022-03-20" falls on day 20, which is even. */
  lemma EvenDate(d: string)
    requires d == "2022-03-20"
    ensures DayOfMonth(d) == Some(20) && OddDayPoints(20) == 0
  {
    assert d == "2022" + "-" + "03" + "-" + "20";
    DayOfMonthOfFields("2022", "03", "20");
    SmallNumber("20", 20);
  }

  /** Rule 7: "14:33" lies in the afternoon window. */
  lemma AfternoonTime(t: string)
    requires t == "14:33"
    ensures ParseClock(t) == Some(Clock(14, 33)) && AfternoonPoints(Clock(14, 33)) == 10
  {
    assert t == "14" + ":" + "33";
    ParseClockOfFields("14", "33");
    SmallNumber("14", 14);
    SmallNumber("33", 33);
  }

  /** Rule 7: "13:01" does not. */
  lemma LunchTime(t: string)
    requires t == "13:01"
    ensures ParseClock(t) == Some(Clock(13, 1)) && AfternoonPoints(Clock(13, 1)) == 0
  {
    assert t == "13" + ":" + "01";
    ParseClockOfFields("13", "01");
    SmallNumber("13", 13);
    SmallNumber("01", 1);
  }

  /** Rule 7: the window ends before 16:00 and starts after 13:59. */
  lemma WindowEdges()
    ensures AfternoonPoints(Clock(13, 59)) == 0 && AfternoonPoints(Clock(16, 0)) == 0
    ensures AfternoonPoints(Clock(14, 0)) == 10 && AfternoonPoints(Clock(15, 59)) == 10
  {
  }

  /** "Mountain Dew 12PK" has no surrounding whitespace and 17 characters. */
  lemma MountainDewLength(s: string)
    requires s == "Mountain Dew 12PK"
    ensures TrimmedLength(s) == 17
  {
    PlainLength(s);
  }

  /** "Knorr Creamy Chicken" has no surrounding whitespace and 20 characters. */
  lemma KnorrLength(s: string)
    requires s == "Knorr Creamy Chicken"
    ensures TrimmedLength(s) == 20
  {
    PlainLength(s);
  }

  /** "Doritos Nacho Cheese" has no surrounding whitespace and 20 characters. */
  lemma DoritosLength(s: string)
    requires s == "Doritos Nacho Cheese"
    ensures TrimmedLength(s) == 20
  {
    PlainLength(s);
  }

  /** "Gatorade" has no surrounding whitespace and 8 characters. */
  lemma GatoradeLength(s: string)
    requires s == "Gatorade"
    ensures TrimmedLength(s) == 8
  {
    PlainLength(s);
  }

  /** "Emils Cheese Pizza" has no surrounding whitespace and 18 characters. */
  lemma EmilsLength(s: string)
    requires s == "Emils Cheese Pizza"
    ensures TrimmedLength(s) == 18
  {
    PlainLength(s);
  }

  /** An item whose trimmed description length is not a multiple of 3. */
  lemma ShortItem(x: Item, n: nat)
    requires TrimmedLength(x.shortDescription) == n && n % 3 != 0
    ensures ItemPoints(x) == Some(0)
  {
  }

  /** An item whose trimmed description length is a multiple of 3. */
  lemma MatchingItem(x: Item, n: nat, cents: nat)
    requires TrimmedLength(x.shortDescription) == n && n % 3 == 0
    requires ParseCents(x.price) == Some(cents)
    ensures ItemPoints(x) == Some(PricePoints(cents))
  {
  }

  /** Rule 5: a blank description has trimmed length 0, a multiple of 3. */
  lemma BlankDescriptionExample(x: Item)
    requires x.shortDescription == "   " && x.price == "1.00"
    ensures ItemPoints(x) == Some(1)
  {
    assert TrimmedSlice("   ", 0, 0);
    TrimUnique("   ", 0, 0);
    TinyAmount("1.00", 100);
  }

  /** "Mountain Dew 12PK" has 17 characters, so its price is never read. */
  lemma MountainDewItem(x: Item)
    requires x.shortDescription == "Mountain Dew 12PK"
    ensures ItemPoints(x) == Some(0)
  {
    MountainDewLength(x.shortDescription);
    ShortItem(x, 17);
  }

  /** "Emils Cheese Pizza" has 18 characters: ceil(12.25 * 0.2) = 3. */
  lemma EmilsItem(x: Item)
    requires x.shortDescription == "Emils Cheese Pizza" && x.price == "12.25"
    ensures ItemPoints(x) == Some(3)
  {
    EmilsLength(x.shortDescription);
    SmallAmount(x.price, 1225);
    MatchingItem(x, 18, 1225);
  }

  /** "Knorr Creamy Chicken" has 20 characters. */
  lemma KnorrItem(x: Item)
    requires x.shortDescription == "Knorr Creamy Chicken"
    ensures ItemPoints(x) == Some(0)
  {
    KnorrLength(x.shortDescription);
    ShortItem(x, 20);
  }

  /** "Doritos Nacho Cheese" has 20 characters. */
  lemma DoritosItem(x: Item)
    requires x.shortDescription == "Doritos Nacho Cheese"
    ensures ItemPoints(x) == Some(0)
  {
    DoritosLength(x.shortDescription);
    ShortItem(x, 20);
  }

  /** The Klarbrunn description loses three leading and two trailing spaces. */
  lemma KlarbrunnLength(d: string)
    requires d == "   Klarbrunn 12-PK 12 FL OZ  "
    ensures TrimmedLength(d) == 24
  {
    assert d == "   " + "Klarbrunn 12-PK 12 FL OZ" + "  ";
    TrimPadded("   ", "Klarbrunn 12-PK 12 FL OZ", "  ");
    KlarbrunnCore("Klarbrunn 12-PK 12 FL OZ");
  }

  /** The trimmed Klarbrunn description is 24 UTF-16 code units long. */
  lemma KlarbrunnCore(core: string)
    requires core == "Klarbrunn 12-PK 12 FL OZ"
    ensures Utf16Length(core) == 24
  {
  }

  /** The trimmed Klarbrunn description has 24 characters: ceil(12.00 * 0.2) = 3. */
  lemma KlarbrunnItem(x: Item)
    requires x.shortDescription == "   Klarbrunn 12-PK 12 FL OZ  " && x.price == "12.00"
    ensures ItemPoints(x) == Some(3)
  {
    KlarbrunnLength(x.shortDescription);
    SmallAmount(x.price, 1200);
    MatchingItem(x, 24, 1200);
  }

  /** Rule 5 on the five "Target" items: 3 for the pizza and 3 for the trimmed Klarbrunn pack. */
  lemma TargetItems(items: seq<Item>)
    requires |items| == 5
    requires items[0].shortDescription == "Mountain Dew 12PK" && items[0].price == "6.49"
    requires items[1].shortDescription == "Emils Cheese Pizza" && items[1].price == "12.25"
    requires items[2].shortDescription == "Knorr Creamy Chicken" && items[2].price == "1.26"
    requires items[3].shortDescription == "Doritos Nacho Cheese" && items[3].price == "3.35"
    requires items[4].shortDescription == "   Klarbrunn 12-PK 12 FL OZ  " && items[4].price == "12.00"
    ensures DescriptionPoints(items) == Some(6)
  {
    MountainDewItem(items[0]);
    EmilsItem(items[1]);
    KnorrItem(items[2]);
    DoritosItem(items[3]);
    KlarbrunnItem(items[4]);
    TargetItemSum(items);
  }

  /** The five "Target" item contributions add up to 6. */
  lemma TargetItemSum(items: seq<Item>)
    requires |items| == 5
    requires ItemPoints(items[0]) == Some(0) && ItemPoints(items[1]) == Some(3)
    requires ItemPoints(items[2]) == Some(0) && ItemPoints(items[3]) == Some(0)
    requires ItemPoints(items[4]) == Some(3)
    ensures DescriptionPoints(items) == Some(6)
  {
    DescriptionPointsSum(items, [0, 3, 0, 0, 3]);
    TotalOfFive(0, 3, 0, 0, 3);
  }

  /** The sum of five contributions. */
  lemma TotalOfFive(a: nat, b: nat, c: nat, d: nat, e: nat)
    ensures Total([a, b, c, d, e]) == a + b + c + d + e
  {
    assert [a][..0] == [];
    assert Total([a]) == a;
    assert [a, b][..1] == [a];
    assert Total([a, b]) == a + b;
    assert [a, b, c][..2] == [a, b];
    assert Total([a, b, c]) == a + b + c;
    assert [a, b, c, d][..3] == [a, b, c];
    assert Total([a, b, c, d]) == a + b + c + d;
    assert [a, b, c, d, e][..4] == [a, b, c, d];
  }

  /** The "Target" receipt scores 28: 6 + 0 + 0 + 10 + 6 + 6 + 0. */
  lemma TargetReceipt(r: Receipt)
    requires r.retailer == "Target" && r.purchaseDate == "2022-01-01"
    requires r.purchaseTime == "13:01" && r.total == "35.35"
    requires |r.items| == 5
    requires r.items[0].shortDescription == "Mountain Dew 12PK" && r.items[0].price == "6.49"
    requires r.items[1].shortDescription == "Emils Cheese Pizza" && r.items[1].price == "12.25"
    requires r.items[2].shortDescription == "Knorr Creamy Chicken" && r.items[2].price == "1.26"
    requires r.items[3].shortDescription == "Doritos Nacho Cheese" && r.items[3].price == "3.35"
    requires r.items[4].shortDescription == "   Klarbrunn 12-PK 12 FL OZ  " && r.items[4].price == "12.00"
    ensures Score(r) == Some(28)
  {
    TargetItems(r.items);
    TargetRetailer(r.retailer);
    PlainTotal(r.total);
    OddDate(r.purchaseDate);
    LunchTime(r.purchaseTime);
    TargetScore(r);
  }

  /** The "Target" parts add up to 28. */
  lemma TargetScore(r: Receipt)
    requires AlnumCount(r.retailer) == 6 && RoundDollarPoints(r.total) == 0
    requires ParseCents(r.total) == Some(3535) && |r.items| == 5 && DescriptionPoints(r.items) == Some(6)
    requires DayOfMonth(r.purchaseDate) == Some(1) && ParseClock(r.purchaseTime) == Some(Clock(13, 1))
    ensures Score(r) == Some(28)
  {
    ScoreOfParts(r, 3535, 6, 1, Clock(13, 1));
  }

  /** "Gatorade" has 8 characters, so it earns nothing under rule 5. */
  lemma GatoradeItem(x: Item)
    requires x.shortDescription == "Gatorade"
    ensures ItemPoints(x) == Some(0)
  {
    GatoradeLength(x.shortDescription);
    ShortItem(x, 8);
  }

  /** Rule 5 on the four Gatorades. */
  lemma CornerMarketItems(items: seq<Item>)
    requires |items| == 4
    requires forall i :: 0 <= i < 4 ==> items[i].shortDescription == "Gatorade" && items[i].price == "2.25"
    ensures DescriptionPoints(items) == Some(0)
  {
    forall i | 0 <= i < |items|
      ensures ItemPoints(items[i]) == Some(0)
    {
      GatoradeItem(items[i]);
    }
    NothingFromEach(items);
  }

  /** Items that each contribute nothing contribute nothing together. */
  lemma NothingFromEach(items: seq<Item>)
    requires forall i :: 0 <= i < |items| ==> ItemPoints(items[i]) == Some(0)
    ensures DescriptionPoints(items) == Some(0)
  {
    var zeros := seq(|items|, i => 0);
    DescriptionPointsSum(items, zeros);
    ZeroTotal(zeros);
  }

  /** A sum of zeros is zero. */
  lemma {:induction false} ZeroTotal(ps: seq<nat>)
    requires forall i :: 0 <= i < |ps| ==> ps[i] == 0
    ensures Total(ps) == 0
  {
    if |ps| > 0 {
      ZeroTotal(ps[..|ps| - 1]);
    }
  }

  /** The "M&M Corner Market" receipt scores 109: 14 + 50 + 25 + 10 + 0 + 0 + 10. */
  lemma CornerMarketReceipt(r: Receipt)
    requires r.retailer == "M&M Corner Market" && r.purchaseDate == "2022-03-20"
    requires r.purchaseTime == "14:33" && r.total == "9.00"
    requires |r.items| == 4
    requires forall i :: 0 <= i < 4 ==> r.items[i].shortDescription == "Gatorade" && r.items[i].price == "2.25"
    ensures Score(r) == Some(109)
  {
    CornerMarketItems(r.items);
    CornerMarketRetailer(r.retailer);
    NineDollarTotal(r.total);
    EvenDate(r.purchaseDate);
    AfternoonTime(r.purchaseTime);
    CornerMarketScore(r);
  }

  /** The "M&M Corner Market" parts add up to 109. */
  lemma CornerMarketScore(r: Receipt)
    requires AlnumCount(r.retailer) == 14 && RoundDollarPoints(r.total) == 50
    requires ParseCents(r.total) == Some(900) && |r.items| == 4 && DescriptionPoints(r.items) == Some(0)
    requires DayOfMonth(r.purchaseDate) == Some(20) && ParseClock(r.purchaseTime) == Some(Clock(14, 33))
    ensures Score(r) == Some(109)
  {
    ScoreOfParts(r, 900, 0, 20, Clock(14, 33));
  }

  /** A submission with an empty items list is rejected. */
  lemma EmptyItemsRejected(retailer: string, date: string, time: string, total: string)
    ensures Validate(Payload(Some(retailer), Some(date), Some(time), Some([]), Some(total))).None?
  {
  }
}
