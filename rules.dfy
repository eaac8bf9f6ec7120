/**
 * The seven points rules of the receipt processor and the score they add up to.
 * Each rule is a function of the receipt's fields; `Score` is the specification the
 * imperative `Engine.CalculatePoints` is proved against.
 */
module Rules {
  import opened Wrappers
  import opened Text
  import opened Numbers

  /** One line of a receipt: its description and its price text (`D+.DD`). */
  datatype Item = Item(shortDescription: string, price: string)

  /** A receipt that passed validation; the texts are still unparsed. */
  datatype Receipt = Receipt(
    retailer: string,
    purchaseDate: string,
    purchaseTime: string,
    items: seq<Item>,
    total: string)

  /** Hour and minute of a purchase time `HH:MM`. */
  datatype Clock = Clock(hour: nat, minute: nat)

  // Rule 1 is `AlnumCount(retailer)`, one point per character matching [a-zA-Z0-9].

  /** Rule 2: 50 points when the total text ends with ".00". */
  function RoundDollarPoints(total: string): nat {
    if EndsWith(total, ".00") then 50 else 0
  }

  /** Rule 3: 25 points when the total is a multiple of a quarter dollar. */
  function QuarterPoints(totalCents: nat): nat {
    if totalCents % 25 == 0 then 25 else 0
  }

  /** Rule 4: 5 points for every two items. */
  function PairPoints(itemCount: nat): nat {
    itemCount / 2 * 5
  }

  /** The `.length` of a description after `trim()`. */
  function TrimmedLength(description: string): nat {
    Utf16Length(Trim(description))
  }

  /**
   * Rule 5 for one item: when the trimmed description length is a multiple of 3
   * (0 included) the item earns `PricePoints` of its price, otherwise nothing; the
   * price is read only in the first case, and `None` means it does not parse.
   */
  function ItemPoints(item: Item): Option<nat> {
    if TrimmedLength(item.shortDescription) % 3 == 0 then
      match ParseCents(item.price)
      case None => None
      case Some(cents) => Some(PricePoints(cents))
    else Some(0)
  }

  /** Sum of two partial scores, failing when either failed. */
  function AddPoints(a: Option<nat>, b: Option<nat>): Option<nat> {
    if a.Some? && b.Some? then Some(a.value + b.value) else None
  }

  /** Rule 5 over a list of items, accumulated front to back as `items.forEach` does. */
  function DescriptionPoints(items: seq<Item>): Option<nat> {
    if |items| == 0 then Some(0)
    else AddPoints(DescriptionPoints(items[..|items| - 1]), ItemPoints(items[|items| - 1]))
  }

  /** `parseInt(purchaseDate.split("-")[2], 10)`: the third `-`-separated field as a number. */
  function DayOfMonth(purchaseDate: string): Option<nat> {
    var fields := Split(purchaseDate, '-');
    if |fields| < 3 then None else ParseNat(fields[2])
  }

  /** Rule 6: 6 points when the day of month is odd. */
  function OddDayPoints(day: nat): nat {
    if day % 2 != 0 then 6 else 0
  }

  /** `purchaseTime.split(":").map(Number)`: the first two `:`-separated fields. */
  function ParseClock(purchaseTime: string): Option<Clock> {
    var fields := Split(purchaseTime, ':');
    if |fields| < 2 then None
    else match (ParseNat(fields[0]), ParseNat(fields[1]))
      case (Some(hour), Some(minute)) => Some(Clock(hour, minute))
      case _ => None
  }

  /** Rule 7, with the test exactly as written: `(hour === 14 && minute >= 0) || (hour === 15 && minute < 60)`. */
  function AfternoonPoints(time: Clock): nat {
    if (time.hour == 14 && time.minute >= 0) || (time.hour == 15 && time.minute < 60) then 10 else 0
  }

  /**
   * The points of a receipt: the sum of the seven rule contributions, or `None` when
   * the total, a price that rule 5 reads, the day or the time does not parse.
   */
  function Score(r: Receipt): Option<nat> {
    var total := ParseCents(r.total);
    var descriptions := DescriptionPoints(r.items);
    var day := DayOfMonth(r.purchaseDate);
    var time := ParseClock(r.purchaseTime);
    if total.None? || descriptions.None? || day.None? || time.None? then None
    else Some(
      AlnumCount(r.retailer)
      + RoundDollarPoints(r.total)
      + QuarterPoints(total.value)
      + PairPoints(|r.items|)
      + descriptions.value
      + OddDayPoints(day.value)
      + AfternoonPoints(time.value))
  }

  // ---------------------------------------------------------------------------
  // Rules 2 and 3

  /** For a parsed total, rule 2's text test is the same as "no cents". */
  lemma RoundDollarIffWholeDollars(total: string)
    requires ParseCents(total).Some?
    ensures RoundDollarPoints(total) == 50 <==> ParseCents(total).value % 100 == 0
  {
    CentsDigits(total);
    var n := |total|;
    assert EndsWith(total, ".00") <==> total[n - 2] == '0' && total[n - 1] == '0' by {
      assert total[n - 3..] == [total[n - 3], total[n - 2], total[n - 1]];
    }
  }

  /** Every total that earns the round-dollar bonus also earns the quarter bonus. */
  lemma RoundDollarImpliesQuarter(total: string)
    requires ParseCents(total).Some?
    requires RoundDollarPoints(total) == 50
    ensures QuarterPoints(ParseCents(total).value) == 25
  {
    RoundDollarIffWholeDollars(total);
  }

  /** Rule 3 awards its points exactly when the amount in dollars is a multiple of 0.25. */
  lemma QuarterPointsIffMultiple(totalCents: nat)
    ensures QuarterPoints(totalCents) == 25 <==> IsQuarterMultiple(totalCents as real / 100.0)
  {
    QuarterMultipleIffCents(totalCents);
  }

  // ---------------------------------------------------------------------------
  // Rule 4

  /** Each complete pair earns 5 and an odd item out earns nothing. */
  lemma {:induction false} PairPointsCountsPairs(pairs: nat)
    ensures PairPoints(2 * pairs) == 5 * pairs
    ensures PairPoints(2 * pairs + 1) == 5 * pairs
  {
  }

  // ---------------------------------------------------------------------------
  // Rule 5

  /** Rule 5 over a concatenation is the sum over the two parts. */
  lemma {:induction false} DescriptionPointsConcat(a: seq<Item>, b: seq<Item>)
    ensures DescriptionPoints(a + b) == AddPoints(DescriptionPoints(a), DescriptionPoints(b))
  {
    if |b| == 0 {
      assert a + b == a;
    } else {
      var init := b[..|b| - 1];
      assert (a + b)[..|a + b| - 1] == a + init;
      assert (a + b)[|a + b| - 1] == b[|b| - 1];
      DescriptionPointsConcat(a, init);
    }
  }

  /** Rule 5 over one more item of the list. */
  lemma DescriptionPointsPrefix(items: seq<Item>, i: nat)
    requires i < |items|
    ensures DescriptionPoints(items[..i + 1]) == AddPoints(DescriptionPoints(items[..i]), ItemPoints(items[i]))
  {
    assert items[..i + 1][..i] == items[..i];
  }

  /** Rule 5 of a single item. */
  lemma DescriptionPointsSingle(x: Item)
    ensures DescriptionPoints([x]) == ItemPoints(x)
  {
    assert [x][..0] == [];
  }

  /** An item inserted anywhere adds its own contribution. */
  lemma DescriptionPointsInsert(left: seq<Item>, x: Item, right: seq<Item>)
    ensures DescriptionPoints(left + [x] + right) == AddPoints(DescriptionPoints(left + right), ItemPoints(x))
  {
    var l, r, p := DescriptionPoints(left), DescriptionPoints(right), ItemPoints(x);
    DescriptionPointsConcat(left, [x]);
    DescriptionPointsSingle(x);
    assert DescriptionPoints(left + [x]) == AddPoints(l, p);
    DescriptionPointsConcat(left + [x], right);
    assert DescriptionPoints(left + [x] + right) == AddPoints(AddPoints(l, p), r);
    DescriptionPointsConcat(left, right);
    assert AddPoints(AddPoints(l, p), r) == AddPoints(AddPoints(l, r), p);
  }

  /** Rule 5 does not depend on the order of the items. */
  lemma {:induction false} DescriptionPointsOrderFree(a: seq<Item>, b: seq<Item>)
    requires multiset(a) == multiset(b)
    ensures DescriptionPoints(a) == DescriptionPoints(b)
    decreases |a|
  {
    if |a| == 0 {
      assert |multiset(b)| == 0;
    } else {
      var x := a[|a| - 1];
      var rest := a[..|a| - 1];
      assert a == rest + [x];
      assert x in multiset(b);
      var k :| 0 <= k < |b| && b[k] == x;
      var left, right := b[..k], b[k + 1..];
      assert b == left + [x] + right;
      PermutationWithout(rest, x, left, right);
      DescriptionPointsOrderFree(rest, left + right);
      DescriptionPointsInsert(left, x, right);
    }
  }

  /** Taking the same element out of two permutations of each other leaves permutations. */
  lemma PermutationWithout<T>(rest: seq<T>, x: T, left: seq<T>, right: seq<T>)
    requires multiset(rest + [x]) == multiset(left + [x] + right)
    ensures multiset(rest) == multiset(left + right)
  {
    assert multiset(rest + [x]) == multiset(rest) + multiset{x};
    assert multiset(left + [x] + right) == multiset(left) + multiset{x} + multiset(right);
    assert multiset(left + right) == multiset(left) + multiset(right);
    assert multiset(rest) == multiset(rest + [x]) - multiset{x};
  }

  /** An item whose trimmed description length is not a multiple of 3 adds nothing. */
  lemma DescriptionPointsSkipsItem(a: seq<Item>, x: Item, b: seq<Item>)
    requires TrimmedLength(x.shortDescription) % 3 != 0
    ensures DescriptionPoints(a + [x] + b) == DescriptionPoints(a + b)
  {
    DescriptionPointsConcat(a + [x], b);
    DescriptionPointsConcat(a, [x]);
    DescriptionPointsConcat(a, b);
    DescriptionPointsSingle(x);
  }

  /** The sum of a list of contributions. */
  function Total(ps: seq<nat>): nat {
    if |ps| == 0 then 0 else Total(ps[..|ps| - 1]) + ps[|ps| - 1]
  }

  /** When every item contributes, rule 5 is the sum of the contributions. */
  lemma {:induction false} DescriptionPointsSum(items: seq<Item>, ps: seq<nat>)
    requires |ps| == |items|
    requires forall i :: 0 <= i < |items| ==> ItemPoints(items[i]) == Some(ps[i])
    ensures DescriptionPoints(items) == Some(Total(ps))
  {
    if |items| > 0 {
      var n := |items| - 1;
      DescriptionPointsSum(items[..n], ps[..n]);
    }
  }

  /** Rule 5 is defined exactly when every item's contribution is. */
  lemma {:induction false} DescriptionPointsDefined(items: seq<Item>)
    ensures DescriptionPoints(items).Some? <==> forall i :: 0 <= i < |items| ==> ItemPoints(items[i]).Some?
  {
    if |items| > 0 {
      var init := items[..|items| - 1];
      DescriptionPointsDefined(init);
      assert forall i :: 0 <= i < |init| ==> items[i] == init[i];
    }
  }

  // ---------------------------------------------------------------------------
  // Rules 6 and 7

  /** For a date `Y-M-D` whose parts contain no `-`, the day is the number `D`. */
  lemma DayOfMonthOfFields(year: string, month: string, day: string)
    requires '-' !in year && '-' !in month && '-' !in day
    ensures DayOfMonth(year + "-" + month + "-" + day) == ParseNat(day)
  {
    var fields := [year, month, day];
    assert Join(fields, '-') == year + "-" + month + "-" + day by {
      assert fields[1..] == [month, day];
      assert [month, day][1..] == [day];
      assert Join([month, day], '-') == month + ['-'] + day;
      assert Join(fields, '-') == year + ['-'] + (month + ['-'] + day);
    }
    SplitJoin(fields, '-');
  }

  /** For a time `H:M` whose parts contain no `:`, the clock holds the numbers `H` and `M`. */
  lemma ParseClockOfFields(hour: string, minute: string)
    requires ':' !in hour && ':' !in minute
    ensures ParseClock(hour + ":" + minute) ==
      if IsDigits(hour) && IsDigits(minute) then Some(Clock(DigitsValue(hour), DigitsValue(minute)))
      else None
  {
    var fields := [hour, minute];
    assert Join(fields, ':') == hour + ":" + minute by {
      assert fields[1..] == [minute];
      assert Join(fields, ':') == hour + [':'] + minute;
    }
    SplitJoin(fields, ':');
  }

  /** Minutes since midnight fall in the half-open afternoon window [14:00, 16:00). */
  predicate InAfternoonWindow(time: Clock) {
    14 * 60 <= time.hour * 60 + time.minute < 16 * 60
  }

  /** For a minute value of a real clock (below 60), rule 7 fires exactly in [14:00, 16:00). */
  lemma AfternoonPointsIffWindow(time: Clock)
    requires time.minute < 60
    ensures AfternoonPoints(time) == 10 <==> InAfternoonWindow(time)
  {
    if time.hour < 14 {
      assert time.hour * 60 <= 13 * 60;
    } else if time.hour >= 16 {
      assert time.hour * 60 >= 16 * 60;
    }
  }

  /**
   * As written, the minute bound applies to hour 15 only: hour 14 fires for every
   * minute value, hour 15 only below 60.
   */
  lemma AfternoonMinuteBound(minute: nat)
    ensures AfternoonPoints(Clock(14, minute)) == 10
    ensures AfternoonPoints(Clock(15, minute)) == 10 <==> minute < 60
  {
  }

  // ---------------------------------------------------------------------------
  // The whole score

  /** Scoring fails exactly when one of the texts the rules parse does not parse. */
  lemma ScoreDefined(r: Receipt)
    ensures Score(r).Some? <==>
      && IsMoney(r.total)
      && DayOfMonth(r.purchaseDate).Some?
      && ParseClock(r.purchaseTime).Some?
      && forall i :: 0 <= i < |r.items| && TrimmedLength(r.items[i].shortDescription) % 3 == 0
           ==> IsMoney(r.items[i].price)
  {
    DescriptionPointsDefined(r.items);
    assert forall i :: 0 <= i < |r.items| ==>
      (ItemPoints(r.items[i]).Some? <==>
        (TrimmedLength(r.items[i].shortDescription) % 3 == 0 ==> IsMoney(r.items[i].price)));
  }

  /** The score does not depend on the order of the items. */
  lemma ScoreOrderFree(r: Receipt, items: seq<Item>)
    requires multiset(items) == multiset(r.items)
    ensures Score(r.(items := items)) == Score(r)
  {
    DescriptionPointsOrderFree(items, r.items);
    assert |items| == |multiset(items)| == |r.items|;
  }

  /** The score once every parsed part is known. */
  lemma ScoreOfParts(r: Receipt, totalCents: nat, descriptions: nat, day: nat, time: Clock)
    requires ParseCents(r.total) == Some(totalCents)
    requires DescriptionPoints(r.items) == Some(descriptions)
    requires DayOfMonth(r.purchaseDate) == Some(day)
    requires ParseClock(r.purchaseTime) == Some(time)
    ensures Score(r) == Some(
      AlnumCount(r.retailer) + RoundDollarPoints(r.total) + QuarterPoints(totalCents) + PairPoints(|r.items|)
      + descriptions + OddDayPoints(day) + AfternoonPoints(time))
  {
  }

  /** The score fails as soon as one of its parsed parts fails. */
  lemma ScoreOfFailedPart(r: Receipt)
    requires
      || ParseCents(r.total).None?
      || DescriptionPoints(r.items).None?
      || DayOfMonth(r.purchaseDate).None?
      || ParseClock(r.purchaseTime).None?
    ensures Score(r).None?
  {
  }

  /** Rules 1, 2 and 4, which read no number, bound the score from below whenever it is defined. */
  lemma ScoreLowerBound(r: Receipt)
    requires Score(r).Some?
    ensures Score(r).value >= AlnumCount(r.retailer) + RoundDollarPoints(r.total) + PairPoints(|r.items|)
  {
  }
}
