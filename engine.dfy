/**
 * The scoring routine as the server runs it: a running `points` total that each
 * rule adds to in turn, with rule 5 accumulated over a loop on the items.
 */
module Engine {
  import opened Wrappers
  import opened Text
  import opened Numbers
  import opened Rules

  /**
   * Scores a receipt, or returns `None` where a text the rules parse is malformed.
   * The points added by each step are never negative, so `points` only grows.
   */
  method CalculatePoints(receipt: Receipt) returns (result: Option<nat>)
    ensures result == Score(receipt)
  {
    var points: nat := 0;

    // Rule 1: one point per character of the retailer matching [a-zA-Z0-9].
    points := points + AlnumCount(receipt.retailer);

    // Rule 2: 50 points for a total ending in ".00".
    if EndsWith(receipt.total, ".00") {
      points := points + 50;
    }

    // Rule 3: 25 points for a total that is a multiple of 0.25.
    var total := ParseCents(receipt.total);
    if total.None? {
      ScoreOfFailedPart(receipt);
      return None;
    }
    if total.value % 25 == 0 {
      points := points + 25;
    }

    // Rule 4: 5 points for every two items.
    points := points + |receipt.items| / 2 * 5;

    // Rule 5: for each item whose trimmed description length is a multiple of 3,
    // the price's fifth rounded up.
    ghost var beforeItems := points;
    var withItems := AddItemPoints(receipt.items, points);
    if withItems.None? {
      ScoreOfFailedPart(receipt);
      return None;
    }
    points := withItems.value;
    ghost var descriptions := points - beforeItems;

    // Rule 6: 6 points when the day of month is odd.
    var day := DayOfMonth(receipt.purchaseDate);
    if day.None? {
      ScoreOfFailedPart(receipt);
      return None;
    }
    if day.value % 2 != 0 {
      points := points + 6;
    }

    // Rule 7: 10 points for a time from 14:00 to 15:59.
    var time := ParseClock(receipt.purchaseTime);
    if time.None? {
      ScoreOfFailedPart(receipt);
      return None;
    }
    if (time.value.hour == 14 && time.value.minute >= 0) || (time.value.hour == 15 && time.value.minute < 60) {
      points := points + 10;
    }
    ScoreOfParts(receipt, total.value, descriptions, day.value, time.value);
    return Some(points);
  }

  /**
   * The `items.forEach` loop of rule 5: adds each item's points to `points`, or
   * returns `None` at the first price it needs that does not parse.
   */
  method AddItemPoints(items: seq<Item>, points: nat) returns (result: Option<nat>)
    ensures result == AddPoints(Some(points), DescriptionPoints(items))
  {
    var total := points;
    var i := 0;
    while i < |items|
      invariant 0 <= i <= |items|
      invariant AddPoints(Some(points), DescriptionPoints(items[..i])) == Some(total)
    {
      var gained := ScoreItem(items[i]);
      if gained.None? {
        PrefixFailure(items, i, points);
        return None;
      }
      PrefixStep(items, i, points, total, gained.value);
      total := total + gained.value;
      i := i + 1;
    }
    assert items[..i] == items;
    return Some(total);
  }

  /**
   * The body of the loop for one item: its price counts only when the trimmed
   * description length is a multiple of 3.
   */
  method ScoreItem(item: Item) returns (gained: Option<nat>)
    ensures gained == ItemPoints(item)
  {
    if TrimmedLength(item.shortDescription) % 3 == 0 {
      var price := ParseCents(item.price);
      if price.None? {
        return None;
      }
      return Some(PricePoints(price.value));
    }
    return Some(0);
  }

  /** The next item adds its points to the running total of the prefix before it. */
  lemma PrefixStep(items: seq<Item>, i: nat, points: nat, total: nat, gained: nat)
    requires i < |items| && AddPoints(Some(points), DescriptionPoints(items[..i])) == Some(total)
    requires ItemPoints(items[i]) == Some(gained)
    ensures AddPoints(Some(points), DescriptionPoints(items[..i + 1])) == Some(total + gained)
  {
    DescriptionPointsPrefix(items, i);
  }

  /** An item whose price does not parse fails the whole list. */
  lemma PrefixFailure(items: seq<Item>, i: nat, points: nat)
    requires i < |items| && ItemPoints(items[i]).None?
    ensures AddPoints(Some(points), DescriptionPoints(items)).None?
  {
    DescriptionPointsPrefix(items, i);
    DescriptionPointsFailure(items, i + 1);
  }

  /** Once rule 5 fails on a prefix of the items it fails on the whole list. */
  lemma DescriptionPointsFailure(items: seq<Item>, i: nat)
    requires i <= |items|
    requires DescriptionPoints(items[..i]).None?
    ensures DescriptionPoints(items).None?
  {
    DescriptionPointsConcat(items[..i], items[i..]);
    assert items[..i] + items[i..] == items;
  }
}
