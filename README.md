# Receipt points processor — Dafny model

The system is a small HTTP service. A client submits a receipt (retailer, purchase date,
purchase time, a list of items with a description and a price each, and a total). The
service checks that the required fields are present, computes a number of points with
seven fixed rules, stores the receipt and its points in an in-memory table under a fresh
identifier, and answers later lookups of the points by that identifier.

This project models that core and proves properties of it:

- `wrappers.dfy` — `Option` and `Result`.
- `text.dfy` — the string operations the rules use: counting `[a-zA-Z0-9]` matches,
  ECMAScript `trim()` over the ECMAScript white-space and line-terminator set, `.length`
  as UTF-16 code units, `endsWith`, and `split` on a single-character separator with its
  inverse `Join`.
- `numbers.dfy` — digit strings, amounts `D+.DD` read as integer cents, the rule-5 price
  points `ceil(price * 0.2)` in integer arithmetic, and "a multiple of 0.25" stated over
  the reals and tied to the cents.
- `rules.dfy` — the receipt value, one function per rule, and `Score`, the sum of the
  seven rules. This is the specification of the scoring routine. Lemmas about each rule
  and about the whole score sit beside it.
- `engine.dfy` — `CalculatePoints`, the scoring routine in its own imperative form: a
  running `points` total updated rule by rule, and a loop over the items for rule 5.
  Each method is proved equal to its rule function: `CalculatePoints` to `Score`,
  the item loop to rule 5 over the items, and the loop body to one item's rule-5 points.
- `validator.dfy` — the required-field check of the submit handler.
- `store.dfy` — the `receipts` table as a class. `Submit` validates, scores and inserts;
  `Query` looks up. The table keeps the invariant that every stored score is the score of
  the stored receipt.
- `scenarios.dfy` — worked receipts and single-rule examples, proved against `Score`:
  the "Target" receipt scores 28 and the "M&M Corner Market" receipt scores 109.

Amounts are modelled as integer cents parsed from `D+.DD`. Days, hours and minutes are
modelled as digit strings. With those formats, and for amounts below about 10^13
dollars (where a double still tells neighbouring cents apart), `parseFloat`,
`parseInt` and `Number` agree with exact arithmetic, so the floating-point rules become integer rules:

- rule 3 is `cents % 25 == 0` (`Numbers.QuarterMultipleIffCents` ties this to the real
  number `cents / 100`);
- rule 5 adds `(cents + 499) / 500` (`Numbers.PricePointsIsCeiling` shows this is the
  ceiling of `price * 0.2` over the reals).

Rule 7 is modelled exactly as the code writes it:
`(hour == 14 && minute >= 0) || (hour == 15 && minute < 60)`. For minutes below 60 this is
the window [14:00, 16:00) (`Rules.AfternoonPointsIffWindow`). The comment above it says
"after 2:00pm", but the code awards 14:00 itself, and the model follows the code. The code
also awards "14:75" but not "15:75", because the minute test for hour 14 is always true;
`Rules.AfternoonMinuteBound` states both.

When some part of the receipt does not parse, the model behaves differently from the
code (see "## Left out"): `Score` is `None`, and `Submit` refuses the receipt with
`ScoringFailure` and leaves the table unchanged. Nothing is stored with an undefined
score.

## Model

| member | source | states |
|---|---|---|
| Text.AlnumCount | src/index.js:78 | the rule-1 count never exceeds the length of the retailer name |
| Text.AlnumCountIsMatchCount | src/index.js:78 | the count equals the number of positions matching `[a-zA-Z0-9]`, i.e. the length of the global match array (0 when there is no match) |
| Text.AlnumCountExtremes | src/index.js:78 | the count is 0 exactly when no character is ASCII alphanumeric, and equals the length exactly when every character is |
| Text.AlnumCountConcat | src/index.js:78 | the count of a concatenation is the sum of the counts |
| Text.Trim | src/index.js:97 | `trim()`: drops leading and trailing ECMAScript white space and line terminators; characterised by `Text.TrimBounds` and `Text.TrimUnique` |
| Text.TrimStartShape | src/index.js:97 | trimming the front removes a white-space prefix and leaves a string that is empty or starts with non-white-space |
| Text.TrimEndShape | src/index.js:97 | trimming the back removes a white-space suffix and leaves a string that is empty or ends with non-white-space |
| Text.TrimBounds | src/index.js:97 | `trim()` returns a slice of the input with only white space outside it and non-white-space at both of its ends |
| Text.TrimUnique | src/index.js:97 | any slice with those properties is the result of `trim()` |
| Text.TrimPadded | src/index.js:97 | white space padded around a core with non-white-space ends is removed, and the core is returned |
| Text.TrimOfTrimmed | src/index.js:97 | a string without leading or trailing white space is left unchanged |
| Text.TrimIdempotent | src/index.js:97 | trimming twice is the same as trimming once |
| Text.Utf16Length | src/index.js:97 | `.length` in UTF-16 code units lies between the number of characters and twice that, and equals the number of characters exactly when all of them are in the Basic Multilingual Plane |
| Text.EndsWith | src/index.js:81 | `endsWith`: the suffix equals the last characters of the string |
| Text.FirstIndex | src/index.js:105 | the index of the first occurrence of the separator: it holds the separator and nothing before it does |
| Text.Split | src/index.js:105 | `split` on one character gives at least one field and no field contains the separator |
| Text.JoinSplit | src/index.js:105 | joining the fields of a split with the separator gives back the input |
| Text.SplitAtSeparator | src/index.js:111 | splitting `a + sep + b`, where `a` has no separator, gives `a` followed by the fields of `b` |
| Text.SplitJoin | src/index.js:111 | splitting the join of separator-free fields gives back those fields |
| Numbers.DigitValue | src/index.js:105 | a decimal digit's value is below 10 |
| Numbers.DigitChar | src/index.js:105 | the digit character of a value below 10 is a digit with that value |
| Numbers.NatToDigits | src/index.js:105 | the decimal rendering of a number consists of digits |
| Numbers.ParseNatToDigits | src/index.js:105 | parsing the decimal rendering of a number gives back the number |
| Numbers.LeadingZeroIgnored | src/index.js:105 | `parseInt(…, 10)` of a digit string ignores a leading zero, so "07" and "7" both read 7 |
| Numbers.LeadingZeroValue | src/index.js:105 | the value of a digit string is unchanged by a leading zero |
| Numbers.ParseNat | src/index.js:105 | `parseInt(…, 10)` and `Number` of a non-empty digit string: its decimal value, none otherwise; characterised by `Numbers.ParseNatToDigits` |
| Numbers.ParseCents | src/index.js:86 | `parseFloat` of an amount `D+.DD` as whole cents, none for any other text; characterised by `Numbers.CentsDigits` and `Numbers.ParseCentsToText` |
| Numbers.TwoDigitsValue | src/index.js:86 | the cents field `ab` has the value `10a + b` |
| Numbers.CentsDigits | src/index.js:86 | every amount `D+.DD` parses, and its cents modulo 100 are the two digits after the point |
| Numbers.ParseCentsToText | src/index.js:86 | rendering a number of cents as `D+.DD` and parsing it gives back the cents |
| Numbers.PricePoints | src/index.js:100 | the price points `p` are the least with `500p >= cents`, so `cents <= 500p < cents + 500` |
| Numbers.PricePointsIsCeiling | src/index.js:99-100 | the price points are the ceiling of `price * 0.2` computed over the reals from `cents / 100` |
| Numbers.QuarterMultipleIffCents | src/index.js:86-87 | the total in dollars is a whole multiple of 0.25 exactly when its cents are divisible by 25 |
| Numbers.DivisibleIsWhole | src/index.js:87 | cents divisible by 25 make a whole number of quarters |
| Numbers.FractionIsNotWhole | src/index.js:87 | other cents leave a fraction of a quarter |
| Rules.RoundDollarPoints | src/index.js:81-83 | rule 2: 50 when the total text ends with ".00", else 0; characterised by `Rules.RoundDollarIffWholeDollars` |
| Rules.QuarterPoints | src/index.js:86-89 | rule 3: 25 when the cents are divisible by 25, else 0; characterised by `Rules.QuarterPointsIffMultiple` |
| Rules.PairPoints | src/index.js:92 | rule 4: 5 times the item count halved and rounded down; characterised by `Rules.PairPointsCountsPairs` |
| Rules.TrimmedLength | src/index.js:97 | the UTF-16 length of the trimmed description |
| Rules.ItemPoints | src/index.js:97-101 | rule 5 for one item: the price points when the trimmed length is a multiple of 3 (price read only then, none if it does not parse), else 0; characterised by `Rules.DescriptionPointsSkipsItem` and `Engine.ScoreItem` |
| Rules.DescriptionPoints | src/index.js:96-102 | rule 5 over the items, summed front to back, none when a read price fails; characterised by `Rules.DescriptionPointsSum`, `Rules.DescriptionPointsDefined`, `Rules.DescriptionPointsOrderFree` and `Engine.AddItemPoints` |
| Rules.DayOfMonth | src/index.js:105 | the third `-`-separated field of the date read as a number, none when there is no such field or it is not digits; characterised by `Rules.DayOfMonthOfFields` |
| Rules.OddDayPoints | src/index.js:106-108 | rule 6: 6 when the day is odd, else 0 |
| Rules.ParseClock | src/index.js:111 | the first two `:`-separated fields of the time read as hour and minute, none when either is missing or not digits; characterised by `Rules.ParseClockOfFields` |
| Rules.AfternoonPoints | src/index.js:112-114 | rule 7 with its test as written: 10 for hour 14 with any minute or hour 15 with minute below 60, else 0; characterised by `Rules.AfternoonPointsIffWindow` and `Rules.AfternoonMinuteBound` |
| Rules.Score | src/index.js:73-119 | the sum of the seven rule contributions, none when the total, a read price, the day or the time does not parse; characterised by `Rules.ScoreDefined`, `Rules.ScoreOrderFree`, `Rules.ScoreLowerBound` and `Engine.CalculatePoints` |
| Rules.RoundDollarIffWholeDollars | src/index.js:81-83 | for a parsed total, the ".00" test awards 50 exactly when the total has no cents |
| Rules.RoundDollarImpliesQuarter | src/index.js:80-89 | a total awarded rule 2 is also awarded rule 3 |
| Rules.QuarterPointsIffMultiple | src/index.js:85-89 | rule 3 awards 25 exactly when the total in dollars is a multiple of 0.25 |
| Rules.PairPointsCountsPairs | src/index.js:92 | `2k` and `2k + 1` items both earn `5k` points: 5 per complete pair |
| Rules.DescriptionPointsConcat | src/index.js:96-102 | rule 5 over two item lists added together is rule 5 over their concatenation, failing when either part fails |
| Rules.DescriptionPointsSingle | src/index.js:96-102 | a one-item list earns that item's points |
| Rules.DescriptionPointsInsert | src/index.js:96-102 | an item anywhere in the list contributes its own points, wherever it stands |
| Rules.DescriptionPointsOrderFree | src/index.js:96-102 | rule 5 is the same for any reordering of the items |
| Rules.DescriptionPointsSkipsItem | src/index.js:97-98 | an item whose trimmed description length is not a multiple of 3 contributes nothing, and its price is not read |
| Rules.DescriptionPointsSum | src/index.js:96-102 | when each item earns its points, rule 5 is the sum of those points |
| Rules.DescriptionPointsDefined | src/index.js:96-102 | rule 5 is defined exactly when every item's points are defined |
| Rules.DayOfMonthOfFields | src/index.js:105 | for a date `year-month-day` without further dashes in its fields, the day read is the third field |
| Rules.ParseClockOfFields | src/index.js:111 | for a time `hour:minute` without further colons, the clock read is those two numbers, or none when either does not parse |
| Rules.AfternoonPointsIffWindow | src/index.js:112-114 | for minutes below 60, rule 7 awards 10 exactly when the time is in [14:00, 16:00) |
| Rules.AfternoonMinuteBound | src/index.js:112 | as written, hour 14 earns the bonus for every minute value, and hour 15 only for minutes below 60 |
| Rules.ScoreDefined | src/index.js:73-119 | a receipt has a score exactly when its total, the prices rule 5 reads, its day and its time all parse |
| Rules.ScoreOrderFree | src/index.js:92-102 | reordering the items does not change the score |
| Rules.ScoreLowerBound | src/index.js:75-115 | a score is at least the points of rules 1, 2 and 4, which need no parsing |
| Engine.CalculatePoints | src/index.js:73-119 | the step-by-step computation of `points` returns exactly `Score` of the receipt |
| Engine.AddItemPoints | src/index.js:96-102 | the `forEach` loop adds exactly rule 5 of the items to the points so far, and fails when an item's price that it reads does not parse |
| Engine.ScoreItem | src/index.js:97-101 | the loop body for one item returns that item's rule-5 points |
| Engine.PrefixStep | src/index.js:96-102 | after one more item, the running total still equals the points so far plus rule 5 over the items seen |
| Engine.PrefixFailure | src/index.js:99-100 | an item whose read price does not parse leaves rule 5 of the whole list undefined |
| Engine.DescriptionPointsFailure | src/index.js:96-102 | a failing item in a prefix makes rule 5 of the whole list undefined |
| Validator.Validate | src/index.js:18-27 | an accepted body is exactly the body of the receipt returned, and that receipt has every required field non-empty and at least one item |
| Validator.ValidateAcceptsWellFormed | src/index.js:18-27 | validation returns a receipt exactly when the body is that receipt's body and none of its required fields is empty |
| Validator.ValidateRejectsExactly | src/index.js:18-27 | a body is rejected exactly when it is the body of no receipt whose required fields are all non-empty and whose items list is non-empty |
| Store.ReceiptTable.constructor | src/index.js:5 | the table starts empty |
| Store.ReceiptTable.Submit | src/index.js:15-51 | an invalid body is refused with `InvalidReceipt` and an unscorable one with `ScoringFailure`, both leaving the table unchanged; otherwise exactly one entry is added under the new identifier, holding the receipt and its `Score`, and the identifier is returned |
| Store.ReceiptTable.Query | src/index.js:59-66 | an unknown identifier gives `NotFound`; a known one gives the stored points, which are the score of the stored receipt |
| Scenarios.TargetRetailer | src/index.js:78 | "Target" earns 6 points |
| Scenarios.CornerMarketRetailer | src/index.js:78 | "M&M Corner Market" earns 14 points; `&` and spaces do not count |
| Scenarios.RoundTotal | src/index.js:80-89 | "35.00" earns 50 and 25 |
| Scenarios.PlainTotal | src/index.js:80-89 | "35.35" earns neither bonus |
| Scenarios.NineDollarTotal | src/index.js:80-89 | "9.00" is 900 cents and earns 50 and 25 |
| Scenarios.PairExamples | src/index.js:92 | 4 and 5 items both earn 10 points; a single item earns nothing |
| Scenarios.OddDate | src/index.js:104-108 | "2022-01-01" has day 1 and earns 6 |
| Scenarios.EvenDate | src/index.js:104-108 | "2022-03-20" has day 20 and earns nothing |
| Scenarios.AfternoonTime | src/index.js:110-114 | "14:33" earns 10 |
| Scenarios.LunchTime | src/index.js:110-114 | "13:01" earns nothing |
| Scenarios.WindowEdges | src/index.js:112 | 13:59 and 16:00 earn nothing; 14:00 and 15:59 earn 10 |
| Scenarios.BlankDescriptionExample | src/index.js:97-100 | an all-blank description trims to length 0, a multiple of 3, so a price of "1.00" earns 1 |
| Scenarios.EmilsItem | src/index.js:97-100 | "Emils Cheese Pizza" at "12.25" earns 3 |
| Scenarios.KlarbrunnItem | src/index.js:97-100 | "   Klarbrunn 12-PK 12 FL OZ  " trims to length 24 and at "12.00" earns 3 |
| Scenarios.MountainDewItem | src/index.js:97-98 | "Mountain Dew 12PK" has a trimmed length that is not a multiple of 3 (17) and earns nothing |
| Scenarios.GatoradeItem | src/index.js:97-98 | "Gatorade" has trimmed length 8 and earns nothing |
| Scenarios.TargetReceipt | src/index.js:73-119 | the "Target" receipt with five items scores 28 |
| Scenarios.CornerMarketReceipt | src/index.js:73-119 | the "M&M Corner Market" receipt with four Gatorade items scores 109 |
| Scenarios.EmptyItemsRejected | src/index.js:24 | a body with an empty items list is rejected |

## Left out

- The HTTP layer (Express routing, JSON parsing, status codes 200, 400 and 404, response
  bodies) is not modelled. `Submit` returns `Ok(id)` or an error and `Query` returns
  `Points` or `NotFound` in place of the responses.
- `crypto.randomUUID()` (src/index.js:8-10) is replaced by an identifier parameter of
  `Submit`. The caller must supply one that is not yet in the table, which is what a
  random UUID gives with overwhelming probability.
- Logging with `console.log`, and the server start-up on port 3000, are not modelled.
- Requests run one at a time; JavaScript's event loop gives no interleaving inside a
  handler, and no concurrency is modelled.
- Rules.Score: amounts, days and times are accepted only in the formats `D+.DD` and digit
  strings. The leniency of `parseFloat`, `parseInt` and `Number` (signs, exponents, leading
  white space, trailing garbage, hexadecimal, "Infinity") and IEEE-754 rounding are not
  modelled. `Number` also reads an empty or all-blank field as 0, so the code reads
  "14:" and "15:" as 14:00 and 15:00 and awards 10, where the model has no score.
- Rules.Score: where the code computes with NaN, the model has no score. An unparsable
  total gives the code no rule-3 bonus but a score; an unparsable price read by rule 5
  makes the code's points NaN; a missing or unparsable day makes `NaN % 2 !== 0` true, so
  the code awards 6; a time whose hour or minute reads NaN gives no rule-7 bonus.
- Engine.CalculatePoints: in the code a type error in any rule (a field that is not a
  string, an item without a description) is caught and the function returns `undefined`
  (src/index.js:116-118). The model returns `None` only for the parse failures above.
  Fields are strings by construction.
- Store.ReceiptTable.Submit: the code stores every validated receipt, even one whose
  points are NaN or `undefined`. The model refuses such a receipt with `ScoringFailure`
  and stores nothing, so a stored score is always a natural number.
- Store.ReceiptTable.Query: the code looks up a plain JavaScript object, so an identifier
  such as "constructor" or "__proto__" finds an inherited member. The model's table is a
  map holding only what was inserted.
- Validator.Validate: only presence and emptiness are checked, as in the code. A
  non-string field value (a number 0, `false`, an object) is outside the model, whose
  fields are strings, and so is an `items` value that is not a list.
