/** The price part of `build_payment_text` (utils.py:90-212): which price applies to a
    course under a payment method, how the number of children or trainees multiplies
    it, how a coupon discount reduces it, and which lines the payment message is made
    of. The fixed Arabic wording of each line and the account details of each method
    are not modelled; a line is identified by what it says. */
module Payment {
  import opened Strings

  /** One entry of the price table: its `"currency"` entry (absent when the table
      lacks it) and the amount for each course key. */
  datatype PriceMap = PriceMap(currency: Option<string>, amounts: map<string, int>)

  /** The note appended to the price: the price per child for `kids`, per trainee for
      `highschool`, none for the other courses. */
  datatype PerUnit = NoNote | PerChild(amount: int) | PerTrainee(amount: int)

  datatype Line =
    | Heading(methodKey: string)            // the method's title
    | Instructions(methodKey: string)       // the method's account details
    | DiscountNotice(percent: int, original: int, currency: string)
    | DiscountedPrice(price: real, currency: string, note: PerUnit)
    | Fee(amount: int, currency: string, note: PerUnit)
    | ReceiptRequest                     // "send the receipt here"
    | MtcnRequest                        // Western Union: name / country / MTCN in one message

  /** What `build_payment_text` yields: the "method unavailable" text, the message
      lines, or the `KeyError` it raises for a missing table entry. */
  datatype PaymentText = Unavailable | Lines(lines: seq<Line>) | KeyError(key: string)

  /** `max(1, int(count or 1))`: an absent or zero count means one. */
  function Headcount(count: Option<int>): (k: int)
    ensures k >= 1
    ensures count.Some? && count.value >= 1 ==> k == count.value
    ensures count.None? || count.value < 1 ==> k == 1
  {
    var n := match count case None => 1 case Some(c) => if c == 0 then 1 else c;
    if n < 1 then 1 else n
  }

  /** The unit price of a course: `price_map["kids"]` (a `KeyError` when absent) for
      `kids`, `price_map.get(course, 0)` for every other course. */
  function UnitAmount(pm: PriceMap, course: string): Option<int> {
    if course in pm.amounts then Some(pm.amounts[course])
    else if course == "kids" then None
    else Some(0)
  }

  /** The number of units charged: children for `kids`, trainees for `highschool`,
      one for the other courses. */
  function Units(course: string, kidsCount: Option<int>, hsCount: Option<int>): int {
    if course == "kids" then Headcount(kidsCount)
    else if course == "highschool" then Headcount(hsCount)
    else 1
  }

  function Note(course: string, unitAmount: int): PerUnit {
    if course == "kids" then PerChild(unitAmount)
    else if course == "highschool" then PerTrainee(unitAmount)
    else NoNote
  }

  /** The discounted price, `total - total * percent / 100`, in exact arithmetic. */
  function Discounted(total: int, percent: int): real {
    total as real - (total as real * percent as real) / 100.0
  }

  /** The lines of the message for a method that has a complete table entry. */
  function MessageLines(methodKey: string, currency: string, course: string, unitAmount: int,
                        units: int, percent: int): seq<Line>
  {
    var total := unitAmount * units;
    var note := Note(course, unitAmount);
    var price := if percent > 0
                 then [DiscountNotice(percent, total, currency), DiscountedPrice(Discounted(total, percent), currency, note)]
                 else [Fee(total, currency, note)];
    [Heading(methodKey), Instructions(methodKey)] + price + [ReceiptRequest] +
    (if methodKey == "wu_mg" then [MtcnRequest] else [])
  }

  /** `build_payment_text(method, course, kids_count, hs_count, discount_percent)`
      against the price table `prices` (`config.PRICES`). */
  function BuildPaymentText(prices: map<string, PriceMap>, methodKey: string, course: string,
                            kidsCount: Option<int>, hsCount: Option<int>, percent: int): (r: PaymentText)
    ensures r.Unavailable? <==> methodKey !in prices
    ensures r.KeyError? <==>
              (methodKey in prices &&
               (prices[methodKey].currency.None? || UnitAmount(prices[methodKey], course).None?))
  {
    if methodKey !in prices then Unavailable
    else
      var pm := prices[methodKey];
      match pm.currency
      case None => KeyError("currency")
      case Some(currency) =>
        match UnitAmount(pm, course)
        case None => KeyError("kids")
        case Some(unitAmount) =>
          Lines(MessageLines(methodKey, currency, course, unitAmount, Units(course, kidsCount, hsCount), percent))
  }

  // ---------------------------------------------------------------------------
  // What the message promises

  /** The amount the message asks for: the discounted price when a discount applies,
      the plain fee otherwise. */
  function AmountDue(lines: seq<Line>): Option<real> {
    if lines == [] then None
    else if lines[0].Fee? then Some(lines[0].amount as real)
    else if lines[0].DiscountedPrice? then Some(lines[0].price)
    else AmountDue(lines[1..])
  }

  predicate IsPriceLine(l: Line) { l.Fee? || l.DiscountedPrice? }

  lemma {:induction false} AmountDueOfConcat(a: seq<Line>, b: seq<Line>)
    requires forall i :: 0 <= i < |a| ==> !IsPriceLine(a[i])
    ensures AmountDue(a + b) == AmountDue(b)
    decreases |a|
  {
    if a != [] {
      assert (a + b)[0] == a[0] && !IsPriceLine(a[0]);
      assert (a + b)[1..] == a[1..] + b;
      AmountDueOfConcat(a[1..], b);
    } else {
      assert a + b == b;
    }
  }

  /** The price asked for is the unit price times the headcount, reduced by the
      discount percentage exactly when that percentage is positive. */
  lemma AmountDueIsPrice(prices: map<string, PriceMap>, methodKey: string, course: string,
                         kidsCount: Option<int>, hsCount: Option<int>, percent: int)
    requires BuildPaymentText(prices, methodKey, course, kidsCount, hsCount, percent).Lines?
    ensures var total := UnitAmount(prices[methodKey], course).value * Units(course, kidsCount, hsCount);
            AmountDue(BuildPaymentText(prices, methodKey, course, kidsCount, hsCount, percent).lines) ==
            Some(if percent > 0 then Discounted(total, percent) else total as real)
  {
    var pm := prices[methodKey];
    var lines := MessageLines(methodKey, pm.currency.value, course, UnitAmount(pm, course).value,
                              Units(course, kidsCount, hsCount), percent);
    var head := [Heading(methodKey), Instructions(methodKey)];
    var rest := lines[2..];
    assert lines == head + rest;
    AmountDueOfConcat(head, rest);
    if percent > 0 {
      assert rest[1..][0].DiscountedPrice?;
      assert !IsPriceLine(rest[0]);
    }
  }

  /** For `kids` and `highschool` the price scales with the number given (an absent,
      zero or negative number counts as one); every other course is charged once. */
  lemma UnitsByCourse(course: string, kidsCount: Option<int>, hsCount: Option<int>, n: int)
    requires n >= 1
    ensures course == "kids" && kidsCount == Some(n) ==> Units(course, kidsCount, hsCount) == n
    ensures course == "highschool" && hsCount == Some(n) ==> Units(course, kidsCount, hsCount) == n
    ensures course == "kids" && (kidsCount == None || kidsCount == Some(0)) ==> Units(course, kidsCount, hsCount) == 1
    ensures course == "highschool" && (hsCount == None || hsCount == Some(0)) ==> Units(course, kidsCount, hsCount) == 1
    ensures course == "kids" && kidsCount.Some? && kidsCount.value < 1 ==> Units(course, kidsCount, hsCount) == 1
    ensures course == "highschool" && hsCount.Some? && hsCount.value < 1 ==> Units(course, kidsCount, hsCount) == 1
    ensures course != "kids" && course != "highschool" ==> Units(course, kidsCount, hsCount) == 1
  {
  }

  /** A discount between 0 and 100 percent never raises the price and never makes it
      negative; a full discount makes it free. */
  lemma DiscountBounds(total: int, percent: int)
    requires total >= 0 && 0 <= percent <= 100
    ensures 0.0 <= Discounted(total, percent) <= total as real
    ensures percent == 100 ==> Discounted(total, percent) == 0.0
  {
    var t, p := total as real, percent as real;
    assert t * p <= t * 100.0;
    assert t * p >= 0.0;
  }

  /** The discount notice appears exactly when the percentage is positive, and then it
      reports the undiscounted total. */
  lemma DiscountNoticeIff(prices: map<string, PriceMap>, methodKey: string, course: string,
                          kidsCount: Option<int>, hsCount: Option<int>, percent: int)
    requires BuildPaymentText(prices, methodKey, course, kidsCount, hsCount, percent).Lines?
    ensures var lines := BuildPaymentText(prices, methodKey, course, kidsCount, hsCount, percent).lines;
            (exists i :: 0 <= i < |lines| && lines[i].DiscountNotice?) <==> percent > 0
    ensures var lines := BuildPaymentText(prices, methodKey, course, kidsCount, hsCount, percent).lines;
            percent > 0 ==> lines[2] == DiscountNotice(percent,
                                UnitAmount(prices[methodKey], course).value * Units(course, kidsCount, hsCount),
                                prices[methodKey].currency.value)
  {
    var lines := BuildPaymentText(prices, methodKey, course, kidsCount, hsCount, percent).lines;
    if percent > 0 {
      assert lines[2].DiscountNotice?;
    }
  }

  /** Only Western Union / MoneyGram asks for the MTCN reference, and every message
      ends by asking for the receipt (just before that request when present). */
  lemma MtcnOnlyForWesternUnion(prices: map<string, PriceMap>, methodKey: string, course: string,
                                kidsCount: Option<int>, hsCount: Option<int>, percent: int)
    requires BuildPaymentText(prices, methodKey, course, kidsCount, hsCount, percent).Lines?
    ensures var lines := BuildPaymentText(prices, methodKey, course, kidsCount, hsCount, percent).lines;
            (lines[|lines| - 1] == MtcnRequest <==> methodKey == "wu_mg") &&
            (methodKey == "wu_mg" ==> lines[|lines| - 2] == ReceiptRequest) &&
            (methodKey != "wu_mg" ==> lines[|lines| - 1] == ReceiptRequest) &&
            |lines| == 4 + (if percent > 0 then 1 else 0) + (if methodKey == "wu_mg" then 1 else 0)
  {
  }
}
