/** apps/api/src/modules/cart/pricing.service.ts. */
module Pricing {
  import opened Arithmetic
  import opened Money
  import opened Sums
  import opened Wrappers

  datatype LineInput = LineInput(
    product: nat, quantity: int, unitPrice: int, variantDelta: int, modifierPrices: seq<int>)

  datatype PricedLine = PricedLine(
    input: LineInput, effectiveUnitPrice: int, modifiersPrice: int,
    subtotal: int, discount: int, total: int)

  datatype PromoType = PERCENTAGE | FIXED | BUY_X_GET_Y | FREE_DELIVERY

  datatype Promo = Promo(kind: PromoType, value: int, minOrderTotal: int, maxDiscount: Option<int>)

  datatype Delivery = Delivery(enabled: bool, flatFee: int, freeAbove: Option<int>, minOrderTotal: int)

  datatype Loyalty = Loyalty(enabled: bool, rate: real, minOrderTotal: int, maxRedeemPercent: real)

  datatype Fulfillment = DELIVERY | PICKUP | DINE_IN

  datatype Input = Input(
    lines: seq<LineInput>, fulfillment: Fulfillment, promo: Option<Promo>,
    delivery: Delivery, loyalty: Loyalty, requestedSpend: int, availableBalance: int)

  datatype Receipt = Receipt(
    lines: seq<PricedLine>, subtotal: int, promoDiscount: int, loyaltyDiscount: int,
    discountTotal: int, deliveryFee: int, taxTotal: int, total: int, loyaltyEarn: int)

  datatype Error =
    | CartEmpty | BadQuantity | NegativePrice | PromoNotApplicable
    | InsufficientLoyalty | MinimumOrderNotMet

  /** The bounds the catalog and settings schemas put on modifier prices and the delivery fee. */
  predicate ValidInput(input: Input) {
    && (forall l :: l in input.lines ==> forall m :: m in l.modifierPrices ==> m >= 0)
    && input.delivery.flatFee >= 0
  }

  // ── the private helpers ──

  function LineError(line: LineInput): Option<Error> {
    if line.quantity < 1 then Some(BadQuantity)
    else if line.unitPrice + line.variantDelta < 0 then Some(NegativePrice)
    else None
  }

  function Times(price: int, quantity: int): int { price * quantity }

  function PriceLine(line: LineInput): PricedLine {
    var effective := line.unitPrice + line.variantDelta;
    var modifiers := Sum(line.modifierPrices);
    var subtotal := Times(effective + modifiers, line.quantity);
    PricedLine(line, effective, modifiers, subtotal, 0, subtotal)
  }

  function PromoDiscount(promo: Option<Promo>, subtotal: int): Result<int, Error> {
    if promo.None? then Ok(0)
    else
      var p := promo.value;
      if subtotal < p.minOrderTotal then Err(PromoNotApplicable)
      else
        match p.kind
        case FREE_DELIVERY => Ok(0)
        case BUY_X_GET_Y => Err(PromoNotApplicable)
        case _ =>
          var discount := if p.kind == PERCENTAGE then ApplyPercentage(subtotal, p.value as real) else p.value;
          var capped := if p.maxDiscount.Some? then Min(discount, p.maxDiscount.value) else discount;
          Ok(Max(0, Min(capped, subtotal)))
  }

  function LoyaltyDiscount(input: Input, afterPromo: int): Result<int, Error> {
    if !input.loyalty.enabled || input.requestedSpend <= 0 then Ok(0)
    else if input.requestedSpend > input.availableBalance then Err(InsufficientLoyalty)
    else
      var cap := ApplyPercentage(afterPromo, input.loyalty.maxRedeemPercent);
      Ok(Max(0, Min(Min(input.requestedSpend, cap), afterPromo)))
  }

  function DeliveryFee(input: Input, subtotal: int, promoDiscount: int): int {
    if input.fulfillment != DELIVERY || !input.delivery.enabled then 0
    else if input.promo.Some? && input.promo.value.kind == FREE_DELIVERY
      && subtotal >= input.promo.value.minOrderTotal then 0
    else if input.delivery.freeAbove.Some?
      && subtotal - promoDiscount >= input.delivery.freeAbove.value then 0
    else input.delivery.flatFee
  }

  function LoyaltyEarn(rule: Loyalty, total: int, subtotal: int): int {
    if !rule.enabled || rule.rate <= 0.0 then 0
    else if subtotal < rule.minOrderTotal then 0
    else ApplyPercentage(total, rule.rate)
  }

  // ── what a receipt must satisfy ──

  function Subtotals(lines: seq<PricedLine>): (s: seq<int>)
    ensures |s| == |lines| && forall i :: 0 <= i < |lines| ==> s[i] == lines[i].subtotal
  {
    seq(|lines|, i requires 0 <= i < |lines| => lines[i].subtotal)
  }

  function Discounts(lines: seq<PricedLine>): (s: seq<int>)
    ensures |s| == |lines| && forall i :: 0 <= i < |lines| ==> s[i] == lines[i].discount
  {
    seq(|lines|, i requires 0 <= i < |lines| => lines[i].discount)
  }

  function Totals(lines: seq<PricedLine>): (s: seq<int>)
    ensures |s| == |lines| && forall i :: 0 <= i < |lines| ==> s[i] == lines[i].total
  {
    seq(|lines|, i requires 0 <= i < |lines| => lines[i].total)
  }

  /** Each line charges its catalog price, less its own share of the discount. */
  ghost predicate LinesPriced(input: Input, lines: seq<PricedLine>) {
    && |lines| == |input.lines|
    && forall i :: 0 <= i < |lines| ==>
         && lines[i].(discount := 0, total := lines[i].subtotal) == PriceLine(input.lines[i])
         && 0 <= lines[i].discount <= lines[i].subtotal
         && lines[i].total == lines[i].subtotal - lines[i].discount
  }

  /** The receipt adds up, line by line and in total, and no discount exceeds its limits. */
  ghost predicate AddsUp(input: Input, r: Receipt) {
    && LinesPriced(input, r.lines)
    && r.subtotal == Sum(Subtotals(r.lines))
    && r.discountTotal == r.promoDiscount + r.loyaltyDiscount == Sum(Discounts(r.lines))
    && (r.discountTotal > 0 ==> r.subtotal > 0 && Apportions(r.discountTotal, Subtotals(r.lines), Discounts(r.lines)))
    && Sum(Totals(r.lines)) == r.subtotal - r.discountTotal
    && r.total == Sum(Totals(r.lines)) + r.deliveryFee && r.total >= 0
    && 0 <= r.promoDiscount && 0 <= r.loyaltyDiscount
    && r.promoDiscount + r.loyaltyDiscount <= r.subtotal
    && r.deliveryFee >= 0
  }

  /** Discounts, fee and cashback are those of the rules for this subtotal. */
  ghost predicate Quoted(input: Input, r: Receipt) {
    && Quote(input, r.subtotal) == Ok((r.promoDiscount, r.loyaltyDiscount))
    && r.deliveryFee == DeliveryFee(input, r.subtotal, r.promoDiscount)
    && r.loyaltyEarn == LoyaltyEarn(input.loyalty, r.total, r.subtotal)
  }

  /** Bonuses cover no more than was asked for, is available, or the redeem cap allows. */
  ghost predicate LoyaltyWithinLimits(input: Input, r: Receipt) {
    r.loyaltyDiscount > 0 ==>
      && r.loyaltyDiscount <= input.requestedSpend <= input.availableBalance
      && r.loyaltyDiscount <= ApplyPercentage(r.subtotal - r.promoDiscount, input.loyalty.maxRedeemPercent)
  }

  /** The promo and loyalty discounts of an order, or the first check that refuses it. */
  function Quote(input: Input, subtotal: int): Result<(int, int), Error> {
    match PromoDiscount(input.promo, subtotal)
    case Err(e) => Err(e)
    case Ok(promo) =>
      match LoyaltyDiscount(input, subtotal - promo)
      case Err(e) => Err(e)
      case Ok(loyalty) =>
        if input.fulfillment == DELIVERY && subtotal < input.delivery.minOrderTotal
        then Err(MinimumOrderNotMet) else Ok((promo, loyalty))
  }

  /** The first check that refuses, in the order the service makes them. */
  function Refusal(input: Input): Option<Error> {
    if input.lines == [] then Some(CartEmpty)
    else if FirstLineError(input.lines).Some? then FirstLineError(input.lines)
    else
      match Quote(input, Sum(Subtotals(PriceLines(input.lines))))
      case Err(e) => Some(e)
      case Ok(_) => None
  }

  function FirstLineError(lines: seq<LineInput>): Option<Error> {
    if lines == [] then None
    else if LineError(lines[0]).Some? then LineError(lines[0])
    else FirstLineError(lines[1..])
  }

  function PriceLines(lines: seq<LineInput>): (r: seq<PricedLine>)
    ensures |r| == |lines| && forall i :: 0 <= i < |lines| ==> r[i] == PriceLine(lines[i])
  {
    seq(|lines|, i requires 0 <= i < |lines| => PriceLine(lines[i]))
  }

  // ── the same, spelled out ──

  /** A line costs its unit price with the variant's difference and its modifiers, times the quantity. */
  predicate CatalogLine(l: LineInput, line: PricedLine) {
    && line.input == l
    && line.effectiveUnitPrice == l.unitPrice + l.variantDelta
    && line.modifiersPrice == Sum(l.modifierPrices)
    && line.subtotal == (l.unitPrice + l.variantDelta + Sum(l.modifierPrices)) * l.quantity
  }

  ghost predicate CatalogPriced(input: Input, lines: seq<PricedLine>) {
    |lines| == |input.lines| && forall i :: 0 <= i < |lines| ==> CatalogLine(input.lines[i], lines[i])
  }

  /** What the goods cost by the catalog. */
  function CatalogTotal(lines: seq<LineInput>): int {
    if lines == [] then 0
    else
      var l := lines[|lines| - 1];
      CatalogTotal(lines[..|lines| - 1]) + (l.unitPrice + l.variantDelta + Sum(l.modifierPrices)) * l.quantity
  }

  predicate GoodLine(l: LineInput) { l.quantity >= 1 && l.unitPrice + l.variantDelta >= 0 }

  ghost predicate GoodLines(input: Input) {
    forall i :: 0 <= i < |input.lines| ==> GoodLine(input.lines[i])
  }

  predicate PromoRefused(input: Input) {
    && input.promo.Some?
    && (CatalogTotal(input.lines) < input.promo.value.minOrderTotal || input.promo.value.kind == BUY_X_GET_Y)
  }

  predicate LoyaltyRefused(input: Input) {
    input.loyalty.enabled && input.requestedSpend > 0 && input.requestedSpend > input.availableBalance
  }

  predicate TooSmall(input: Input) {
    input.fulfillment == DELIVERY && CatalogTotal(input.lines) < input.delivery.minOrderTotal
  }

  /** The first bad line has no quantity, or else a negative price. */
  ghost predicate FirstBadLine(lines: seq<LineInput>, e: Error) {
    exists k :: 0 <= k < |lines|
      && (forall j :: 0 <= j < k ==> GoodLine(lines[j]))
      && (if lines[k].quantity < 1 then e == BadQuantity
          else lines[k].unitPrice + lines[k].variantDelta < 0 && e == NegativePrice)
  }

  /** Which error refuses an order: an empty cart, a bad line, then promo, loyalty and the minimum. */
  ghost predicate RefusedWith(input: Input, e: Error) {
    if input.lines == [] then e == CartEmpty
    else if !GoodLines(input) then FirstBadLine(input.lines, e)
    else if PromoRefused(input) then e == PromoNotApplicable
    else if LoyaltyRefused(input) then e == InsufficientLoyalty
    else TooSmall(input) && e == MinimumOrderNotMet
  }

  ghost predicate Acceptable(input: Input) {
    input.lines != [] && GoodLines(input) && !PromoRefused(input) && !LoyaltyRefused(input) && !TooSmall(input)
  }

  /** The flat fee is charged for an enabled delivery that neither a promo nor the threshold makes free. */
  predicate FeeCharged(input: Input, r: Receipt) {
    r.deliveryFee ==
      if input.fulfillment == DELIVERY && input.delivery.enabled
        && !(input.promo.Some? && input.promo.value.kind == FREE_DELIVERY
             && CatalogTotal(input.lines) >= input.promo.value.minOrderTotal)
        && !(input.delivery.freeAbove.Some?
             && CatalogTotal(input.lines) - r.promoDiscount >= input.delivery.freeAbove.value)
      then input.delivery.flatFee else 0
  }

  /** Cashback is the rate on the total paid, to the nearest unit, once the goods reach the minimum. */
  predicate CashbackEarned(input: Input, r: Receipt) {
    if input.loyalty.enabled && input.loyalty.rate > 0.0
      && CatalogTotal(input.lines) >= input.loyalty.minOrderTotal then
      var exact := r.total as real * input.loyalty.rate / 100.0;
      exact - 0.5 < r.loyaltyEarn as real <= exact + 0.5
    else r.loyaltyEarn == 0
  }

  /** No promo, and a promo on the delivery, take nothing off the goods; nor do bonuses off or not asked for. */
  predicate NothingUnasked(input: Input, r: Receipt) {
    && (input.promo.None? || input.promo.value.kind == FREE_DELIVERY ==> r.promoDiscount == 0)
    && (!input.loyalty.enabled || input.requestedSpend <= 0 ==> r.loyaltyDiscount == 0)
  }

  lemma {:induction false} FirstErrorExactly(lines: seq<LineInput>)
    ensures FirstLineError(lines) == None <==> forall i :: 0 <= i < |lines| ==> GoodLine(lines[i])
    ensures FirstLineError(lines).Some? ==> FirstBadLine(lines, FirstLineError(lines).value)
  {
    if lines != [] {
      var rest := lines[1..];
      FirstErrorExactly(rest);
      assert forall i :: 0 <= i < |rest| ==> lines[i + 1] == rest[i];
      if LineError(lines[0]).None? {
        assert forall i :: 1 <= i < |lines| ==> lines[i] == rest[i - 1];
        if FirstLineError(rest).Some? { BadLineLater(lines, FirstLineError(rest).value); }
      }
    }
  }

  lemma BadLineLater(lines: seq<LineInput>, e: Error)
    requires lines != [] && GoodLine(lines[0]) && FirstBadLine(lines[1..], e)
    ensures FirstBadLine(lines, e)
  {
    var rest := lines[1..];
    var k :| 0 <= k < |rest|
      && (forall j :: 0 <= j < k ==> GoodLine(rest[j]))
      && (if rest[k].quantity < 1 then e == BadQuantity
          else rest[k].unitPrice + rest[k].variantDelta < 0 && e == NegativePrice);
    forall j | 0 <= j < k + 1 ensures GoodLine(lines[j]) { assert j > 0 ==> lines[j] == rest[j - 1]; }
    assert lines[k + 1] == rest[k];
  }

  lemma PricedByCatalog(l: LineInput)
    ensures CatalogLine(l, PriceLine(l))
  {
  }

  lemma {:induction false} SubtotalIsCatalog(lines: seq<LineInput>)
    ensures Sum(Subtotals(PriceLines(lines))) == CatalogTotal(lines)
  {
    if lines != [] {
      var n := |lines| - 1;
      SubtotalIsCatalog(lines[..n]);
      PricedByCatalog(lines[n]);
      var all, front := Subtotals(PriceLines(lines)), Subtotals(PriceLines(lines[..n]));
      assert all == front + [PriceLine(lines[n]).subtotal];
      SumAppend(front, PriceLine(lines[n]).subtotal);
    }
  }

  lemma LinesByCatalog(input: Input, lines: seq<PricedLine>)
    requires LinesPriced(input, lines)
    ensures CatalogPriced(input, lines)
  {
    forall i | 0 <= i < |lines| ensures CatalogLine(input.lines[i], lines[i]) {
      PricedByCatalog(input.lines[i]);
    }
  }

  lemma RefusedExactly(input: Input)
    ensures Refusal(input) == None <==> Acceptable(input)
    ensures Refusal(input).Some? ==> RefusedWith(input, Refusal(input).value)
  {
    FirstErrorExactly(input.lines);
    SubtotalIsCatalog(input.lines);
  }

  lemma QuotedExactly(input: Input, r: Receipt)
    requires Quoted(input, r) && r.subtotal == CatalogTotal(input.lines)
    ensures FeeCharged(input, r) && CashbackEarned(input, r) && NothingUnasked(input, r)
  {
    PercentageRoundsHalfUp(r.total, input.loyalty.rate);
  }

  /** Splitting a line's quantity into two lines leaves what the goods cost as it was. */
  lemma SplitLine(before: seq<LineInput>, l: LineInput, after: seq<LineInput>, a: int, b: int)
    requires l.quantity == a + b
    ensures CatalogTotal(before + [l] + after)
      == CatalogTotal(before + [l.(quantity := a), l.(quantity := b)] + after)
  {
    SplitAlone(l, l.(quantity := a), l.(quantity := b));
    Surrounded(before, [l], after);
    Surrounded(before, [l.(quantity := a), l.(quantity := b)], after);
  }

  lemma Surrounded(before: seq<LineInput>, lines: seq<LineInput>, after: seq<LineInput>)
    ensures CatalogTotal(before + lines + after) == CatalogTotal(before) + CatalogTotal(lines) + CatalogTotal(after)
  {
    CatalogConcat(before + lines, after);
    CatalogConcat(before, lines);
  }

  lemma SplitAlone(l: LineInput, first: LineInput, second: LineInput)
    requires first == l.(quantity := first.quantity) && second == l.(quantity := second.quantity)
    requires l.quantity == first.quantity + second.quantity
    ensures CatalogTotal([l]) == CatalogTotal([first, second])
  {
    var price := l.unitPrice + l.variantDelta + Sum(l.modifierPrices);
    CatalogConcat([first], [second]);
    assert [first] + [second] == [first, second];
    OneLine(l, price);
    OneLine(first, price);
    OneLine(second, price);
    Distributes(price, first.quantity, second.quantity);
  }

  lemma OneLine(l: LineInput, price: int)
    requires price == l.unitPrice + l.variantDelta + Sum(l.modifierPrices)
    ensures CatalogTotal([l]) == price * l.quantity
  {
    assert [l][..0] == [];
  }

  lemma Distributes(price: int, a: int, b: int)
    ensures price * (a + b) == price * a + price * b
  {
  }

  lemma {:induction false} CatalogConcat(a: seq<LineInput>, b: seq<LineInput>)
    ensures CatalogTotal(a + b) == CatalogTotal(a) + CatalogTotal(b)
  {
    if b == [] {
      assert a + b == a;
    } else {
      assert (a + b)[..|a + b| - 1] == a + b[..|b| - 1];
      CatalogConcat(a, b[..|b| - 1]);
    }
  }

  // ── facts about the helpers ──

  lemma {:induction false} NoLineErrors(lines: seq<LineInput>)
    ensures FirstLineError(lines) == None <==> forall l :: l in lines ==> LineError(l) == None
  {
    if lines != [] {
      NoLineErrors(lines[1..]);
      assert lines == [lines[0]] + lines[1..];
    }
  }

  lemma LineSubtotalNonNegative(line: LineInput)
    requires LineError(line) == None && forall m :: m in line.modifierPrices ==> m >= 0
    ensures PriceLine(line).subtotal >= 0
  {
    var m := line.modifierPrices;
    assert forall i :: 0 <= i < |m| ==> m[i] in m;
    SumNonNegative(m);
  }

  lemma PromoWithinSubtotal(promo: Option<Promo>, subtotal: int)
    requires subtotal >= 0 && PromoDiscount(promo, subtotal).Ok?
    ensures 0 <= PromoDiscount(promo, subtotal).value <= subtotal
  {
  }

  /** The two discounts together never exceed the goods. */
  lemma QuoteWithinSubtotal(input: Input, subtotal: int)
    requires subtotal >= 0 && Quote(input, subtotal).Ok?
    ensures var (promo, loyalty) := Quote(input, subtotal).value;
      0 <= promo && 0 <= loyalty && promo + loyalty <= subtotal
  {
    PromoWithinSubtotal(input.promo, subtotal);
  }

  /** A receipt carrying the quoted discounts keeps loyalty within its own limits. */
  lemma QuotedWithinLimits(input: Input, r: Receipt)
    requires Quoted(input, r)
    ensures LoyaltyWithinLimits(input, r)
  {
  }

  /** A granted discount is the tightest of what the promo gives, its cap, and the goods themselves. */
  lemma PromoIsTightest(promo: Promo, subtotal: int)
    requires subtotal >= 0 && promo.value >= 0 && (promo.maxDiscount.Some? ==> promo.maxDiscount.value >= 0)
    requires promo.kind in {PERCENTAGE, FIXED} && PromoDiscount(Some(promo), subtotal).Ok?
    ensures var given := if promo.kind == FIXED then promo.value else ApplyPercentage(subtotal, promo.value as real);
      var d := PromoDiscount(Some(promo), subtotal).value;
      && d <= given && d <= subtotal && (promo.maxDiscount.Some? ==> d <= promo.maxDiscount.value)
      && (d == given || d == subtotal || promo.maxDiscount == Some(d))
  {
    PercentageNonNegative(subtotal, promo.value as real);
  }

  lemma PercentageNonNegative(amount: int, percent: real)
    requires amount >= 0 && percent >= 0.0
    ensures ApplyPercentage(amount, percent) >= 0
  {
    assert amount as real * percent >= 0.0;
  }

  /** Bonuses spent are the tightest of the request, the redeem cap and what is left to pay. */
  lemma LoyaltyIsTightest(input: Input, afterPromo: int)
    requires afterPromo >= 0 && input.loyalty.maxRedeemPercent >= 0.0
    requires input.loyalty.enabled && 0 < input.requestedSpend <= input.availableBalance
    ensures var cap := ApplyPercentage(afterPromo, input.loyalty.maxRedeemPercent);
      var r := LoyaltyDiscount(input, afterPromo);
      && r.Ok? && r.value <= input.requestedSpend && r.value <= cap && r.value <= afterPromo
      && (r.value == input.requestedSpend || r.value == cap || r.value == afterPromo)
  {
    PercentageNonNegative(afterPromo, input.loyalty.maxRedeemPercent);
  }

  // ── compute ──

  method PriceAll(lines: seq<LineInput>) returns (error: Option<Error>, priced: seq<PricedLine>)
    ensures error == FirstLineError(lines)
    ensures error == None ==> priced == PriceLines(lines)
    ensures error == None <==> forall i :: 0 <= i < |lines| ==> GoodLine(lines[i])
    ensures error.Some? ==> FirstBadLine(lines, error.value)
    ensures error == None ==> |priced| == |lines| && forall i :: 0 <= i < |lines| ==> CatalogLine(lines[i], priced[i])
  {
    FirstErrorExactly(lines);
    forall i | 0 <= i < |lines| ensures CatalogLine(lines[i], PriceLine(lines[i])) { PricedByCatalog(lines[i]); }
    ghost var spec := PriceLines(lines);
    priced := [];
    for i := 0 to |lines|
      invariant FirstLineError(lines) == FirstLineError(lines[i..])
      invariant |priced| == i && forall k :: 0 <= k < i ==> priced[k] == spec[k]
    {
      error := LineError(lines[i]);
      if error.Some? { return; }
      assert lines[i..][1..] == lines[i + 1..];
      var line := PriceLine(lines[i]);
      priced := priced + [line];
    }
    error := None;
  }

  /** Fresh line objects, to be updated in place. */
  method Lines(priced: seq<PricedLine>) returns (lines: array<PricedLine>)
    ensures fresh(lines) && lines[..] == priced
  {
    lines := new PricedLine[|priced|];
    forall i | 0 <= i < |priced| { lines[i] := priced[i]; }
  }

  /** Spread the shares over the lines, in place. */
  method ApplyShares(lines: array<PricedLine>, shares: seq<int>)
    requires |shares| == lines.Length
    modifies lines
    ensures forall i :: 0 <= i < lines.Length ==>
      lines[i] == old(lines[i]).(discount := shares[i], total := old(lines[i]).subtotal - shares[i])
  {
    for i := 0 to lines.Length
      invariant forall k :: 0 <= k < i ==>
        lines[k] == old(lines[k]).(discount := shares[k], total := old(lines[k]).subtotal - shares[k])
      invariant forall k :: i <= k < lines.Length ==> lines[k] == old(lines[k])
    {
      lines[i] := lines[i].(discount := shares[i], total := lines[i].subtotal - shares[i]);
    }
  }

  /** Shares of a discount no larger than the lines: they add up and fit under every line. */
  lemma SharesFit(discount: int, weights: seq<int>, shares: seq<int>)
    requires forall i :: 0 <= i < |weights| ==> weights[i] >= 0
    requires 0 <= discount <= Sum(weights) && |shares| == |weights|
    requires Sum(weights) <= 0 || discount == 0 ==> forall i :: 0 <= i < |shares| ==> shares[i] == 0
    requires Sum(weights) > 0 && discount != 0 ==> Apportions(discount, weights, shares)
    ensures Sum(shares) == discount
    ensures forall i :: 0 <= i < |shares| ==> 0 <= shares[i] <= weights[i]
  {
    if Sum(weights) > 0 && discount != 0 {
      forall i | 0 <= i < |shares| ensures 0 <= shares[i] <= weights[i] {
        PartsNearShares(discount, weights, shares, i);
      }
    } else {
      SumScaled(0, shares);
      assert Scaled(0, shares) == shares;
    }
  }

  /** Catalog subtotals are never negative, once every line has passed its checks. */
  lemma SubtotalsNonNegative(input: Input)
    requires ValidInput(input) && FirstLineError(input.lines) == None
    ensures forall i :: 0 <= i < |input.lines| ==> Subtotals(PriceLines(input.lines))[i] >= 0
    ensures Sum(Subtotals(PriceLines(input.lines))) >= 0
  {
    NoLineErrors(input.lines);
    var weights := Subtotals(PriceLines(input.lines));
    forall i | 0 <= i < |weights| ensures weights[i] >= 0 { LineSubtotalNonNegative(input.lines[i]); }
    SumNonNegative(weights);
  }

  /** Priced lines with shares that fit under them and add up make lines that add up. */
  lemma LinesAddUp(input: Input, before: seq<PricedLine>, after: seq<PricedLine>, shares: seq<int>)
    requires before == PriceLines(input.lines) && |after| == |before| == |shares|
    requires forall i :: 0 <= i < |after| ==>
      after[i] == before[i].(discount := shares[i], total := before[i].subtotal - shares[i])
    requires forall i :: 0 <= i < |shares| ==> 0 <= shares[i] <= Subtotals(before)[i]
    ensures LinesPriced(input, after)
    ensures Subtotals(after) == Subtotals(before) && Discounts(after) == shares
    ensures Sum(Totals(after)) == Sum(Subtotals(before)) - Sum(shares)
  {
    forall i | 0 <= i < |after|
      ensures after[i].(discount := 0, total := after[i].subtotal) == PriceLine(input.lines[i])
    {
      assert before[i] == PriceLine(input.lines[i]);
    }
    assert Subtotals(after) == Subtotals(before) && Discounts(after) == shares;
    SumLinear(1, shares, Totals(after), 1, Subtotals(before));
  }

  /** The second half of `compute`: spread the discount over the lines and total the receipt. */
  method Settle(input: Input, before: seq<PricedLine>, promoDiscount: int, loyaltyDiscount: int)
    returns (r: Receipt)
    requires ValidInput(input) && before == PriceLines(input.lines)
    requires forall i :: 0 <= i < |before| ==> Subtotals(before)[i] >= 0
    requires promoDiscount >= 0 && loyaltyDiscount >= 0
    requires promoDiscount + loyaltyDiscount <= Sum(Subtotals(before))
    ensures AddsUp(input, r) && r.subtotal == Sum(Subtotals(before))
    ensures r.promoDiscount == promoDiscount && r.loyaltyDiscount == loyaltyDiscount
    ensures r.deliveryFee == DeliveryFee(input, r.subtotal, r.promoDiscount)
    ensures r.loyaltyEarn == LoyaltyEarn(input.loyalty, r.total, r.subtotal)
  {
    var lines := Lines(before);
    var weights := Subtotals(before);
    var subtotal := Sum(weights);
    var discountTotal := promoDiscount + loyaltyDiscount;
    var deliveryFee := DeliveryFee(input, subtotal, promoDiscount);
    var shares := DistributeProportionally(discountTotal, weights);
    SharesFit(discountTotal, weights, shares);
    ApplyShares(lines, shares);
    var final := lines[..];
    LinesAddUp(input, before, final, shares);
    var taxTotal := 0;
    var total := subtotal - discountTotal + deliveryFee + taxTotal;
    r := Receipt(final, subtotal, promoDiscount, loyaltyDiscount, discountTotal,
      deliveryFee, taxTotal, total, LoyaltyEarn(input.loyalty, total, subtotal));
  }

  method Compute(input: Input) returns (result: Result<Receipt, Error>)
    requires ValidInput(input)
    ensures result.Err? ==> Refusal(input) == Some(result.error)
    ensures result.Ok? ==> Refusal(input) == None
    ensures result.Ok? ==> AddsUp(input, result.value)
    ensures result.Ok? ==> Quoted(input, result.value) && LoyaltyWithinLimits(input, result.value)
    ensures result.Ok? <==> Acceptable(input)
    ensures result.Err? ==> RefusedWith(input, result.error)
    ensures result.Ok? ==>
      && CatalogPriced(input, result.value.lines) && result.value.subtotal == CatalogTotal(input.lines)
      && FeeCharged(input, result.value) && CashbackEarned(input, result.value) && NothingUnasked(input, result.value)
  {
    RefusedExactly(input);
    SubtotalIsCatalog(input.lines);
    if |input.lines| == 0 { return Err(CartEmpty); }
    var lineError, priced := PriceAll(input.lines);
    if lineError.Some? { return Err(lineError.value); }
    var subtotal := Sum(Subtotals(priced));
    SubtotalsNonNegative(input);
    var quote := Quote(input, subtotal);
    if quote.Err? { return Err(quote.error); }
    QuoteWithinSubtotal(input, subtotal);
    var receipt := Settle(input, priced, quote.value.0, quote.value.1);
    QuotedWithinLimits(input, receipt);
    QuotedExactly(input, receipt);
    LinesByCatalog(input, receipt.lines);
    return Ok(receipt);
  }
}
