/** Requests, suppliers and quotes, and the rules deciding which quote may take part in price selection.
    Money is in kopecks, time in seconds, confidence in thousandths. */
module Market {
  import opened Wrappers

  datatype Source = Regex | Llm | Manual | OperatorCorrected

  datatype RequestStatus = Open | AwaitingAnswers | Priced | Bargaining | NeedsRecheck | Closed | Cancelled

  datatype Quote = Quote(
    id: int, requestId: int, supplierId: int,
    priceInitial: Option<int>, priceBargain: Option<int>,
    qty: Option<int>, available: Option<bool>,
    source: Source, confidence: Option<int>, observedAt: int)

  /** `skuKey` and `normalizerVersion` are empty when the column is null or empty. */
  datatype Request = Request(
    id: int, status: RequestStatus, skuKey: string, normalizerVersion: string,
    requestedQty: Option<int>, normalizedQty: Option<int>)

  datatype Supplier = Supplier(id: int, active: bool)

  datatype Settings = Settings(
    confidenceThreshold: int, priceMin: int, priceMax: int, replyMaxAge: int,
    dailyReuse: bool, dailyMaxAge: int, dayOffset: int)

  const DAY := 86400

  function DayStart(t: int, offset: int): (start: int)
    ensures start <= t < start + DAY
    ensures (start + offset) % DAY == 0
  {
    t - (t + offset) % DAY
  }

  predicate ObservedToday(q: Quote, now: int, s: Settings) {
    DayStart(now, s.dayOffset) <= q.observedAt < DayStart(now, s.dayOffset) + DAY
  }

  /** The quote and the moment fall on the same day, counted from midnight to midnight. */
  lemma TodayWhen(q: Quote, now: int, s: Settings)
    ensures ObservedToday(q, now, s) <==> (q.observedAt + s.dayOffset) / DAY == (now + s.dayOffset) / DAY
  {
    var d, o := now + s.dayOffset, q.observedAt + s.dayOffset;
    assert d == DAY * (d / DAY) + d % DAY && o == DAY * (o / DAY) + o % DAY;
  }

  predicate IsClosed(r: Request) {
    r.status == Closed || r.status == Cancelled
  }

  /** The price formula of the eligibility rule: the bargain price whenever there is one. */
  function PurchaseUnitPrice(q: Quote): Option<int> {
    if q.priceBargain.Some? then q.priceBargain else q.priceInitial
  }

  /** The price formula everywhere else: a bargain price of zero falls through to the initial price. */
  function PurchaseOr(q: Quote): Option<int> {
    if q.priceBargain.Some? && q.priceBargain.value != 0 then q.priceBargain else q.priceInitial
  }

  /** The requested quantity, else the normalised one, else one; a quantity of zero counts as missing. */
  function RequestedUnits(r: Request): int {
    if r.requestedQty.Some? && r.requestedQty.value != 0 then r.requestedQty.value
    else if r.normalizedQty.Some? && r.normalizedQty.value != 0 then r.normalizedQty.value
    else 1
  }

  datatype Reason =
    | SupplierMissing | RequestClosed | SupplierInactive | NotAvailable | LowConfidence | NoPrice
    | PriceOutOfSanity | StaleQuote | InsufficientQty | SkuMismatch

  predicate Trusted(q: Quote, s: Settings) {
    || q.source == Manual || q.source == OperatorCorrected
    || (if q.confidence.Some? then q.confidence.value else 1000) >= s.confidenceThreshold
  }

  /** Why the quote may not take part, or None when it may. */
  function Rejection(q: Quote, r: Request, supplier: Supplier, now: int, skuKey: string, s: Settings): Option<Reason> {
    if IsClosed(r) then Some(RequestClosed)
    else if !supplier.active then Some(SupplierInactive)
    else if q.available == Some(false) then Some(NotAvailable)
    else if !Trusted(q, s) then Some(LowConfidence)
    else
      var price := PurchaseUnitPrice(q);
      if price.None? || price.value <= 0 then Some(NoPrice)
      else if price.value < s.priceMin || price.value > s.priceMax then Some(PriceOutOfSanity)
      else if q.observedAt < now - s.replyMaxAge then Some(StaleQuote)
      else if q.qty.Some? && q.qty.value < RequestedUnits(r) then Some(InsufficientQty)
      else if skuKey != "" && r.skuKey != "" && r.skuKey != skuKey then Some(SkuMismatch)
      else None
  }

  predicate Eligible(q: Quote, r: Request, supplier: Supplier, now: int, skuKey: string, s: Settings) {
    Rejection(q, r, supplier, now, skuKey, s).None?
  }

  // ----- The rules, one by one -----

  /** The bargain price if there is one, else the initial one. */
  predicate PricedAt(q: Quote, price: int) {
    q.priceBargain == Some(price) || (q.priceBargain.None? && q.priceInitial == Some(price))
  }

  /** The requested quantity, else the normalised one, else one; zero counts as missing. */
  predicate AsksFor(r: Request, n: int) {
    if r.requestedQty.Some? && r.requestedQty != Some(0) then r.requestedQty == Some(n)
    else if r.normalizedQty.Some? && r.normalizedQty != Some(0) then r.normalizedQty == Some(n)
    else n == 1
  }

  /** One reason against a quote, whatever else speaks against it. */
  ghost predicate Fault(q: Quote, r: Request, supplier: Option<Supplier>, now: int, skuKey: string, s: Settings,
                        reason: Reason) {
    match reason
    case SupplierMissing => supplier.None?
    case RequestClosed => r.status == Closed || r.status == Cancelled
    case SupplierInactive => supplier.Some? && !supplier.value.active
    case NotAvailable => q.available == Some(false)
    case LowConfidence =>
      && (q.source == Regex || q.source == Llm)
      && (if q.confidence.None? then 1000 < s.confidenceThreshold else q.confidence.value < s.confidenceThreshold)
    case NoPrice => forall price :: PricedAt(q, price) ==> price <= 0
    case PriceOutOfSanity => exists price :: PricedAt(q, price) && (price < s.priceMin || s.priceMax < price)
    case StaleQuote => now - q.observedAt > s.replyMaxAge
    case InsufficientQty => exists n :: AsksFor(r, n) && q.qty.Some? && q.qty.value < n
    case SkuMismatch => skuKey != "" && r.skuKey != "" && skuKey != r.skuKey
  }

  /** The order in which the reasons are looked at. */
  function Place(reason: Reason): nat {
    match reason
    case SupplierMissing => 0 case RequestClosed => 1 case SupplierInactive => 2 case NotAvailable => 3
    case LowConfidence => 4 case NoPrice => 5 case PriceOutOfSanity => 6 case StaleQuote => 7
    case InsufficientQty => 8 case SkuMismatch => 9
  }

  ghost predicate FirstFault(q: Quote, r: Request, supplier: Option<Supplier>, now: int, skuKey: string, s: Settings,
                             reason: Reason) {
    && Fault(q, r, supplier, now, skuKey, s, reason)
    && forall other | Place(other) < Place(reason) :: !Fault(q, r, supplier, now, skuKey, s, other)
  }

  ghost predicate Faultless(q: Quote, r: Request, supplier: Option<Supplier>, now: int, skuKey: string, s: Settings) {
    forall reason :: !Fault(q, r, supplier, now, skuKey, s, reason)
  }

  lemma PriceFault(q: Quote, s: Settings)
    ensures var price := PurchaseUnitPrice(q);
            && (forall p :: PricedAt(q, p) <==> price == Some(p))
            && ((forall p :: PricedAt(q, p) ==> p <= 0) <==> price.None? || price.value <= 0)
            && ((exists p :: PricedAt(q, p) && (p < s.priceMin || s.priceMax < p)) <==>
                  price.Some? && (price.value < s.priceMin || s.priceMax < price.value))
  {
    var price := PurchaseUnitPrice(q);
    assert price.Some? ==> PricedAt(q, price.value);
  }

  lemma QtyFault(q: Quote, r: Request)
    ensures (exists n :: AsksFor(r, n) && q.qty.Some? && q.qty.value < n) <==>
            q.qty.Some? && q.qty.value < RequestedUnits(r)
  {
    assert AsksFor(r, RequestedUnits(r));
  }

  /** Each reason is given exactly when it is the first to speak against the quote, and the quote may take part
      exactly when none does. */
  lemma RejectedFor(q: Quote, r: Request, supplier: Supplier, now: int, skuKey: string, s: Settings)
    ensures var found := Rejection(q, r, supplier, now, skuKey, s);
            && (forall reason :: found == Some(reason) <==> FirstFault(q, r, Some(supplier), now, skuKey, s, reason))
            && (found.None? <==> Faultless(q, r, Some(supplier), now, skuKey, s))
  {
    PriceFault(q, s);
    QtyFault(q, r);
    var found := Rejection(q, r, supplier, now, skuKey, s);
    if found.Some? {
      assert FirstFault(q, r, Some(supplier), now, skuKey, s, found.value);
    }
    forall reason | FirstFault(q, r, Some(supplier), now, skuKey, s, reason) ensures found == Some(reason) {
      if found != Some(reason) {
        FaultIsFound(q, r, supplier, now, skuKey, s, reason);
      }
    }
  }

  lemma FaultIsFound(q: Quote, r: Request, supplier: Supplier, now: int, skuKey: string, s: Settings, reason: Reason)
    requires Fault(q, r, Some(supplier), now, skuKey, s, reason)
    ensures var found := Rejection(q, r, supplier, now, skuKey, s);
            found.Some? && Place(found.value) <= Place(reason)
  {
    PriceFault(q, s);
    QtyFault(q, r);
  }

  /** The two price formulas differ exactly on a zero bargain price with another initial price. */
  lemma FormulasDiffer(q: Quote)
    ensures PurchaseOr(q) != PurchaseUnitPrice(q) <==> q.priceBargain == Some(0) && q.priceInitial != Some(0)
    ensures q.priceBargain == Some(0) ==> PurchaseOr(q) == q.priceInitial && PurchaseUnitPrice(q) == Some(0)
    ensures q.priceBargain != Some(0) ==> forall price :: PurchaseUnitPrice(q) == Some(price) <==> PricedAt(q, price)
  {
  }

  /** On an eligible quote they agree, so the price it was judged by is the price it is sold by. */
  lemma FormulasAgreeWhenEligible(q: Quote, r: Request, supplier: Supplier, now: int, skuKey: string, s: Settings)
    requires Eligible(q, r, supplier, now, skuKey, s)
    ensures PurchaseOr(q) == PurchaseUnitPrice(q) && PurchaseOr(q).Some?
    ensures s.priceMin <= PurchaseOr(q).value <= s.priceMax && PurchaseOr(q).value > 0
  {
  }
}
