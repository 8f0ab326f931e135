/** The daily best-price projection per SKU, its reuse for later requests, and the two promises it makes:
    it is the fold of the day's quotes, and reusing it never attaches a quote the direct path would reject. */
module DailyPrice {
  import opened Wrappers
  import opened Market
  import opened BestQuote

  datatype DailyRow = DailyRow(
    sourceQuoteId: int, supplierId: int, purchase: int, client: int, observedAt: int, expiresAt: int,
    invalidated: bool, normalizerVersion: string, version: nat)

  datatype DayKey = DayKey(day: int, sku: string)

  type Projection = map<DayKey, DailyRow>

  /** One call of `upsert_daily_from_quote`. */
  datatype Event = Event(quote: Quote, request: Request, now: int, markup: int)

  const NORMALIZER := "current"

  function KeyOf(e: Event, s: Settings): DayKey {
    DayKey(DayStart(e.now, s.dayOffset), e.request.skuKey)
  }

  predicate Counts(e: Event) {
    e.request.skuKey != "" && PurchaseOr(e.quote).Some?
  }

  function FreshRow(e: Event, s: Settings, version: nat, normalizer: string): DailyRow
    requires PurchaseOr(e.quote).Some?
  {
    var purchase := PurchaseOr(e.quote).value;
    DailyRow(e.quote.id, e.quote.supplierId, purchase, purchase + e.markup, e.quote.observedAt,
             e.now + s.dailyMaxAge, false, normalizer, version)
  }

  function Upsert(p: Projection, e: Event, s: Settings): Projection {
    if !Counts(e) then p
    else
      var k := KeyOf(e, s);
      if k !in p then p[k := FreshRow(e, s, 1, NORMALIZER)]
      else if p[k].purchase <= PurchaseOr(e.quote).value then p
      else p[k := FreshRow(e, s, p[k].version + 1, p[k].normalizerVersion)]
  }

  function Fold(events: seq<Event>, s: Settings): Projection {
    if events == [] then map[]
    else Upsert(Fold(events[..|events| - 1], s), events[|events| - 1], s)
  }

  // ----- The projection is the fold of what was seen -----

  /** Prices and quotes seen for one day and SKU, in order. */
  function Seen(events: seq<Event>, k: DayKey, s: Settings): seq<(int, int)> {
    if events == [] then []
    else
      var e := events[|events| - 1];
      var before := Seen(events[..|events| - 1], k, s);
      if Counts(e) && KeyOf(e, s) == k then before + [(PurchaseOr(e.quote).value, e.quote.id)] else before
  }

  /** The first place where the least price was reached. */
  predicate FirstMinimum(seen: seq<(int, int)>, i: int) {
    && 0 <= i < |seen|
    && (forall j :: 0 <= j < |seen| ==> seen[i].0 <= seen[j].0)
    && (forall j :: 0 <= j < i ==> seen[i].0 < seen[j].0)
  }

  predicate NewMinimum(seen: seq<(int, int)>, i: int)
    requires 0 <= i < |seen|
  {
    forall j :: 0 <= j < i ==> seen[i].0 < seen[j].0
  }

  /** The places where the price dropped below everything before. */
  function NewMinima(seen: seq<(int, int)>): set<int> {
    set i | 0 <= i < |seen| && NewMinimum(seen, i)
  }

  /** One row per day and SKU, present as soon as a price was seen; it holds the least price of all, the
      first quote to reach it, and as version the number of strict drops. */
  lemma {:induction false} ProjectionIsFold(events: seq<Event>, k: DayKey, s: Settings)
    ensures var seen, p := Seen(events, k, s), Fold(events, s);
            && (k in p <==> seen != [])
            && (k in p ==>
                  && p[k].version == |NewMinima(seen)|
                  && exists i :: FirstMinimum(seen, i) && p[k].purchase == seen[i].0 && p[k].sourceQuoteId == seen[i].1)
  {
    if events != [] {
      var e, before := events[|events| - 1], events[..|events| - 1];
      ProjectionIsFold(before, k, s);
      if Counts(e) && KeyOf(e, s) == k {
        OneMore(Seen(before, k, s), PurchaseOr(e.quote).value, e.quote.id);
      }
    }
  }

  lemma OneMore(seen: seq<(int, int)>, price: int, id: int)
    ensures var more := seen + [(price, id)];
            && (seen == [] ==> FirstMinimum(more, 0) && |NewMinima(more)| == 1)
            && forall i | FirstMinimum(seen, i) ::
                 if seen[i].0 <= price then FirstMinimum(more, i) && |NewMinima(more)| == |NewMinima(seen)|
                 else FirstMinimum(more, |seen|) && |NewMinima(more)| == |NewMinima(seen)| + 1
  {
    if seen == [] {
      assert NewMinima(seen + [(price, id)]) == {0};
    }
    forall i | FirstMinimum(seen, i)
      ensures var more := seen + [(price, id)];
              if seen[i].0 <= price then FirstMinimum(more, i) && |NewMinima(more)| == |NewMinima(seen)|
              else FirstMinimum(more, |seen|) && |NewMinima(more)| == |NewMinima(seen)| + 1
    {
      MinimaKept(seen, price, id);
      if seen[i].0 <= price {
        NoDrop(seen, price, id, i);
      } else {
        Drop(seen, price, id, i);
      }
    }
  }

  lemma MinimaKept(seen: seq<(int, int)>, price: int, id: int)
    ensures forall i | 0 <= i < |seen| :: NewMinimum(seen + [(price, id)], i) <==> NewMinimum(seen, i)
  {
    var more := seen + [(price, id)];
    forall i | 0 <= i < |seen| ensures NewMinimum(more, i) <==> NewMinimum(seen, i) {
      assert forall j :: 0 <= j <= i ==> more[j] == seen[j];
    }
  }

  lemma NoDrop(seen: seq<(int, int)>, price: int, id: int, i: int)
    requires FirstMinimum(seen, i) && seen[i].0 <= price
    requires forall k | 0 <= k < |seen| :: NewMinimum(seen + [(price, id)], k) <==> NewMinimum(seen, k)
    ensures FirstMinimum(seen + [(price, id)], i) && NewMinima(seen + [(price, id)]) == NewMinima(seen)
  {
    var more := seen + [(price, id)];
    assert more[i] == seen[i] && !NewMinimum(more, |seen|);
  }

  lemma Drop(seen: seq<(int, int)>, price: int, id: int, i: int)
    requires FirstMinimum(seen, i) && price < seen[i].0
    requires forall k | 0 <= k < |seen| :: NewMinimum(seen + [(price, id)], k) <==> NewMinimum(seen, k)
    ensures FirstMinimum(seen + [(price, id)], |seen|)
    ensures |NewMinima(seen + [(price, id)])| == |NewMinima(seen)| + 1
  {
    assert NewMinima(seen + [(price, id)]) == NewMinima(seen) + {|seen|};
  }

  // ----- Reuse -----

  datatype Tables = Tables(
    quotes: map<int, Quote>, requests: map<int, Request>, suppliers: map<int, Supplier>, daily: Projection)

  /** The quote a row was taken from is of today, trusted, read by the same normaliser and eligible for its own
      request. */
  predicate SourceStillEligible(t: Tables, row: DailyRow, sku: string, now: int, s: Settings) {
    && row.sourceQuoteId in t.quotes
    && var q := t.quotes[row.sourceQuoteId];
       && q.requestId in t.requests && q.supplierId in t.suppliers
       && ObservedToday(q, now, s)
       && Trusted(q, s)
       && var r := t.requests[q.requestId];
          && (r.normalizerVersion == "" || r.normalizerVersion == row.normalizerVersion)
          && Eligible(q, r, t.suppliers[q.supplierId], now, sku, s)
  }

  function FreshDaily(t: Tables, sku: string, now: int, s: Settings): Option<DailyRow> {
    var k := DayKey(DayStart(now, s.dayOffset), sku);
    if !s.dailyReuse || k !in t.daily || t.daily[k].invalidated || t.daily[k].expiresAt < now then None
    else if SourceStillEligible(t, t.daily[k], sku, now, s) then Some(t.daily[k])
    else None
  }

  /** The source quote that would be attached to the request, if any. */
  function Reusable(t: Tables, r: Request, now: int, s: Settings): Option<Quote> {
    if r.skuKey == "" then None
    else
      var daily := FreshDaily(t, r.skuKey, now, s);
      if daily.None? then None
      else
        var q := t.quotes[daily.value.sourceQuoteId];
        if q.qty.Some? && q.qty.value < RequestedUnits(r) then None else Some(q)
  }

  /** A quote is reusable exactly when today's row of the SKU names it, the row is neither invalidated nor expired,
      the quote is of today and without fault for its own request, was read by the row's normaliser, and covers
      what this request asks for. */
  lemma ReusableWhen(t: Tables, r: Request, q: Quote, now: int, s: Settings)
    ensures Reusable(t, r, now, s) == Some(q) <==>
              var k := DayKey(DayStart(now, s.dayOffset), r.skuKey);
              && r.skuKey != "" && s.dailyReuse && k in t.daily
              && !t.daily[k].invalidated && now <= t.daily[k].expiresAt
              && t.daily[k].sourceQuoteId in t.quotes && q == t.quotes[t.daily[k].sourceQuoteId]
              && q.requestId in t.requests && q.supplierId in t.suppliers
              && (q.observedAt + s.dayOffset) / DAY == (now + s.dayOffset) / DAY
              && t.requests[q.requestId].normalizerVersion in {"", t.daily[k].normalizerVersion}
              && Faultless(q, t.requests[q.requestId], Some(t.suppliers[q.supplierId]), now, r.skuKey, s)
              && (q.qty.Some? ==> forall n :: AsksFor(r, n) ==> n <= q.qty.value)
  {
    TodayWhen(q, now, s);
    QtyFault(q, r);
    if q.requestId in t.requests && q.supplierId in t.suppliers {
      RejectedFor(q, t.requests[q.requestId], t.suppliers[q.supplierId], now, r.skuKey, s);
      assert Eligible(q, t.requests[q.requestId], t.suppliers[q.supplierId], now, r.skuKey, s) ==> Trusted(q, s);
    }
  }

  function CopyOf(source: Quote, id: int, requestId: int): Quote {
    source.(id := id, requestId := requestId)
  }

  /** The cache refines the direct path: a copied quote is one the direct rules accept for this request,
      exactly when the request itself is still open. */
  lemma AttachedIsEligible(t: Tables, r: Request, now: int, s: Settings, id: int)
    requires Reusable(t, r, now, s).Some?
    ensures var source := Reusable(t, r, now, s).value;
            var q := CopyOf(source, id, r.id);
            && source.supplierId in t.suppliers
            && (Eligible(q, r, t.suppliers[q.supplierId], now, r.skuKey, s) <==> !IsClosed(r))
            && ObservedToday(q, now, s)
            && (q.qty.Some? ==> q.qty.value >= RequestedUnits(r))
            && source.requestId in t.requests
            && t.requests[source.requestId].skuKey in {"", r.skuKey}
            && PurchaseOr(q).Some? && PurchaseOr(q) == PurchaseUnitPrice(q)
  {
  }

  /** After an attach to an open request the direct selection finds a price, and none above the attached one. */
  lemma DirectSelectionSeesIt(t: Tables, r: Request, now: int, s: Settings, id: int, quotes: seq<Quote>)
    requires Reusable(t, r, now, s).Some? && !IsClosed(r)
    requires CopyOf(Reusable(t, r, now, s).value, id, r.id) in quotes
    ensures var c := Context(r, t.suppliers, now, s);
            && Winner(quotes, c, LowestEligible).Some?
            && PurchaseOr(Winner(quotes, c, LowestEligible).value).Some?
            && PurchaseOr(Winner(quotes, c, LowestEligible).value).value
                 <= PurchaseOr(Reusable(t, r, now, s).value).value
  {
    AttachedIsEligible(t, r, now, s, id);
    var c := Context(r, t.suppliers, now, s);
    var q := CopyOf(Reusable(t, r, now, s).value, id, r.id);
    assert Qualifies(q, c);
    WinnerIsLeast(quotes, c, LowestEligible);
    var w := Winner(quotes, c, LowestEligible).value;
    assert Ordering.Before(Rank(w, c, LowestEligible), Rank(q, c, LowestEligible));
  }

  lemma {:induction false} OneNormalizer(events: seq<Event>, k: DayKey, s: Settings)
    ensures k in Fold(events, s) ==> Fold(events, s)[k].normalizerVersion == NORMALIZER
  {
    if events != [] {
      OneNormalizer(events[..|events| - 1], k, s);
    }
  }

  /** The row after a price below everything seen for the day and SKU. */
  lemma LowestIsKept(before: seq<Event>, e: Event, s: Settings)
    requires Counts(e)
    requires forall x :: x in Seen(before, KeyOf(e, s), s) ==> PurchaseOr(e.quote).value < x.0
    ensures var k, p := KeyOf(e, s), Fold(before + [e], s);
            k in p && p[k] == FreshRow(e, s, p[k].version, NORMALIZER)
  {
    var k := KeyOf(e, s);
    assert (before + [e])[..|before|] == before;
    ProjectionIsFold(before, k, s);
    OneNormalizer(before, k, s);
  }

  /** Another request of the SKU is answered with the day's lowest quote exactly while the row is fresh, the quote
      is still of today and eligible for its own request, and the quantity covers this one. */
  lemma LowestIsReused(t: Tables, before: seq<Event>, e: Event, r: Request, now: int, s: Settings)
    requires t.daily == Fold(before + [e], s) && Counts(e) && r.skuKey == e.request.skuKey
    requires forall x :: x in Seen(before, KeyOf(e, s), s) ==> PurchaseOr(e.quote).value < x.0
    requires e.quote.id in t.quotes && t.quotes[e.quote.id] == e.quote
    requires e.quote.requestId in t.requests && t.requests[e.quote.requestId] == e.request
    requires e.quote.supplierId in t.suppliers && DayStart(now, s.dayOffset) == DayStart(e.now, s.dayOffset)
    ensures Reusable(t, r, now, s) == Some(e.quote) <==>
              && s.dailyReuse && now <= e.now + s.dailyMaxAge && ObservedToday(e.quote, now, s)
              && e.request.normalizerVersion in {"", NORMALIZER}
              && Eligible(e.quote, e.request, t.suppliers[e.quote.supplierId], now, r.skuKey, s)
              && (e.quote.qty.Some? ==> e.quote.qty.value >= RequestedUnits(r))
  {
    LowestIsKept(before, e, s);
  }

  // ----- What a supplier states -----

  /** One call of `upsert_quote`: a price, or a counter-offer in a bargain, and whatever else was said. */
  datatype Statement = Statement(
    price: Option<int>, bargain: bool, qty: Option<int>, available: Option<bool>, source: Source,
    confidence: Option<int>)

  function Confidence(st: Statement): int {
    if st.confidence.Some? then st.confidence.value else 1000
  }

  /** The confidence gate. */
  predicate Admitted(st: Statement, s: Settings) {
    st.source == Manual || st.source == OperatorCorrected || Confidence(st) >= s.confidenceThreshold
  }

  function Said<T>(said: Option<T>, known: Option<T>): Option<T> {
    if said.Some? then said else known
  }

  function Blank(id: int, requestId: int, supplierId: int, now: int): Quote {
    Quote(id, requestId, supplierId, None, None, None, None, Manual, None, now)
  }

  /** Only a price makes it a new observation. */
  function Stated(q: Quote, st: Statement, now: int): Quote {
    q.(priceInitial := if st.bargain then q.priceInitial else Said(st.price, q.priceInitial),
       priceBargain := if st.bargain then Said(st.price, q.priceBargain) else q.priceBargain,
       qty := Said(st.qty, q.qty), available := Said(st.available, q.available),
       source := st.source, confidence := Some(Confidence(st)),
       observedAt := if st.price.Some? then now else q.observedAt)
  }

  /** What passed the gate is trusted; a statement without a price moves neither the price nor the observation, and
      a counter-offer stands over the initial price without replacing it. */
  lemma StatedMeans(q: Quote, st: Statement, now: int, s: Settings)
    ensures Writes(Some(q), Stated(q, st, now), st, now)
    ensures var q' := Stated(q, st, now);
            && (Trusted(q', s) <==> Admitted(st, s))
            && (st.price.None? ==> PurchaseUnitPrice(q') == PurchaseUnitPrice(q) && q'.observedAt == q.observedAt)
            && (st.price.Some? && st.bargain ==> PurchaseUnitPrice(q') == st.price && q'.priceInitial == q.priceInitial)
            && (st.price.Some? && !st.bargain ==>
                  PurchaseUnitPrice(q') == if q.priceBargain.Some? then q.priceBargain else st.price)
  {
  }

  /** What a written quote holds, field by field: what was said, else what was known of it before. */
  predicate Writes(before: Option<Quote>, q: Quote, st: Statement, now: int) {
    && (if st.available.Some? then q.available == st.available
        else q.available == if before.Some? then before.value.available else None)
    && (if st.qty.Some? then q.qty == st.qty else q.qty == if before.Some? then before.value.qty else None)
    && (if st.price.Some? && !st.bargain then q.priceInitial == st.price
        else q.priceInitial == if before.Some? then before.value.priceInitial else None)
    && (if st.price.Some? && st.bargain then q.priceBargain == st.price
        else q.priceBargain == if before.Some? then before.value.priceBargain else None)
    && q.source == st.source && q.confidence == (if st.confidence.Some? then st.confidence else Some(1000))
    && q.observedAt == (if st.price.Some? || before.None? then now else before.value.observedAt)
    && (before.Some? ==>
          q.id == before.value.id && q.requestId == before.value.requestId && q.supplierId == before.value.supplierId)
  }

  /** What a supplier says is gone is sold to nobody. */
  lemma OutOfStockNeverWins(before: Option<Quote>, q: Quote, st: Statement, now: int, quotes: seq<Quote>, c: Context,
                            mode: Mode)
    requires Writes(before, q, st, now)
    requires st.available == Some(false)
             || (st.available.None? && before.Some? && before.value.available == Some(false))
    ensures Winner(quotes, c, mode) != Some(q)
  {
    WinnerIsBest(quotes, c, mode);
    assert Fault(q, c.request, SupplierOf(q, c), c.now, c.request.skuKey, c.settings, NotAvailable);
  }

  predicate HasQuote(quotes: map<int, Quote>, requestId: int, supplierId: int) {
    exists i | i in quotes :: quotes[i].requestId == requestId && quotes[i].supplierId == supplierId
  }

  // ----- The service -----

  class PriceDesk {
    const settings: Settings
    var quotes: map<int, Quote>
    var nextQuote: int
    var requests: map<int, Request>
    var suppliers: map<int, Supplier>
    var daily: Projection
    ghost var history: seq<Event>

    ghost function T(): Tables
      reads this
    {
      Tables(quotes, requests, suppliers, daily)
    }

    /** One quote per request and supplier; the projection is the fold of its history. */
    ghost predicate Valid()
      reads this
    {
      && (forall i | i in quotes :: quotes[i].id == i && i < nextQuote)
      && (forall i | i in requests :: requests[i].id == i)
      && (forall i, j | i in quotes && j in quotes && quotes[i].requestId == quotes[j].requestId
                        && quotes[i].supplierId == quotes[j].supplierId :: i == j)
      && daily == Fold(history, settings)
    }

    constructor (settings: Settings)
      ensures Valid() && daily == map[] && quotes == map[]
    {
      this.settings := settings;
      quotes, nextQuote, requests, suppliers, daily := map[], 0, map[], map[], map[];
      history := [];
    }

    method AddRequest(request: Request)
      requires Valid() && request.id !in requests
      modifies this`requests
      ensures Valid() && requests == old(requests)[request.id := request]
    {
      requests := requests[request.id := request];
    }

    method AddSupplier(supplier: Supplier)
      requires Valid() && supplier.id !in suppliers
      modifies this`suppliers
      ensures Valid() && suppliers == old(suppliers)[supplier.id := supplier]
    {
      suppliers := suppliers[supplier.id := supplier];
    }

    /** The quote of the request and the supplier, or a blank one under a free id. */
    method FindQuote(requestId: int, supplierId: int, now: int) returns (q: Quote)
      requires Valid()
      ensures q.id in quotes <==> HasQuote(quotes, requestId, supplierId)
      ensures q == if q.id in quotes then quotes[q.id] else Blank(nextQuote, requestId, supplierId, now)
      ensures q.requestId == requestId && q.supplierId == supplierId
    {
      if HasQuote(quotes, requestId, supplierId) {
        var existing :| existing in quotes && quotes[existing].requestId == requestId
                        && quotes[existing].supplierId == supplierId;
        return quotes[existing];
      }
      return Blank(nextQuote, requestId, supplierId, now);
    }

    method WriteQuote(q: Quote)
      requires Valid()
      requires if q.id in quotes then quotes[q.id].requestId == q.requestId && quotes[q.id].supplierId == q.supplierId
               else q.id == nextQuote && !HasQuote(quotes, q.requestId, q.supplierId)
      modifies this`quotes, this`nextQuote
      ensures Valid() && quotes == old(quotes)[q.id := q]
    {
      if q.id !in quotes {
        nextQuote := nextQuote + 1;
      }
      quotes := quotes[q.id := q];
    }

    /** A waiting request is priced once it has an initial price. */
    method MaybeTransitionToPriced(requestId: int)
      requires Valid() && requestId in requests
      modifies this`requests
      ensures Valid()
      ensures var was := old(requests)[requestId];
              requests == old(requests)[requestId :=
                if (was.status == Open || was.status == AwaitingAnswers)
                   && exists i | i in quotes :: quotes[i].requestId == requestId && quotes[i].priceInitial.Some?
                then was.(status := Priced) else was]
    {
      if requests[requestId].status != Open && requests[requestId].status != AwaitingAnswers {
        return;
      }
      if exists i | i in quotes :: quotes[i].requestId == requestId && quotes[i].priceInitial.Some? {
        requests := requests[requestId := requests[requestId].(status := Priced)];
      }
    }

    /** Write what a supplier said to the one quote of the request and the supplier, then to the projection. */
    method UpsertQuote(requestId: int, supplierId: int, st: Statement, now: int, markup: int)
      returns (written: Option<Quote>)
      requires Valid() && (Admitted(st, settings) ==> requestId in requests && supplierId in suppliers)
      modifies this
      ensures Valid() && suppliers == old(suppliers)
      ensures written.Some? <==>
                || st.source == Manual || st.source == OperatorCorrected
                || (if st.confidence.Some? then st.confidence.value else 1000) >= settings.confidenceThreshold
      ensures written.None? ==> T() == old(T()) && history == old(history)
      ensures written.Some? ==>
                var q := written.value;
                && (q.id in old(quotes) <==> HasQuote(old(quotes), requestId, supplierId))
                && Writes(if q.id in old(quotes) then Some(old(quotes)[q.id]) else None, q, st, now)
                && q.requestId == requestId && q.supplierId == supplierId && quotes == old(quotes)[q.id := q]
      ensures written.Some? ==>
                var was := old(requests)[requestId];
                requests == old(requests)[requestId :=
                  if (was.status == Open || was.status == AwaitingAnswers)
                     && exists i | i in quotes :: quotes[i].requestId == requestId && quotes[i].priceInitial.Some?
                  then was.(status := Priced) else was]
      ensures written.Some? ==> history == old(history) + [Event(written.value, requests[requestId], now, markup)]
    {
      if st.source != Manual && st.source != OperatorCorrected && Confidence(st) < settings.confidenceThreshold {
        return None;
      }
      var known := FindQuote(requestId, supplierId, now);
      var q := Stated(known, st, now);
      WriteQuote(q);
      MaybeTransitionToPriced(requestId);
      var row := UpsertDailyFromQuote(q, requests[requestId], now, markup);
      return Some(q);
    }

    /** Keep the day's lowest price for the request's SKU. */
    method UpsertDailyFromQuote(quote: Quote, request: Request, now: int, markup: int) returns (r: Option<DailyRow>)
      requires Valid()
      modifies this`daily, this`history
      ensures Valid() && history == old(history) + [Event(quote, request, now, markup)]
      ensures r.None? <==> request.skuKey == "" || PurchaseOr(quote).None?
      ensures r.Some? ==> var k := DayKey(DayStart(now, settings.dayOffset), request.skuKey);
                          k in daily && r == Some(daily[k]) && daily[k].purchase <= PurchaseOr(quote).value
      ensures r.None? ==> daily == old(daily)
      ensures r.Some? ==>
                var k, price := DayKey(DayStart(now, settings.dayOffset), request.skuKey), PurchaseOr(quote).value;
                if k in old(daily) && old(daily)[k].purchase <= price then daily == old(daily)
                else
                  daily == old(daily)[k := DailyRow(
                    quote.id, quote.supplierId, price, price + markup, quote.observedAt,
                    now + settings.dailyMaxAge, false,
                    if k in old(daily) then old(daily)[k].normalizerVersion else "current",
                    if k in old(daily) then old(daily)[k].version + 1 else 1)]
    {
      ghost var e := Event(quote, request, now, markup);
      assert (history + [e])[..|history|] == history;
      history := history + [e];
      if request.skuKey == "" {
        return None;
      }
      var purchase := PurchaseOr(quote);
      if purchase.None? {
        return None;
      }
      var k := DayKey(DayStart(now, settings.dayOffset), request.skuKey);
      if k in daily && daily[k].purchase <= purchase.value {
        return Some(daily[k]);
      }
      if k in daily {
        daily := daily[k := daily[k].(
          sourceQuoteId := quote.id, supplierId := quote.supplierId, purchase := purchase.value,
          client := purchase.value + markup, observedAt := quote.observedAt, expiresAt := now + settings.dailyMaxAge,
          invalidated := false, version := daily[k].version + 1)];
        return Some(daily[k]);
      }
      daily := daily[k := DailyRow(quote.id, quote.supplierId, purchase.value, purchase.value + markup,
                                   quote.observedAt, now + settings.dailyMaxAge, false, NORMALIZER, 1)];
      return Some(daily[k]);
    }

    /** Copy today's source quote onto the request: over the supplier's own quote when there is one. */
    method AttachFreshDailyQuote(request: Request, now: int) returns (attached: Option<Quote>)
      requires Valid()
      modifies this`quotes, this`nextQuote
      ensures Valid()
      ensures attached.Some? <==> Reusable(old(T()), request, now, settings).Some?
      ensures attached.None? ==> quotes == old(quotes)
      ensures attached.Some? ==>
                var source, q := Reusable(old(T()), request, now, settings).value, attached.value;
                && q == source.(id := q.id, requestId := request.id)
                && quotes == old(quotes)[q.id := q]
                && (q.id in old(quotes) <==> HasQuote(old(quotes), request.id, source.supplierId))
                && (q.id in old(quotes) ==>
                      old(quotes)[q.id].requestId == request.id && old(quotes)[q.id].supplierId == source.supplierId)
                && (Eligible(q, request, suppliers[q.supplierId], now, request.skuKey, settings)
                   <==> !IsClosed(request))
    {
      ghost var t := T();
      if request.skuKey == "" {
        return None;
      }
      var today := FreshDaily(Tables(quotes, requests, suppliers, daily), request.skuKey, now, settings);
      if today.None? {
        return None;
      }
      var source := quotes[today.value.sourceQuoteId];
      if source.qty.Some? && source.qty.value < RequestedUnits(request) {
        return None;
      }
      var known := FindQuote(request.id, source.supplierId, now);
      var target := CopyOf(source, known.id, request.id);
      AttachedIsEligible(t, request, now, settings, known.id);
      WriteQuote(target);
      return Some(target);
    }
  }
}
