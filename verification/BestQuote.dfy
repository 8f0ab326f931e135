/** Selecting the best eligible quote of a request, in both modes. */
module BestQuote {
  import opened Wrappers
  import opened Ordering
  import opened Market

  datatype Mode = LowestEligible | FirstEligible

  datatype Selection = Selection(
    winner: Option<Quote>,
    purchase: Option<int>,
    client: Option<int>,
    candidates: nat,
    rejected: map<int, Reason>)

  datatype Context = Context(request: Request, suppliers: map<int, Supplier>, now: int, settings: Settings)

  function Judge(q: Quote, c: Context): Option<Reason> {
    if q.supplierId !in c.suppliers then Some(SupplierMissing)
    else Rejection(q, c.request, c.suppliers[q.supplierId], c.now, c.request.skuKey, c.settings)
  }

  predicate Qualifies(q: Quote, c: Context) {
    Judge(q, c).None?
  }

  /** A quote is rejected, with its reason, exactly when it does not qualify. */
  predicate Placed(q: Quote, c: Context, rejected: map<int, Reason>) {
    if Qualifies(q, c) then q.id !in rejected else q.id in rejected && Some(rejected[q.id]) == Judge(q, c)
  }

  // ----- The same in terms of the quote's own fields -----

  function SupplierOf(q: Quote, c: Context): Option<Supplier> {
    if q.supplierId in c.suppliers then Some(c.suppliers[q.supplierId]) else None
  }

  ghost predicate RefusedFor(q: Quote, c: Context, reason: Reason) {
    FirstFault(q, c.request, SupplierOf(q, c), c.now, c.request.skuKey, c.settings, reason)
  }

  ghost predicate Sound(q: Quote, c: Context) {
    Faultless(q, c.request, SupplierOf(q, c), c.now, c.request.skuKey, c.settings)
  }

  lemma JudgedFor(q: Quote, c: Context)
    ensures forall reason :: Judge(q, c) == Some(reason) <==> RefusedFor(q, c, reason)
    ensures Qualifies(q, c) <==> Sound(q, c)
  {
    if q.supplierId in c.suppliers {
      RejectedFor(q, c.request, c.suppliers[q.supplierId], c.now, c.request.skuKey, c.settings);
    } else {
      assert Fault(q, c.request, None, c.now, c.request.skuKey, c.settings, SupplierMissing);
      forall reason | RefusedFor(q, c, reason) ensures reason == SupplierMissing {
        assert Place(reason) <= Place(SupplierMissing);
      }
    }
  }

  /** Cheaper; or as cheap and newer; or as new and of a lower id. In the other mode: earlier, or of a lower id. */
  ghost predicate AheadOf(p: Quote, q: Quote, mode: Mode) {
    match mode
    case LowestEligible =>
      forall x, y :: PricedAt(p, x) && PricedAt(q, y) ==>
        x < y || (x == y && (p.observedAt > q.observedAt || (p.observedAt == q.observedAt && p.id <= q.id)))
    case FirstEligible => p.observedAt < q.observedAt || (p.observedAt == q.observedAt && p.id <= q.id)
  }

  /** A sound quote ahead of every other sound one. */
  ghost predicate Best(w: Quote, quotes: seq<Quote>, c: Context, mode: Mode) {
    w in quotes && Sound(w, c) && forall q | q in quotes && Sound(q, c) :: AheadOf(w, q, mode)
  }

  lemma RankIsAhead(p: Quote, q: Quote, c: Context, mode: Mode)
    requires Qualifies(p, c) && Qualifies(q, c)
    ensures Before(Rank(p, c, mode), Rank(q, c, mode)) <==> AheadOf(p, q, mode)
  {
    PriceFault(p, c.settings);
    PriceFault(q, c.settings);
    assert PricedAt(p, PriceOf(p, c)) && PricedAt(q, PriceOf(q, c));
  }

  /** The winner is the best of the sound quotes, and there is one as soon as one is sound. */
  lemma WinnerIsBest(quotes: seq<Quote>, c: Context, mode: Mode)
    ensures Winner(quotes, c, mode).Some? <==> exists q :: q in quotes && Sound(q, c)
    ensures Winner(quotes, c, mode).Some? ==>
              var w := Winner(quotes, c, mode).value;
              Qualifies(w, c) && Best(w, quotes, c, mode) && PricedAt(w, PriceOf(w, c))
  {
    WinnerIsLeast(quotes, c, mode);
    forall q ensures Qualifies(q, c) <==> Sound(q, c) { JudgedFor(q, c); }
    if Winner(quotes, c, mode).Some? {
      var w := Winner(quotes, c, mode).value;
      PriceFault(w, c.settings);
      forall q | q in quotes && Sound(q, c) ensures AheadOf(w, q, mode) {
        RankIsAhead(w, q, c, mode);
      }
    }
  }

  function PriceOf(q: Quote, c: Context): (price: int)
    requires Qualifies(q, c)
    ensures PurchaseOr(q) == PurchaseUnitPrice(q) == Some(price) && price > 0
  {
    PurchaseOr(q).value
  }

  /** Lowest: by price, then newest, then id. First: by time of observation, then id. */
  function Rank(q: Quote, c: Context, mode: Mode): Key
    requires Qualifies(q, c)
  {
    match mode
    case LowestEligible => Key(PriceOf(q, c), -q.observedAt, q.id)
    case FirstEligible => Key(q.observedAt, q.id, 0)
  }

  function Shortlist(quotes: seq<Quote>, c: Context, mode: Mode): (s: seq<Keyed<Quote>>)
    ensures forall x | x in s :: x.item in quotes && Qualifies(x.item, c) && x.key == Rank(x.item, c, mode)
    ensures forall q | q in quotes && Qualifies(q, c) :: Keyed(Rank(q, c, mode), q) in s
  {
    if quotes == [] then []
    else
      var n := |quotes| - 1;
      assert quotes == quotes[..n] + [quotes[n]];
      var rest := Shortlist(quotes[..n], c, mode);
      if Qualifies(quotes[n], c) then rest + [Keyed(Rank(quotes[n], c, mode), quotes[n])] else rest
  }

  function Winner(quotes: seq<Quote>, c: Context, mode: Mode): Option<Quote> {
    var s := Shortlist(quotes, c, mode);
    if s == [] then None else Some(Sort(s)[0].item)
  }

  /** The winner is the least qualifying quote, and there is one exactly when some quote qualifies. */
  lemma WinnerIsLeast(quotes: seq<Quote>, c: Context, mode: Mode)
    ensures Winner(quotes, c, mode).Some? <==> exists q :: q in quotes && Qualifies(q, c)
    ensures Winner(quotes, c, mode).Some? ==>
              var w := Winner(quotes, c, mode).value;
              && w in quotes && Qualifies(w, c)
              && forall q | q in quotes && Qualifies(q, c) :: Before(Rank(w, c, mode), Rank(q, c, mode))
  {
    var s := Shortlist(quotes, c, mode);
    if s != [] {
      FirstIsLeast(s);
      assert Sort(s)[0] in s;
      forall q | q in quotes && Qualifies(q, c) ensures Before(Sort(s)[0].key, Rank(q, c, mode)) {
        assert Keyed(Rank(q, c, mode), q) in s;
      }
    }
  }

  ghost predicate UniqueIds(quotes: seq<Quote>) {
    forall p, q | p in quotes && q in quotes && p.id == q.id :: p == q
  }

  /** The result does not depend on the order the quotes come in. */
  lemma WinnerIgnoresOrder(quotes: seq<Quote>, others: seq<Quote>, c: Context, mode: Mode)
    requires multiset(quotes) == multiset(others) && UniqueIds(quotes)
    ensures Winner(quotes, c, mode) == Winner(others, c, mode)
  {
    WinnerIsLeast(quotes, c, mode);
    WinnerIsLeast(others, c, mode);
    forall q ensures q in quotes <==> q in others {
      assert q in quotes <==> q in multiset(quotes);
      assert q in others <==> q in multiset(others);
    }
    if Winner(quotes, c, mode).Some? {
      var v, w := Winner(quotes, c, mode).value, Winner(others, c, mode).value;
      assert Before(Rank(v, c, mode), Rank(w, c, mode)) && Before(Rank(w, c, mode), Rank(v, c, mode));
      assert v.id == w.id;
    }
  }

  /** One more quote never raises the lowest price. */
  lemma MoreQuotesLowest(quotes: seq<Quote>, q: Quote, c: Context)
    requires Winner(quotes, c, LowestEligible).Some?
    ensures Winner(quotes + [q], c, LowestEligible).Some?
    ensures PurchaseOr(Winner(quotes + [q], c, LowestEligible).value).Some?
    ensures PurchaseOr(Winner(quotes, c, LowestEligible).value).Some?
    ensures PurchaseOr(Winner(quotes + [q], c, LowestEligible).value).value
              <= PurchaseOr(Winner(quotes, c, LowestEligible).value).value
  {
    WinnerIsLeast(quotes, c, LowestEligible);
    WinnerIsLeast(quotes + [q], c, LowestEligible);
    var v := Winner(quotes, c, LowestEligible).value;
    assert v in quotes + [q];
    var w := Winner(quotes + [q], c, LowestEligible).value;
    assert Before(Rank(w, c, LowestEligible), Rank(v, c, LowestEligible));
  }

  /** One more quote never displaces an earlier first answer. */
  lemma MoreQuotesFirst(quotes: seq<Quote>, q: Quote, c: Context)
    requires UniqueIds(quotes + [q]) && Winner(quotes, c, FirstEligible).Some?
    requires Winner(quotes, c, FirstEligible).value.observedAt < q.observedAt
    ensures Winner(quotes + [q], c, FirstEligible) == Winner(quotes, c, FirstEligible)
  {
    WinnerIsLeast(quotes, c, FirstEligible);
    WinnerIsLeast(quotes + [q], c, FirstEligible);
    var v := Winner(quotes, c, FirstEligible).value;
    assert v in quotes + [q];
    var w := Winner(quotes + [q], c, FirstEligible).value;
    assert Before(Rank(w, c, FirstEligible), Rank(v, c, FirstEligible));
    assert w in quotes || w == q;
    assert Before(Rank(v, c, FirstEligible), Rank(w, c, FirstEligible));
  }

  predicate DifferentIds(quotes: seq<Quote>) {
    forall i, j :: 0 <= i < j < |quotes| ==> quotes[i].id != quotes[j].id
  }

  lemma ShortlistGrows(quotes: seq<Quote>, c: Context, mode: Mode, i: nat)
    requires i < |quotes|
    ensures Shortlist(quotes[..i + 1], c, mode) == Shortlist(quotes[..i], c, mode)
              + (if Qualifies(quotes[i], c) then [Keyed(Rank(quotes[i], c, mode), quotes[i])] else [])
  {
    assert quotes[..i + 1][..i] == quotes[..i];
  }

  function Rejections(quotes: seq<Quote>, c: Context): (m: map<int, Reason>)
    decreases |quotes|
  {
    if quotes == [] then map[]
    else
      var n := |quotes| - 1;
      var rest := Rejections(quotes[..n], c);
      if Judge(quotes[n], c).Some? then rest[quotes[n].id := Judge(quotes[n], c).value] else rest
  }

  lemma RejectionsGrow(quotes: seq<Quote>, c: Context, i: nat)
    requires i < |quotes|
    ensures Rejections(quotes[..i + 1], c) ==
            var rest := Rejections(quotes[..i], c);
            if Judge(quotes[i], c).Some? then rest[quotes[i].id := Judge(quotes[i], c).value] else rest
  {
    assert quotes[..i + 1][..i] == quotes[..i];
  }

  /** The quotes fall apart into the eligible ones and the rejected ones, each with its own reason. */
  lemma {:induction false} RejectionsPlace(quotes: seq<Quote>, c: Context)
    requires DifferentIds(quotes)
    ensures forall q :: q in quotes ==> Placed(q, c, Rejections(quotes, c))
    ensures forall id :: id in Rejections(quotes, c) <==> exists q :: q in quotes && !Qualifies(q, c) && q.id == id
    decreases |quotes|
  {
    if quotes != [] {
      var n := |quotes| - 1;
      assert quotes == quotes[..n] + [quotes[n]];
      RejectionsPlace(quotes[..n], c);
    }
  }

  /** The quote is listed with the first reason against it, and with no other. */
  ghost predicate RejectedAs(q: Quote, c: Context, rejected: map<int, Reason>) {
    && (q.id in rejected <==> !Sound(q, c))
    && forall reason :: q.id in rejected && rejected[q.id] == reason <==> RefusedFor(q, c, reason)
  }

  lemma PlacedAs(quotes: seq<Quote>, c: Context, rejected: map<int, Reason>)
    ensures (forall q | q in quotes :: Placed(q, c, rejected)) ==> forall q | q in quotes :: RejectedAs(q, c, rejected)
    ensures (exists q :: q in quotes && Qualifies(q, c)) <==> exists q :: q in quotes && Sound(q, c)
  {
    forall q ensures Qualifies(q, c) <==> Sound(q, c) { JudgedFor(q, c); }
    forall q | q in quotes && Placed(q, c, rejected) ensures RejectedAs(q, c, rejected) { JudgedFor(q, c); }
  }

  /** Split the quotes into the eligible ones and the rejected ones with their reasons. */
  method JudgeQuotes(quotes: seq<Quote>, c: Context, mode: Mode)
    returns (eligible: seq<Keyed<Quote>>, rejected: map<int, Reason>)
    ensures eligible == Shortlist(quotes, c, mode)
    ensures rejected == Rejections(quotes, c)
  {
    eligible, rejected := [], map[];
    for i := 0 to |quotes|
      invariant eligible == Shortlist(quotes[..i], c, mode)
      invariant rejected == Rejections(quotes[..i], c)
    {
      var quote := quotes[i];
      ShortlistGrows(quotes, c, mode, i);
      RejectionsGrow(quotes, c, i);
      var reason := Judge(quote, c);
      if reason.Some? {
        rejected := rejected[quote.id := reason.value];
      } else {
        eligible := eligible + [Keyed(Rank(quote, c, mode), quote)];
      }
    }
    assert quotes[..|quotes|] == quotes;
  }

  /** The selection as the service runs it: judge every quote, then sort and take the first. */
  method SelectBestQuote(quotes: seq<Quote>, c: Context, mode: Mode, markup: int) returns (r: Selection)
    requires DifferentIds(quotes)
    ensures r.winner == Winner(quotes, c, mode) && r.candidates == |quotes|
    ensures forall q :: q in quotes ==> Placed(q, c, r.rejected)
    ensures forall id :: id in r.rejected <==> exists q :: q in quotes && !Qualifies(q, c) && q.id == id
    ensures r.winner.Some? ==>
              && r.purchase == PurchaseUnitPrice(r.winner.value) && r.purchase.Some?
              && r.client == Some(r.purchase.value + markup)
    ensures r.winner.None? ==> r.purchase.None? && r.client.None?
    ensures r.winner.None? <==> forall q | q in quotes :: !Sound(q, c)
    ensures r.winner.Some? ==> Best(r.winner.value, quotes, c, mode) && PricedAt(r.winner.value, r.purchase.value)
    ensures forall q | q in quotes :: RejectedAs(q, c, r.rejected)
  {
    WinnerIsBest(quotes, c, mode);
    PlacedAs(quotes, c, Rejections(quotes, c));
    var eligible, rejected := JudgeQuotes(quotes, c, mode);
    RejectionsPlace(quotes, c);
    if eligible == [] {
      return Selection(None, None, None, |quotes|, rejected);
    }
    WinnerIsLeast(quotes, c, mode);
    var winner := Sort(eligible)[0].item;
    var purchase := PriceOf(winner, c);
    r := Selection(Some(winner), Some(purchase), Some(purchase + markup), |quotes|, rejected);
  }
}
