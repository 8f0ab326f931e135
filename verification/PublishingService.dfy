/** The publishing service: best-quote selection feeding the selection table and the client messages. */
module PublishingService {
  import opened Wrappers
  import opened Market
  import opened BestQuote
  import P = Publication

  // ----- What the services pick -----

  function ChoiceOf(q: Quote, c: Context, markup: int): P.Choice
    requires Qualifies(q, c)
  {
    P.Choice(q.id, q.supplierId, PriceOf(q, c), PriceOf(q, c) + markup)
  }

  /** What the first-price publication would publish: the earliest eligible quote, and only when that one was
      observed today. */
  function FirstChoice(quotes: seq<Quote>, c: Context, markup: int): Option<P.Choice> {
    WinnerIsLeast(quotes, c, FirstEligible);
    var w := Winner(quotes, c, FirstEligible);
    if IsClosed(c.request) || w.None? || !ObservedToday(w.value, c.now, c.settings) then None
    else Some(ChoiceOf(w.value, c, markup))
  }

  /** What repricing and the better-late notice compare with. */
  function BestChoice(quotes: seq<Quote>, c: Context, markup: int): Option<P.Choice> {
    WinnerIsLeast(quotes, c, LowestEligible);
    var w := Winner(quotes, c, LowestEligible);
    if w.None? then None else Some(ChoiceOf(w.value, c, markup))
  }

  /** The choice is a quote as it stands, sold at its price and the markup. */
  predicate Sells(choice: P.Choice, q: Quote, markup: int) {
    && choice.quoteId == q.id && choice.supplierId == q.supplierId
    && PricedAt(q, choice.purchase) && choice.client == choice.purchase + markup
  }

  predicate SameDay(a: int, b: int, s: Settings) {
    (a + s.dayOffset) / DAY == (b + s.dayOffset) / DAY
  }

  /** It sells the best of the sound quotes; as a first price, one of today. */
  ghost predicate Chosen(choice: P.Choice, quotes: seq<Quote>, c: Context, mode: Mode, markup: int) {
    exists q ::
      && Best(q, quotes, c, mode) && Sells(choice, q, markup)
      && (mode.FirstEligible? ==> SameDay(q.observedAt, c.now, c.settings))
  }

  lemma FirstIsChosen(quotes: seq<Quote>, c: Context, markup: int)
    ensures var choice := FirstChoice(quotes, c, markup);
            choice.Some? ==> Chosen(choice.value, quotes, c, FirstEligible, markup)
  {
    WinnerIsBest(quotes, c, FirstEligible);
    var w := Winner(quotes, c, FirstEligible);
    if w.Some? {
      TodayWhen(w.value, c.now, c.settings);
    }
  }

  lemma BestIsChosen(quotes: seq<Quote>, c: Context, markup: int)
    ensures var choice := BestChoice(quotes, c, markup);
            && (choice.Some? ==> Chosen(choice.value, quotes, c, LowestEligible, markup))
            && (choice.None? <==> forall q | q in quotes :: !Sound(q, c))
  {
    WinnerIsBest(quotes, c, LowestEligible);
  }

  predicate EligibleToday(q: Quote, c: Context) {
    Qualifies(q, c) && ObservedToday(q, c.now, c.settings)
  }

  predicate EligibleEarlier(q: Quote, c: Context) {
    Qualifies(q, c) && q.observedAt < DayStart(c.now, c.settings.dayOffset)
  }

  lemma NobodyQualifiesWhenClosed(q: Quote, c: Context)
    requires IsClosed(c.request)
    ensures !Qualifies(q, c)
  {
  }

  /** The documentation promises the first eligible same-day reply. The code delivers it exactly when some
      quote is eligible today and none is still eligible from an earlier day. */
  lemma SameDayReplyPublished(quotes: seq<Quote>, c: Context, markup: int)
    ensures FirstChoice(quotes, c, markup).Some? <==>
              && (exists q :: q in quotes && EligibleToday(q, c))
              && (forall q :: q in quotes ==> !EligibleEarlier(q, c))
    ensures FirstChoice(quotes, c, markup).Some? ==>
              exists q :: q in quotes && EligibleToday(q, c)
                && FirstChoice(quotes, c, markup).value == ChoiceOf(q, c, markup)
                && forall p :: p in quotes && EligibleToday(p, c) ==> q.observedAt <= p.observedAt
  {
    WinnerIsLeast(quotes, c, FirstEligible);
    var w := Winner(quotes, c, FirstEligible);
    if w.Some? {
      forall q | q in quotes && Qualifies(q, c) ensures w.value.observedAt <= q.observedAt {
        assert Ordering.Before(Rank(w.value, c, FirstEligible), Rank(q, c, FirstEligible));
      }
    }
    if IsClosed(c.request) {
      forall q | q in quotes ensures !Qualifies(q, c) { NobodyQualifiesWhenClosed(q, c); }
    }
  }

  /** A quote from yesterday evening, still fresh enough, keeps a perfectly good reply of this morning from
      being published. */
  lemma YesterdayBlocksToday()
    ensures var s := Settings(750, 100000, 500000000, 48 * 3600, true, 43200, 0);
            var request := Request(1, AwaitingAnswers, "", "", None, None);
            var earlier := Quote(1, 1, 1, Some(9500000), None, None, None, Manual, None, DAY - 3600);
            var later := Quote(2, 1, 2, Some(9000000), None, None, None, Manual, None, DAY + 3600);
            var c := Context(request, map[1 := Supplier(1, true), 2 := Supplier(2, true)], DAY + 7200, s);
            EligibleToday(later, c) && FirstChoice([earlier, later], c, 80000).None?
  {
    var s := Settings(750, 100000, 500000000, 48 * 3600, true, 43200, 0);
    var request := Request(1, AwaitingAnswers, "", "", None, None);
    var earlier := Quote(1, 1, 1, Some(9500000), None, None, None, Manual, None, DAY - 3600);
    var later := Quote(2, 1, 2, Some(9000000), None, None, None, Manual, None, DAY + 3600);
    var c := Context(request, map[1 := Supplier(1, true), 2 := Supplier(2, true)], DAY + 7200, s);
    SameDayReplyPublished([earlier, later], c, 80000);
    assert EligibleEarlier(earlier, c) && earlier in [earlier, later];
  }

  // ----- Better-late notices -----

  predicate Cheaper(q: Quote, c: Context, published: P.Choice) {
    Qualifies(q, c) && PriceOf(q, c) < published.purchase
  }

  /** What the documentation calls a later same-day quote. */
  predicate LaterToday(q: Quote, c: Context, publishedAt: int) {
    ObservedToday(q, c.now, c.settings) && publishedAt < q.observedAt
  }

  /** Eligible, and before every other eligible quote by price, then newest, then id. */
  predicate Cheapest(p: Quote, quotes: seq<Quote>, c: Context) {
    && p in quotes && Qualifies(p, c)
    && forall q :: q in quotes && Qualifies(q, c) ==>
         Ordering.Before(Rank(p, c, LowestEligible), Rank(q, c, LowestEligible))
  }

  /** The published quote is itself the cheapest now. */
  predicate StillBest(quotes: seq<Quote>, c: Context, published: P.Choice) {
    exists p :: p in quotes && p.id == published.quoteId && Cheapest(p, quotes, c)
  }

  lemma CheapestIsOne(p: Quote, w: Quote, quotes: seq<Quote>, c: Context)
    requires Cheapest(p, quotes, c) && Cheapest(w, quotes, c)
    ensures p.id == w.id
  {
    var x, y := Rank(p, c, LowestEligible), Rank(w, c, LowestEligible);
    assert Ordering.Before(x, y) && Ordering.Before(y, x);
  }

  predicate Notifies(quotes: seq<Quote>, c: Context, markup: int, published: P.Choice) {
    var best := BestChoice(quotes, c, markup);
    best.Some? && best.value.quoteId != published.quoteId && best.value.purchase < published.purchase
  }

  /** The operators are told exactly when some eligible quote, of whatever day, is cheaper than the published price
      and the published quote is not itself the cheapest. */
  lemma NoticeWhen(quotes: seq<Quote>, c: Context, markup: int, published: P.Choice)
    ensures Notifies(quotes, c, markup, published) <==>
              (exists q :: q in quotes && Cheaper(q, c, published)) && !StillBest(quotes, c, published)
  {
    WinnerIsLeast(quotes, c, LowestEligible);
    var w := Winner(quotes, c, LowestEligible);
    if q :| q in quotes && Cheaper(q, c, published) {
      assert Ordering.Before(Rank(w.value, c, LowestEligible), Rank(q, c, LowestEligible));
    }
    if w.Some? {
      assert Cheapest(w.value, quotes, c);
      forall p | p in quotes && Cheapest(p, quotes, c) ensures p.id == w.value.id {
        CheapestIsOne(p, w.value, quotes, c);
      }
    }
  }

  /** The documentation promises a notice when a later same-day quote beats the published price. The code keeps to
      that exactly when the published quote is not the cheapest while such a quote is there, and no cheaper
      quote is eligible while none is there. */
  lemma NoticeAsPromised(quotes: seq<Quote>, c: Context, markup: int, published: P.Choice, publishedAt: int)
    ensures var promised := exists q :: q in quotes && Cheaper(q, c, published) && LaterToday(q, c, publishedAt);
            var cheaper := exists q :: q in quotes && Cheaper(q, c, published);
            (Notifies(quotes, c, markup, published) <==> promised) <==>
              if StillBest(quotes, c, published) then !promised else cheaper ==> promised
  {
    NoticeWhen(quotes, c, markup, published);
  }

  /** A price is published at eight in the evening and undercut at eleven; at two in the morning there is a notice,
      though no later quote of the day is cheaper. */
  lemma YesterdayNoticed()
    ensures var s := Settings(750, 100000, 500000000, 48 * 3600, true, 43200, 0);
            var request := Request(1, AwaitingAnswers, "", "", None, None);
            var first := Quote(1, 1, 1, Some(9000000), None, None, None, Manual, None, DAY - 4 * 3600);
            var cheaper := Quote(2, 1, 2, Some(8500000), None, None, None, Manual, None, DAY - 3600);
            var c := Context(request, map[1 := Supplier(1, true), 2 := Supplier(2, true)], DAY + 7200, s);
            var published := ChoiceOf(first, c, 80000);
            && FirstChoice([first], c.(now := DAY - 4 * 3600), 80000) == Some(published)
            && Notifies([first, cheaper], c, 80000, published)
            && forall q :: q in [first, cheaper] ==> !LaterToday(q, c, DAY - 4 * 3600)
  {
    var s := Settings(750, 100000, 500000000, 48 * 3600, true, 43200, 0);
    var request := Request(1, AwaitingAnswers, "", "", None, None);
    var first := Quote(1, 1, 1, Some(9000000), None, None, None, Manual, None, DAY - 4 * 3600);
    var cheaper := Quote(2, 1, 2, Some(8500000), None, None, None, Manual, None, DAY - 3600);
    var c := Context(request, map[1 := Supplier(1, true), 2 := Supplier(2, true)], DAY + 7200, s);
    var published := ChoiceOf(first, c, 80000);
    var evening := c.(now := DAY - 4 * 3600);
    assert first in [first] && EligibleToday(first, evening);
    SameDayReplyPublished([first], evening, 80000);
    assert cheaper in [first, cheaper] && Cheaper(cheaper, c, published);
    assert !Cheapest(first, [first, cheaper], c);
    NoticeWhen([first, cheaper], c, 80000, published);
  }

  // ----- The service -----

  /** The first-price publication's choice: earliest eligible, observed today. */
  method ChooseFirst(quotes: seq<Quote>, c: Context, markup: int) returns (choice: Option<P.Choice>)
    requires DifferentIds(quotes)
    ensures choice == FirstChoice(quotes, c, markup)
  {
    if IsClosed(c.request) {
      return None;
    }
    WinnerIsLeast(quotes, c, FirstEligible);
    var result := SelectBestQuote(quotes, c, FirstEligible, markup);
    if result.winner.None? || !ObservedToday(result.winner.value, c.now, c.settings) {
      return None;
    }
    return Some(P.Choice(result.winner.value.id, result.winner.value.supplierId,
                         result.purchase.value, result.client.value));
  }

  method ChooseBest(quotes: seq<Quote>, c: Context, markup: int) returns (choice: Option<P.Choice>)
    requires DifferentIds(quotes)
    ensures choice == BestChoice(quotes, c, markup)
  {
    WinnerIsLeast(quotes, c, LowestEligible);
    var result := SelectBestQuote(quotes, c, LowestEligible, markup);
    if result.winner.None? {
      return None;
    }
    return Some(P.Choice(result.winner.value.id, result.winner.value.supplierId,
                         result.purchase.value, result.client.value));
  }

  /** The published row of the request gives way to a new one, to which it points; nothing else changes. */
  ghost predicate Replaced(before: seq<P.Selection>, after: seq<P.Selection>, r: int) {
    var n := |before|;
    && |after| == n + 1 && after[n].request == r && P.TheOnePublished(after, n) && P.NewestVersion(after, n)
    && exists p: nat | p < n ::
         && before[p].request == r && before[p].status == P.Published
         && before[p].choice.quoteId != after[n].choice.quoteId
         && after[..n] == before[p := before[p].(status := P.Superseded, supersededBy := Some(n))]
  }

  class PublicationDesk {
    const settings: Settings
    const autoPublish: bool
    const notifyLate: bool
    var selections: seq<P.Selection>
    var outbox: set<P.MailKey>
    var priced: set<int>
    ghost var mailed: seq<P.Mail>

    ghost function State(): P.World
      reads this
    {
      P.World(selections, outbox, mailed, priced)
    }

    ghost predicate Valid()
      reads this
    {
      P.Inv(State())
    }

    constructor (settings: Settings, autoPublish: bool, notifyLate: bool)
      ensures Valid() && State() == P.INIT
    {
      this.settings, this.autoPublish, this.notifyLate := settings, autoPublish, notifyLate;
      selections, outbox, priced, mailed := [], {}, {}, [];
      new;
      InitKeeps();
    }

    /** Queue a client message unless a live outbox row has its key. */
    method EnqueueClientMessage(key: P.MailKey, price: int) returns (isNew: bool)
      modifies this`outbox, this`mailed
      ensures State() == P.Enqueue(old(State()), P.Mail(key, price))
      ensures isNew <==> key !in old(outbox)
      ensures isNew ==> outbox == old(outbox) + {key} && mailed == old(mailed) + [P.Mail(key, price)]
      ensures !isNew ==> State() == old(State())
    {
      isNew := key !in outbox;
      if isNew {
        outbox, mailed := outbox + {key}, mailed + [P.Mail(key, price)];
      }
    }

    /** Insert the published row unless the idempotency key exists. */
    method InsertPublishedSelection(r: int, choice: P.Choice, at: int) returns (inserted: bool)
      modifies this`selections
      ensures inserted <==> !P.KeyUsed(old(selections), P.FirstKey(r))
      ensures selections == if inserted then old(selections) + [P.FirstRow(old(selections), r, choice, at)]
                            else old(selections)
      ensures inserted ==>
                var row := selections[|old(selections)|];
                && row == P.Selection(r, P.Published, choice, row.version, Some(P.FirstKey(r)), Some(at), None)
                && P.NewestVersion(selections, |old(selections)|)
    {
      var version := P.LastVersion(selections, r) + 1;
      if exists i :: 0 <= i < |selections| && selections[i].key == Some(P.FirstKey(r)) {
        return false;
      }
      selections := selections + [P.Selection(r, P.Published, choice, version, Some(P.FirstKey(r)), Some(at), None)];
      return true;
    }

    method PublishFirstValidPrice(quotes: seq<Quote>, request: Request, suppliers: map<int, Supplier>,
                                  now: int, markup: int) returns (published: bool)
      requires Valid() && DifferentIds(quotes)
      modifies this
      ensures Valid()
      ensures var choice := FirstChoice(quotes, Context(request, suppliers, now, settings), markup);
              && (published <==> autoPublish && choice.Some? && !P.KeyUsed(old(selections), P.FirstKey(request.id)))
              && State() == if autoPublish && choice.Some?
                            then P.Apply(old(State()), P.PublishFirst(request.id, choice.value, now)) else old(State())
      ensures !published ==> State() == old(State())
      ensures published ==>
                var n := |old(selections)|;
                && |selections| == n + 1 && selections[..n] == old(selections)
                && selections[n].request == request.id && selections[n].publishedAt == Some(now)
                && P.TheOnePublished(selections, n) && P.NewestVersion(selections, n)
                && Chosen(selections[n].choice, quotes, Context(request, suppliers, now, settings), FirstEligible,
                          markup)
                && mailed == old(mailed) + [P.Mail(P.FirstKey(request.id), selections[n].choice.client)]
                && priced == old(priced) + {request.id}
    {
      if !autoPublish {
        return false;
      }
      FirstIsChosen(quotes, Context(request, suppliers, now, settings), markup);
      var choice := ChooseFirst(quotes, Context(request, suppliers, now, settings), markup);
      if choice.None? {
        return false;
      }
      published := PublishChoice(request.id, choice.value, now);
    }

    /** The publishing transaction: the selection row, its client message and the price state, or nothing. */
    method PublishChoice(r: int, choice: P.Choice, now: int) returns (published: bool)
      requires Valid()
      modifies this
      ensures Valid() && State() == P.Apply(old(State()), P.PublishFirst(r, choice, now))
      ensures published <==> !P.KeyUsed(old(selections), P.FirstKey(r))
      ensures !published ==> State() == old(State())
      ensures published ==>
                var n := |old(selections)|;
                && |selections| == n + 1 && selections[..n] == old(selections)
                && selections[n].request == r && selections[n].choice == choice
                && selections[n].publishedAt == Some(now)
                && P.TheOnePublished(selections, n) && P.NewestVersion(selections, n)
                && mailed == old(mailed) + [P.Mail(P.FirstKey(r), choice.client)] && priced == old(priced) + {r}
    {
      P.StepKeeps(State(), P.PublishFirst(r, choice, now));
      if !P.KeyUsed(selections, P.FirstKey(r)) {
        P.PublishFirstMakes(State(), r, choice, now);
      }
      published := InsertPublishedSelection(r, choice, now);
      if published {
        var isNew := EnqueueClientMessage(P.FirstKey(r), choice.client);
        priced := priced + {r};
      }
    }

    /** A reprice: when another quote is now the cheapest, its price supersedes the one that is out. */
    method ConfirmReprice(quotes: seq<Quote>, request: Request, suppliers: map<int, Supplier>,
                          now: int, markup: int) returns (done: bool)
      requires Valid() && DifferentIds(quotes)
      modifies this
      ensures Valid()
      ensures var choice := BestChoice(quotes, Context(request, suppliers, now, settings), markup);
              && (done <==> choice.Some? && P.CanReprice(old(State()), request.id, choice.value))
              && State() == if choice.Some? then P.Apply(old(State()), P.Reprice(request.id, choice.value, now))
                            else old(State())
      ensures !done ==> State() == old(State())
      ensures done ==>
                var n := |old(selections)|;
                && Replaced(old(selections), selections, request.id) && selections[n].publishedAt == Some(now)
                && Chosen(selections[n].choice, quotes, Context(request, suppliers, now, settings), LowestEligible,
                          markup)
                && mailed == old(mailed) + [P.Mail(P.RepriceKey(request.id, selections[n].version),
                                                   selections[n].choice.client)]
                && priced == old(priced) + {request.id}
    {
      var published := P.PublishedRow(selections, request.id);
      if published.None? {
        return false;
      }
      BestIsChosen(quotes, Context(request, suppliers, now, settings), markup);
      var choice := ChooseBest(quotes, Context(request, suppliers, now, settings), markup);
      if choice.None? || choice.value.quoteId == selections[published.value].choice.quoteId {
        return false;
      }
      RepriceTo(request.id, published.value, choice.value, now);
      return true;
    }

    method RepriceTo(r: int, p: nat, choice: P.Choice, now: int)
      requires Valid() && P.PublishedRow(selections, r) == Some(p) && P.CanReprice(State(), r, choice)
      modifies this
      ensures Valid() && State() == P.Apply(old(State()), P.Reprice(r, choice, now))
      ensures var n := |old(selections)|;
              && Replaced(old(selections), selections, r) && selections[n].choice == choice
              && selections[n].publishedAt == Some(now) && priced == old(priced) + {r}
              && mailed == old(mailed) + [P.Mail(P.RepriceKey(r, selections[n].version), choice.client)]
    {
      P.StepKeeps(State(), P.Reprice(r, choice, now));
      P.RepriceMakes(State(), r, choice, now, p);
      Supersede(r, p, choice, now);
    }

    /** The repricing transaction: retire the published row, add the new one, link them, queue the message. */
    method Supersede(r: int, p: nat, choice: P.Choice, now: int)
      requires P.PublishedRow(selections, r) == Some(p) && P.CanReprice(State(), r, choice)
      modifies this
      ensures State() == P.Apply(old(State()), P.Reprice(r, choice, now))
    {
      var version := P.LastVersion(selections, r) + 1;
      selections := selections[p := selections[p].(status := P.Superseded)];
      selections := selections + [P.Selection(r, P.Published, choice, version, None, Some(now), None)];
      selections := selections[p := selections[p].(supersededBy := Some(|selections| - 1))];
      assert selections == P.Supersede(old(selections), p, P.RepriceRow(old(selections), r, choice, now));
      priced := priced + {r};
      var isNew := EnqueueClientMessage(P.RepriceKey(r, version), choice.client);
    }

    /** Tell the operators when a later quote beats the published price. */
    method NotifyBetterLatePrice(quotes: seq<Quote>, request: Request, suppliers: map<int, Supplier>,
                                 now: int, markup: int, chats: seq<int>) returns (notified: bool)
      requires Valid() && DifferentIds(quotes)
      modifies this
      ensures Valid()
      ensures var choice := BestChoice(quotes, Context(request, suppliers, now, settings), markup);
              && (notified <==> notifyLate && choice.Some? && P.BeatsPublished(old(State()), request.id, choice.value))
              && State() == if notifyLate && choice.Some?
                            then P.Apply(old(State()), P.NotifyLate(request.id, choice.value, chats)) else old(State())
      ensures var c, p := Context(request, suppliers, now, settings), P.PublishedRow(old(selections), request.id);
              && (notified <==> notifyLate && p.Some? && Notifies(quotes, c, markup, old(selections)[p.value].choice))
              && selections == old(selections) && priced == old(priced)
              && (!notified ==> State() == old(State()))
              && (notified ==>
                    BestChoice(quotes, c, markup).Some?
                    && State() == P.EnqueueAll(old(State()), request.id, BestChoice(quotes, c, markup).value, chats))
    {
      if !notifyLate {
        return false;
      }
      var published := P.PublishedRow(selections, request.id);
      if published.None? {
        return false;
      }
      var choice := ChooseBest(quotes, Context(request, suppliers, now, settings), markup);
      if choice.None? || choice.value.quoteId == selections[published.value].choice.quoteId
         || choice.value.purchase >= selections[published.value].choice.purchase {
        return false;
      }
      ghost var w := State();
      P.StepKeeps(w, P.NotifyLate(request.id, choice.value, chats));
      for k := 0 to |chats|
        invariant P.EnqueueAll(State(), request.id, choice.value, chats[k..])
                  == P.EnqueueAll(w, request.id, choice.value, chats)
        invariant selections == w.selections && priced == w.priced
      {
        assert chats[k..][1..] == chats[k + 1..];
        var isNew := EnqueueClientMessage(P.LateKey(request.id, choice.value.quoteId, chats[k]), choice.value.client);
      }
      return true;
    }

    /** Keep the latest provisional choice; the previous one is superseded. */
    method UpsertProvisionalSelection(r: int, choice: P.Choice)
      requires Valid()
      modifies this`selections
      ensures Valid() && State() == P.Apply(old(State()), P.Provision(r, choice))
      ensures P.Provisioned(old(selections), selections, r, choice)
    {
      P.ProvisionMakes(State(), r, choice);
      P.StepKeeps(State(), P.Provision(r, choice));
      var existing := P.ProvisionalRow(selections, r);
      var version := 1;
      if existing.Some? {
        version := selections[existing.value].version + 1;
        selections := selections[existing.value := selections[existing.value].(status := P.Superseded)];
      }
      selections := selections + [P.Selection(r, P.Provisional, choice, version, None, None, None)];
    }
  }

  lemma InitKeeps()
    ensures P.Inv(P.INIT)
  {
  }
}
