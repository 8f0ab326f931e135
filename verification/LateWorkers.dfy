/** Workers that outlive their leases. Nothing in the delivering code stops them, so here a delivery may come at
    any time. Asks and bargains still go out at most once between replays, as long as no row is replayed while
    a worker still has it in hand; and a replay that ignores this always opens the way to a second send. */
module LateWorkers {
  import opened Wrappers
  import opened LeaseQueue
  import opened QueueSafety
  import opened QueueTheorems

  /** Some worker claimed the row and has neither delivered nor dropped it yet. */
  predicate TicketOut(w: World, i: Id) {
    exists t :: t in w.tickets && t.row == i
  }

  /** A replay that takes effect finds nobody with the row in hand. */
  predicate Calm(w: World, step: Step) {
    step.Replay? && step.id in w.rows && Replayable(w.rows[step.id], step.confirmed) ==> !TicketOut(w, step.id)
  }

  ghost predicate IsCalmRun(w: World, steps: seq<Step>, cfg: Config)
    requires Tallied(w)
    decreases |steps|
  {
    steps == []
    || (Allowed(w, steps[0], Anytime) && Calm(w, steps[0]) && IsCalmRun(Apply(w, steps[0], cfg), steps[1..], cfg))
  }

  // ----- What calm runs keep -----

  /** A row's one chance: a pending row is in nobody's hand, and a risky send leaves no ticket behind. */
  predicate OneChance(r: Row, c: Tally, out: bool) {
    && c.risky <= 1
    && (r.status == Pending ==> !out && c.risky == 0)
    && (out ==> c.risky == 0)
  }

  ghost predicate OneTicket(w: World, i: Id) {
    forall s, t | s in w.tickets && t in w.tickets && s.row == i && t.row == i :: s == t
  }

  ghost predicate AskedOnce(w: World, i: Id)
    requires Tallied(w) && i in w.rows
  {
    Unsafe(w.rows[i].kind) ==> OneTicket(w, i) && OneChance(w.rows[i], w.tally[i], TicketOut(w, i))
  }

  ghost predicate Orderly(w: World, cfg: Config) {
    && Tallied(w)
    && (forall i | i in w.rows :: i < w.nextId)
    && (forall t | t in w.tickets :: t.row < w.nextId && cfg.batchSize >= 1)
    && (forall i | i in w.rows :: AskedOnce(w, i))
  }

  lemma ClaimedOnce(r: Row, c: Tally, r': Row, c': Tally, out: bool, leased: bool, owner: string, now: int, cfg: Config)
    requires Unsafe(r.kind) && OneChance(r, c, out) && ClaimedOrSame(r, c, r', c', owner, now, cfg)
    requires leased ==> Claimable(r, now) && Kept(r, cfg.maxAttempts) && r' == ClaimRow(r, owner, now, cfg)
    ensures leased ==> !out
    ensures OneChance(r', c', out || leased) && r'.kind == r.kind && c'.risky == c.risky
  {
  }

  lemma ClaimOnce(w: World, w': World, i: Id, owner: string, cfg: Config)
    requires Orderly(w, cfg) && ClaimEffect(w, w', owner, cfg) && i in w.rows && w.tickets <= w'.tickets
    ensures AskedOnce(w', i) && w'.tally[i].risky == w.tally[i].risky && w'.rows[i].kind == w.rows[i].kind
  {
    assert AskedOnce(w, i);
    assert ClaimedOrSame(w.rows[i], w.tally[i], w'.rows[i], w'.tally[i], owner, w.now, cfg);
    if Unsafe(w.rows[i].kind) {
      if t :| t in w'.tickets && t.row == i && t !in w.tickets {
        assert OldOrLeased(w, w', t, owner, cfg);
        ClaimedOnce(w.rows[i], w.tally[i], w'.rows[i], w'.tally[i], TicketOut(w, i), true, owner, w.now, cfg);
        assert forall s | s in w'.tickets && s.row == i :: OldOrLeased(w, w', s, owner, cfg);
      } else {
        ClaimedOnce(w.rows[i], w.tally[i], w'.rows[i], w'.tally[i], TicketOut(w, i), false, owner, w.now, cfg);
        assert TicketOut(w', i) ==> TicketOut(w, i);
      }
    }
  }

  lemma ClaimTicketsLow(w: World, locked: set<Id>, owner: string, cfg: Config)
    requires Orderly(w, cfg)
    ensures var w' := Apply(w, Claim(locked, owner), cfg);
            forall t | t in w'.tickets :: t.row < w'.nextId && cfg.batchSize >= 1
  {
  }

  lemma ClaimOrderly(w: World, locked: set<Id>, owner: string, cfg: Config)
    requires Orderly(w, cfg)
    ensures Orderly(Apply(w, Claim(locked, owner), cfg), cfg)
  {
    var w' := Apply(w, Claim(locked, owner), cfg);
    ClaimHasEffect(w, locked, owner, cfg);
    ClaimTicketsLow(w, locked, owner, cfg);
    forall i | i in w'.rows ensures AskedOnce(w', i) {
      ClaimOnce(w, w', i, owner, cfg);
    }
  }

  lemma DeliveredOnce(r: Row, c: Tally, o: Outcome, now: int, maxAttempts: nat)
    requires Unsafe(r.kind) && OneChance(r, c, true)
    ensures OneChance(DeliverRow(r, o, now, maxAttempts), DeliverTally(c, o), false)
    ensures DeliverRow(r, o, now, maxAttempts).kind == r.kind
    ensures DeliverTally(c, o).risky == c.risky + if PossiblyAccepted(o) then 1 else 0
  {
  }

  lemma DeliverOrderly(w: World, t: Ticket, o: Outcome, cfg: Config)
    requires Orderly(w, cfg) && t in w.tickets
    ensures Orderly(Apply(w, Deliver(t, o), cfg), cfg)
  {
    var w' := Apply(w, Deliver(t, o), cfg);
    forall i | i in w'.rows ensures AskedOnce(w', i) {
      assert AskedOnce(w, i);
      if i == t.row {
        DeliverKeepsKind(w.rows[i], o, w.now, cfg.maxAttempts);
        if Unsafe(w.rows[i].kind) {
          assert !TicketOut(w', i);
          DeliveredOnce(w.rows[i], w.tally[i], o, w.now, cfg.maxAttempts);
        }
      } else {
        SameTickets(w, w', i);
      }
    }
  }

  /** The row, its tally and the tickets for it are as before. */
  lemma SameTickets(w: World, w': World, i: Id)
    requires Tallied(w) && Tallied(w') && i in w.rows && i in w'.rows && AskedOnce(w, i)
    requires w'.rows[i].kind == w.rows[i].kind && w'.tally[i] == w.tally[i]
    requires w'.rows[i].status == Pending ==> w.rows[i].status == Pending
    requires forall t | t in w'.tickets && t.row == i :: t in w.tickets
    ensures AskedOnce(w', i)
  {
    assert TicketOut(w', i) ==> TicketOut(w, i);
  }

  lemma ReplayOrderly(w: World, id: Id, confirmed: bool, cfg: Config)
    requires Orderly(w, cfg) && Calm(w, Replay(id, confirmed))
    ensures Orderly(Apply(w, Replay(id, confirmed), cfg), cfg)
  {
    var w' := Apply(w, Replay(id, confirmed), cfg);
    forall i | i in w'.rows ensures AskedOnce(w', i) {
      assert AskedOnce(w, i);
      if i != id || !Replayable(w.rows[i], confirmed) {
        SameTickets(w, w', i);
      }
    }
  }

  lemma OtherOrderly(w: World, step: Step, cfg: Config)
    requires Orderly(w, cfg) && Enabled(w, step) && (step.Tick? || step.Abandon? || step.Resolve? || step.Retain?)
    ensures Orderly(Apply(w, step, cfg), cfg)
  {
    var w' := Apply(w, step, cfg);
    forall i | i in w'.rows ensures AskedOnce(w', i) {
      SameTickets(w, w', i);
    }
  }

  lemma EnqueueOrderly(w: World, kind: Kind, key: int, link: Option<Id>, cfg: Config)
    requires Orderly(w, cfg)
    ensures Orderly(Apply(w, Enqueue(kind, key, link), cfg), cfg)
  {
    var w' := Apply(w, Enqueue(kind, key, link), cfg);
    forall i | i in w'.rows ensures AskedOnce(w', i) {
      if i in w.rows {
        SameTickets(w, w', i);
      }
    }
  }

  lemma StepOrderly(w: World, step: Step, cfg: Config)
    requires Orderly(w, cfg) && Allowed(w, step, Anytime) && Calm(w, step)
    ensures Orderly(Apply(w, step, cfg), cfg)
  {
    match step
    case Claim(locked, owner) => ClaimOrderly(w, locked, owner, cfg);
    case Deliver(t, o) => DeliverOrderly(w, t, o, cfg);
    case Replay(id, confirmed) => ReplayOrderly(w, id, confirmed, cfg);
    case Enqueue(kind, key, link) => EnqueueOrderly(w, kind, key, link, cfg);
    case _ => OtherOrderly(w, step, cfg);
  }

  lemma {:induction false} RunOrderly(w: World, steps: seq<Step>, cfg: Config)
    requires Orderly(w, cfg) && IsCalmRun(w, steps, cfg)
    ensures Orderly(Exec(w, steps, cfg), cfg)
    decreases |steps|
  {
    if steps != [] {
      StepOrderly(w, steps[0], cfg);
      RunOrderly(Apply(w, steps[0], cfg), steps[1..], cfg);
    }
  }

  // ----- At most one risky send between replays, whenever the deliveries come -----

  lemma RiskGrows(w: World, step: Step, i: Id, cfg: Config)
    requires Orderly(w, cfg) && i in w.rows && !(step.Replay? && step.id == i) && i in Apply(w, step, cfg).rows
    ensures var w' := Apply(w, step, cfg);
            && w'.rows[i].kind == w.rows[i].kind
            && w'.tally[i].risky == w.tally[i].risky + if RiskySend(w, step, i) then 1 else 0
  {
    if step.Claim? {
      ClaimHasEffect(w, step.locked, step.owner, cfg);
      ClaimOnce(w, Apply(w, step, cfg), i, step.owner, cfg);
    } else if step.Deliver? && step.ticket.row == i {
      DeliverKeepsKind(w.rows[i], step.outcome, w.now, cfg.maxAttempts);
    }
  }

  lemma {:induction false} GoneNeverSends(w: World, steps: seq<Step>, i: Id, cfg: Config)
    requires Tallied(w) && i !in w.rows && i < w.nextId
    ensures RiskySends(w, steps, i, cfg) == 0
    decreases |steps|
  {
    if steps != [] {
      GoneNeverSends(Apply(w, steps[0], cfg), steps[1..], i, cfg);
    }
  }

  lemma {:induction false} CalmWindow(w: World, steps: seq<Step>, i: Id, cfg: Config)
    requires Orderly(w, cfg) && IsCalmRun(w, steps, cfg) && NoReplay(steps, i)
    requires i in w.rows && Unsafe(w.rows[i].kind)
    ensures w.tally[i].risky + RiskySends(w, steps, i, cfg) <= 1
    decreases |steps|
  {
    assert AskedOnce(w, i);
    if steps != [] {
      var step, rest := steps[0], steps[1..];
      var w' := Apply(w, step, cfg);
      assert NoReplay(rest, i) by { assert forall k :: 0 <= k < |rest| ==> rest[k] == steps[k + 1]; }
      StepOrderly(w, step, cfg);
      if i in w'.rows {
        RiskGrows(w, step, i, cfg);
        CalmWindow(w', rest, i, cfg);
      } else {
        assert !RiskySend(w, step, i);
        GoneNeverSends(w', rest, i, cfg);
      }
    }
  }

  lemma {:induction false} CalmSplits(w: World, a: seq<Step>, b: seq<Step>, cfg: Config)
    requires Tallied(w)
    ensures IsCalmRun(w, a + b, cfg) <==> IsCalmRun(w, a, cfg) && IsCalmRun(Exec(w, a, cfg), b, cfg)
    decreases |a|
  {
    if a == [] {
      assert a + b == b;
    } else {
      assert (a + b)[0] == a[0] && (a + b)[1..] == a[1..] + b;
      CalmSplits(Apply(w, a[0], cfg), a[1..], b, cfg);
    }
  }

  /** Cut any calm run anywhere, however late its deliveries come: between two replays of a row, an ask or bargain
      is sent at most once in a way Telegram may have accepted. */
  lemma CalmReplaysAskOnce(now: int, before: seq<Step>, window: seq<Step>, i: Id, cfg: Config)
    requires IsCalmRun(Init(now), before + window, cfg) && NoReplay(window, i)
    requires i in Exec(Init(now), before, cfg).rows && Unsafe(Exec(Init(now), before, cfg).rows[i].kind)
    ensures RiskySends(Exec(Init(now), before, cfg), window, i, cfg) <= 1
  {
    CalmSplits(Init(now), before, window, cfg);
    RunOrderly(Init(now), before, cfg);
    CalmWindow(Exec(Init(now), before, cfg), window, i, cfg);
  }

  // ----- A replay with a ticket out -----

  /** A claim that finds every other row locked takes exactly this one. */
  lemma OnlyClaim(w: World, i: Id, owner: string, cfg: Config)
    requires Tallied(w) && i in w.rows && Claimable(w.rows[i], w.now) && cfg.batchSize >= 1
    ensures var w', kept := Apply(w, Claim(w.rows.Keys - {i}, owner), cfg), Kept(w.rows[i], cfg.maxAttempts);
            && w'.rows == w.rows[i := ClaimRow(w.rows[i], owner, w.now, cfg)]
            && w'.tickets == w.tickets + (if kept then {Ticket(i, owner, w.now + cfg.leaseSeconds)} else {})
  {
    var locked := w.rows.Keys - {i};
    assert ClaimSet(w.rows, locked, w.now) == {i};
    var ids := ClaimIds(w.rows, locked, w.now, cfg);
    assert i in ids && (|ids| > 1 ==> ids[0] < ids[1]);
    forall k | 0 <= k < |ids| ensures ids[k] == i {
      assert ids[k] in ClaimSet(w.rows, locked, w.now);
    }
    assert ids == [i];
  }

  lemma CalmCons(w: World, step: Step, rest: seq<Step>, i: Id, cfg: Config)
    requires Tallied(w)
    ensures IsCalmRun(w, [step] + rest, cfg) <==>
              Allowed(w, step, Anytime) && Calm(w, step) && IsCalmRun(Apply(w, step, cfg), rest, cfg)
    ensures RiskySends(w, [step] + rest, i, cfg) ==
              (if RiskySend(w, step, i) then 1 else 0) + RiskySends(Apply(w, step, cfg), rest, i, cfg)
    ensures NoReplay([step] + rest, i) <==> !(step.Replay? && step.id == i) && NoReplay(rest, i)
  {
    var all := [step] + rest;
    assert all[1..] == rest;
    assert forall k :: 0 <= k < |rest| ==> all[k + 1] == rest[k];
  }

  /** Two workers with the same row in hand both send. */
  lemma BothSend(w: World, i: Id, s: Ticket, t: Ticket, cfg: Config)
    requires Tallied(w) && i in w.rows && s in w.tickets && t in w.tickets && s != t && s.row == t.row == i
    ensures var steps := [Deliver(s, Accepted(None))] + ([Deliver(t, Accepted(None))] + []);
            IsCalmRun(w, steps, cfg) && NoReplay(steps, i) && RiskySends(w, steps, i, cfg) == 2
  {
    var a, b := Deliver(s, Accepted(None)), Deliver(t, Accepted(None));
    CalmCons(Apply(w, a, cfg), b, [], i, cfg);
    CalmCons(w, a, [b] + [], i, cfg);
  }

  function Rival(t: Ticket): string {
    t.owner + "'"
  }

  /** Replay a row some worker still has in hand: another worker claims it, and both send. */
  lemma ReplayedTwice(w: World, i: Id, confirmed: bool, t: Ticket, cfg: Config) returns (steps: seq<Step>)
    requires Tallied(w) && i in w.rows && Replayable(w.rows[i], confirmed) && t in w.tickets && t.row == i
    requires cfg.batchSize >= 1
    ensures var w' := Apply(w, Replay(i, confirmed), cfg);
            IsCalmRun(w', steps, cfg) && NoReplay(steps, i) && RiskySends(w', steps, i, cfg) == 2
  {
    var w1 := Apply(w, Replay(i, confirmed), cfg);
    var claim := Claim(w1.rows.Keys - {i}, Rival(t));
    OnlyClaim(w1, i, Rival(t), cfg);
    var w2 := Apply(w1, claim, cfg);
    var u := Ticket(i, Rival(t), w1.now + cfg.leaseSeconds);
    assert |u.owner| != |t.owner|;
    BothSend(w2, i, t, u, cfg);
    steps := [claim] + ([Deliver(t, Accepted(None))] + ([Deliver(u, Accepted(None))] + []));
    CalmCons(w1, claim, [Deliver(t, Accepted(None))] + ([Deliver(u, Accepted(None))] + []), i, cfg);
  }

  /** Whatever happens next short of another replay of the row, it is sent riskily at most once. */
  ghost predicate SentOnceFrom(w: World, i: Id, cfg: Config)
    requires Tallied(w)
  {
    forall steps | IsCalmRun(w, steps, cfg) && NoReplay(steps, i) :: RiskySends(w, steps, i, cfg) <= 1
  }

  /** What an operator can check before replaying an ask or bargain: the replay is safe exactly when no worker
      has the row in hand. */
  lemma ReplaySafeWhen(w: World, i: Id, confirmed: bool, cfg: Config)
    requires Orderly(w, cfg) && i in w.rows && Unsafe(w.rows[i].kind) && Replayable(w.rows[i], confirmed)
    ensures SentOnceFrom(Apply(w, Replay(i, confirmed), cfg), i, cfg) <==> !TicketOut(w, i)
  {
    var w' := Apply(w, Replay(i, confirmed), cfg);
    if t :| t in w.tickets && t.row == i {
      var steps := ReplayedTwice(w, i, confirmed, t, cfg);
    } else {
      ReplayOrderly(w, i, confirmed, cfg);
      forall steps | IsCalmRun(w', steps, cfg) && NoReplay(steps, i) ensures RiskySends(w', steps, i, cfg) <= 1 {
        CalmWindow(w', steps, i, cfg);
      }
    }
  }

  // ----- Every kind: sends within the attempts -----

  function OutFor(w: World, i: Id): set<Ticket> {
    set t | t in w.tickets && t.row == i
  }

  /** Each claim pays for one send, and a row is claimed at most as often as it may be attempted. */
  predicate Budget(r: Row, c: Tally, out: nat, maxAttempts: nat) {
    && c.sends + out <= c.claims <= maxAttempts
    && (if r.status == Pending then c.claims <= r.attempts < maxAttempts else c.claims <= r.attempts + 1)
  }

  ghost predicate RowBudget(w: World, i: Id, cfg: Config)
    requires Tallied(w) && i in w.rows
  {
    Budget(w.rows[i], w.tally[i], |OutFor(w, i)|, cfg.maxAttempts)
  }

  ghost predicate Budgeted(w: World, cfg: Config) {
    && Tallied(w)
    && (forall i | i in w.rows :: i < w.nextId && RowBudget(w, i, cfg))
    && (forall t | t in w.tickets :: t.row < w.nextId)
  }

  lemma Fewer(s: set<Ticket>, t: set<Ticket>)
    requires s <= t
    ensures |s| <= |t|
  {
    assert t == s + (t - s);
  }

  lemma ClaimedBudget(r: Row, c: Tally, r': Row, c': Tally, out: nat, leased: bool, owner: string, now: int,
                      cfg: Config)
    requires Budget(r, c, out, cfg.maxAttempts) && ClaimedOrSame(r, c, r', c', owner, now, cfg)
    requires leased ==> Claimable(r, now) && Kept(r, cfg.maxAttempts) && r' == ClaimRow(r, owner, now, cfg)
    ensures Budget(r', c', if leased then out + 1 else out, cfg.maxAttempts) && c'.sends == c.sends
  {
  }

  /** A claim adds at most its own one ticket for a row. */
  lemma ClaimOut(w: World, w': World, i: Id, owner: string, cfg: Config) returns (leased: bool)
    requires ClaimEffect(w, w', owner, cfg) && i in w.rows
    ensures |OutFor(w', i)| <= |OutFor(w, i)| + if leased then 1 else 0
    ensures leased ==> Claimable(w.rows[i], w.now) && Kept(w.rows[i], cfg.maxAttempts)
    ensures leased ==> w'.rows[i] == ClaimRow(w.rows[i], owner, w.now, cfg)
  {
    var added := Ticket(i, owner, w.now + cfg.leaseSeconds);
    leased := added in w'.tickets && added !in w.tickets;
    assert leased ==> OldOrLeased(w, w', added, owner, cfg);
    forall t | t in OutFor(w', i) ensures t in OutFor(w, i) || (leased && t == added) {
      assert OldOrLeased(w, w', t, owner, cfg);
    }
    if leased {
      Fewer(OutFor(w', i), OutFor(w, i) + {added});
    } else {
      Fewer(OutFor(w', i), OutFor(w, i));
    }
  }

  lemma ClaimBudget(w: World, w': World, i: Id, owner: string, cfg: Config)
    requires Budgeted(w, cfg) && ClaimEffect(w, w', owner, cfg) && i in w.rows
    ensures RowBudget(w', i, cfg) && w'.tally[i].sends == w.tally[i].sends
  {
    assert RowBudget(w, i, cfg);
    assert ClaimedOrSame(w.rows[i], w.tally[i], w'.rows[i], w'.tally[i], owner, w.now, cfg);
    var leased := ClaimOut(w, w', i, owner, cfg);
    ClaimedBudget(w.rows[i], w.tally[i], w'.rows[i], w'.tally[i], |OutFor(w, i)|, leased, owner, w.now, cfg);
  }

  lemma ClaimBudgeted(w: World, locked: set<Id>, owner: string, cfg: Config)
    requires Budgeted(w, cfg)
    ensures Budgeted(Apply(w, Claim(locked, owner), cfg), cfg)
  {
    var w' := Apply(w, Claim(locked, owner), cfg);
    ClaimHasEffect(w, locked, owner, cfg);
    forall i | i in w'.rows ensures RowBudget(w', i, cfg) {
      ClaimBudget(w, w', i, owner, cfg);
    }
    forall t | t in w'.tickets ensures t.row < w'.nextId {
      assert OldOrLeased(w, w', t, owner, cfg);
    }
  }

  lemma DeliveredBudget(r: Row, c: Tally, o: Outcome, out: nat, now: int, maxAttempts: nat)
    requires Budget(r, c, out + 1, maxAttempts)
    ensures Budget(DeliverRow(r, o, now, maxAttempts), DeliverTally(c, o), out, maxAttempts)
  {
  }

  lemma DeliverBudgeted(w: World, t: Ticket, o: Outcome, cfg: Config)
    requires Budgeted(w, cfg) && t in w.tickets
    ensures Budgeted(Apply(w, Deliver(t, o), cfg), cfg)
  {
    var w' := Apply(w, Deliver(t, o), cfg);
    forall i | i in w'.rows ensures RowBudget(w', i, cfg) {
      assert RowBudget(w, i, cfg);
      if i == t.row {
        assert OutFor(w, i) == OutFor(w', i) + {t};
        DeliveredBudget(w.rows[i], w.tally[i], o, |OutFor(w', i)|, w.now, cfg.maxAttempts);
      } else {
        assert OutFor(w, i) == OutFor(w', i);
      }
    }
  }

  lemma OtherBudgeted(w: World, step: Step, cfg: Config)
    requires Budgeted(w, cfg) && cfg.maxAttempts >= 1 && Enabled(w, step) && Calm(w, step)
    requires !step.Claim? && !step.Deliver?
    ensures Budgeted(Apply(w, step, cfg), cfg)
  {
    var w' := Apply(w, step, cfg);
    forall i | i in w'.rows ensures i < w'.nextId && RowBudget(w', i, cfg) {
      Fewer(OutFor(w', i), OutFor(w, i));
      if i in w.rows {
        assert RowBudget(w, i, cfg);
        assert !TicketOut(w, i) ==> OutFor(w, i) == {};
      } else {
        assert OutFor(w, i) == {};
      }
    }
  }

  lemma StepBudgeted(w: World, step: Step, cfg: Config)
    requires Budgeted(w, cfg) && cfg.maxAttempts >= 1 && Allowed(w, step, Anytime) && Calm(w, step)
    ensures Budgeted(Apply(w, step, cfg), cfg)
  {
    match step
    case Claim(locked, owner) => ClaimBudgeted(w, locked, owner, cfg);
    case Deliver(t, o) => DeliverBudgeted(w, t, o, cfg);
    case _ => OtherBudgeted(w, step, cfg);
  }

  lemma {:induction false} RunBudgeted(w: World, steps: seq<Step>, cfg: Config)
    requires Budgeted(w, cfg) && cfg.maxAttempts >= 1 && IsCalmRun(w, steps, cfg)
    ensures Budgeted(Exec(w, steps, cfg), cfg)
    decreases |steps|
  {
    if steps != [] {
      StepBudgeted(w, steps[0], cfg);
      RunBudgeted(Apply(w, steps[0], cfg), steps[1..], cfg);
    }
  }

  lemma SendsGrow(w: World, step: Step, i: Id, cfg: Config)
    requires Budgeted(w, cfg) && i in w.rows && !(step.Replay? && step.id == i) && i in Apply(w, step, cfg).rows
    ensures Apply(w, step, cfg).tally[i].sends == w.tally[i].sends + if SendsRow(w, step, i) then 1 else 0
  {
    if step.Claim? {
      ClaimHasEffect(w, step.locked, step.owner, cfg);
      ClaimBudget(w, Apply(w, step, cfg), i, step.owner, cfg);
    }
  }

  lemma {:induction false} GoneSendsNothing(w: World, steps: seq<Step>, i: Id, cfg: Config)
    requires Tallied(w) && i !in w.rows && i < w.nextId
    ensures Sends(w, steps, i, cfg) == 0
    decreases |steps|
  {
    if steps != [] {
      GoneSendsNothing(Apply(w, steps[0], cfg), steps[1..], i, cfg);
    }
  }

  lemma {:induction false} SendsWindow(w: World, steps: seq<Step>, i: Id, cfg: Config)
    requires Budgeted(w, cfg) && cfg.maxAttempts >= 1 && IsCalmRun(w, steps, cfg) && NoReplay(steps, i) && i in w.rows
    ensures w.tally[i].sends + Sends(w, steps, i, cfg) <= cfg.maxAttempts
    decreases |steps|
  {
    assert RowBudget(w, i, cfg);
    if steps != [] {
      var step, rest := steps[0], steps[1..];
      var w' := Apply(w, step, cfg);
      assert NoReplay(rest, i) by { assert forall k :: 0 <= k < |rest| ==> rest[k] == steps[k + 1]; }
      StepBudgeted(w, step, cfg);
      if i in w'.rows {
        SendsGrow(w, step, i, cfg);
        SendsWindow(w', rest, i, cfg);
      } else {
        assert !SendsRow(w, step, i);
        GoneSendsNothing(w', rest, i, cfg);
      }
    }
  }

  /** In calm runs, however late the deliveries come, no row of any kind is sent more than `maxAttempts` times between
      two replays. */
  lemma CalmSendsBounded(now: int, before: seq<Step>, window: seq<Step>, i: Id, cfg: Config)
    requires cfg.maxAttempts >= 1 && IsCalmRun(Init(now), before + window, cfg) && NoReplay(window, i)
    requires i in Exec(Init(now), before, cfg).rows
    ensures Sends(Exec(Init(now), before, cfg), window, i, cfg) <= cfg.maxAttempts
  {
    CalmSplits(Init(now), before, window, cfg);
    RunBudgeted(Init(now), before, cfg);
    SendsWindow(Exec(Init(now), before, cfg), window, i, cfg);
  }

  // ----- Rows that should have settled -----

  /** A late delivery takes a finished row out of its status exactly when Telegram refused it: then the row is to
      be sent again, or is dead or uncertain. */
  lemma LateDeliveryMoves(w: World, t: Ticket, o: Outcome, cfg: Config)
    requires Tallied(w) && t in w.tickets && t.row in w.rows && w.rows[t.row].status == Finished
    ensures var r, r' := w.rows[t.row], Apply(w, Deliver(t, o), cfg).rows[t.row];
            && (r'.status != Finished <==> o.Refused?)
            && (r'.status == Pending <==>
                  o.Refused? && !IsUncertainDelivery(r.kind, o.error) && r.attempts + 1 < cfg.maxAttempts)
  {
  }

  predicate Settled(r: Row) {
    r.status == Finished || r.status == Dead || r.status == Uncertain
  }

  /** The row is as it was, save for a resolution, or was deleted like that. */
  predicate AsItWas(r: Row, w: World, i: Id) {
    if i in w.rows then w.rows[i] == r.(resolvedAt := w.rows[i].resolvedAt)
    else i in w.gone && w.gone[i] == r.(resolvedAt := w.gone[i].resolvedAt)
  }

  /** Whatever happens next short of a replay of the row, it stays as it is. */
  ghost predicate StaysSettled(w: World, i: Id, cfg: Config)
    requires Tallied(w) && i in w.rows
  {
    forall steps | IsRun(w, steps, Anytime, cfg) && NoReplay(steps, i) :: AsItWas(w.rows[i], Exec(w, steps, cfg), i)
  }

  lemma {:induction false} GoneStays(w: World, steps: seq<Step>, i: Id, cfg: Config)
    requires Tallied(w) && IsRun(w, steps, Anytime, cfg) && i !in w.rows && i in w.gone && i < w.nextId
    ensures var w' := Exec(w, steps, cfg); i !in w'.rows && i in w'.gone && w'.gone[i] == w.gone[i]
    decreases |steps|
  {
    if steps != [] {
      GoneStays(Apply(w, steps[0], cfg), steps[1..], i, cfg);
    }
  }

  lemma SettledClaim(w: World, locked: set<Id>, owner: string, i: Id, cfg: Config)
    requires Tallied(w) && i in w.rows && Settled(w.rows[i]) && !TicketOut(w, i)
    ensures var w' := Apply(w, Claim(locked, owner), cfg);
            i in w'.rows && w'.rows[i] == w.rows[i] && !TicketOut(w', i)
  {
    var w' := Apply(w, Claim(locked, owner), cfg);
    ClaimHasEffect(w, locked, owner, cfg);
    assert ClaimedOrSame(w.rows[i], w.tally[i], w'.rows[i], w'.tally[i], owner, w.now, cfg);
    forall t | t in w'.tickets ensures t.row != i {
      assert OldOrLeased(w, w', t, owner, cfg);
    }
  }

  lemma SettledStep(w: World, step: Step, i: Id, cfg: Config)
    requires Tallied(w) && i in w.rows && i < w.nextId && Settled(w.rows[i]) && !TicketOut(w, i)
    requires Allowed(w, step, Anytime) && !(step.Replay? && step.id == i)
    ensures AsItWas(w.rows[i], Apply(w, step, cfg), i) && i < Apply(w, step, cfg).nextId
    ensures i in Apply(w, step, cfg).rows ==> !TicketOut(Apply(w, step, cfg), i)
  {
    if step.Claim? {
      SettledClaim(w, step.locked, step.owner, i, cfg);
    } else {
      assert Apply(w, step, cfg).tickets <= w.tickets;
    }
  }

  lemma {:induction false} SettledRun(w: World, steps: seq<Step>, i: Id, cfg: Config)
    requires Tallied(w) && i in w.rows && i < w.nextId && Settled(w.rows[i]) && !TicketOut(w, i)
    requires IsRun(w, steps, Anytime, cfg) && NoReplay(steps, i)
    ensures AsItWas(w.rows[i], Exec(w, steps, cfg), i)
    decreases |steps|
  {
    if steps != [] {
      var step, rest := steps[0], steps[1..];
      var w' := Apply(w, step, cfg);
      assert NoReplay(rest, i) by { assert forall k :: 0 <= k < |rest| ==> rest[k] == steps[k + 1]; }
      SettledStep(w, step, i, cfg);
      if i in w'.rows {
        SettledRun(w', rest, i, cfg);
      } else {
        GoneStays(w', rest, i, cfg);
      }
    }
  }

  /** The one delivery that takes a settled row out of its status. */
  function Unsettling(t: Ticket, r: Row): Step {
    Deliver(t, if r.status == Finished then Refused("") else Accepted(None))
  }

  lemma UnsettledBy(w: World, i: Id, t: Ticket, cfg: Config)
    requires Tallied(w) && i in w.rows && Settled(w.rows[i]) && t in w.tickets && t.row == i
    ensures !StaysSettled(w, i, cfg)
  {
    var step := Unsettling(t, w.rows[i]);
    var steps := [step] + [];
    Cons(w, step, [], Anytime, cfg);
    assert IsRun(w, steps, Anytime, cfg) && NoReplay(steps, i);
    assert Exec(w, steps, cfg).rows[i].status != w.rows[i].status;
  }

  /** A sent, dead or uncertain row stays as it is in every continuation, late deliveries included, exactly when no
      worker has it in hand. */
  lemma SettledStaysWhen(w: World, i: Id, cfg: Config)
    requires Tallied(w) && i in w.rows && i < w.nextId && Settled(w.rows[i])
    ensures StaysSettled(w, i, cfg) <==> !TicketOut(w, i)
  {
    if t :| t in w.tickets && t.row == i {
      UnsettledBy(w, i, t, cfg);
    } else {
      forall steps | IsRun(w, steps, Anytime, cfg) && NoReplay(steps, i)
        ensures AsItWas(w.rows[i], Exec(w, steps, cfg), i)
      {
        SettledRun(w, steps, i, cfg);
      }
    }
  }

  // ----- That it can come to this -----

  lemma {:induction false} CalmIsRun(w: World, steps: seq<Step>, cfg: Config)
    requires Tallied(w) && IsCalmRun(w, steps, cfg)
    ensures IsRun(w, steps, Anytime, cfg)
    decreases |steps|
  {
    if steps != [] {
      CalmIsRun(Apply(w, steps[0], cfg), steps[1..], cfg);
    }
  }

  const DEFAULTS := Config(8, 60, 20)
  const RECLAIM: seq<Step> := [Claim({}, "b")] + []

  function LeaseOut(kind: Kind): seq<Step> {
    [Enqueue(kind, 1, None)] + ([Claim({}, "a")] + ([Tick(61)] + []))
  }

  /** A row whose lease has just run out under its worker. */
  lemma LeaseRunsOut(kind: Kind) returns (w: World)
    ensures IsCalmRun(Init(0), LeaseOut(kind), DEFAULTS) && w == Exec(Init(0), LeaseOut(kind), DEFAULTS)
    ensures w.rows.Keys == {0} && w.rows[0].status == Processing && w.rows[0].kind == kind
    ensures w.rows[0].resolvedAt.None? && w.rows[0].attempts == 0 && w.rows[0].leasedUntil == Some(60)
    ensures w.now == 61 && w.tickets == {Ticket(0, "a", 60)}
  {
    var w0 := Init(0);
    var w1 := Apply(w0, Enqueue(kind, 1, None), DEFAULTS);
    assert w1.rows == map[0 := NewRow(kind, 1, None, 0)];
    assert w1.rows.Keys - {0} == {};
    OnlyClaim(w1, 0, "a", DEFAULTS);
    var w2 := Apply(w1, Claim({}, "a"), DEFAULTS);
    w := Apply(w2, Tick(61), DEFAULTS);
    CalmCons(w2, Tick(61), [], 0, DEFAULTS);
    CalmCons(w1, Claim({}, "a"), [Tick(61)] + [], 0, DEFAULTS);
    CalmCons(w0, Enqueue(kind, 1, None), [Claim({}, "a")] + ([Tick(61)] + []), 0, DEFAULTS);
    Cons(w2, Tick(61), [], Anytime, DEFAULTS);
    Cons(w1, Claim({}, "a"), [Tick(61)] + [], Anytime, DEFAULTS);
    Cons(w0, Enqueue(kind, 1, None), [Claim({}, "a")] + ([Tick(61)] + []), Anytime, DEFAULTS);
  }

  lemma Reclaimed(kind: Kind) returns (w: World)
    ensures IsCalmRun(Init(0), LeaseOut(kind) + RECLAIM, DEFAULTS)
    ensures w == Exec(Init(0), LeaseOut(kind) + RECLAIM, DEFAULTS)
    ensures 0 in w.rows && w.rows[0].kind == kind && w.rows[0].resolvedAt.None?
    ensures w.rows[0].status == if Unsafe(kind) then Uncertain else Processing
    ensures Ticket(0, "a", 60) in w.tickets
    ensures !Unsafe(kind) ==> Ticket(0, "b", 121) in w.tickets && w.rows[0].attempts == 1
  {
    var w3 := LeaseRunsOut(kind);
    assert w3.rows.Keys - {0} == {};
    OnlyClaim(w3, 0, "b", DEFAULTS);
    w := Apply(w3, Claim({}, "b"), DEFAULTS);
    CalmCons(w3, Claim({}, "b"), [], 0, DEFAULTS);
    CalmSplits(Init(0), LeaseOut(kind), RECLAIM, DEFAULTS);
    Cons(w3, Claim({}, "b"), [], Anytime, DEFAULTS);
    RunSplits(Init(0), LeaseOut(kind), RECLAIM, Anytime, DEFAULTS);
  }

  /** From an empty queue: an ask is claimed, its lease runs out under the worker, the operator replays it, and
      both the late worker and the new one send. */
  lemma LateWorkerSendsTwice() returns (before: seq<Step>, window: seq<Step>)
    ensures IsRun(Init(0), before + window, Anytime, DEFAULTS) && NoReplay(window, 0)
    ensures var w := Exec(Init(0), before, DEFAULTS);
            0 in w.rows && Unsafe(w.rows[0].kind) && RiskySends(w, window, 0, DEFAULTS) == 2
  {
    var w := Reclaimed(Ask);
    var replay, expired := Replay(0, true), LeaseOut(Ask) + RECLAIM;
    window := ReplayedTwice(w, 0, true, Ticket(0, "a", 60), DEFAULTS);
    before := expired + ([replay] + []);
    CalmIsRun(Init(0), expired, DEFAULTS);
    CalmIsRun(Apply(w, replay, DEFAULTS), window, DEFAULTS);
    Cons(w, replay, [], Anytime, DEFAULTS);
    RunSplits(Init(0), expired, [replay] + [], Anytime, DEFAULTS);
    RunSplits(Init(0), before, window, Anytime, DEFAULTS);
  }

  /** From an empty queue and without any replay: a client price is sent by the second worker while the first, late
      one still has it in hand; the first one's refusal then queues it again. */
  lemma LateRefusalResends() returns (before: seq<Step>)
    ensures IsCalmRun(Init(0), before, DEFAULTS)
    ensures var w, late := Exec(Init(0), before, DEFAULTS), Deliver(Ticket(0, "a", 60), Refused(""));
            && 0 in w.rows && w.rows[0].status == Finished && w.rows[0].kind == ClientPrice
            && Allowed(w, late, Anytime) && Calm(w, late) && Apply(w, late, DEFAULTS).rows[0].status == Pending
  {
    var w := Reclaimed(ClientPrice);
    var sent := Deliver(Ticket(0, "b", 121), Accepted(Some(1)));
    before := (LeaseOut(ClientPrice) + RECLAIM) + ([sent] + []);
    CalmCons(w, sent, [], 0, DEFAULTS);
    CalmSplits(Init(0), LeaseOut(ClientPrice) + RECLAIM, [sent] + [], DEFAULTS);
    Cons(w, sent, [], Anytime, DEFAULTS);
    RunSplits(Init(0), LeaseOut(ClientPrice) + RECLAIM, [sent] + [], Anytime, DEFAULTS);
  }
}
