/** The leased queue's guarantees over whole runs: at most one risky send per replay, exact accounting,
    exclusive leases, nothing lost and bounded work. */
module QueueTheorems {
  import opened Wrappers
  import opened LeaseQueue
  import opened QueueSafety
  import opened QueueEdges

  // ----- Runs -----

  ghost predicate Reachable(w: World, d: Discipline, cfg: Config) {
    exists now: int, steps: seq<Step> :: IsRun(Init(now), steps, d, cfg) && w == Exec(Init(now), steps, cfg)
  }

  lemma ReachableInv(w: World, d: Discipline, cfg: Config)
    requires cfg.maxAttempts >= 1 && !d.Anytime? && Reachable(w, d, cfg)
    ensures Inv(w, cfg)
  {
    var now: int, steps: seq<Step> :| IsRun(Init(now), steps, d, cfg) && w == Exec(Init(now), steps, cfg);
    RunKeeps(Init(now), steps, d, cfg);
  }

  lemma {:induction false} RunSplits(w: World, a: seq<Step>, b: seq<Step>, d: Discipline, cfg: Config)
    requires Tallied(w)
    ensures IsRun(w, a + b, d, cfg) <==> IsRun(w, a, d, cfg) && IsRun(Exec(w, a, cfg), b, d, cfg)
    ensures Exec(w, a + b, cfg) == Exec(Exec(w, a, cfg), b, cfg)
    decreases |a|
  {
    if a == [] {
      assert a + b == b;
    } else {
      assert (a + b)[0] == a[0] && (a + b)[1..] == a[1..] + b;
      RunSplits(Apply(w, a[0], cfg), a[1..], b, d, cfg);
    }
  }

  lemma Cons(w: World, step: Step, rest: seq<Step>, d: Discipline, cfg: Config)
    requires Tallied(w)
    ensures IsRun(w, [step] + rest, d, cfg) <==> Allowed(w, step, d) && IsRun(Apply(w, step, cfg), rest, d, cfg)
    ensures Exec(w, [step] + rest, cfg) == Exec(Apply(w, step, cfg), rest, cfg)
  {
    assert ([step] + rest)[1..] == rest;
  }

  lemma TwoMore(w: World, steps: seq<Step>, s: Step, t: Step, d: Discipline, cfg: Config)
    requires Tallied(w)
    ensures var w' := Exec(w, steps, cfg);
            && Exec(w, steps + [s, t], cfg) == Apply(Apply(w', s, cfg), t, cfg)
            && (IsRun(w, steps + [s, t], d, cfg) <==>
                  IsRun(w, steps, d, cfg) && Allowed(w', s, d) && Allowed(Apply(w', s, cfg), t, d))
  {
    var w' := Exec(w, steps, cfg);
    RunSplits(w, steps, [s, t], d, cfg);
    assert [s, t] == [s] + ([t] + []);
    Cons(w', s, [t] + [], d, cfg);
    Cons(Apply(w', s, cfg), t, [], d, cfg);
  }

  /** A worker that stops when its lease runs out only ever delivers on matching tickets, so both
      disciplines give the guarantees below; the matching one is the weaker demand. */
  lemma {:induction false} PromptRunsMatch(w: World, steps: seq<Step>, cfg: Config)
    requires Inv(w, cfg) && cfg.maxAttempts >= 1 && IsRun(w, steps, WhileLeased, cfg)
    ensures IsRun(w, steps, WhileMatching, cfg)
    decreases |steps|
  {
    if steps != [] {
      StepKeeps(w, steps[0], WhileLeased, cfg);
      PromptRunsMatch(Apply(w, steps[0], cfg), steps[1..], cfg);
    }
  }

  // ----- Leases -----

  /** A live lease has one owner: the row is being processed for exactly that ticket. */
  lemma LeaseExclusive(w: World, s: Ticket, t: Ticket, d: Discipline, cfg: Config)
    requires cfg.maxAttempts >= 1 && !d.Anytime? && Reachable(w, d, cfg)
    requires s in w.tickets && t in w.tickets && s.row == t.row && w.now <= s.until
    ensures Matches(w.rows, s)
    ensures w.now <= t.until ==> s == t
  {
    ReachableInv(w, d, cfg);
    assert Matches(w.rows, s);
    assert w.now <= t.until ==> Matches(w.rows, t);
  }

  /** Two claims: the later one skips everything the earlier one still holds, whether by row lock or,
      after commit, by lease. */
  lemma ClaimsDisjoint(rows: map<Id, Row>, locked: set<Id>, owner: string, now: int, later: int, cfg: Config)
    requires now <= later <= now + cfg.leaseSeconds
    ensures var ids := ClaimIds(rows, locked, now, cfg);
            && (forall more: set<Id>, i | i in ids && (set k | k in ids) <= more ::
                  i !in ClaimIds(rows, more, now, cfg))
            && (forall i | i in ids && Kept(rows[i], cfg.maxAttempts) ::
                  i !in ClaimIds(ClaimRows(rows, ids, owner, now, cfg), locked, later, cfg))
  {
    var ids := ClaimIds(rows, locked, now, cfg);
    forall i | i in ids ensures i in rows && Claimable(rows[i], now) {
      assert i in ClaimSet(rows, locked, now);
    }
    forall more: set<Id>, i | i in ids && (set k | k in ids) <= more
      ensures i !in ClaimIds(rows, more, now, cfg)
    {
      assert i !in ClaimSet(rows, more, now);
    }
    forall i | i in ids && Kept(rows[i], cfg.maxAttempts)
      ensures i !in ClaimIds(ClaimRows(rows, ids, owner, now, cfg), locked, later, cfg)
    {
      assert i !in ClaimSet(ClaimRows(rows, ids, owner, now, cfg), locked, later);
    }
  }

  /** A claim takes exactly the unlocked rows that are waiting, due and unleased, or in hand under a lease that ran
      out; of these the lowest ids, up to the batch size. */
  lemma ClaimTakesLowest(rows: map<Id, Row>, locked: set<Id>, now: int, cfg: Config, i: Id)
    ensures var ids := ClaimIds(rows, locked, now, cfg);
            && |ids| <= cfg.batchSize && Ascending(ids)
            && (i in ids <==>
                  && i in rows && i !in locked
                  && UpForClaim(rows[i], now)
                  && |UpBefore(rows, locked, now, i)| < cfg.batchSize)
  {
    ClaimedWhen(rows, locked, now, cfg, i);
  }

  // ----- One step on one row -----

  /** What a step must make of row `i`. */
  ghost predicate Edge(w: World, r': Row, step: Step, i: Id, cfg: Config)
    requires i in w.rows
  {
    var r := w.rows[i];
    match step
    case Claim(locked, owner) =>
      if HasTurn(w.rows, locked, w.now, cfg.batchSize, i) then ClaimMakes(r, r', owner, w.now, cfg) else r' == r
    case Deliver(t, o) => if t.row == i then DeliveryMakes(r, r', o, w.now, cfg.maxAttempts) else r' == r
    case Replay(id, confirmed) => if id == i && MayReplay(r, confirmed) then ReplayMakes(r, r', w.now) else r' == r
    case Resolve(id) => if id == i && Unsettled(r) then r' == r.(resolvedAt := Some(w.now)) else r' == r
    case _ => r' == r
  }

  /** Every step, whatever it is about and whenever its deliveries come, takes every row along its one edge of the
      diagram, or deletes it sent and old enough. */
  lemma RowDiagram(w: World, step: Step, i: Id, cfg: Config)
    requires Tallied(w) && Enabled(w, step) && i in w.rows && i < w.nextId
    ensures var w' := Apply(w, step, cfg);
            if step.Retain? && i in step.victims
            then SentBefore(w.rows[i], step.cutoff) && i !in w'.rows && i in w'.gone && w'.gone[i] == w.rows[i]
            else i in w'.rows && Edge(w, w'.rows[i], step, i, cfg)
  {
    match step
    case Claim(locked, owner) => ClaimEdges(w.rows, locked, owner, w.now, cfg, i);
    case Deliver(t, o) => if t.row == i { DeliveryEdge(w.rows[i], o, w.now, cfg.maxAttempts); }
    case _ =>
  }

  /** A row appears by being enqueued under a key nobody has: waiting, due at once, with nothing tried yet. */
  lemma NewRowIs(w: World, step: Step, i: Id, cfg: Config)
    requires Tallied(w) && i !in w.rows
    ensures var w' := Apply(w, step, cfg);
            && (i in w'.rows <==> step.Enqueue? && i == w.nextId && forall j | j in w.rows :: w.rows[j].key != step.key)
            && (i in w'.rows ==>
                  && w'.rows[i] == Row(step.kind, step.key, step.link, Pending, 0, None, None, w.now, None, None, None,
                                       None)
                  && w'.nextId == i + 1)
  {
  }

  /** A claim hands out one ticket for each row whose turn it is and which may run; deliveries and losses take
      theirs back. */
  lemma TicketsAre(w: World, step: Step, t: Ticket, cfg: Config)
    requires Tallied(w)
    ensures t in Apply(w, step, cfg).tickets <==>
              match step
              case Claim(locked, owner) =>
                t in w.tickets
                || (&& t.owner == owner && t.until == w.now + cfg.leaseSeconds
                    && HasTurn(w.rows, locked, w.now, cfg.batchSize, t.row) && Handed(w.rows[t.row], cfg.maxAttempts))
              case Deliver(u, _) => t in w.tickets && t != u
              case Abandon(u) => t in w.tickets && t != u
              case _ => t in w.tickets
  {
    if step.Claim? {
      ClaimedWhen(w.rows, step.locked, w.now, cfg, t.row);
      if t.row in w.rows {
        ClaimEdges(w.rows, step.locked, step.owner, w.now, cfg, t.row);
      }
    }
  }

  lemma ClaimKeepsSends(w: World, step: Step, i: Id, cfg: Config)
    requires Tallied(w) && step.Claim? && i in w.rows
    ensures var c, c' := w.tally[i], Apply(w, step, cfg).tally[i]; c'.sends == c.sends && c'.risky == c.risky
    ensures Apply(w, step, cfg).rows[i].kind == w.rows[i].kind
  {
    var w' := Apply(w, step, cfg);
    ClaimHasEffect(w, step.locked, step.owner, cfg);
    assert ClaimedOrSame(w.rows[i], w.tally[i], w'.rows[i], w'.tally[i], step.owner, w.now, cfg);
  }

  /** Without a replay of the row, every change of status or attempts lowers its rank. */
  lemma RankDrops(w: World, step: Step, i: Id, cfg: Config)
    requires RowsOk(w, cfg) && Allowed(w, step, WhileMatching) && i in w.rows && i < w.nextId
             && i in Apply(w, step, cfg).rows
    requires RowsOk(Apply(w, step, cfg), cfg) && !(step.Replay? && step.id == i)
    ensures var r, r' := w.rows[i], Apply(w, step, cfg).rows[i];
            && 0 <= Rank(r', cfg.maxAttempts) <= Rank(r, cfg.maxAttempts) <= 2 * cfg.maxAttempts
            && ((r'.status != r.status || r'.attempts != r.attempts) ==>
                  Rank(r', cfg.maxAttempts) < Rank(r, cfg.maxAttempts))
  {
    assert RowOk(w.rows[i], w.tally[i], cfg.maxAttempts);
    RowDiagram(w, step, i, cfg);
  }

  // ----- Whole runs -----

  predicate NoReplay(steps: seq<Step>, i: Id) {
    forall k :: 0 <= k < |steps| ==> !(steps[k].Replay? && steps[k].id == i)
  }

  /** A delivery that calls Telegram for row `i`: without the row there is no call. */
  predicate SendsRow(w: World, step: Step, i: Id) {
    step.Deliver? && step.ticket.row == i && !step.outcome.LostBefore? && i in w.rows
  }

  predicate RiskySend(w: World, step: Step, i: Id) {
    SendsRow(w, step, i) && PossiblyAccepted(step.outcome)
  }

  /** Calls to Telegram made for row `i`. */
  function Sends(w: World, steps: seq<Step>, i: Id, cfg: Config): nat
    requires Tallied(w)
    decreases |steps|
  {
    if steps == [] then 0
    else (if SendsRow(w, steps[0], i) then 1 else 0) + Sends(Apply(w, steps[0], cfg), steps[1..], i, cfg)
  }

  /** Those that Telegram may have accepted. */
  function RiskySends(w: World, steps: seq<Step>, i: Id, cfg: Config): nat
    requires Tallied(w)
    decreases |steps|
  {
    if steps == [] then 0
    else (if RiskySend(w, steps[0], i) then 1 else 0) + RiskySends(Apply(w, steps[0], cfg), steps[1..], i, cfg)
  }

  /** Times the status or attempts of row `i` change. */
  function Changes(w: World, steps: seq<Step>, i: Id, cfg: Config): nat
    requires Tallied(w)
    decreases |steps|
  {
    if steps == [] then 0
    else
      var w' := Apply(w, steps[0], cfg);
      var changed := i in w.rows && i in w'.rows
                     && (w'.rows[i].status != w.rows[i].status || w'.rows[i].attempts != w.rows[i].attempts);
      (if changed then 1 else 0) + Changes(w', steps[1..], i, cfg)
  }

  /** An id whose row is gone is never handed out again, delivered or changed. */
  lemma {:induction false} GoneIsQuiet(w: World, steps: seq<Step>, i: Id, cfg: Config)
    requires Tallied(w) && IsRun(w, steps, WhileMatching, cfg) && i !in w.rows && i < w.nextId && i in w.gone
    ensures Sends(w, steps, i, cfg) == RiskySends(w, steps, i, cfg) == Changes(w, steps, i, cfg) == 0
    ensures var w' := Exec(w, steps, cfg); i !in w'.rows && i in w'.gone && w'.gone[i] == w.gone[i]
    decreases |steps|
  {
    if steps != [] {
      GoneIsQuiet(Apply(w, steps[0], cfg), steps[1..], i, cfg);
    }
  }

  lemma DeliverKeepsKind(r: Row, o: Outcome, now: int, maxAttempts: nat)
    ensures DeliverRow(r, o, now, maxAttempts).kind == r.kind
  {
  }

  lemma TallyGrows(w: World, step: Step, i: Id, cfg: Config)
    requires RowsOk(w, cfg) && Allowed(w, step, WhileMatching) && i in w.rows && i < w.nextId
             && i in Apply(w, step, cfg).rows
    requires !(step.Replay? && step.id == i)
    ensures var c, c' := w.tally[i], Apply(w, step, cfg).tally[i];
            && c'.sends == c.sends + (if SendsRow(w, step, i) then 1 else 0)
            && c'.risky == c.risky + (if RiskySend(w, step, i) then 1 else 0)
            && Apply(w, step, cfg).rows[i].kind == w.rows[i].kind
  {
    if step.Claim? {
      ClaimKeepsSends(w, step, i, cfg);
    } else if step.Deliver? && step.ticket.row == i {
      DeliverKeepsKind(w.rows[i], step.outcome, w.now, cfg.maxAttempts);
    }
  }

  lemma {:induction false} WindowBound(w: World, steps: seq<Step>, i: Id, cfg: Config)
    requires Inv(w, cfg) && cfg.maxAttempts >= 1 && IsRun(w, steps, WhileMatching, cfg)
    requires i in w.rows && NoReplay(steps, i)
    ensures Unsafe(w.rows[i].kind) ==> w.tally[i].risky + RiskySends(w, steps, i, cfg) <= 1
    ensures w.tally[i].sends + Sends(w, steps, i, cfg) <= cfg.maxAttempts
    ensures Changes(w, steps, i, cfg) <= Rank(w.rows[i], cfg.maxAttempts)
    decreases |steps|
  {
    assert RowOk(w.rows[i], w.tally[i], cfg.maxAttempts);
    if steps != [] {
      var step, rest := steps[0], steps[1..];
      var w' := Apply(w, step, cfg);
      StepKeeps(w, step, WhileMatching, cfg);
      assert NoReplay(rest, i) by { assert forall k :: 0 <= k < |rest| ==> rest[k] == steps[k + 1]; }
      assert !(step.Replay? && step.id == i);
      RowDiagram(w, step, i, cfg);
      if i in w'.rows {
        TallyGrows(w, step, i, cfg);
        RankDrops(w, step, i, cfg);
        WindowBound(w', rest, i, cfg);
      } else {
        GoneIsQuiet(w', rest, i, cfg);
      }
    }
  }

  /** The main guarantee. Cut any run of workers that deliver only while their tickets match, or only until
      their leases run out, anywhere: between two replays of a row, an ask or bargain is sent at most once in a
      way Telegram may have accepted, no row is sent more than `maxAttempts` times, and no row changes more
      than twice that. */
  lemma AtMostOneRiskySend(now: int, before: seq<Step>, window: seq<Step>, i: Id, d: Discipline, cfg: Config)
    requires cfg.maxAttempts >= 1 && !d.Anytime? && IsRun(Init(now), before + window, d, cfg)
    requires i in Exec(Init(now), before, cfg).rows && NoReplay(window, i)
    ensures var w := Exec(Init(now), before, cfg);
            && (Unsafe(w.rows[i].kind) ==> RiskySends(w, window, i, cfg) <= 1)
            && Sends(w, window, i, cfg) <= cfg.maxAttempts
            && Changes(w, window, i, cfg) <= 2 * cfg.maxAttempts
  {
    if d.WhileLeased? {
      PromptRunsMatch(Init(now), before + window, cfg);
    }
    RunSplits(Init(now), before, window, WhileMatching, cfg);
    RunKeeps(Init(now), before, WhileMatching, cfg);
    var w := Exec(Init(now), before, cfg);
    assert RowOk(w.rows[i], w.tally[i], cfg.maxAttempts);
    WindowBound(w, window, i, cfg);
  }

  /** Claims against attempts in every reachable state, by status. */
  lemma ExactAccounting(w: World, i: Id, d: Discipline, cfg: Config)
    requires cfg.maxAttempts >= 1 && !d.Anytime? && Reachable(w, d, cfg) && i in w.rows
    ensures var r, c := w.rows[i], w.tally[i];
            && (r.status == Pending ==> c.claims == r.attempts < cfg.maxAttempts)
            && (r.status == Processing ==> c.claims == r.attempts + 1 <= cfg.maxAttempts)
            && (r.status == Finished || r.status == Uncertain ==> c.claims == r.attempts + 1 <= cfg.maxAttempts)
            && (r.status == Dead ==> c.claims == r.attempts == cfg.maxAttempts)
            && c.sends <= c.claims
            && (r.status == Uncertain ==> Unsafe(r.kind))
            && (r.status == Processing <==> r.leaseOwner.Some?) && (r.status == Processing <==> r.leasedUntil.Some?)
  {
    ReachableInv(w, d, cfg);
    assert RowOk(w.rows[i], w.tally[i], cfg.maxAttempts);
  }

  /** No step loses a row or repeats a key, whenever its deliveries come. */
  lemma StepLosesNothing(w: World, step: Step, cfg: Config)
    requires Tallied(w) && KeysUnique(w) && NothingLost(w) && Enabled(w, step)
    ensures KeysUnique(Apply(w, step, cfg)) && NothingLost(Apply(w, step, cfg))
  {
    var w' := Apply(w, step, cfg);
    match step
    case Claim(locked, owner) =>
      ClaimHasEffect(w, locked, owner, cfg);
      ClaimKeepsKeys(w, w', owner, cfg);
    case Deliver(t, o) =>
      if t.row in w.rows { DeliverKeepsKey(w.rows[t.row], o, w.now, cfg.maxAttempts); }
    case Enqueue(kind, key, link) => EnqueueLosesNothing(w, kind, key, link, cfg);
    case _ =>
  }

  lemma EnqueueLosesNothing(w: World, kind: Kind, key: int, link: Option<Id>, cfg: Config)
    requires Tallied(w) && KeysUnique(w) && NothingLost(w)
    ensures var w' := Apply(w, Enqueue(kind, key, link), cfg); KeysUnique(w') && NothingLost(w')
  {
    var w' := Apply(w, Enqueue(kind, key, link), cfg);
    forall i, j | i in w'.rows && j in w'.rows && w'.rows[i].key == w'.rows[j].key ensures i == j {
      assert !KeyTaken(w.rows, key) && i in w.rows ==> w.rows[i].key != key;
      assert !KeyTaken(w.rows, key) && j in w.rows ==> w.rows[j].key != key;
    }
  }

  lemma DeliverKeepsKey(r: Row, o: Outcome, now: int, maxAttempts: nat)
    ensures DeliverRow(r, o, now, maxAttempts).key == r.key
  {
  }

  lemma {:induction false} RunLosesNothing(w: World, steps: seq<Step>, d: Discipline, cfg: Config)
    requires Tallied(w) && KeysUnique(w) && NothingLost(w) && IsRun(w, steps, d, cfg)
    ensures KeysUnique(Exec(w, steps, cfg)) && NothingLost(Exec(w, steps, cfg))
    decreases |steps|
  {
    if steps != [] {
      StepLosesNothing(w, steps[0], cfg);
      RunLosesNothing(Apply(w, steps[0], cfg), steps[1..], d, cfg);
    }
  }

  /** Every id ever handed out names a row that is still there, or one that retention deleted as `Finished`; and no
      key is queued twice. Late deliveries change nothing about that. */
  lemma NoMessageLost(w: World, i: Id, d: Discipline, cfg: Config)
    requires Reachable(w, d, cfg) && i < w.nextId
    ensures i in w.rows || (i in w.gone && w.gone[i].status == Finished)
    ensures i in w.rows ==> forall j | j in w.rows && w.rows[j].key == w.rows[i].key :: j == i
  {
    var now: int, steps: seq<Step> :| IsRun(Init(now), steps, d, cfg) && w == Exec(Init(now), steps, cfg);
    RunLosesNothing(Init(now), steps, d, cfg);
  }

  lemma TerminalStep(w: World, step: Step, i: Id, cfg: Config)
    requires RowsOk(w, cfg) && Allowed(w, step, WhileMatching) && i in w.rows && i < w.nextId
    requires var r := w.rows[i];
             r.status == Finished || r.resolvedAt.Some? || (OpenFailure(r) && !(step.Replay? && step.id == i))
    ensures var r, w' := w.rows[i], Apply(w, step, cfg);
            if i in w'.rows then
              w'.rows[i] == r || (OpenFailure(r) && w'.rows[i] == r.(resolvedAt := w'.rows[i].resolvedAt))
            else r.status == Finished && i in w'.gone && w'.gone[i] == r
  {
    assert RowOk(w.rows[i], w.tally[i], cfg.maxAttempts);
    RowDiagram(w, step, i, cfg);
  }

  /** For workers that deliver only on matching tickets: finished and resolved rows never change again, except
      that retention may delete a finished one, and an unresolved dead or uncertain row leaves its status only
      by a replay. */
  lemma {:induction false} TerminalStays(w: World, steps: seq<Step>, i: Id, cfg: Config)
    requires Inv(w, cfg) && cfg.maxAttempts >= 1 && IsRun(w, steps, WhileMatching, cfg) && i in w.rows
    requires var r := w.rows[i]; r.status == Finished || r.resolvedAt.Some? || (OpenFailure(r) && NoReplay(steps, i))
    ensures var r, w' := w.rows[i], Exec(w, steps, cfg);
            && (r.status == Finished ==>
                  if i in w'.rows then w'.rows[i] == r else i in w'.gone && w'.gone[i] == r)
            && (r.resolvedAt.Some? ==> i in w'.rows && w'.rows[i] == r)
            && (OpenFailure(r) ==> i in w'.rows && w'.rows[i] == r.(resolvedAt := w'.rows[i].resolvedAt))
    decreases |steps|
  {
    if steps != [] {
      var step, rest := steps[0], steps[1..];
      var w' := Apply(w, step, cfg);
      assert RowOk(w.rows[i], w.tally[i], cfg.maxAttempts);
      assert NoReplay(steps, i) ==> NoReplay(rest, i) && !(step.Replay? && step.id == i) by {
        assert forall k :: 0 <= k < |rest| ==> rest[k] == steps[k + 1];
      }
      StepKeeps(w, step, WhileMatching, cfg);
      TerminalStep(w, step, i, cfg);
      if i in w'.rows {
        TerminalStays(w', rest, i, cfg);
      } else {
        GoneIsQuiet(w', rest, i, cfg);
      }
    }
  }
}
