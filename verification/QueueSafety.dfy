/** What every run of the leased queue keeps. */
module QueueSafety {
  import opened Wrappers
  import opened LeaseQueue

  /** A ticket still matches its row: the check the delivering code could make and does not. */
  predicate Holds(r: Row, t: Ticket) {
    r.status == Processing && r.leaseOwner == Some(t.owner) && r.leasedUntil == Some(t.until)
  }

  predicate Matches(rows: map<Id, Row>, t: Ticket) {
    t.row in rows && Holds(rows[t.row], t)
  }

  /** Exact accounting of claims against attempts, by status. */
  predicate Accounted(r: Row, c: Tally, maxAttempts: nat) {
    match r.status
    case Pending => c.claims == r.attempts < maxAttempts && c.sends <= c.claims
    case Processing => c.claims == r.attempts + 1 <= maxAttempts && c.sends <= c.claims
    case Finished => c.claims == r.attempts + 1 <= maxAttempts && c.sends <= c.claims
    case Uncertain => c.claims == r.attempts + 1 <= maxAttempts && c.sends <= c.claims && Unsafe(r.kind)
    case Dead => c.claims == r.attempts == maxAttempts && c.sends <= c.claims
  }

  predicate LeaseFields(r: Row) {
    && (r.leaseOwner.Some? <==> r.status == Processing)
    && (r.leasedUntil.Some? <==> r.status == Processing)
    && (r.resolvedAt.Some? ==> r.status == Dead || r.status == Uncertain)
    && (r.status == Finished ==> r.finishedAt.Some?)
  }

  /** At most one send that Telegram may have accepted, and none before the row can be sent again. */
  predicate RiskBounded(r: Row, c: Tally) {
    Unsafe(r.kind) ==>
      && c.risky <= 1
      && (r.status == Pending || r.status == Dead ==> c.risky == 0)
  }

  /** How many more transitions the row can make without a replay. */
  function Rank(r: Row, maxAttempts: nat): int {
    match r.status
    case Pending => 2 * (maxAttempts - r.attempts)
    case Processing => 2 * (maxAttempts - r.attempts) - 1
    case _ => 0
  }

  predicate RowOk(r: Row, c: Tally, maxAttempts: nat) {
    && Accounted(r, c, maxAttempts)
    && LeaseFields(r)
    && RiskBounded(r, c)
    && c.moves + Rank(r, maxAttempts) <= 2 * maxAttempts
  }

  /** A ticket that matches its row still has its send to spend. */
  predicate Unspent(r: Row, c: Tally) {
    c.sends < c.claims && (Unsafe(r.kind) ==> c.risky == 0)
  }

  ghost predicate RowsOk(w: World, cfg: Config) {
    && Tallied(w)
    && forall i | i in w.rows :: RowOk(w.rows[i], w.tally[i], cfg.maxAttempts)
  }

  ghost predicate TicketsOk(w: World) {
    && Tallied(w)
    && (forall t | t in w.tickets && Matches(w.rows, t) :: Unspent(w.rows[t.row], w.tally[t.row]))
    && (forall t | t in w.tickets && w.now <= t.until :: Matches(w.rows, t))
  }

  ghost predicate KeysUnique(w: World) {
    forall i, j | i in w.rows && j in w.rows && w.rows[i].key == w.rows[j].key :: i == j
  }

  ghost predicate NothingLost(w: World) {
    && (forall i: Id :: i < w.nextId <==> i in w.rows || i in w.gone)
    && (forall i | i in w.gone :: i !in w.rows && w.gone[i].status == Finished)
  }

  ghost predicate Inv(w: World, cfg: Config) {
    RowsOk(w, cfg) && TicketsOk(w) && KeysUnique(w) && NothingLost(w)
  }

  // ----- Runs -----

  /** When a worker may deliver: always, only while its ticket matches the row, or only while its
      lease has not run out. */
  datatype Discipline = Anytime | WhileMatching | WhileLeased

  ghost predicate Allowed(w: World, step: Step, d: Discipline) {
    && Enabled(w, step)
    && (step.Deliver? ==>
          match d
          case Anytime => true
          case WhileMatching => Matches(w.rows, step.ticket)
          case WhileLeased => w.now <= step.ticket.until)
  }

  ghost predicate IsRun(w: World, steps: seq<Step>, d: Discipline, cfg: Config)
    requires Tallied(w)
    decreases |steps|
  {
    steps == [] || (Allowed(w, steps[0], d) && IsRun(Apply(w, steps[0], cfg), steps[1..], d, cfg))
  }

  function Exec(w: World, steps: seq<Step>, cfg: Config): (w': World)
    requires Tallied(w)
    ensures Tallied(w')
    decreases |steps|
  {
    if steps == [] then w else Exec(Apply(w, steps[0], cfg), steps[1..], cfg)
  }

  // ----- Each step keeps the invariant -----

  lemma ClaimedRowOk(r: Row, c: Tally, owner: string, now: int, cfg: Config)
    requires RowOk(r, c, cfg.maxAttempts) && Claimable(r, now)
    ensures var kept := Kept(r, cfg.maxAttempts);
            var c' := c.(claims := if kept then c.claims + 1 else c.claims, moves := c.moves + 1);
            var r' := ClaimRow(r, owner, now, cfg);
            && RowOk(r', c', cfg.maxAttempts)
            && (kept <==> r'.status == Processing)
            && (kept ==>
                  Unspent(r', c') && r'.leaseOwner == Some(owner) && r'.leasedUntil == Some(now + cfg.leaseSeconds))
  {
  }

  lemma DeliveredRowOk(r: Row, c: Tally, o: Outcome, now: int, maxAttempts: nat)
    requires RowOk(r, c, maxAttempts) && r.status == Processing && Unspent(r, c)
    ensures RowOk(DeliverRow(r, o, now, maxAttempts), DeliverTally(c, o), maxAttempts)
    ensures var r' := DeliverRow(r, o, now, maxAttempts); r' == r || r'.status != Processing
  {
  }

  /** One row across a claim: left alone, or claimable and claimed. */
  predicate ClaimedOrSame(r: Row, c: Tally, r': Row, c': Tally, owner: string, now: int, cfg: Config) {
    || (r' == r && c' == c)
    || (&& Claimable(r, now)
        && r' == ClaimRow(r, owner, now, cfg)
        && c' == c.(claims := if Kept(r, cfg.maxAttempts) then c.claims + 1 else c.claims, moves := c.moves + 1))
  }

  /** One ticket after a claim: it was there before, or it is for a row the claim just leased. */
  predicate OldOrLeased(w: World, w': World, t: Ticket, owner: string, cfg: Config) {
    || t in w.tickets
    || (&& t == Ticket(t.row, owner, w.now + cfg.leaseSeconds)
        && t.row in w.rows && Claimable(w.rows[t.row], w.now) && Kept(w.rows[t.row], cfg.maxAttempts)
        && t.row in w'.rows && w'.rows[t.row] == ClaimRow(w.rows[t.row], owner, w.now, cfg))
  }

  ghost predicate ClaimEffect(w: World, w': World, owner: string, cfg: Config) {
    && Tallied(w) && Tallied(w')
    && w'.now == w.now && w'.nextId == w.nextId && w'.gone == w.gone && w'.rows.Keys == w.rows.Keys
    && (forall i | i in w.rows ::
          ClaimedOrSame(w.rows[i], w.tally[i], w'.rows[i], w'.tally[i], owner, w.now, cfg))
    && (forall t | t in w'.tickets :: OldOrLeased(w, w', t, owner, cfg))
  }

  lemma ClaimHasEffect(w: World, locked: set<Id>, owner: string, cfg: Config)
    requires Tallied(w)
    ensures ClaimEffect(w, Apply(w, Claim(locked, owner), cfg), owner, cfg)
  {
    var ids := ClaimIds(w.rows, locked, w.now, cfg);
    var w' := Apply(w, Claim(locked, owner), cfg);
    forall i | i in ids ensures i in w.rows && Claimable(w.rows[i], w.now) {
      assert i in ClaimSet(w.rows, locked, w.now);
    }
  }

  lemma ClaimKeepsRows(w: World, w': World, owner: string, cfg: Config)
    requires RowsOk(w, cfg) && ClaimEffect(w, w', owner, cfg)
    ensures RowsOk(w', cfg)
  {
    forall i | i in w'.rows ensures RowOk(w'.rows[i], w'.tally[i], cfg.maxAttempts) {
      if w'.rows[i] != w.rows[i] || w'.tally[i] != w.tally[i] {
        ClaimedRowOk(w.rows[i], w.tally[i], owner, w.now, cfg);
      }
    }
  }

  lemma ClaimedTicketOk(r: Row, c: Tally, r': Row, c': Tally, t: Ticket, leased: bool,
                          owner: string, now: int, cfg: Config)
    requires RowOk(r, c, cfg.maxAttempts) && ClaimedOrSame(r, c, r', c', owner, now, cfg)
    requires !leased ==> (Holds(r, t) ==> Unspent(r, c)) && (now <= t.until ==> Holds(r, t))
    requires leased ==> Claimable(r, now) && Kept(r, cfg.maxAttempts) && r' == ClaimRow(r, owner, now, cfg)
    requires leased ==> t.owner == owner && t.until == now + cfg.leaseSeconds
    ensures Holds(r', t) ==> Unspent(r', c')
    ensures now <= t.until ==> Holds(r', t)
  {
    if Claimable(r, now) {
      ClaimedRowOk(r, c, owner, now, cfg);
    }
  }

  lemma ClaimKeepsTicket(w: World, w': World, t: Ticket, owner: string, cfg: Config)
    requires RowsOk(w, cfg) && TicketsOk(w) && ClaimEffect(w, w', owner, cfg) && t in w'.tickets
    ensures Matches(w'.rows, t) ==> Unspent(w'.rows[t.row], w'.tally[t.row])
    ensures w'.now <= t.until ==> Matches(w'.rows, t)
  {
    assert OldOrLeased(w, w', t, owner, cfg);
    assert t in w.tickets && w.now <= t.until ==> Matches(w.rows, t);
    if t.row in w.rows {
      assert ClaimedOrSame(w.rows[t.row], w.tally[t.row], w'.rows[t.row], w'.tally[t.row], owner, w.now, cfg);
      ClaimedTicketOk(w.rows[t.row], w.tally[t.row], w'.rows[t.row], w'.tally[t.row],
                      t, t !in w.tickets, owner, w.now, cfg);
    }
  }

  lemma ClaimKeeps(w: World, locked: set<Id>, owner: string, cfg: Config)
    requires Inv(w, cfg)
    ensures Inv(Apply(w, Claim(locked, owner), cfg), cfg)
  {
    var w' := Apply(w, Claim(locked, owner), cfg);
    ClaimHasEffect(w, locked, owner, cfg);
    ClaimKeepsRows(w, w', owner, cfg);
    forall t | t in w'.tickets
      ensures Matches(w'.rows, t) ==> Unspent(w'.rows[t.row], w'.tally[t.row])
      ensures w'.now <= t.until ==> Matches(w'.rows, t)
    {
      ClaimKeepsTicket(w, w', t, owner, cfg);
    }
    ClaimKeepsKeys(w, w', owner, cfg);
  }

  lemma ClaimKeepsKeys(w: World, w': World, owner: string, cfg: Config)
    requires KeysUnique(w) && NothingLost(w) && ClaimEffect(w, w', owner, cfg)
    ensures KeysUnique(w') && NothingLost(w')
  {
    forall i | i in w'.rows ensures w'.rows[i].key == w.rows[i].key {
      assert ClaimedOrSame(w.rows[i], w.tally[i], w'.rows[i], w'.tally[i], owner, w.now, cfg);
    }
  }

  lemma RewriteKeepsRows(w: World, w': World, id: Id, cfg: Config)
    requires RowsOk(w, cfg) && Tallied(w') && id in w.rows && id in w'.rows
    requires w'.rows == w.rows[id := w'.rows[id]] && w'.tally == w.tally[id := w'.tally[id]]
    requires RowOk(w'.rows[id], w'.tally[id], cfg.maxAttempts)
    ensures RowsOk(w', cfg)
  {
  }

  /** A step that rewrites one row keeps the keys and loses nothing. */
  lemma RewriteKeeps(w: World, w': World, id: Id, cfg: Config)
    requires Inv(w, cfg) && id in w.rows
    requires w'.rows.Keys == w.rows.Keys && w'.gone == w.gone && w'.nextId == w.nextId
    requires w'.rows == w.rows[id := w'.rows[id]] && w'.rows[id].key == w.rows[id].key
    ensures KeysUnique(w') && NothingLost(w')
  {
  }

  lemma DeliverKeepsTickets(w: World, w': World, t: Ticket)
    requires TicketsOk(w) && Tallied(w') && t in w.tickets && Matches(w.rows, t)
    requires w'.now == w.now && w'.tickets == w.tickets - {t} && t.row in w'.rows
    requires w'.rows == w.rows[t.row := w'.rows[t.row]] && w'.tally == w.tally[t.row := w'.tally[t.row]]
    requires w'.rows[t.row] == w.rows[t.row] || w'.rows[t.row].status != Processing
    ensures TicketsOk(w')
  {
    forall u | u in w'.tickets
      ensures Matches(w'.rows, u) ==> Unspent(w'.rows[u.row], w'.tally[u.row])
      ensures w'.now <= u.until ==> Matches(w'.rows, u)
    {
      assert u.row == t.row && Matches(w.rows, u) ==> u == t;
    }
  }

  lemma DeliverKeeps(w: World, t: Ticket, o: Outcome, cfg: Config)
    requires Inv(w, cfg) && t in w.tickets && Matches(w.rows, t)
    ensures Inv(Apply(w, Deliver(t, o), cfg), cfg)
  {
    var w' := Apply(w, Deliver(t, o), cfg);
    DeliveredRowOk(w.rows[t.row], w.tally[t.row], o, w.now, cfg.maxAttempts);
    RewriteKeeps(w, w', t.row, cfg);
    RewriteKeepsRows(w, w', t.row, cfg);
    DeliverKeepsTickets(w, w', t);
  }

  lemma ReplayKeeps(w: World, id: Id, confirmed: bool, cfg: Config)
    requires Inv(w, cfg) && cfg.maxAttempts >= 1
    ensures Inv(Apply(w, Replay(id, confirmed), cfg), cfg)
  {
    if id in w.rows && Replayable(w.rows[id], confirmed) {
      var w' := Apply(w, Replay(id, confirmed), cfg);
      ReplayedRowOk(w.rows[id], w.tally[id], w.now, cfg.maxAttempts);
      RewriteKeeps(w, w', id, cfg);
      RewriteKeepsRows(w, w', id, cfg);
      TicketsElsewhere(w, w', id);
    }
  }

  lemma ReplayedRowOk(r: Row, c: Tally, now: int, maxAttempts: nat)
    requires RowOk(r, c, maxAttempts) && OpenFailure(r) && maxAttempts >= 1
    ensures RowOk(ReplayRow(r, now), Tally(0, 0, 0, 0), maxAttempts)
  {
  }

  lemma ResolvedRowOk(r: Row, c: Tally, now: int, maxAttempts: nat)
    requires RowOk(r, c, maxAttempts) && OpenFailure(r)
    ensures RowOk(r.(resolvedAt := Some(now)), c, maxAttempts)
  {
  }

  lemma ResolveKeeps(w: World, id: Id, cfg: Config)
    requires Inv(w, cfg)
    ensures Inv(Apply(w, Resolve(id), cfg), cfg)
  {
    if id in w.rows && OpenFailure(w.rows[id]) {
      var w' := Apply(w, Resolve(id), cfg);
      ResolvedRowOk(w.rows[id], w.tally[id], w.now, cfg.maxAttempts);
      RewriteKeeps(w, w', id, cfg);
      RewriteKeepsRows(w, w', id, cfg);
      TicketsElsewhere(w, w', id);
    }
  }

  /** Rewriting a row that is not being processed does not touch any matching ticket. */
  lemma TicketsElsewhere(w: World, w': World, id: Id)
    requires TicketsOk(w) && Tallied(w') && id in w.rows
    requires w.rows[id].status != Processing && id in w'.rows && w'.rows[id].status != Processing
    requires w'.now == w.now && w'.tickets == w.tickets
    requires w'.rows == w.rows[id := w'.rows[id]] && w'.tally == w.tally[id := w'.tally[id]]
    ensures TicketsOk(w')
  {
    forall t | t in w'.tickets
      ensures Matches(w'.rows, t) ==> Unspent(w'.rows[t.row], w'.tally[t.row])
      ensures w'.now <= t.until ==> Matches(w'.rows, t)
    {
      assert Matches(w'.rows, t) <==> Matches(w.rows, t);
    }
  }

  lemma RetainKeeps(w: World, victims: set<Id>, cutoff: int, cfg: Config)
    requires Inv(w, cfg) && Enabled(w, Retain(victims, cutoff))
    ensures Inv(Apply(w, Retain(victims, cutoff), cfg), cfg)
  {
  }

  lemma EnqueueKeeps(w: World, kind: Kind, key: int, link: Option<Id>, cfg: Config)
    requires Inv(w, cfg) && cfg.maxAttempts >= 1
    ensures Inv(Apply(w, Enqueue(kind, key, link), cfg), cfg)
  {
    if !KeyTaken(w.rows, key) {
      var w' := Apply(w, Enqueue(kind, key, link), cfg);
      assert w.nextId !in w.rows && w.nextId !in w.gone;
      assert RowOk(w'.rows[w.nextId], w'.tally[w.nextId], cfg.maxAttempts);
      assert RowsOk(w', cfg);
      forall t | t in w'.tickets ensures Matches(w'.rows, t) <==> Matches(w.rows, t) {}
      assert TicketsOk(w');
      forall i, j | i in w'.rows && j in w'.rows && w'.rows[i].key == w'.rows[j].key ensures i == j {
        assert i in w.rows ==> w.rows[i].key != key;
        assert j in w.rows ==> w.rows[j].key != key;
      }
    }
  }

  lemma StepKeeps(w: World, step: Step, d: Discipline, cfg: Config)
    requires Inv(w, cfg) && cfg.maxAttempts >= 1 && Allowed(w, step, d) && !d.Anytime?
    ensures Inv(Apply(w, step, cfg), cfg)
  {
    match step
    case Tick(n) =>
    case Enqueue(kind, key, link) => EnqueueKeeps(w, kind, key, link, cfg);
    case Claim(locked, owner) => ClaimKeeps(w, locked, owner, cfg);
    case Deliver(t, o) => DeliverKeeps(w, t, o, cfg);
    case Abandon(t) =>
    case Replay(id, confirmed) => ReplayKeeps(w, id, confirmed, cfg);
    case Resolve(id) => ResolveKeeps(w, id, cfg);
    case Retain(victims, cutoff) => RetainKeeps(w, victims, cutoff, cfg);
  }

  lemma {:induction false} RunKeeps(w: World, steps: seq<Step>, d: Discipline, cfg: Config)
    requires Inv(w, cfg) && cfg.maxAttempts >= 1 && !d.Anytime? && IsRun(w, steps, d, cfg)
    ensures Inv(Exec(w, steps, cfg), cfg)
    decreases |steps|
  {
    if steps != [] {
      StepKeeps(w, steps[0], d, cfg);
      RunKeeps(Apply(w, steps[0], cfg), steps[1..], d, cfg);
    }
  }
}
