/** Rows of the two database-backed queues (webhook inbox and Telegram outbox) and what the
    claim, the delivery, the lease expiry and the operator do to one row, followed by the
    queue as a state machine over whole tables.

    `Finished` is `done` in the inbox and `sent` in the outbox; an inbox row has kind `Update`. */
module LeaseQueue {
  import opened Wrappers
  import opened Texts

  type Id = nat

  datatype Status = Pending | Processing | Finished | Dead | Uncertain

  datatype Kind = Ask | Bargain | Recheck | ClientPrice | Update

  datatype Row = Row(
    kind: Kind,
    key: int,                       // unique dedupe key or Telegram update id, compared only for equality
    link: Option<Id>,               // message_out_id
    status: Status,
    attempts: nat,
    leaseOwner: Option<string>,
    leasedUntil: Option<int>,
    nextAttemptAt: int,
    lastError: Option<string>,
    messageId: Option<int>,
    finishedAt: Option<int>,        // sent_at or processed_at
    resolvedAt: Option<int>)

  datatype Config = Config(maxAttempts: nat, leaseSeconds: nat, batchSize: nat)

  /** How one delivery can end: Telegram took the message, Telegram answered with an error, or the
      worker was lost before or after the call without recording anything. */
  datatype Outcome = Accepted(messageId: Option<int>) | Refused(error: string) | LostBefore | LostAfter

  // ----- Error texts -----

  const UNCERTAIN_MARKERS: seq<string> :=
    ["business_peer_usage_missing", "recently", "timeout", "timed out"]

  predicate HasUncertainMarker(error: string) {
    exists k :: 0 <= k < |UNCERTAIN_MARKERS| && Contains(Lower(error), UNCERTAIN_MARKERS[k])
  }

  /** Kinds whose blind resend could ask a supplier the same thing twice. */
  predicate Unsafe(kind: Kind) {
    kind == Ask || kind == Bargain
  }

  predicate IsUncertainDelivery(kind: Kind, error: string) {
    Unsafe(kind) && HasUncertainMarker(error)
  }

  predicate PossiblyAccepted(o: Outcome) {
    o.Accepted? || o.LostAfter? || (o.Refused? && HasUncertainMarker(o.error))
  }

  /** A timed-out ask or bargain is uncertain however the marker is spelled and whatever surrounds it. */
  lemma MarkerAnywhere(kind: Kind, before: string, marker: string, after: string, k: nat)
    requires k < |UNCERTAIN_MARKERS| && Lower(marker) == UNCERTAIN_MARKERS[k]
    ensures IsUncertainDelivery(kind, before + marker + after) <==> Unsafe(kind)
  {
    LowerAround(before, marker, after);
    ContainsAround(Lower(before), Lower(marker), Lower(after));
  }

  function Pow2(n: nat): (p: nat)
    ensures p >= 1
  {
    if n == 0 then 1 else 2 * Pow2(n - 1)
  }

  function BackoffSeconds(attempts: nat): nat {
    var p := Pow2(if attempts < 8 then attempts else 8);
    if p < 300 then p else 300
  }

  /** The delay doubles with each of the first eight attempts and then stays at 256 seconds: the cap of 300 is
      never reached. */
  lemma BackoffDoubles(attempts: nat)
    ensures BackoffSeconds(attempts + 1) ==
            if attempts < 8 then 2 * BackoffSeconds(attempts) else BackoffSeconds(attempts)
    ensures 1 <= BackoffSeconds(attempts) <= 256
    ensures BackoffSeconds(0) == 1 && (attempts >= 8 ==> BackoffSeconds(attempts) == 256)
  {
    assert Pow2(8) == 256;
    var n := if attempts < 8 then attempts else 8;
    for k := n to 8
      invariant Pow2(n) <= Pow2(k) <= Pow2(8)
    {
    }
  }

  // ----- One row -----

  function NewRow(kind: Kind, key: int, link: Option<Id>, now: int): Row {
    Row(kind, key, link, Pending, 0, None, None, now, None, None, None, None)
  }

  /** The `where` clause of the claim query. */
  predicate Claimable(row: Row, now: int) {
    || (&& row.status == Pending && row.nextAttemptAt <= now
        && (row.leasedUntil.None? || row.leasedUntil.value < now))
    || (row.status == Processing && row.leasedUntil.Some? && row.leasedUntil.value < now)
  }

  /** What the expiry handler makes of a row whose lease ran out. It stays `Processing` only when the
      row may run again. */
  function ExpireRow(row: Row, maxAttempts: nat): Row {
    if Unsafe(row.kind) then
      row.(status := Uncertain, lastError := Some("lease_expired"), leaseOwner := None, leasedUntil := None)
    else
      var r := row.(attempts := row.attempts + 1, lastError := Some("lease_expired"));
      if r.attempts >= maxAttempts then r.(status := Dead, leaseOwner := None, leasedUntil := None) else r
  }

  predicate Kept(row: Row, maxAttempts: nat) {
    row.status == Processing ==> ExpireRow(row, maxAttempts).status == Processing
  }

  function ClaimRow(row: Row, owner: string, now: int, cfg: Config): Row {
    var r := if row.status == Processing then ExpireRow(row, cfg.maxAttempts) else row;
    if Kept(row, cfg.maxAttempts) then
      r.(status := Processing, leaseOwner := Some(owner), leasedUntil := Some(now + cfg.leaseSeconds))
    else r
  }

  /** One attempt used up: back to `Pending` with a delay, or `Dead`. */
  function FailRow(row: Row, error: string, now: int, maxAttempts: nat): Row {
    var r := row.(attempts := row.attempts + 1, lastError := Some(error), leaseOwner := None, leasedUntil := None);
    if r.attempts >= maxAttempts then r.(status := Dead)
    else r.(status := Pending, nextAttemptAt := now + BackoffSeconds(r.attempts))
  }

  function FinishRow(row: Row, messageId: Option<int>, now: int): Row {
    row.(status := Finished, messageId := messageId, finishedAt := Some(now), leaseOwner := None, leasedUntil := None)
  }

  function DeliverRow(row: Row, o: Outcome, now: int, maxAttempts: nat): Row {
    match o
    case Accepted(m) => FinishRow(row, m, now)
    case Refused(e) =>
      if IsUncertainDelivery(row.kind, e) then
        row.(status := Uncertain, lastError := Some(e), leaseOwner := None, leasedUntil := None)
      else
        FailRow(row, e, now, maxAttempts)
    case LostBefore => row
    case LostAfter => row
  }

  predicate OpenFailure(row: Row) {
    (row.status == Dead || row.status == Uncertain) && row.resolvedAt.None?
  }

  /** An uncertain ask or bargain is replayed only when the operator confirms. */
  predicate Replayable(row: Row, confirmed: bool) {
    OpenFailure(row) && (row.status == Uncertain && Unsafe(row.kind) ==> confirmed)
  }

  function ReplayRow(row: Row, now: int): Row {
    row.(status := Pending, attempts := 0, leaseOwner := None, leasedUntil := None,
         nextAttemptAt := now, lastError := None)
  }

  predicate Removable(row: Row, cutoff: int) {
    row.status == Finished && row.finishedAt.Some? && row.finishedAt.value < cutoff
  }

  // ----- The lowest ids, up to a limit -----

  predicate IsLeast(m: nat, s: set<nat>) {
    m in s && forall x | x in s :: m <= x
  }

  lemma LeastExists(s: set<nat>) returns (m: nat)
    requires s != {}
    ensures IsLeast(m, s)
  {
    m :| m in s;
    var rest := s - {m};
    assert forall x | x in s :: x == m || x in rest;
    if rest != {} {
      var n := LeastExists(rest);
      if n < m { m := n; }
    }
  }

  function Least(s: set<nat>): (m: nat)
    requires s != {}
    ensures m in s && forall x | x in s :: m <= x
  {
    assert exists m :: IsLeast(m, s) by { var m := LeastExists(s); }
    var m :| IsLeast(m, s);
    m
  }

  predicate Ascending(ids: seq<nat>) {
    forall i, j :: 0 <= i < j < |ids| ==> ids[i] < ids[j]
  }

  /** The `n` lowest members of `s`, in order: everything left out is larger than everything taken, and
      nothing is left out while there is room. */
  function LowestIds(s: set<nat>, n: nat): (ids: seq<nat>)
    ensures Ascending(ids) && |ids| <= n
    ensures forall x | x in ids :: x in s
    ensures forall x | x in s && x !in ids :: |ids| == n && forall y | y in ids :: y < x
    decreases n
  {
    if n == 0 || s == {} then []
    else
      var m := Least(s);
      [m] + LowestIds(s - {m}, n - 1)
  }

  // ----- The table as a state machine -----

  /** A worker's in-memory note that it claimed `row` and has not delivered it yet. Nothing in the
      delivering code compares it with the row again. */
  datatype Ticket = Ticket(row: Id, owner: string, until: int)

  /** History since the row was enqueued or last replayed. */
  datatype Tally = Tally(claims: nat, sends: nat, risky: nat, moves: nat)

  datatype World = World(
    now: int,
    nextId: Id,
    rows: map<Id, Row>,
    tickets: set<Ticket>,
    tally: map<Id, Tally>,
    gone: map<Id, Row>)             // rows retention deleted, as they were

  datatype Step =
    | Tick(d: nat)
    | Enqueue(kind: Kind, key: int, link: Option<Id>)
    | Claim(locked: set<Id>, owner: string)
    | Deliver(ticket: Ticket, outcome: Outcome)
    | Abandon(ticket: Ticket)
    | Replay(id: Id, confirmed: bool)
    | Resolve(id: Id)
    | Retain(victims: set<Id>, cutoff: int)

  function Init(now: int): World {
    World(now, 0, map[], {}, map[], map[])
  }

  predicate KeyTaken(rows: map<Id, Row>, key: int) {
    exists i :: i in rows && rows[i].key == key
  }

  /** Rows the claim query may return; rows locked by concurrent claims are skipped. */
  function ClaimSet(rows: map<Id, Row>, locked: set<Id>, now: int): set<Id> {
    set i | i in rows && i !in locked && Claimable(rows[i], now)
  }

  function ClaimIds(rows: map<Id, Row>, locked: set<Id>, now: int, cfg: Config): seq<Id> {
    LowestIds(ClaimSet(rows, locked, now), cfg.batchSize)
  }

  function ClaimRows(rows: map<Id, Row>, ids: seq<Id>, owner: string, now: int, cfg: Config): map<Id, Row> {
    map i | i in rows :: if i in ids then ClaimRow(rows[i], owner, now, cfg) else rows[i]
  }

  function NewTickets(rows: map<Id, Row>, ids: seq<Id>, owner: string, now: int, cfg: Config): set<Ticket> {
    set i | i in ids && i in rows && Kept(rows[i], cfg.maxAttempts) :: Ticket(i, owner, now + cfg.leaseSeconds)
  }

  function ClaimTally(w: World, ids: seq<Id>, cfg: Config): map<Id, Tally> {
    map i | i in w.tally ::
      var t := w.tally[i];
      if i in ids && i in w.rows then
        t.(claims := if Kept(w.rows[i], cfg.maxAttempts) then t.claims + 1 else t.claims, moves := t.moves + 1)
      else t
  }

  function DeliverTally(t: Tally, o: Outcome): Tally {
    Tally(t.claims,
          if o.LostBefore? then t.sends else t.sends + 1,
          if PossiblyAccepted(o) then t.risky + 1 else t.risky,
          if o.LostBefore? || o.LostAfter? then t.moves else t.moves + 1)
  }

  predicate Enabled(w: World, step: Step) {
    match step
    case Deliver(t, _) => t in w.tickets
    case Abandon(t) => t in w.tickets
    case Retain(victims, cutoff) => forall i | i in victims :: i in w.rows && Removable(w.rows[i], cutoff)
    case _ => true
  }

  ghost predicate Tallied(w: World) {
    w.rows.Keys == w.tally.Keys
  }

  function Apply(w: World, step: Step, cfg: Config): (w': World)
    requires Tallied(w)
    ensures Tallied(w')
  {
    match step
    case Tick(d) => w.(now := w.now + d)
    case Enqueue(kind, key, link) =>
      if KeyTaken(w.rows, key) then w
      else
        w.(nextId := w.nextId + 1,
           rows := w.rows[w.nextId := NewRow(kind, key, link, w.now)],
           tally := w.tally[w.nextId := Tally(0, 0, 0, 0)])
    case Claim(locked, owner) =>
      var ids := ClaimIds(w.rows, locked, w.now, cfg);
      w.(rows := ClaimRows(w.rows, ids, owner, w.now, cfg),
         tickets := w.tickets + NewTickets(w.rows, ids, owner, w.now, cfg),
         tally := ClaimTally(w, ids, cfg))
    case Deliver(t, o) =>
      if t.row in w.rows then
        w.(rows := w.rows[t.row := DeliverRow(w.rows[t.row], o, w.now, cfg.maxAttempts)],
           tickets := w.tickets - {t},
           tally := w.tally[t.row := DeliverTally(w.tally[t.row], o)])
      else
        w.(tickets := w.tickets - {t})
    case Abandon(t) => w.(tickets := w.tickets - {t})
    case Replay(id, confirmed) =>
      if id in w.rows && Replayable(w.rows[id], confirmed) then
        w.(rows := w.rows[id := ReplayRow(w.rows[id], w.now)], tally := w.tally[id := Tally(0, 0, 0, 0)])
      else w
    case Resolve(id) =>
      if id in w.rows && OpenFailure(w.rows[id]) then
        w.(rows := w.rows[id := w.rows[id].(resolvedAt := Some(w.now))])
      else w
    case Retain(victims, cutoff) =>
      w.(rows := w.rows - victims, tally := w.tally - victims,
         gone := w.gone + map i | i in victims && i in w.rows :: w.rows[i])
  }
}
