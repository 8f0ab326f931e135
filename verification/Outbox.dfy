/** The Telegram outbox service: enqueue with deduplication, the delivery worker, and the operator's
    replay and resolve, written over the table fields and proved to take exactly the steps of the
    leased queue. `messages_out`, the audit copy of every supplier message, is kept beside it. */
module Outbox {
  import opened Wrappers
  import opened LeaseQueue
  import opened QueueSafety
  import opened QueueEdges
  import QueueTheorems
  import QueueClaim

  datatype SendStatus = SendPending | SendSent | SendFailed

  datatype MessageOut = MessageOut(
    kind: Kind, text: string, sendStatus: SendStatus, tgMessageId: Option<int>, errorText: Option<string>)

  datatype EnqueueResult = Queued(messageId: Id, isNew: bool) | DedupeWithoutMessage

  datatype ReplayResult = Replayed | ReplayNotFound | NeedsConfirmation

  datatype ResolveResult = Resolved | ResolveNotFound | NotTerminal

  /** A row and its audit copy agree on whether, and as which Telegram message, it was sent. */
  predicate Agrees(r: Row, messages: map<Id, MessageOut>) {
    r.link.Some? ==>
      && r.link.value in messages
      && (messages[r.link.value].sendStatus == SendSent <==> r.status == Finished)
      && (r.status == Finished ==> messages[r.link.value].tgMessageId == r.messageId)
  }

  /** Audit copies agree with the rows, also with those retention deleted, and each belongs to one row. */
  ghost predicate Audited(rows: map<Id, Row>, gone: map<Id, Row>, messages: map<Id, MessageOut>, ownerOf: map<Id, Id>) {
    && messages.Keys == ownerOf.Keys
    && (forall i | i in rows :: Agrees(rows[i], messages) && (rows[i].link.Some? ==> ownerOf[rows[i].link.value] == i))
    && (forall i | i in gone ::
          i !in rows && Agrees(gone[i], messages) && gone[i].status == Finished
          && (gone[i].link.Some? ==> ownerOf[gone[i].link.value] == i))
  }

  /** Rewriting one row together with its own copy keeps the audit. */
  lemma AuditRewrite(rows: map<Id, Row>, gone: map<Id, Row>, messages: map<Id, MessageOut>, ownerOf: map<Id, Id>,
                     i: Id, r: Row, messages': map<Id, MessageOut>)
    requires Audited(rows, gone, messages, ownerOf) && i in rows && r.link == rows[i].link
    requires Agrees(r, messages')
    requires messages'.Keys == messages.Keys
    requires forall m | m in messages && rows[i].link != Some(m) :: messages'[m] == messages[m]
    ensures Audited(rows[i := r], gone, messages', ownerOf)
  {
    forall j | j in rows && j != i ensures Agrees(rows[j], messages') {
      assert Agrees(rows[j], messages);
    }
    forall j | j in gone ensures Agrees(gone[j], messages') {
      assert Agrees(gone[j], messages);
    }
  }

  lemma AuditInsert(rows: map<Id, Row>, gone: map<Id, Row>, messages: map<Id, MessageOut>, ownerOf: map<Id, Id>,
                    i: Id, r: Row, m: Id, copy: MessageOut)
    requires Audited(rows, gone, messages, ownerOf) && i !in rows && i !in gone && m !in messages
    requires r.link == Some(m) && r.status == Pending && copy.sendStatus == SendPending
    ensures Audited(rows[i := r], gone, messages[m := copy], ownerOf[m := i])
  {
    var messages' := messages[m := copy];
    forall j | j in rows ensures Agrees(rows[j], messages') {
      assert Agrees(rows[j], messages);
    }
    forall j | j in gone ensures Agrees(gone[j], messages') {
      assert Agrees(gone[j], messages);
    }
  }

  lemma AuditClaim(rows: map<Id, Row>, gone: map<Id, Row>, messages: map<Id, MessageOut>, ownerOf: map<Id, Id>,
                   ids: seq<Id>, owner: string, now: int, cfg: Config)
    requires Audited(rows, gone, messages, ownerOf)
    requires forall i | i in ids :: i in rows && Claimable(rows[i], now)
    ensures Audited(ClaimRows(rows, ids, owner, now, cfg), gone, messages, ownerOf)
  {
    var rows' := ClaimRows(rows, ids, owner, now, cfg);
    forall i | i in rows' ensures Agrees(rows'[i], messages) && rows'[i].link == rows[i].link {
      assert Agrees(rows[i], messages);
    }
  }

  lemma ClaimIdsClaimable(rows: map<Id, Row>, locked: set<Id>, now: int, cfg: Config)
    ensures forall i | i in ClaimIds(rows, locked, now, cfg) :: i in rows && Claimable(rows[i], now)
  {
    forall i | i in ClaimIds(rows, locked, now, cfg) ensures i in rows && Claimable(rows[i], now) {
      assert i in ClaimSet(rows, locked, now);
    }
  }

  /** What a delivery writes to the row's audit copy. */
  predicate CopyMakes(messages: map<Id, MessageOut>, messages': map<Id, MessageOut>, r: Row, o: Outcome) {
    if r.link.None? || o.LostBefore? || o.LostAfter? then messages' == messages
    else
      var m := r.link.value;
      && m in messages
      && messages' == messages[m := if o.Accepted?
                                    then messages[m].(sendStatus := SendSent, tgMessageId := o.messageId,
                                                      errorText := None)
                                    else messages[m].(sendStatus := SendFailed, errorText := Some(o.error))]
  }

  /** How long the first `n` deliveries of a script take. */
  function Elapsed(script: seq<(nat, Outcome)>, n: nat): (e: nat)
    requires n <= |script|
  {
    if n == 0 then 0 else Elapsed(script, n - 1) + script[n - 1].0
  }

  lemma {:induction false} ElapsedGrows(script: seq<(nat, Outcome)>, k: nat, n: nat)
    requires k <= n <= |script|
    ensures Elapsed(script, k) <= Elapsed(script, n)
    decreases n
  {
    if k < n {
      ElapsedGrows(script, k, n - 1);
    }
  }

  ghost predicate Different(ids: seq<Id>) {
    forall a, b :: 0 <= a < b < |ids| ==> ids[a] != ids[b]
  }

  function SetOf(ids: seq<Id>): set<Id> {
    set i | i in ids
  }

  /** The rows a claim hands to its worker: those it selects and the expiry handler keeps. */
  function Taken(rows: map<Id, Row>, locked: set<Id>, now: int, cfg: Config): set<Id> {
    set i | i in ClaimIds(rows, locked, now, cfg) && i in rows && Kept(rows[i], cfg.maxAttempts)
  }

  /** That is every row whose turn it is and which may run. */
  lemma TakenWhen(rows: map<Id, Row>, locked: set<Id>, now: int, cfg: Config, i: Id)
    ensures i in Taken(rows, locked, now, cfg) <==>
              HasTurn(rows, locked, now, cfg.batchSize, i) && Handed(rows[i], cfg.maxAttempts)
  {
    ClaimedWhen(rows, locked, now, cfg, i);
    if i in rows {
      ClaimEdges(rows, locked, "", now, cfg, i);
    }
  }

  /** A pass that is over before its leases is prompt. */
  ghost function PassDiscipline(script: seq<(nat, Outcome)>, cfg: Config): Discipline {
    if Elapsed(script, |script|) <= cfg.leaseSeconds then WhileLeased else Anytime
  }

  /** How many deliveries a pass gets to. */
  function Reach(claimed: seq<Id>, script: seq<(nat, Outcome)>): (n: nat)
    ensures n <= |claimed| && n <= |script| && (n == |claimed| || n == |script|)
  {
    if |claimed| < |script| then |claimed| else |script|
  }

  /** The first `n` deliveries of a pass: after each pause, the next claimed row under the pass's own lease. */
  function Deliveries(claimed: seq<Id>, owner: string, until: int, script: seq<(nat, Outcome)>, n: nat): seq<Step>
    requires n <= |claimed| && n <= |script|
  {
    if n == 0 then []
    else
      Deliveries(claimed, owner, until, script, n - 1)
      + [Tick(script[n - 1].0), Deliver(Ticket(claimed[n - 1], owner, until), script[n - 1].1)]
  }

  /** The k-th claimed row is delivered with the k-th outcome of the script after its k-th pause. */
  lemma {:induction false} DeliveriesAt(claimed: seq<Id>, owner: string, until: int, script: seq<(nat, Outcome)>,
                                        n: nat, k: nat)
    requires k < n <= |claimed| && n <= |script|
    ensures var s := Deliveries(claimed, owner, until, script, n);
            && |s| == 2 * n
            && s[2 * k] == Tick(script[k].0) && s[2 * k + 1] == Deliver(Ticket(claimed[k], owner, until), script[k].1)
  {
    if n > 1 {
      DeliveriesAt(claimed, owner, until, script, n - 1, if k < n - 1 then k else 0);
    }
  }

  function PassSteps(locked: set<Id>, owner: string, claimed: seq<Id>, until: int, script: seq<(nat, Outcome)>)
      : seq<Step>
  {
    [Claim(locked, owner)] + Deliveries(claimed, owner, until, script, Reach(claimed, script))
  }

  /** One delivery of a pass: the time it takes, and its outcome. */
  function AfterDelivery(w: World, id: Id, owner: string, until: int, entry: (nat, Outcome), cfg: Config): (w': World)
    requires Tallied(w)
    ensures Tallied(w')
  {
    Apply(Apply(w, Tick(entry.0), cfg), Deliver(Ticket(id, owner, until), entry.1), cfg)
  }

  ghost predicate Delivered(w: World, w': World, id: Id, owner: string, until: int,
                              entry: (nat, Outcome), cfg: Config) {
    Tallied(w) && w' == AfterDelivery(w, id, owner, until, entry, cfg)
  }

  ghost predicate DeliveredAt(trace: seq<World>, k: nat, claimed: seq<Id>, owner: string, until: int,
                              script: seq<(nat, Outcome)>, cfg: Config)
    requires k + 1 < |trace| && k < |claimed| && k < |script|
  {
    Delivered(trace[k], trace[k + 1], claimed[k], owner, until, script[k], cfg)
  }

  /** The queue before a pass's first delivery and after each one. */
  ghost predicate Trace(trace: seq<World>, claimed: seq<Id>, owner: string, until: int, script: seq<(nat, Outcome)>,
                        cfg: Config) {
    && 1 <= |trace| <= |claimed| + 1 && |trace| <= |script| + 1 && Tallied(trace[0])
    && forall k: nat | k < |trace| - 1 :: DeliveredAt(trace, k, claimed, owner, until, script, cfg)
  }

  lemma TraceGrows(trace: seq<World>, w: World, claimed: seq<Id>, owner: string, until: int,
                   script: seq<(nat, Outcome)>, cfg: Config)
    requires Trace(trace, claimed, owner, until, script, cfg) && |trace| <= |claimed| && |trace| <= |script|
    requires var k := |trace| - 1; Delivered(trace[k], w, claimed[k], owner, until, script[k], cfg)
    ensures Trace(trace + [w], claimed, owner, until, script, cfg)
  {
    var more := trace + [w];
    forall k: nat | k < |more| - 1 ensures DeliveredAt(more, k, claimed, owner, until, script, cfg) {
      if k < |trace| - 1 {
        assert DeliveredAt(trace, k, claimed, owner, until, script, cfg);
      }
    }
  }

  /** The first deliveries only give away their own tickets and take their time. */
  lemma {:induction false} TraceKeeps(trace: seq<World>, claimed: seq<Id>, owner: string, until: int,
                                      script: seq<(nat, Outcome)>, cfg: Config, n: nat)
    requires Trace(trace, claimed, owner, until, script, cfg) && n < |trace| && Different(claimed)
    ensures Tallied(trace[n]) && trace[n].now == trace[0].now + Elapsed(script, n)
    ensures forall j | n <= j < |claimed| && Ticket(claimed[j], owner, until) in trace[0].tickets ::
              Ticket(claimed[j], owner, until) in trace[n].tickets
  {
    if n > 0 {
      TraceKeeps(trace, claimed, owner, until, script, cfg, n - 1);
      assert DeliveredAt(trace, n - 1, claimed, owner, until, script, cfg);
    }
  }

  lemma {:induction false} TraceIsRun(trace: seq<World>, claimed: seq<Id>, owner: string, until: int,
                                      script: seq<(nat, Outcome)>, cfg: Config, n: nat, d: Discipline)
    requires Trace(trace, claimed, owner, until, script, cfg) && n < |trace| && Different(claimed)
    requires !d.WhileMatching? && (d.WhileLeased? ==> trace[0].now + Elapsed(script, |script|) <= until)
    requires forall j :: 0 <= j < |claimed| ==> Ticket(claimed[j], owner, until) in trace[0].tickets
    ensures var steps := Deliveries(claimed, owner, until, script, n);
            Exec(trace[0], steps, cfg) == trace[n] && IsRun(trace[0], steps, d, cfg)
  {
    if n > 0 {
      TraceIsRun(trace, claimed, owner, until, script, cfg, n - 1, d);
      TraceKeeps(trace, claimed, owner, until, script, cfg, n - 1);
      ElapsedGrows(script, n, |script|);
      assert DeliveredAt(trace, n - 1, claimed, owner, until, script, cfg);
      var t := Ticket(claimed[n - 1], owner, until);
      var steps := Deliveries(claimed, owner, until, script, n - 1);
      QueueTheorems.TwoMore(trace[0], steps, Tick(script[n - 1].0), Deliver(t, script[n - 1].1), d, cfg);
    }
  }

  lemma TakenHaveTickets(rows: map<Id, Row>, locked: set<Id>, claimed: seq<Id>, owner: string, now: int, cfg: Config)
    requires SetOf(claimed) == Taken(rows, locked, now, cfg)
    ensures forall j :: 0 <= j < |claimed| ==>
              Ticket(claimed[j], owner, now + cfg.leaseSeconds)
                in NewTickets(rows, ClaimIds(rows, locked, now, cfg), owner, now, cfg)
  {
    forall j | 0 <= j < |claimed|
      ensures Ticket(claimed[j], owner, now + cfg.leaseSeconds)
                in NewTickets(rows, ClaimIds(rows, locked, now, cfg), owner, now, cfg)
    {
      assert claimed[j] in SetOf(claimed);
    }
  }

  lemma ClaimGivesTickets(w: World, locked: set<Id>, owner: string, claimed: seq<Id>, cfg: Config)
    requires Tallied(w) && SetOf(claimed) == Taken(w.rows, locked, w.now, cfg)
    ensures var leased := Apply(w, Claim(locked, owner), cfg);
            && leased.now == w.now
            && forall j :: 0 <= j < |claimed| ==> Ticket(claimed[j], owner, w.now + cfg.leaseSeconds) in leased.tickets
  {
    TakenHaveTickets(w.rows, locked, claimed, owner, w.now, cfg);
  }

  lemma DeliveriesRun(trace: seq<World>, claimed: seq<Id>, owner: string, until: int, script: seq<(nat, Outcome)>,
                      cfg: Config)
    requires Trace(trace, claimed, owner, until, script, cfg) && |trace| == Reach(claimed, script) + 1
    requires Different(claimed) && until == trace[0].now + cfg.leaseSeconds
    requires forall j :: 0 <= j < |claimed| ==> Ticket(claimed[j], owner, until) in trace[0].tickets
    ensures var deliveries := Deliveries(claimed, owner, until, script, Reach(claimed, script));
            && Exec(trace[0], deliveries, cfg) == trace[|trace| - 1]
            && IsRun(trace[0], deliveries, PassDiscipline(script, cfg), cfg)
  {
    TraceIsRun(trace, claimed, owner, until, script, cfg, |trace| - 1, PassDiscipline(script, cfg));
  }

  lemma ClaimThen(w: World, locked: set<Id>, owner: string, rest: seq<Step>, d: Discipline, cfg: Config)
    requires Tallied(w)
    ensures Exec(w, [Claim(locked, owner)] + rest, cfg) == Exec(Apply(w, Claim(locked, owner), cfg), rest, cfg)
    ensures IsRun(w, [Claim(locked, owner)] + rest, d, cfg) <==>
              IsRun(Apply(w, Claim(locked, owner), cfg), rest, d, cfg)
  {
    QueueTheorems.Cons(w, Claim(locked, owner), rest, d, cfg);
  }

  /** A pass is a run of the queue: the claim, then the deliveries; and a prompt run when it is over before its
      leases are. */
  lemma PassIsRun(w: World, locked: set<Id>, owner: string, claimed: seq<Id>, script: seq<(nat, Outcome)>,
                  trace: seq<World>, cfg: Config)
    requires Tallied(w) && Different(claimed) && SetOf(claimed) == Taken(w.rows, locked, w.now, cfg)
    requires Trace(trace, claimed, owner, w.now + cfg.leaseSeconds, script, cfg)
    requires trace[0] == Apply(w, Claim(locked, owner), cfg) && |trace| == Reach(claimed, script) + 1
    ensures var steps := PassSteps(locked, owner, claimed, w.now + cfg.leaseSeconds, script);
            Exec(w, steps, cfg) == trace[|trace| - 1] && IsRun(w, steps, PassDiscipline(script, cfg), cfg)
  {
    ClaimGivesTickets(w, locked, owner, claimed, cfg);
    DeliveriesRun(trace, claimed, owner, w.now + cfg.leaseSeconds, script, cfg);
    ClaimThen(w, locked, owner, Deliveries(claimed, owner, w.now + cfg.leaseSeconds, script, Reach(claimed, script)),
              PassDiscipline(script, cfg), cfg);
  }

  /** Accepted sends among the first `n` of the script. */
  function AcceptedOf(script: seq<(nat, Outcome)>, n: nat): nat
    requires n <= |script|
  {
    if n == 0 then 0 else AcceptedOf(script, n - 1) + if script[n - 1].1.Accepted? then 1 else 0
  }

  class OutboxService {
    const cfg: Config
    var now: int
    var nextId: Id
    var rows: map<Id, Row>
    var nextMessage: Id
    var messages: map<Id, MessageOut>
    ghost var tickets: set<Ticket>
    ghost var tally: map<Id, Tally>
    ghost var gone: map<Id, Row>
    ghost var ownerOf: map<Id, Id>     // the row each audit copy belongs to

    ghost function State(): World
      reads this
    {
      World(now, nextId, rows, tickets, tally, gone)
    }

    ghost predicate Valid()
      reads this
    {
      && Tallied(State()) && Audited(rows, gone, messages, ownerOf)
      && (forall i | i in rows || i in gone :: i < nextId)
      && (forall m | m in messages :: m < nextMessage)
    }

    constructor (cfg: Config, now: int)
      ensures Valid() && State() == Init(now) && this.cfg == cfg && messages == map[]
    {
      this.cfg := cfg;
      this.now := now;
      nextId, rows, nextMessage, messages := 0, map[], 0, map[];
      tickets, tally, gone, ownerOf := {}, map[], map[], map[];
    }

    method Wait(d: nat)
      requires Valid()
      modifies this`now
      ensures Valid() && State() == Apply(old(State()), Tick(d), cfg)
    {
      now := now + d;
    }

    /** Insert unless the key exists: the new id, or the row that already has the key. */
    method InsertRow(key: int, kind: Kind) returns (id: Id, isNew: bool)
      requires Tallied(State()) && nextId !in rows
      modifies this`rows, this`nextId, this`tally
      ensures isNew <==> !KeyTaken(old(rows), key)
      ensures isNew ==> id == old(nextId) && State() == Apply(old(State()), Enqueue(kind, key, None), cfg)
      ensures !isNew ==> id in rows && rows[id].key == key && State() == old(State())
    {
      if i :| i in rows && rows[i].key == key {
        return i, false;
      }
      id, isNew := nextId, true;
      nextId := nextId + 1;
      rows := rows[id := NewRow(kind, key, None, now)];
      tally := tally[id := Tally(0, 0, 0, 0)];
    }

    /** Queue a supplier message unless its dedupe key is taken; a taken key gives back the message already
        queued for it. */
    method EnqueueTelegramMessage(key: int, kind: Kind, text: string) returns (r: EnqueueResult)
      requires Valid()
      modifies this
      ensures Valid()
      ensures State() == Apply(old(State()), Enqueue(kind, key, Some(old(nextMessage))), cfg)
      ensures !KeyTaken(old(rows), key) ==>
                && r == Queued(old(nextMessage), true)
                && messages == old(messages)[old(nextMessage) := MessageOut(kind, text, SendPending, None, None)]
      ensures KeyTaken(old(rows), key) ==>
                && messages == old(messages)
                && exists i :: i in rows && rows[i].key == key
                     && r == if rows[i].link.Some? then Queued(rows[i].link.value, false) else DedupeWithoutMessage
    {
      ghost var w, copies, owners, m := State(), messages, ownerOf, nextMessage;
      r := InsertBoth(key, kind, text);
      if !KeyTaken(w.rows, key) {
        AuditInsert(w.rows, gone, copies, owners, w.nextId, rows[w.nextId], m, messages[m]);
      }
    }

    /** The outbox row and its audit copy, inserted together. */
    method InsertBoth(key: int, kind: Kind, text: string) returns (r: EnqueueResult)
      requires Tallied(State()) && nextId !in rows
      modifies this`rows, this`nextId, this`tally, this`messages, this`nextMessage, this`ownerOf
      ensures State() == Apply(old(State()), Enqueue(kind, key, Some(old(nextMessage))), cfg)
      ensures !KeyTaken(old(rows), key) ==>
                && r == Queued(old(nextMessage), true) && nextMessage == old(nextMessage) + 1
                && messages == old(messages)[old(nextMessage) := MessageOut(kind, text, SendPending, None, None)]
                && ownerOf == old(ownerOf)[old(nextMessage) := old(nextId)]
      ensures KeyTaken(old(rows), key) ==>
                && messages == old(messages) && nextMessage == old(nextMessage) && ownerOf == old(ownerOf)
                && exists i :: i in rows && rows[i].key == key
                     && r == if rows[i].link.Some? then Queued(rows[i].link.value, false) else DedupeWithoutMessage
    {
      var outboxId, isNew := InsertRow(key, kind);
      if !isNew {
        return if rows[outboxId].link.Some? then Queued(rows[outboxId].link.value, false) else DedupeWithoutMessage;
      }
      var outboundId := nextMessage;
      nextMessage := nextMessage + 1;
      messages := messages[outboundId := MessageOut(kind, text, SendPending, None, None)];
      rows := rows[outboxId := rows[outboxId].(link := Some(outboundId))];
      assert rows == old(rows)[outboxId := NewRow(kind, key, Some(outboundId), now)];
      ownerOf := ownerOf[outboundId := outboxId];
      r := Queued(outboundId, true);
    }

    method ClaimRows(locked: set<Id>, owner: string) returns (claimed: seq<Id>)
      requires Valid()
      modifies this`rows, this`tickets, this`tally
      ensures Valid() && State() == Apply(old(State()), Claim(locked, owner), cfg)
      ensures Different(claimed) && SetOf(claimed) == Taken(old(rows), locked, now, cfg)
      ensures forall j :: 0 <= j < |claimed| ==> claimed[j] in rows
    {
      ClaimIdsClaimable(rows, locked, now, cfg);
      AuditClaim(rows, gone, messages, ownerOf, ClaimIds(rows, locked, now, cfg), owner, now, cfg);
      claimed := LeaseBatch(locked, owner);
    }

    method LeaseBatch(locked: set<Id>, owner: string) returns (claimed: seq<Id>)
      requires Tallied(State())
      modifies this`rows, this`tickets, this`tally
      ensures State() == Apply(old(State()), Claim(locked, owner), cfg)
      ensures Different(claimed) && SetOf(claimed) == Taken(old(rows), locked, now, cfg)
      ensures forall j :: 0 <= j < |claimed| ==> claimed[j] in rows
    {
      ghost var w, ids := State(), ClaimIds(rows, locked, now, cfg);
      rows, claimed := QueueClaim.ClaimRows(rows, locked, owner, now, cfg);
      tally := ClaimTally(w, ids, cfg);
      tickets := tickets + NewTickets(w.rows, ids, owner, now, cfg);
      forall j | 0 <= j < |claimed| ensures claimed[j] in rows {
        assert claimed[j] in claimed;
      }
    }

    /** Send one claimed row. The row is read again, but its owner and lease are not checked. */
    method DeliverOutboxRow(id: Id, ghost ticket: Ticket, outcome: Outcome) returns (sent: nat)
      requires Valid() && ticket.row == id
      modifies this`rows, this`messages, this`tickets, this`tally
      ensures Valid() && State() == Apply(old(State()), Deliver(ticket, outcome), cfg)
      ensures sent == if id in old(rows) && outcome.Accepted? then 1 else 0
      ensures if id in old(rows) then CopyMakes(old(messages), messages, old(rows)[id], outcome)
              else messages == old(messages)
    {
      tickets := tickets - {ticket};
      if id !in rows {
        return 0;
      }
      sent := RecordOutcome(id, outcome);
      tally := tally[id := DeliverTally(tally[id], outcome)];
    }

    method RecordOutcome(id: Id, outcome: Outcome) returns (sent: nat)
      requires id in rows && Audited(rows, gone, messages, ownerOf)
      modifies this`rows, this`messages
      ensures rows == old(rows)[id := DeliverRow(old(rows)[id], outcome, now, cfg.maxAttempts)]
      ensures messages.Keys == old(messages).Keys && Audited(rows, gone, messages, ownerOf)
      ensures sent == if outcome.Accepted? then 1 else 0
      ensures CopyMakes(old(messages), messages, old(rows)[id], outcome)
    {
      sent := 0;
      match outcome {
        case Accepted(messageId) =>
          MarkSent(id, messageId);
          sent := 1;
        case Refused(error) =>
          RecordOutboxSendError(id, error);
        case LostBefore =>
        case LostAfter =>
      }
    }

    /** One pass of the worker: claim, commit the leases, then deliver the claimed rows one by one, in the order
        claimed. `script` says how long each delivery takes and how it ends; a shorter script is a worker that
        dies. */
    method ProcessOutboxBatch(locked: set<Id>, owner: string, script: seq<(nat, Outcome)>)
      returns (sent: nat, claimed: seq<Id>, ghost trace: seq<World>)
      requires Valid()
      modifies this`now, this`rows, this`messages, this`tickets, this`tally
      ensures Valid()
      ensures Different(claimed) && SetOf(claimed) == Taken(old(rows), locked, old(now), cfg)
      ensures Trace(trace, claimed, owner, old(now) + cfg.leaseSeconds, script, cfg)
      ensures |trace| == Reach(claimed, script) + 1
      ensures trace[0] == Apply(old(State()), Claim(locked, owner), cfg) && trace[|trace| - 1] == State()
      ensures sent == AcceptedOf(script, Reach(claimed, script))
    {
      claimed := ClaimRows(locked, owner);
      sent, trace := DeliverAll(claimed, owner, script, now + cfg.leaseSeconds);
    }

    method DeliverAll(ids: seq<Id>, owner: string, script: seq<(nat, Outcome)>, ghost until: int)
      returns (sent: nat, ghost trace: seq<World>)
      requires Valid() && forall j :: 0 <= j < |ids| ==> ids[j] in rows
      modifies this`now, this`rows, this`messages, this`tickets, this`tally
      ensures Valid()
      ensures Trace(trace, ids, owner, until, script, cfg) && |trace| == Reach(ids, script) + 1
      ensures trace[0] == old(State()) && trace[|trace| - 1] == State()
      ensures sent == AcceptedOf(script, Reach(ids, script))
    {
      sent := 0;
      trace := [State()];
      var k := 0;
      while k < |ids| && k < |script|
        invariant 0 <= k <= |ids| && k <= |script| && sent == AcceptedOf(script, k)
        invariant Valid() && rows.Keys == old(rows.Keys)
        invariant Trace(trace, ids, owner, until, script, cfg) && |trace| == k + 1
        invariant trace[0] == old(State()) && trace[k] == State()
      {
        var n := DeliverNext(ids[k], owner, script[k], until);
        TraceGrows(trace, State(), ids, owner, until, script, cfg);
        trace := trace + [State()];
        sent, k := sent + n, k + 1;
      }
    }

    method DeliverNext(id: Id, owner: string, entry: (nat, Outcome), ghost until: int) returns (sent: nat)
      requires Valid() && id in rows
      modifies this`now, this`rows, this`messages, this`tickets, this`tally
      ensures Valid() && Delivered(old(State()), State(), id, owner, until, entry, cfg)
      ensures rows.Keys == old(rows.Keys) && sent == if entry.1.Accepted? then 1 else 0
    {
      Wait(entry.0);
      sent := DeliverOutboxRow(id, Ticket(id, owner, until), entry.1);
    }

    method MarkSent(id: Id, messageId: Option<int>)
      requires id in rows && Audited(rows, gone, messages, ownerOf)
      modifies this`rows, this`messages
      ensures rows == old(rows)[id := DeliverRow(old(rows)[id], Accepted(messageId), now, cfg.maxAttempts)]
      ensures CopyMakes(old(messages), messages, old(rows)[id], Accepted(messageId))
      ensures messages.Keys == old(messages).Keys && Audited(rows, gone, messages, ownerOf)
    {
      rows := rows[id := rows[id].(status := Finished, messageId := messageId, finishedAt := Some(now),
                                   leaseOwner := None, leasedUntil := None)];
      if rows[id].link.Some? {
        var m := rows[id].link.value;
        assert Agrees(old(rows)[id], messages);
        messages := messages[m := messages[m].(tgMessageId := messageId, sendStatus := SendSent, errorText := None)];
      }
      AuditRewrite(old(rows), gone, old(messages), ownerOf, id, rows[id], messages);
    }

    method RecordOutboxSendError(id: Id, error: string)
      requires id in rows && Audited(rows, gone, messages, ownerOf)
      modifies this`rows, this`messages
      ensures rows == old(rows)[id := DeliverRow(old(rows)[id], Refused(error), now, cfg.maxAttempts)]
      ensures CopyMakes(old(messages), messages, old(rows)[id], Refused(error))
      ensures messages.Keys == old(messages).Keys && Audited(rows, gone, messages, ownerOf)
    {
      var row := rows[id];
      if row.link.Some? {
        var m := row.link.value;
        messages := messages[m := messages[m].(sendStatus := SendFailed, errorText := Some(error))];
      }
      if IsUncertainDelivery(row.kind, error) {
        rows := rows[id := row.(status := Uncertain, lastError := Some(error),
                                leaseOwner := None, leasedUntil := None)];
      } else {
        row := row.(attempts := row.attempts + 1, lastError := Some(error), leaseOwner := None, leasedUntil := None);
        if row.attempts >= cfg.maxAttempts {
          row := row.(status := Dead);
        } else {
          row := row.(status := Pending, nextAttemptAt := now + BackoffSeconds(row.attempts));
        }
        rows := rows[id := row];
      }
      AuditRewrite(old(rows), gone, old(messages), ownerOf, id, rows[id], messages);
    }

    /** Operator replay of a dead or uncertain row. */
    method ReplayOutbox(id: Id, confirmed: bool) returns (r: ReplayResult)
      requires Valid()
      modifies this`rows, this`tally
      ensures Valid() && State() == Apply(old(State()), Replay(id, confirmed), cfg)
      ensures r == ReplayNotFound <==> id !in old(rows) || !Unsettled(old(rows)[id])
      ensures r == Replayed <==> id in old(rows) && MayReplay(old(rows)[id], confirmed)
    {
      if id !in rows || (rows[id].status != Dead && rows[id].status != Uncertain) || rows[id].resolvedAt.Some? {
        return ReplayNotFound;
      }
      if rows[id].status == Uncertain && Unsafe(rows[id].kind) && !confirmed {
        return NeedsConfirmation;
      }
      rows := rows[id := rows[id].(status := Pending, attempts := 0, leaseOwner := None, leasedUntil := None,
                                   nextAttemptAt := now, lastError := None)];
      tally := tally[id := Tally(0, 0, 0, 0)];
      AuditRewrite(old(rows), gone, messages, ownerOf, id, rows[id], messages);
      return Replayed;
    }

    /** Operator closes a dead or uncertain row for good. */
    method ResolveRow(id: Id) returns (r: ResolveResult)
      requires Valid()
      modifies this`rows
      ensures Valid() && State() == Apply(old(State()), Resolve(id), cfg)
      ensures r == Resolved <==> id in old(rows) && Unsettled(old(rows)[id])
      ensures r == ResolveNotFound <==> id !in old(rows) || old(rows)[id].resolvedAt.Some?
    {
      if id !in rows || rows[id].resolvedAt.Some? {
        return ResolveNotFound;
      }
      if rows[id].status != Dead && rows[id].status != Uncertain {
        return NotTerminal;
      }
      rows := rows[id := rows[id].(resolvedAt := Some(now))];
      AuditRewrite(old(rows), gone, messages, ownerOf, id, rows[id], messages);
      return Resolved;
    }

    /** Delete sent rows older than the cutoff, at most one batch, in no particular order. */
    method RunRetention(cutoff: int, batch: nat, dryRun: bool) returns (deleted: nat, ghost victims: set<Id>)
      requires Valid()
      modifies this`rows, this`tally, this`gone
      ensures Enabled(old(State()), Retain(victims, cutoff))
      ensures Valid() && State() == Apply(old(State()), Retain(victims, cutoff), cfg)
      ensures deleted == |victims| <= batch && (dryRun ==> deleted == 0)
      ensures rows == old(rows) - victims
      ensures forall i | i in victims :: i in old(rows) && SentBefore(old(rows)[i], cutoff)
      ensures !dryRun && deleted < batch ==>
                forall i | i in old(rows) && SentBefore(old(rows)[i], cutoff) :: i in victims
    {
      var expired := set i | i in rows && Removable(rows[i], cutoff);
      var picked: set<Id> := {};
      if !dryRun {
        picked := QueueClaim.PickBatch(expired, batch);
      }
      DeleteRows(picked, cutoff);
      deleted, victims := |picked|, picked;
    }

    method DeleteRows(victims: set<Id>, ghost cutoff: int)
      requires Valid() && Enabled(State(), Retain(victims, cutoff))
      modifies this`rows, this`tally, this`gone
      ensures Valid() && State() == Apply(old(State()), Retain(victims, cutoff), cfg)
    {
      AuditRetain(rows, gone, messages, ownerOf, victims);
      EraseRows(victims, cutoff);
    }

    method EraseRows(victims: set<Id>, ghost cutoff: int)
      requires Tallied(State())
      modifies this`rows, this`tally, this`gone
      ensures State() == Apply(old(State()), Retain(victims, cutoff), cfg)
    {
      gone := gone + map i | i in victims && i in rows :: rows[i];
      rows := rows - victims;
      tally := tally - victims;
    }
  }

  lemma AuditRetain(rows: map<Id, Row>, gone: map<Id, Row>, messages: map<Id, MessageOut>, ownerOf: map<Id, Id>,
                    victims: set<Id>)
    requires Audited(rows, gone, messages, ownerOf)
    requires forall i | i in victims :: i in rows && rows[i].status == Finished
    ensures Audited(rows - victims, gone + map i | i in victims && i in rows :: rows[i], messages, ownerOf)
  {
    forall i | i in rows ensures Agrees(rows[i], messages) {}
  }
}
