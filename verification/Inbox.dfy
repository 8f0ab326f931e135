/** The webhook inbox: one leased queue row per Telegram update, the grow-only log of processed updates, and
    the handler, whose effect, log entry and finished row commit together some time after the log was read. */
module Inbox {
  import opened Wrappers
  import opened LeaseQueue
  import opened QueueSafety
  import opened QueueEdges
  import QueueClaim
  import QueueTheorems

  /** How one processing attempt ends: the handler ran, the handler raised and everything was rolled back, or
      the worker was lost before its commit. */
  datatype Handling = Handled | Raised(error: string) | WorkerLost

  /** What a worker remembers between its look at the log and its commit: the update, and whether it was logged
      already. */
  datatype Attempt = Attempt(update: int, seen: bool)

  datatype InboxWorld = InboxWorld(
    queue: World,
    log: set<int>,              // update_log: update ids already processed
    effects: multiset<int>,     // committed handler effects, by update id
    open: map<Ticket, Attempt>)

  /** An attempt has two steps: it looks into the log, and later commits without looking again. Whatever other
      workers do may come in between. */
  datatype InboxStep =
    | Webhook(update: int)
    | Begin(ticket: Ticket)
    | Commit(ticket: Ticket, handling: Handling)
    | Other(step: Step)         // clock, claim, worker loss, operator, retention

  function InboxInit(now: int): InboxWorld {
    InboxWorld(Init(now), {}, multiset{}, map[])
  }

  predicate Unseen(w: InboxWorld, t: Ticket) {
    t in w.open && !w.open[t].seen
  }

  /** The update whose handler's effect a commit adds: a row deleted meanwhile makes the commit fail. */
  function Handles(w: InboxWorld, step: InboxStep): Option<int> {
    if step.Commit? && step.handling.Handled? && Unseen(w, step.ticket) && step.ticket.row in w.queue.rows
    then Some(w.open[step.ticket].update) else None
  }

  /** How a commit ends for the row. An update that was logged already has its row finished without running the
      handler. */
  function CommitOutcome(seen: bool, handling: Handling): Outcome {
    if handling.WorkerLost? then LostBefore
    else if seen || handling.Handled? then Accepted(None)
    else Refused(handling.error)
  }

  /** What an inbox step is to the queue underneath. */
  function Project(w: InboxWorld, step: InboxStep): Step {
    match step
    case Webhook(u) => if u in w.log then Tick(0) else Enqueue(Update, u, None)
    case Begin(t) => if t.row in w.queue.rows then Tick(0) else Abandon(t)
    case Commit(t, h) => Deliver(t, CommitOutcome(t in w.open && w.open[t].seen, h))
    case Other(s) => s
  }

  function OpenAfter(w: InboxWorld, step: InboxStep): map<Ticket, Attempt> {
    match step
    case Begin(t) =>
      if t.row in w.queue.rows
      then w.open[t := Attempt(w.queue.rows[t.row].key, w.queue.rows[t.row].key in w.log)] else w.open
    case Commit(t, _) => w.open - {t}
    case Other(s) => if s.Abandon? then w.open - {s.ticket} else w.open
    case Webhook(_) => w.open
  }

  function InboxApply(w: InboxWorld, step: InboxStep, cfg: Config): (w': InboxWorld)
    requires Tallied(w.queue)
    ensures Tallied(w'.queue)
  {
    var handled := Handles(w, step);
    InboxWorld(
      Apply(w.queue, Project(w, step), cfg),
      if handled.Some? then w.log + {handled.value} else w.log,
      if handled.Some? then w.effects + multiset{handled.value} else w.effects,
      OpenAfter(w, step))
  }

  ghost predicate InboxAllowed(w: InboxWorld, step: InboxStep, d: Discipline) {
    && Allowed(w.queue, Project(w, step), d)
    && (step.Begin? ==> step.ticket in w.queue.tickets && step.ticket !in w.open)
    && (step.Commit? ==> step.ticket in w.open)
    && (step.Other? ==> !step.step.Enqueue? && !step.step.Deliver?)
  }

  ghost predicate IsInboxRun(w: InboxWorld, steps: seq<InboxStep>, d: Discipline, cfg: Config)
    requires Tallied(w.queue)
    decreases |steps|
  {
    steps == [] || (InboxAllowed(w, steps[0], d) && IsInboxRun(InboxApply(w, steps[0], cfg), steps[1..], d, cfg))
  }

  function InboxExec(w: InboxWorld, steps: seq<InboxStep>, cfg: Config): (w': InboxWorld)
    requires Tallied(w.queue)
    ensures Tallied(w'.queue)
    decreases |steps|
  {
    if steps == [] then w else InboxExec(InboxApply(w, steps[0], cfg), steps[1..], cfg)
  }

  // ----- What each step does -----

  /** A webhook changes nothing when its update was processed or is queued; otherwise it adds one row, due at once. */
  lemma WebhookMakes(w: InboxWorld, u: int, cfg: Config)
    requires Tallied(w.queue)
    ensures var q, w' := w.queue, InboxApply(w, Webhook(u), cfg);
            if u in w.log || exists i :: i in q.rows && q.rows[i].key == u then w' == w
            else
              && w'.log == w.log && w'.effects == w.effects && w'.open == w.open
              && w'.queue.rows
                 == q.rows[q.nextId := Row(Update, u, None, Pending, 0, None, None, q.now, None, None, None, None)]
              && w'.queue.nextId == q.nextId + 1 && w'.queue.tickets == q.tickets
  {
  }

  /** Beginning only notes the row's update and whether it is logged; a worker without a row gives up. */
  lemma BeginMakes(w: InboxWorld, t: Ticket, cfg: Config)
    requires Tallied(w.queue)
    ensures var q, w' := w.queue, InboxApply(w, Begin(t), cfg);
            && w'.log == w.log && w'.effects == w.effects && w'.queue.rows == q.rows
            && if t.row !in q.rows then w'.queue.tickets == q.tickets - {t} && w'.open == w.open
               else
                 && w'.queue.tickets == q.tickets
                 && w'.open == w.open[t := Attempt(q.rows[t.row].key, q.rows[t.row].key in w.log)]
  {
  }

  /** The handler's effect, the log entry and the finished row come together or not at all. */
  lemma CommitMakes(w: InboxWorld, t: Ticket, h: Handling, cfg: Config)
    requires Tallied(w.queue) && t in w.open && t.row in w.queue.rows
    ensures var q, q', w' := w.queue, InboxApply(w, Commit(t, h), cfg).queue, InboxApply(w, Commit(t, h), cfg);
            var done := h.Handled? && !w.open[t].seen;
            var u, r := w.open[t].update, q.rows[t.row];
            && w'.log == (if done then w.log + {u} else w.log)
            && w'.effects == (if done then w.effects + multiset{u} else w.effects)
            && w'.open == w.open - {t} && q'.tickets == q.tickets - {t}
            && t.row in q'.rows && q'.rows == q.rows[t.row := q'.rows[t.row]]
            && (h.WorkerLost? ==> q'.rows[t.row] == r)
            && (!h.WorkerLost? && (done || w.open[t].seen) ==>
                  DeliveryMakes(r, q'.rows[t.row], Accepted(None), q.now, cfg.maxAttempts))
            && (h.Raised? && !w.open[t].seen ==>
                  DeliveryMakes(r, q'.rows[t.row], Refused(h.error), q.now, cfg.maxAttempts))
  {
    DeliveryEdge(w.queue.rows[t.row], CommitOutcome(w.open[t].seen, h), w.queue.now, cfg.maxAttempts);
  }

  /** Once retention deleted the row, a commit fails as a whole. */
  lemma CommitWithoutRow(w: InboxWorld, t: Ticket, h: Handling, cfg: Config)
    requires Tallied(w.queue) && t in w.open && t.row !in w.queue.rows
    ensures var w' := InboxApply(w, Commit(t, h), cfg);
            && w'.log == w.log && w'.effects == w.effects && w'.queue.rows == w.queue.rows
            && w'.open == w.open - {t} && w'.queue.tickets == w.queue.tickets - {t}
  {
  }

  // ----- Invariants, under no assumption on the workers -----

  predicate Logged(r: Row, log: set<int>) {
    r.kind == Update && r.status != Uncertain && (r.status == Finished ==> r.key in log)
  }

  /** An attempt in progress: its row is still the one it read, or was deleted processed. */
  predicate AttemptOk(w: InboxWorld, t: Ticket)
    requires t in w.open
  {
    && t in w.queue.tickets
    && (w.open[t].seen ==> w.open[t].update in w.log)
    && (if t.row in w.queue.rows then w.queue.rows[t.row].key == w.open[t].update
        else t.row in w.queue.gone && w.queue.gone[t.row].key == w.open[t].update)
  }

  ghost predicate InboxInv(w: InboxWorld) {
    && Tallied(w.queue)
    && (forall u: int :: u in w.log <==> w.effects[u] >= 1)
    && (forall i | i in w.queue.rows :: Logged(w.queue.rows[i], w.log) && i < w.queue.nextId)
    && (forall i | i in w.queue.gone :: w.queue.gone[i].key in w.log && i < w.queue.nextId)
    && (forall t | t in w.open :: AttemptOk(w, t))
  }

  /** What any step does to a row's key, kind and status, as far as the log cares. */
  predicate Carries(r: Row, r': Row, finishes: bool) {
    && r'.key == r.key && r'.kind == r.kind
    && (r'.status == Finished ==> r.status == Finished || finishes)
    && (r'.status == Uncertain ==> r.status == Uncertain || Unsafe(r.kind))
  }

  lemma DeliverCarries(r: Row, o: Outcome, now: int, maxAttempts: nat)
    ensures Carries(r, DeliverRow(r, o, now, maxAttempts), o.Accepted?)
  {
  }

  lemma ClaimCarries(r: Row, c: Tally, r': Row, c': Tally, owner: string, now: int, cfg: Config)
    requires ClaimedOrSame(r, c, r', c', owner, now, cfg)
    ensures Carries(r, r', false)
  {
  }

  /** Any step of the queue leaves a row with its key and kind, or deletes it finished. */
  lemma RowCarries(q: World, s: Step, i: Id, cfg: Config)
    requires Tallied(q) && Enabled(q, s) && i in q.rows && i < q.nextId
    ensures var q' := Apply(q, s, cfg);
            if i in q'.rows
            then Carries(q.rows[i], q'.rows[i], s.Deliver? && s.ticket.row == i && s.outcome.Accepted?)
            else q.rows[i].status == Finished && i in q'.gone && q'.gone[i] == q.rows[i]
  {
    var q' := Apply(q, s, cfg);
    match s {
      case Claim(locked, owner) =>
        ClaimHasEffect(q, locked, owner, cfg);
        ClaimCarries(q.rows[i], q.tally[i], q'.rows[i], q'.tally[i], owner, q.now, cfg);
      case Deliver(t, o) =>
        if t.row == i { DeliverCarries(q.rows[i], o, q.now, cfg.maxAttempts); }
      case _ =>
    }
  }

  lemma NewRows(q: World, s: Step, i: Id, cfg: Config)
    requires Tallied(q)
    ensures var q' := Apply(q, s, cfg);
            && (i in q'.rows && i !in q.rows ==>
                  s.Enqueue? && i == q.nextId && q'.rows[i] == NewRow(s.kind, s.key, s.link, q.now))
            && (i in q'.rows ==> i < q'.nextId || (i in q.rows && i >= q.nextId))
            && q.nextId <= q'.nextId
  {
    if s.Claim? {
      ClaimHasEffect(q, s.locked, s.owner, cfg);
    }
  }

  lemma RowStaysLogged(w: InboxWorld, step: InboxStep, cfg: Config, i: Id)
    requires InboxInv(w) && InboxAllowed(w, step, Anytime) && i in InboxApply(w, step, cfg).queue.rows
    ensures var w' := InboxApply(w, step, cfg);
            Logged(w'.queue.rows[i], w'.log) && i < w'.queue.nextId
  {
    var s := Project(w, step);
    NewRows(w.queue, s, i, cfg);
    if i in w.queue.rows {
      assert Logged(w.queue.rows[i], w.log);
      RowCarries(w.queue, s, i, cfg);
      if step.Commit? {
        assert AttemptOk(w, step.ticket);
      }
    }
  }

  lemma GoneStaysLogged(w: InboxWorld, step: InboxStep, i: Id, cfg: Config)
    requires InboxInv(w) && InboxAllowed(w, step, Anytime) && i in InboxApply(w, step, cfg).queue.gone
    ensures InboxApply(w, step, cfg).queue.gone[i].key in w.log && i < w.queue.nextId
  {
    var s := Project(w, step);
    if s.Retain? && i in s.victims {
      assert Logged(w.queue.rows[i], w.log);
    }
  }

  /** Only the two steps of an attempt and its loss touch what it remembers. */
  lemma AttemptStays(w: InboxWorld, step: InboxStep, cfg: Config, t: Ticket)
    requires InboxInv(w) && InboxAllowed(w, step, Anytime) && t in InboxApply(w, step, cfg).open
    ensures AttemptOk(InboxApply(w, step, cfg), t)
  {
    var w', s := InboxApply(w, step, cfg), Project(w, step);
    if step.Begin? && step.ticket == t {
      assert t.row in w.queue.rows;
    } else {
      assert AttemptOk(w, t);
      TicketStays(w.queue, s, t, cfg);
      if t.row in w.queue.rows {
        RowCarries(w.queue, s, t.row, cfg);
      } else {
        GoneStaysGone(w.queue, s, t.row, cfg);
      }
    }
  }

  lemma TicketStays(q: World, s: Step, t: Ticket, cfg: Config)
    requires Tallied(q) && t in q.tickets && !(s.Deliver? && s.ticket == t) && !(s.Abandon? && s.ticket == t)
    ensures t in Apply(q, s, cfg).tickets
  {
  }

  lemma GoneStaysGone(q: World, s: Step, i: Id, cfg: Config)
    requires Tallied(q) && i in q.gone && i !in q.rows && i < q.nextId && Enabled(q, s)
    ensures var q' := Apply(q, s, cfg);
            i !in q'.rows && i in q'.gone && q'.gone[i] == q.gone[i]
  {
    NewRows(q, s, i, cfg);
  }

  lemma InboxStepKeeps(w: InboxWorld, step: InboxStep, cfg: Config)
    requires InboxInv(w) && InboxAllowed(w, step, Anytime)
    ensures InboxInv(InboxApply(w, step, cfg)) && w.log <= InboxApply(w, step, cfg).log
  {
    var w' := InboxApply(w, step, cfg);
    forall i | i in w'.queue.rows ensures Logged(w'.queue.rows[i], w'.log) && i < w'.queue.nextId {
      RowStaysLogged(w, step, cfg, i);
    }
    forall i | i in w'.queue.gone ensures w'.queue.gone[i].key in w'.log && i < w'.queue.nextId {
      GoneStaysLogged(w, step, i, cfg);
      NewRows(w.queue, Project(w, step), i, cfg);
    }
    forall t | t in w'.open ensures AttemptOk(w', t) {
      AttemptStays(w, step, cfg, t);
    }
    EffectsAreLogged(w, step, cfg);
  }

  lemma EffectsAreLogged(w: InboxWorld, step: InboxStep, cfg: Config)
    requires Tallied(w.queue) && forall u: int :: u in w.log <==> w.effects[u] >= 1
    ensures var w' := InboxApply(w, step, cfg); forall u: int :: u in w'.log <==> w'.effects[u] >= 1
  {
  }

  lemma {:induction false} InboxRunKeeps(w: InboxWorld, steps: seq<InboxStep>, cfg: Config)
    requires InboxInv(w) && IsInboxRun(w, steps, Anytime, cfg)
    ensures InboxInv(InboxExec(w, steps, cfg)) && w.log <= InboxExec(w, steps, cfg).log
    decreases |steps|
  {
    if steps != [] {
      InboxStepKeeps(w, steps[0], cfg);
      InboxRunKeeps(InboxApply(w, steps[0], cfg), steps[1..], cfg);
    }
  }

  predicate Present(w: InboxWorld, u: int) {
    u in w.log || KeyTaken(w.queue.rows, u)
  }

  lemma PresentStep(w: InboxWorld, step: InboxStep, cfg: Config, u: int)
    requires InboxInv(w) && InboxAllowed(w, step, Anytime) && (Present(w, u) || step == Webhook(u))
    ensures Present(InboxApply(w, step, cfg), u)
  {
    var w' := InboxApply(w, step, cfg);
    if u !in w'.log {
      if KeyTaken(w.queue.rows, u) {
        var i :| i in w.queue.rows && w.queue.rows[i].key == u;
        assert Logged(w.queue.rows[i], w.log);
        RowCarries(w.queue, Project(w, step), i, cfg);
        assert i in w'.queue.rows;
      } else {
        assert w'.queue.rows[w.queue.nextId].key == u;
      }
    }
  }

  /** An update once received is processed, or still has its row, whatever happens afterwards. */
  lemma {:induction false} NoUpdateLost(w: InboxWorld, steps: seq<InboxStep>, cfg: Config, u: int)
    requires InboxInv(w) && IsInboxRun(w, steps, Anytime, cfg) && (Present(w, u) || Webhook(u) in steps)
    ensures Present(InboxExec(w, steps, cfg), u)
    decreases |steps|
  {
    if steps != [] {
      InboxStepKeeps(w, steps[0], cfg);
      if Present(w, u) || steps[0] == Webhook(u) {
        PresentStep(w, steps[0], cfg, u);
      } else {
        assert Webhook(u) in steps[1..];
      }
      NoUpdateLost(InboxApply(w, steps[0], cfg), steps[1..], cfg, u);
    }
  }

  // ----- The inbox is a leased queue -----

  function ProjectRun(w: InboxWorld, steps: seq<InboxStep>, cfg: Config): (queueSteps: seq<Step>)
    requires Tallied(w.queue)
    decreases |steps|
  {
    if steps == [] then []
    else [Project(w, steps[0])] + ProjectRun(InboxApply(w, steps[0], cfg), steps[1..], cfg)
  }

  /** An inbox run is a queue run underneath, under the same discipline, so everything proved of the queue
      holds of the inbox. */
  lemma {:induction false} InboxRefinesQueue(w: InboxWorld, steps: seq<InboxStep>, d: Discipline, cfg: Config)
    requires Tallied(w.queue) && IsInboxRun(w, steps, d, cfg)
    ensures IsRun(w.queue, ProjectRun(w, steps, cfg), d, cfg)
    ensures Exec(w.queue, ProjectRun(w, steps, cfg), cfg) == InboxExec(w, steps, cfg).queue
    decreases |steps|
  {
    if steps != [] {
      var w' := InboxApply(w, steps[0], cfg);
      InboxRefinesQueue(w', steps[1..], d, cfg);
      QueueTheorems.Cons(w.queue, Project(w, steps[0]), ProjectRun(w', steps[1..], cfg), d, cfg);
    }
  }

  lemma {:induction false} AnyInboxRun(w: InboxWorld, steps: seq<InboxStep>, d: Discipline, cfg: Config)
    requires Tallied(w.queue) && IsInboxRun(w, steps, d, cfg)
    ensures IsInboxRun(w, steps, Anytime, cfg)
    decreases |steps|
  {
    if steps != [] {
      AnyInboxRun(InboxApply(w, steps[0], cfg), steps[1..], d, cfg);
    }
  }

  /** Inbox rows obey the same exact accounting, and are never uncertain. */
  lemma InboxAccounting(now: int, steps: seq<InboxStep>, d: Discipline, cfg: Config, i: Id)
    requires cfg.maxAttempts >= 1 && !d.Anytime? && IsInboxRun(InboxInit(now), steps, d, cfg)
    requires i in InboxExec(InboxInit(now), steps, cfg).queue.rows
    ensures var q := InboxExec(InboxInit(now), steps, cfg).queue;
            && Accounted(q.rows[i], q.tally[i], cfg.maxAttempts)
            && q.rows[i].status != Uncertain
            && q.tally[i].sends <= cfg.maxAttempts
  {
    var w := InboxInit(now);
    InboxRefinesQueue(w, steps, d, cfg);
    AnyInboxRun(w, steps, d, cfg);
    InboxRunKeeps(w, steps, cfg);
    var q := InboxExec(w, steps, cfg).queue;
    assert QueueTheorems.Reachable(q, d, cfg) by {
      assert IsRun(Init(now), ProjectRun(w, steps, cfg), d, cfg);
    }
    QueueTheorems.ReachableInv(q, d, cfg);
    assert RowOk(q.rows[i], q.tally[i], cfg.maxAttempts);
    assert Logged(q.rows[i], InboxExec(w, steps, cfg).log);
  }

  // ----- At most one effect, for workers that commit only while they hold the row -----

  /** With a live lease on the row nobody else can have finished it: a logged update's row is finished. */
  ghost predicate OnceInv(w: InboxWorld, cfg: Config) {
    && InboxInv(w) && Inv(w.queue, cfg)
    && (forall u: int :: w.effects[u] <= 1)
    && (forall i | i in w.queue.rows && w.queue.rows[i].key in w.log :: w.queue.rows[i].status == Finished)
  }

  lemma CommitFinishes(w: InboxWorld, t: Ticket, h: Handling, cfg: Config, i: Id)
    requires OnceInv(w, cfg) && InboxAllowed(w, Commit(t, h), WhileMatching) && i in w.queue.rows
    ensures w.open[t].update !in w.log && !w.open[t].seen
    ensures var w' := InboxApply(w, Commit(t, h), cfg);
            && i in w'.queue.rows
            && (w'.queue.rows[i].key in w'.log ==> w'.queue.rows[i].status == Finished)
  {
    assert AttemptOk(w, t) && Matches(w.queue.rows, t);
    DeliverCarries(w.queue.rows[t.row], CommitOutcome(w.open[t].seen, h), w.queue.now, cfg.maxAttempts);
    assert i != t.row ==> w.queue.rows[i].key != w.queue.rows[t.row].key;
  }

  lemma FinishedStays(q: World, s: Step, i: Id, cfg: Config)
    requires RowsOk(q, cfg) && Allowed(q, s, WhileMatching) && i in q.rows && i < q.nextId
    requires q.rows[i].status == Finished && i in Apply(q, s, cfg).rows
    ensures Apply(q, s, cfg).rows[i] == q.rows[i]
  {
    assert RowOk(q.rows[i], q.tally[i], cfg.maxAttempts);
    QueueTheorems.RowDiagram(q, s, i, cfg);
  }

  lemma LoggedIsFinished(w: InboxWorld, step: InboxStep, cfg: Config, i: Id)
    requires OnceInv(w, cfg) && InboxAllowed(w, step, WhileMatching) && !step.Commit?
    requires i in InboxApply(w, step, cfg).queue.rows && InboxApply(w, step, cfg).queue.rows[i].key in w.log
    ensures InboxApply(w, step, cfg).queue.rows[i].status == Finished
  {
    var s := Project(w, step);
    NewRows(w.queue, s, i, cfg);
    if i in w.queue.rows {
      RowCarries(w.queue, s, i, cfg);
      FinishedStays(w.queue, s, i, cfg);
    }
  }

  lemma OnceStepKeeps(w: InboxWorld, step: InboxStep, d: Discipline, cfg: Config)
    requires OnceInv(w, cfg) && cfg.maxAttempts >= 1 && !d.Anytime? && InboxAllowed(w, step, d)
    ensures OnceInv(InboxApply(w, step, cfg), cfg)
    ensures step.Commit? ==> !w.open[step.ticket].seen
  {
    InboxStepKeeps(w, step, cfg);
    StepKeeps(w.queue, Project(w, step), d, cfg);
    OnceStepFinishes(w, step, cfg);
  }

  lemma OnceStepFinishes(w: InboxWorld, step: InboxStep, cfg: Config)
    requires OnceInv(w, cfg) && InboxAllowed(w, step, WhileMatching)
    ensures step.Commit? ==> w.open[step.ticket].update !in w.log && !w.open[step.ticket].seen
    ensures var w' := InboxApply(w, step, cfg);
            && (forall u: int :: w'.effects[u] <= 1)
            && (forall i | i in w'.queue.rows && w'.queue.rows[i].key in w'.log :: w'.queue.rows[i].status == Finished)
  {
    var w' := InboxApply(w, step, cfg);
    if step.Commit? {
      assert Matches(w.queue.rows, step.ticket);
      CommitFinishes(w, step.ticket, step.handling, cfg, step.ticket.row);
    }
    forall i | i in w'.queue.rows && w'.queue.rows[i].key in w'.log ensures w'.queue.rows[i].status == Finished {
      if step.Commit? {
        CommitFinishes(w, step.ticket, step.handling, cfg, i);
      } else {
        LoggedIsFinished(w, step, cfg, i);
      }
    }
  }

  lemma {:induction false} OnceRunKeeps(w: InboxWorld, steps: seq<InboxStep>, d: Discipline, cfg: Config)
    requires OnceInv(w, cfg) && cfg.maxAttempts >= 1 && !d.Anytime? && IsInboxRun(w, steps, d, cfg)
    ensures OnceInv(InboxExec(w, steps, cfg), cfg) && w.log <= InboxExec(w, steps, cfg).log
    decreases |steps|
  {
    if steps != [] {
      OnceStepKeeps(w, steps[0], d, cfg);
      OnceRunKeeps(InboxApply(w, steps[0], cfg), steps[1..], d, cfg);
    }
  }

  /** Over every interleaving of duplicate webhooks, claims, looks into the log, commits, crashes, rollbacks, lease
      expiry, replay and retention, by workers that commit only while the row is theirs: an update has at most
      one committed effect, exactly when it is in the log, and a row is finished or deleted exactly then. */
  lemma AtMostOneEffect(now: int, steps: seq<InboxStep>, d: Discipline, cfg: Config, u: int)
    requires cfg.maxAttempts >= 1 && !d.Anytime? && IsInboxRun(InboxInit(now), steps, d, cfg)
    ensures var w := InboxExec(InboxInit(now), steps, cfg);
            && w.effects[u] == (if u in w.log then 1 else 0)
            && (forall i | i in w.queue.rows && w.queue.rows[i].key == u ::
                  w.queue.rows[i].status == Finished <==> u in w.log)
            && (forall i | i in w.queue.gone && w.queue.gone[i].key == u :: u in w.log)
  {
    OnceRunKeeps(InboxInit(now), steps, d, cfg);
    var w := InboxExec(InboxInit(now), steps, cfg);
    forall i | i in w.queue.rows && w.queue.rows[i].key == u && w.queue.rows[i].status == Finished ensures u in w.log {
      assert Logged(w.queue.rows[i], w.log);
    }
  }

  /** Once logged, an update never runs again: its webhook changes nothing, even after retention deleted the
      row, and no continuation adds an effect. */
  lemma ProcessedOnce(w: InboxWorld, steps: seq<InboxStep>, d: Discipline, cfg: Config, u: int)
    requires OnceInv(w, cfg) && cfg.maxAttempts >= 1 && !d.Anytime? && IsInboxRun(w, steps, d, cfg) && u in w.log
    ensures InboxApply(w, Webhook(u), cfg) == w
    ensures InboxExec(w, steps, cfg).effects[u] == w.effects[u] == 1
  {
    OnceRunKeeps(w, steps, d, cfg);
  }

  // ----- The service -----

  datatype WebhookResult = QueuedAs(id: Id) | Duplicate

  datatype InboxReplay = InboxReplayed | InboxNotFound

  datatype InboxResolve = InboxResolved | NothingToResolve | NotTerminal

  lemma TwoSteps(w: InboxWorld, a: InboxStep, b: InboxStep, cfg: Config)
    requires Tallied(w.queue)
    ensures InboxExec(w, [a, b], cfg) == InboxApply(InboxApply(w, a, cfg), b, cfg)
  {
    var w' := InboxApply(w, a, cfg);
    assert [a, b][1..] == [b] && [b][1..] == [];
    assert InboxExec(w', [b], cfg) == InboxExec(InboxApply(w', b, cfg), [], cfg);
  }

  class InboxService {
    const cfg: Config
    var now: int
    var nextId: Id
    var rows: map<Id, Row>
    var log: set<int>
    ghost var tickets: set<Ticket>
    ghost var tally: map<Id, Tally>
    ghost var gone: map<Id, Row>
    ghost var effects: multiset<int>
    ghost var open: map<Ticket, Attempt>

    ghost function State(): InboxWorld
      reads this
    {
      InboxWorld(World(now, nextId, rows, tickets, tally, gone), log, effects, open)
    }

    ghost predicate Valid()
      reads this
    {
      InboxInv(State())
    }

    constructor (cfg: Config, now: int)
      ensures Valid() && State() == InboxInit(now) && this.cfg == cfg
    {
      this.cfg, this.now := cfg, now;
      nextId, rows, log := 0, map[], {};
      tickets, tally, gone, effects, open := {}, map[], map[], multiset{}, map[];
    }

    method IsDuplicateUpdate(u: int) returns (dup: bool)
      ensures dup <==> u in log
    {
      dup := u in log;
    }

    /** True when the update was already in the log; a set insertion, so never twice. */
    method MarkUpdateProcessed(u: int) returns (already: bool)
      modifies this`log
      ensures already <==> u in old(log)
      ensures log == old(log) + {u}
    {
      already := u in log;
      log := log + {u};
    }

    method EnqueueWebhookUpdate(u: int) returns (r: WebhookResult)
      requires Valid()
      modifies this`rows, this`nextId, this`tally
      ensures Valid() && State() == InboxApply(old(State()), Webhook(u), cfg)
      ensures r == Duplicate <==> Present(old(State()), u)
      ensures r.QueuedAs? ==> r.id in rows && rows[r.id].key == u && rows[r.id].status == Pending
    {
      InboxStepKeeps(State(), Webhook(u), cfg);
      var dup := IsDuplicateUpdate(u);
      if dup || exists i :: i in rows && rows[i].key == u {
        return Duplicate;
      }
      rows := rows[nextId := NewRow(Update, u, None, now)];
      tally := tally[nextId := Tally(0, 0, 0, 0)];
      nextId := nextId + 1;
      r := QueuedAs(nextId - 1);
    }

    method ClaimRows(locked: set<Id>, owner: string) returns (claimed: seq<Id>)
      requires Valid()
      modifies this`rows, this`tickets, this`tally
      ensures Valid() && State() == InboxApply(old(State()), Other(Claim(locked, owner)), cfg)
      ensures forall i :: i in claimed <==>
                HasTurn(old(rows), locked, now, cfg.batchSize, i) && Handed(old(rows)[i], cfg.maxAttempts)
      ensures forall i | i in old(rows) :: i in rows && if HasTurn(old(rows), locked, now, cfg.batchSize, i)
                then ClaimMakes(old(rows)[i], rows[i], owner, now, cfg) else rows[i] == old(rows)[i]
    {
      InboxStepKeeps(State(), Other(Claim(locked, owner)), cfg);
      ghost var q := State().queue;
      ghost var ids := ClaimIds(rows, locked, now, cfg);
      rows, claimed := QueueClaim.ClaimRows(rows, locked, owner, now, cfg);
      tally := ClaimTally(q, ids, cfg);
      tickets := tickets + NewTickets(q.rows, ids, owner, now, cfg);
    }

    /** Process one claimed row with no other worker in between: skip the handler when the update is already
        logged, otherwise commit its effect, the log entry and the finished row together, or roll all three
        back. */
    method ProcessInboxRow(id: Id, ghost ticket: Ticket, handling: Handling) returns (processed: nat)
      requires Valid() && ticket.row == id && ticket in tickets && ticket !in open
      modifies this`rows, this`log, this`tickets, this`tally, this`effects, this`open
      ensures Valid()
      ensures State() == if id in old(rows) then InboxExec(old(State()), [Begin(ticket), Commit(ticket, handling)], cfg)
                         else InboxApply(old(State()), Begin(ticket), cfg)
      ensures processed == if id in old(rows) && old(rows)[id].key !in old(log) && handling.Handled? then 1 else 0
    {
      ghost var w := State();
      var present, seen := BeginInboxRow(id, ticket);
      if !present {
        return 0;
      }
      processed := CommitInboxRow(id, ticket, seen, handling);
      TwoSteps(w, Begin(ticket), Commit(ticket, handling), cfg);
    }

    /** Read the row and look its update up in the log. */
    method BeginInboxRow(id: Id, ghost ticket: Ticket) returns (present: bool, seen: bool)
      requires Valid() && ticket.row == id && ticket in tickets && ticket !in open
      modifies this`tickets, this`open
      ensures Valid() && State() == InboxApply(old(State()), Begin(ticket), cfg)
      ensures present <==> id in rows
      ensures present ==> ticket in open && open[ticket] == Attempt(rows[id].key, seen) && seen == (rows[id].key in log)
    {
      InboxStepKeeps(State(), Begin(ticket), cfg);
      if id !in rows {
        tickets := tickets - {ticket};
        return false, false;
      }
      present := true;
      seen := IsDuplicateUpdate(rows[id].key);
      open := open[ticket := Attempt(rows[id].key, seen)];
    }

    /** The commit, however much later: what it knows of the log is what it saw then. */
    method CommitInboxRow(id: Id, ghost ticket: Ticket, seen: bool, handling: Handling) returns (processed: nat)
      requires Valid() && ticket.row == id && ticket in open && open[ticket].seen == seen
      modifies this`rows, this`log, this`tickets, this`tally, this`effects, this`open
      ensures Valid() && State() == InboxApply(old(State()), Commit(ticket, handling), cfg)
      ensures processed == if Handles(old(State()), Commit(ticket, handling)).Some? then 1 else 0
    {
      InboxStepKeeps(State(), Commit(ticket, handling), cfg);
      assert AttemptOk(State(), ticket);
      assert id in rows ==> Logged(rows[id], log);
      processed := Finalize(id, ticket, seen, handling);
    }

    method Finalize(id: Id, ghost ticket: Ticket, seen: bool, handling: Handling) returns (processed: nat)
      requires Tallied(State().queue) && ticket.row == id && ticket in open && open[ticket].seen == seen
      requires id in rows ==> rows[id].kind == Update && rows[id].key == open[ticket].update
      modifies this`rows, this`log, this`tickets, this`tally, this`effects, this`open
      ensures State() == InboxApply(old(State()), Commit(ticket, handling), cfg)
      ensures processed == if Handles(old(State()), Commit(ticket, handling)).Some? then 1 else 0
    {
      tickets, open := tickets - {ticket}, open - {ticket};
      if id !in rows {
        return 0;
      }
      processed := FinishOrFail(id, seen, handling);
      tally := tally[id := DeliverTally(tally[id], CommitOutcome(seen, handling))];
    }

    /** The answer of the log insertion is ignored, as in the source. */
    method FinishOrFail(id: Id, seen: bool, handling: Handling) returns (processed: nat)
      requires id in rows && rows[id].kind == Update
      modifies this`rows, this`log, this`effects
      ensures var u := old(rows)[id].key;
              && processed == (if !seen && handling.Handled? then 1 else 0)
              && log == (if processed == 1 then old(log) + {u} else old(log))
              && effects == (if processed == 1 then old(effects) + multiset{u} else old(effects))
              && rows == old(rows)[id := DeliverRow(old(rows)[id], CommitOutcome(seen, handling), now, cfg.maxAttempts)]
    {
      if handling.WorkerLost? {
        return 0;
      }
      if seen {
        rows := rows[id := FinishRow(rows[id], None, now)];
        return 0;
      }
      if handling.Handled? {
        effects := effects + multiset{rows[id].key};
        var already := MarkUpdateProcessed(rows[id].key);
        rows := rows[id := FinishRow(rows[id], None, now)];
        return 1;
      }
      RecordInboxFailure(id, handling.error);
      return 0;
    }

    method RecordInboxFailure(id: Id, error: string)
      requires id in rows && rows[id].kind == Update
      modifies this`rows
      ensures rows == old(rows)[id := DeliverRow(old(rows)[id], Refused(error), now, cfg.maxAttempts)]
    {
      var row := rows[id].(attempts := rows[id].attempts + 1, lastError := Some(error),
                           leaseOwner := None, leasedUntil := None);
      if row.attempts >= cfg.maxAttempts {
        row := row.(status := Dead);
      } else {
        row := row.(status := Pending, nextAttemptAt := now + BackoffSeconds(row.attempts));
      }
      rows := rows[id := row];
    }

    method ReplayInbox(id: Id) returns (r: InboxReplay)
      requires Valid()
      modifies this`rows, this`tally
      ensures Valid() && State() == InboxApply(old(State()), Other(Replay(id, false)), cfg)
      ensures r == InboxReplayed <==> id in old(rows) && Unsettled(old(rows)[id])
    {
      InboxStepKeeps(State(), Other(Replay(id, false)), cfg);
      assert id in rows ==> Logged(rows[id], log);
      if id !in rows || rows[id].status != Dead || rows[id].resolvedAt.Some? {
        return InboxNotFound;
      }
      rows := rows[id := ReplayRow(rows[id], now)];
      tally := tally[id := Tally(0, 0, 0, 0)];
      return InboxReplayed;
    }

    /** Operator closes a dead row for good. */
    method ResolveRow(id: Id) returns (r: InboxResolve)
      requires Valid()
      modifies this`rows
      ensures Valid() && State() == InboxApply(old(State()), Other(Resolve(id)), cfg)
      ensures r == InboxResolved <==> id in old(rows) && Unsettled(old(rows)[id])
      ensures r == NothingToResolve <==> id !in old(rows) || old(rows)[id].resolvedAt.Some?
    {
      InboxStepKeeps(State(), Other(Resolve(id)), cfg);
      if id !in rows || rows[id].resolvedAt.Some? {
        return NothingToResolve;
      }
      if rows[id].status != Dead && rows[id].status != Uncertain {
        return NotTerminal;
      }
      rows := rows[id := rows[id].(resolvedAt := Some(now))];
      return InboxResolved;
    }

    /** Delete processed rows older than the cutoff, at most one batch. The log is never touched. */
    method RunRetention(cutoff: int, batch: nat, dryRun: bool) returns (deleted: nat, ghost victims: set<Id>)
      requires Valid()
      modifies this`rows, this`tally, this`gone
      ensures Valid() && InboxAllowed(old(State()), Other(Retain(victims, cutoff)), Anytime)
      ensures State() == InboxApply(old(State()), Other(Retain(victims, cutoff)), cfg)
      ensures deleted == |victims| <= batch && (dryRun ==> deleted == 0)
      ensures rows == old(rows) - victims && log == old(log)
      ensures forall i | i in victims :: i in old(rows) && SentBefore(old(rows)[i], cutoff)
      ensures !dryRun && deleted < batch ==>
                forall i | i in old(rows) && SentBefore(old(rows)[i], cutoff) :: i in victims
    {
      var expired := set i | i in rows && Removable(rows[i], cutoff);
      var picked: set<Id> := {};
      if !dryRun {
        picked := QueueClaim.PickBatch(expired, batch);
      }
      InboxStepKeeps(State(), Other(Retain(picked, cutoff)), cfg);
      DeleteRows(picked, cutoff);
      deleted, victims := |picked|, picked;
    }

    method DeleteRows(victims: set<Id>, ghost cutoff: int)
      requires Tallied(State().queue)
      modifies this`rows, this`tally, this`gone
      ensures State() == InboxApply(old(State()), Other(Retain(victims, cutoff)), cfg)
    {
      gone := gone + map i | i in victims && i in rows :: rows[i];
      rows := rows - victims;
      tally := tally - victims;
    }
  }
}
