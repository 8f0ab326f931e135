# Procurement bot: verified core

A Dafny 4.11 model of the parts of the procurement bot where a mistake costs money or a
supplier's patience: the two database-backed queues, the publication of client prices, the price
selection and its daily cache, the two rate limiters, the splitting of grouped price requests, and
the decision which request a supplier's message answers. `dafny verify dfyconfig.toml` checks it.

Money is in kopecks, time in seconds (queues, prices) or real seconds (limiters), confidence in
thousandths. A table is a map or a sequence, a unique index an atomic insert-if-absent, a database
transaction one step. A send to Telegram ends in one of four ways: accepted, refused with an error
text, lost before the call, lost after it.

## What is modelled

- **Leased queue** (`LeaseQueue`, `QueueEdges`, `QueueSafety`, `QueueTheorems`, `QueueDelays`, `QueueClaim`,
  `LateWorkers`): inbox and
  outbox rows, the claim with its leases and expiry handlers, delivery, operator replay and resolve, and
  retention, as a state machine over the whole table with a clock, the workers' in-memory tickets and a
  tally of what happened to each row. The services that drive it are the classes `Outbox.OutboxService`,
  which keeps the audit copies in `messages_out` beside the rows, and `Inbox.InboxService`, which adds the
  log of processed updates, the handler's effects, and what each worker saw in the log when it began
  (`LateAttempts`).
- **Client prices** (`Market`, `BestQuote`, `DailyPrice`, `Publication`, `PublishingService`): quote
  eligibility, best-quote selection in both modes, the daily projection and its reuse, and the
  selection table with first publication, repricing, better-late notices and provisional rows.
- **Limiters** (`Windows`, `Throttle`, `RateLimit`): the sliding windows of the Telegram throttle and
  of the in-memory rate limiter, with theorems over every history.
- **Grouped requests** (`Packing`, `Chunking`, `LineCodes`): the greedy split into messages, the printed
  line codes and the parsers that read them back.
- **Callback payloads** (`Callback`, `Decimals`): the `namespace:action:arg:page` protocol.
- **Binding** (`ProductMatch`, `ClearMatch`, `Binding`, `BindingRoutes`, `BindSession`): attribute scoring, the
  decision cascade, the table of its outcomes, and the session that asks the supplier.
- **Shared** (`Wrappers`, `Texts`, `Ordering`): options, letter case, splitting and stripping, Python's
  stable sort.

## Assumptions

- The completing write of a row is one atomic transaction, and `worker_max_attempts >= 1`. The commit of
  an inbox attempt whose row was deleted in the meantime fails and is rolled back.
- Neither the delivery nor the inbox commit compares the lease again, and the inbox commit does not look into
  the log again. The accounting, the measure of a row's changes and its bound, the leases and the
  terminal rows are therefore results for workers that complete a row only while it is theirs, or only
  until their leases run out. The two at-most-once results are given for late workers too: they hold as long
  as no ask or bargain is replayed while a worker still has it in hand (`CalmReplaysAskOnce`), and no attempt
  at an update begins while another is open (`ApartAttemptsOnce`); and in every state reached that way, the
  first step against this opens the way to a second send or a second effect (`ReplaySafeWhen`,
  `BeginSafeWhen`). The code checks neither. Of late workers it also holds that no message is lost
  (`NoMessageLost`), that every row moves along its diagram (`RowDiagram`) and rests for its retry delay
  (`NotBeforeRetry`), that with replays of that kind no row of any kind is sent more than the maximum
  (`CalmSendsBounded`), and that a sent, dead or uncertain row stays as it is exactly when no worker has it
  in hand (`SettledStaysWhen`).
- "In a way Telegram may have accepted" means: accepted, lost after the call, or refused with one of the
  four uncertain markers in the error text. Any other error text counts as not accepted. The client
  reports a transport failure by the name of its exception
  (backend/app/telegram/client.py:110-117), and a name without a marker, such as `ReadError`, counts as a
  definite refusal here as in the code. One send stands for one call of the client, retries inside it
  included.
- Requests are not published through the batch publication, whose rows carry no idempotency key.
- The clock of the limiters does not go back.

## Where the code departs from its documentation or from what one would expect

- First-price publication promises the first eligible same-day reply. The code looks at the earliest
  eligible quote of any day and gives up when that one is not from today, so a quote of yesterday that
  is still fresh blocks today's reply (`SameDayReplyPublished`, `YesterdayBlocksToday`).
- The better-late notice promises a later same-day quote. The code takes any eligible quote of any day, and stays
  silent when the published quote is itself the cheapest now (`NoticeAsPromised`, `YesterdayNoticed`).
- The callback parser is documented as strict, but accepts every spelling Python's `int` accepts
  (`DecodedCanonical`, `PlusSignAccepted`).
- The page of a callback is documented as non-negative, but a negative one is encoded and decoded
  (`NegativePageWhen`, `NegativePageAccepted`).
- A send that is refused after its lease ran out can take a row that another worker has sent meanwhile back
  into the queue (`LateDeliveryMoves`, `LateRefusalResends`).
- Line codes read back up to line 99; from line 100 on, the batch number is taken for a request id
  (`LineCodeLimit`).
- Of the four patterns for a written-out request id the last two never decide anything (`TwoPatternsDecide`).
- The retry delay never reaches its cap of 300 seconds (`BackoffDoubles`).
- The two formulas for a quote's purchase price differ on a bargain price of zero; no eligible quote has
  one (`FormulasDiffer`, `FormulasAgreeWhenEligible`).
- The daily cache checks its source quote against the source's own request, so what it attaches is
  eligible exactly when the target request is still open (`AttachedIsEligible`).
- The "no matching model" branch of the single-candidate check cannot be reached (`WrongModelDismissed`).
- The attribute route sorts by score alone: without a positive margin the first listed of two equal
  requests is bound (`OrderFreeWhen`).
- Repricing accepts any different quote, dearer ones too, and refuses the published quote itself even after
  its price changed (`ConfirmReprice`).

## Model

| member | source | states |
|---|---|---|
| `LeaseQueue.MarkerAnywhere` | backend/app/services/outbox_service.py:34-46 | an error text counts as uncertain delivery wherever and in whatever case a marker stands, for asks and bargains only |
| `LeaseQueue.BackoffDoubles` | backend/app/services/outbox_service.py:30-31 | the delay starts at one second, doubles for eight attempts and stays at 256 |
| `LeaseQueue.LowestIds` | backend/app/services/queue_claim.py:51-53 | order by id with a limit: ascending, within the limit, and nothing lower left out |
| `QueueClaim.OnExpired` | backend/app/services/outbox_service.py:133-153 | a lost lease makes an ask or bargain uncertain without using an attempt; any other row uses one and dies at the maximum |
| `QueueClaim.LeaseOne` | backend/app/services/queue_claim.py:67-75 | one row of the claim loop: kept rows carry the claimer's name and the new lease end; a row up for a claim goes along its edge |
| `QueueClaim.LeaseRows` | backend/app/services/queue_claim.py:59-77 | the loop, in any order of the rows, equals the simultaneous claim of all; returns exactly the kept rows, each once |
| `QueueClaim.ClaimRows` | backend/app/services/queue_claim.py:16-77 | the whole claim: exactly the rows whose turn it is change, each along its edge, and exactly those that may run come back; a turn is an unlocked row that is pending, due and unleased or processing under a lease that ran out, with fewer such rows before it than a batch holds |
| `QueueClaim.PickBatch` | backend/app/services/retention_service.py:69-79 | an unordered limit: any rows, and all of them when fewer than the limit |
| `QueueTheorems.ClaimTakesLowest` | backend/app/services/queue_claim.py:32-54 | on the fields of the rows: a claim takes a row exactly when it is unlocked, pending, due and without a live lease or processing under one that ran out, and fewer than a batch of such rows have lower ids |
| `QueueTheorems.ClaimsDisjoint` | backend/app/services/queue_claim.py:51-76 | a concurrent claim (row locks) and a later one (leases) get none of the same rows |
| `QueueTheorems.LeaseExclusive` | backend/app/services/queue_claim.py:66-77 | for workers that complete a row only while it is theirs: in every reachable state a row with a live lease is held by exactly one worker |
| `QueueTheorems.RowDiagram` | backend/app/services/outbox_service.py:190-283 | late workers included: every step takes every row along its one edge, with the exact status, attempts, times, errors and lease, or deletes it sent and past the cutoff |
| `QueueTheorems.NewRowIs` | backend/app/services/outbox_service.py:67-84 | a row appears exactly by being enqueued under a key nobody has: waiting, due at once, nothing tried |
| `QueueTheorems.TicketsAre` | backend/app/services/queue_claim.py:66-77 | a claim hands out one lease for each row whose turn it is and which may run; deliveries and losses take theirs back |
| `QueueEdges.DeliveryEdge` | backend/app/services/outbox_service.py:198-283 | one delivery in the fields of the row, for each of its four outcomes |
| `QueueEdges.MarkerWhen` | backend/app/services/outbox_service.py:34-46 | the uncertain texts are those that hold one of the four markers in any case of its letters |
| `QueueDelays.NotBeforeRetry` | backend/app/services/outbox_service.py:268-283 | over every run, late deliveries included: a row sent back with its n-th attempt used is not claimed before the n-th delay is over, unless it is replayed |
| `QueueDelays.DueAfterRetry` | backend/app/services/queue_claim.py:35-42 | and it is due exactly from then on |
| `QueueTheorems.RankDrops` | backend/app/services/outbox_service.py:244-283 | for workers that complete a row only while it is theirs: without a replay every change of status or attempts lowers a measure of at most twice the maximum |
| `QueueSafety.StepKeeps` | backend/app/services/queue_claim.py:66-76 | every step keeps the accounting, the leases, the unique keys and the rows, when deliveries match their leases |
| `QueueSafety.RunKeeps` | backend/app/services/queue_claim.py:66-76 | so does every run |
| `QueueTheorems.AtMostOneRiskySend` | backend/app/services/outbox_service.py:190-268 | for workers that deliver only on matching rows or live leases: between two replays an ask or bargain is sent at most once in a way Telegram may have accepted; no row is sent more than the maximum or changes more than twice that |
| `QueueTheorems.PromptRunsMatch` | backend/app/services/outbox_service.py:165-187 | workers that stop with their leases only deliver while the row is still theirs |
| `LateWorkers.CalmReplaysAskOnce` | backend/app/services/outbox_service.py:190-268 | deliveries may come at any time, late workers included: between two replays an ask or bargain is still sent at most once in a way Telegram may have accepted, if no replay finds a worker with the row in hand |
| `LateWorkers.RunOrderly` | backend/app/services/outbox_service.py:133-145 | in such runs an ask or bargain has at most one worker, a pending one none, and none after a risky send |
| `LateWorkers.ReplaySafeWhen` | backend/app/services/dlq_service.py:93-112 | replaying an ask or bargain leaves every continuation with at most one risky send exactly when no worker has it in hand |
| `LateWorkers.ReplayedTwice` | backend/app/services/outbox_service.py:198-225 | from any state, replaying a row a worker has in hand has a continuation with two risky sends |
| `LateWorkers.LateWorkerSendsTwice` | backend/app/services/outbox_service.py:198-225 | such a state is reached from an empty queue by one lease running out |
| `LateWorkers.CalmSendsBounded` | backend/app/services/outbox_service.py:190-283 | deliveries may come at any time: between two replays no row of any kind is sent more than the maximum, if no replay finds a worker with the row in hand |
| `LateWorkers.LateDeliveryMoves` | backend/app/services/outbox_service.py:198-283 | a delivery on a sent row takes it out of its status exactly when it was refused, and back into the queue exactly when attempts are left and the refusal is not an uncertain one |
| `LateWorkers.LateRefusalResends` | backend/app/services/outbox_service.py:244-283 | from an empty queue and without a replay: a client price sent by one worker is queued again by the refusal of a late one |
| `LateWorkers.SettledStaysWhen` | backend/app/services/outbox_service.py:198-283 | in any state, a sent, dead or uncertain row stays as it is, a resolution or its deletion aside, in every continuation without its replay exactly when no worker has it in hand |
| `QueueTheorems.ExactAccounting` | backend/app/services/outbox_service.py:146-153 | for workers that complete a row only while it is theirs: claims against attempts in every reachable state, by status, and sends never above claims |
| `QueueTheorems.NoMessageLost` | backend/app/services/retention_service.py:83-98 | late workers included: every row ever enqueued is there or was deleted as sent; its key is unique |
| `QueueTheorems.TerminalStays` | backend/app/services/dlq_service.py:93-169 | for workers that complete a row only while it is theirs: sent and resolved rows never change again; an open failure leaves its status only by a replay |
| `Outbox.OutboxService.InsertRow` | backend/app/services/outbox_service.py:67-84 | insert unless the dedupe key exists, else the row that has it |
| `Outbox.OutboxService.EnqueueTelegramMessage` | backend/app/services/outbox_service.py:49-118 | a new key queues the row and its audit copy; a taken key gives back the message queued for it |
| `Outbox.OutboxService.ClaimRows` | backend/app/services/outbox_service.py:155-166 | the outbox claim is the queue's claim step, returns exactly the rows it hands over, and gives each a lease |
| `Outbox.TakenWhen` | backend/app/services/outbox_service.py:155-166 | handed over are exactly the rows whose turn it is and which may run, on the fields of the row |
| `Outbox.OutboxService.DeliverOutboxRow` | backend/app/services/outbox_service.py:190-241 | one delivery is the queue's deliver step, whatever its outcome; the audit copy is written sent with its message id, or failed with the error; row and copy stay in agreement |
| `Outbox.OutboxService.MarkSent` | backend/app/services/outbox_service.py:216-226 | a sent row and its audit copy carry the same Telegram message id |
| `Outbox.OutboxService.RecordOutboxSendError` | backend/app/services/outbox_service.py:244-283 | an uncertain error parks an ask or bargain; any other uses an attempt and retries later or dies |
| `Outbox.OutboxService.ProcessOutboxBatch` | backend/app/services/outbox_service.py:121-187 | one pass claims exactly the selected kept rows and delivers them one by one, each with its pause and outcome, until rows or script run out; it returns the number accepted |
| `Outbox.DeliveriesAt` | backend/app/services/outbox_service.py:170-187 | the k-th delivery of a pass is the k-th claimed row with the k-th outcome after the k-th pause |
| `Outbox.PassIsRun` | backend/app/services/outbox_service.py:155-187 | a pass is a run of the queue from its claim on, and a prompt one when it is over before its leases |
| `Outbox.OutboxService.ReplayOutbox` | backend/app/services/dlq_service.py:93-122 | only open failures are replayed, an uncertain ask or bargain only when confirmed |
| `Outbox.OutboxService.ResolveRow` | backend/app/services/dlq_service.py:152-169 | only open failures are resolved, once |
| `Outbox.OutboxService.RunRetention` | backend/app/services/retention_service.py:83-98 | deletes only sent rows past the cutoff, at most a batch, all of them when they fit, none on a dry run |
| `Outbox.AuditRewrite` | backend/app/services/outbox_service.py:221-224 | rewriting a row with its copy keeps every other copy in agreement |
| `Inbox.AtMostOneEffect` | backend/app/services/inbox_service.py:101-134 | over all runs in which an attempt looks into the log and commits later without looking again, by workers that commit only while the row is theirs: an update has at most one effect, exactly when it is logged, and its row is finished exactly then |
| `Inbox.OnceStepFinishes` | backend/app/services/inbox_service.py:110-120 | while the row is held its update cannot have been logged by anyone else, so the look into the log stays true until the commit |
| `Inbox.ProcessedOnce` | backend/app/utils/idempotency.py:10-38 | once logged, an update's webhook changes nothing and no continuation by such workers adds an effect |
| `Inbox.NoUpdateLost` | backend/app/services/inbox_service.py:20-48 | an update once received is logged or still has its row |
| `Inbox.InboxRefinesQueue` | backend/app/services/inbox_service.py:68-98 | every inbox run is a queue run underneath, under the same discipline |
| `Inbox.InboxAccounting` | backend/app/services/inbox_service.py:51-61 | for workers that complete a row only while it is theirs: inbox rows obey the same accounting and are never uncertain |
| `Inbox.WebhookMakes` | backend/app/services/inbox_service.py:20-48 | a webhook changes nothing when its update is logged or queued, and otherwise adds one waiting row, due at once |
| `Inbox.BeginMakes` | backend/app/services/inbox_service.py:101-113 | beginning an attempt only notes the update and whether it is logged |
| `Inbox.CommitMakes` | backend/app/services/inbox_service.py:110-168 | each commit in the fields: effect, log entry and finished row together, a failure as an attempt used, a lost worker as nothing |
| `Inbox.CommitWithoutRow` | backend/app/services/inbox_service.py:101-134 | a commit whose row was deleted changes neither log, effects nor rows |
| `Inbox.InboxService.EnqueueWebhookUpdate` | backend/app/services/inbox_service.py:20-48 | duplicate exactly when the update is logged or has a row, else a new pending row |
| `Inbox.InboxService.ClaimRows` | backend/app/services/inbox_service.py:76-87 | the inbox claim is the queue's claim step: exactly the rows whose turn it is change, and exactly those that may run come back |
| `Inbox.InboxService.BeginInboxRow` | backend/app/services/inbox_service.py:101-113 | reads the row and remembers whether its update was logged |
| `Inbox.InboxService.CommitInboxRow` | backend/app/services/inbox_service.py:110-127 | the commit by what was seen then: handler effect, log entry and finished row together or not at all, whatever the log says now |
| `Inbox.InboxService.ProcessInboxRow` | backend/app/services/inbox_service.py:101-127 | both without anyone in between: one processed exactly when the row is there, its update unlogged and the handler ran |
| `Inbox.InboxService.RecordInboxFailure` | backend/app/services/inbox_service.py:137-168 | a failure uses an attempt and retries later or dies |
| `Inbox.InboxService.ReplayInbox` | backend/app/services/dlq_service.py:64-90 | only open dead rows are replayed |
| `Inbox.InboxService.ResolveRow` | backend/app/services/dlq_service.py:133-151 | only open dead rows are resolved |
| `Inbox.InboxService.RunRetention` | backend/app/services/retention_service.py:69-82 | deletes only processed rows past the cutoff, at most a batch, all of them when they fit, none on a dry run, and leaves the log alone |
| `LateAttempts.ApartAttemptsOnce` | backend/app/services/inbox_service.py:110-120 | commits may come at any time, late workers included: an update still has at most one effect if no attempt at it begins while another is open |
| `LateAttempts.BeginSafeWhen` | backend/app/services/inbox_service.py:110-120 | beginning an attempt leaves every continuation with at most one effect per update exactly when no other attempt at the update is open |
| `LateAttempts.OverlapDoubles` | backend/app/services/inbox_service.py:116-120 | from any state, an attempt that overlaps another has a continuation in which both commit |
| `LateAttempts.OverlapNeedsExpiry` | backend/app/services/queue_claim.py:66-76 | a worker with a live lease overlaps only with one whose lease has run out |
| `LateAttempts.LateWorkerHandlesTwice` | backend/app/services/inbox_service.py:110-120 | such an overlap, and a second effect, is reached from an empty inbox by one lease running out |
| `Market.DayStart` | backend/app/utils/business_time.py:9-23 | the business day holding a moment, at a fixed offset |
| `Market.TodayWhen` | backend/app/services/first_price_publication_service.py:156-161 | a quote is of today exactly when its day number is that of the moment |
| `Market.FormulasDiffer` | backend/app/services/quote_eligibility.py:12-17 | the two price formulas differ exactly on a zero bargain price |
| `Market.FormulasAgreeWhenEligible` | backend/app/services/quote_eligibility.py:43-47 | on eligible quotes they agree, on a positive price within the sanity bounds |
| `Market.RejectedFor` | backend/app/services/quote_eligibility.py:20-64 | each reason, on the fields of quote, request and supplier, is given exactly when it is the first in the order of the rules to speak against the quote; the quote may take part exactly when none does |
| `BestQuote.WinnerIsLeast` | backend/app/services/best_quote_service.py:110-116 | the winner is the lexicographic least eligible quote in either mode, and exists exactly when some quote is eligible |
| `BestQuote.WinnerIsBest` | backend/app/services/best_quote_service.py:97-116 | the same on the fields: the winner is without fault and ahead of every other such quote by price, time and id |
| `BestQuote.WinnerIgnoresOrder` | backend/app/services/best_quote_service.py:64-70 | the winner does not depend on the order of the quotes |
| `BestQuote.MoreQuotesLowest` | backend/app/services/best_quote_service.py:114-116 | one more quote never raises the lowest price |
| `BestQuote.MoreQuotesFirst` | backend/app/services/best_quote_service.py:110-112 | a later quote never displaces the first answer |
| `BestQuote.RejectionsPlace` | backend/app/services/best_quote_service.py:74-94 | every quote is either eligible or rejected with its own reason |
| `BestQuote.JudgeQuotes` | backend/app/services/best_quote_service.py:71-94 | the loop builds exactly the shortlist and the rejections |
| `BestQuote.SelectBestQuote` | backend/app/services/best_quote_service.py:42-135 | on the fields of the quotes: a quote wins only without any of the ten faults and ahead of every other such quote, none wins exactly when each has a fault, every rejected quote is listed with its first fault; purchase price, client price |
| `DailyPrice.ProjectionIsFold` | backend/app/services/daily_sku_price_service.py:48-106 | one row per day and SKU: the least price seen, the first quote to reach it, and as version the number of strict drops |
| `DailyPrice.PriceDesk.UpsertDailyFromQuote` | backend/app/services/daily_sku_price_service.py:48-106 | the projection stays the fold of everything upserted; a lower or first price rewrites the row field by field, any other leaves it |
| `DailyPrice.StatedMeans` | backend/app/services/quote_service.py:77-119 | field by field what was said, else what was known; what passes the gate is trusted; without a price neither price nor observation moves; a counter-offer leaves the initial price |
| `DailyPrice.PriceDesk.UpsertQuote` | backend/app/services/quote_service.py:56-158 | writes exactly what passes the gate to the one quote of the request and the supplier, field by field as said or as known before; prices a request exactly from open or awaiting answers once it has an initial price; feeds the projection |
| `DailyPrice.OutOfStockNeverWins` | backend/app/services/quote_service.py:116-117 | a quote said to be unavailable wins no selection in either mode, until the supplier says otherwise |
| `DailyPrice.ReusableWhen` | backend/app/services/daily_sku_price_service.py:109-206 | a quote is reusable exactly when a fresh row of today names it and it is of today, without fault for its own request, and covers this one |
| `DailyPrice.LowestIsReused` | backend/app/services/daily_sku_price_service.py:48-206 | another request of the SKU gets the day's lowest quote exactly while the row is fresh, the quote is still eligible and its quantity is enough |
| `DailyPrice.AttachedIsEligible` | backend/app/services/daily_sku_price_service.py:136-206 | what the cache attaches is of today, covers the quantity and the SKU, and is eligible for the request exactly when it is open |
| `DailyPrice.DirectSelectionSeesIt` | backend/app/services/daily_sku_price_service.py:181-233 | direct selection over quotes including the attached one finds a winner no dearer than it |
| `DailyPrice.PriceDesk.AttachFreshDailyQuote` | backend/app/services/daily_sku_price_service.py:181-233 | attaches exactly when a source is reusable, over the supplier's own quote if there is one, and changes no other quote |
| `Publication.PublishFirstKeeps` | backend/app/services/first_price_publication_service.py:80-119 | a first publication keeps every request's history, links and mail in step |
| `Publication.RepriceKeeps` | backend/app/services/reprice_service.py:94-143 | so does a reprice |
| `Publication.RunKeeps` | backend/app/services/first_price_publication_service.py:137-153 | so does every run |
| `Publication.PublishFirstMakes` | backend/app/services/first_price_publication_service.py:80-119 | a first publication adds the chosen price as the request's one published row, with a version above all before it, and tells it to the client; every other row stays |
| `Publication.RepriceMakes` | backend/app/services/reprice_service.py:108-143 | a reprice does the same, and the row it replaces ends superseded and points to it |
| `Publication.RepriceRefused` | backend/app/services/reprice_service.py:94-105 | without a published row of another quote nothing changes |
| `Publication.ProvisionMakes` | backend/app/services/best_quote_service.py:146-178 | a provisional row is added with the next version, and the newest one before it ends superseded |
| `Publication.NoticesMake` | backend/app/services/reprice_service.py:74-83 | notices queue one message a chat with the better price, where none is queued yet, and nothing else |
| `Publication.PricesAsTold` | backend/app/services/first_price_publication_service.py:76-118 | over every run: the k-th client message tells the client price of the k-th row ever published, the last one that of the published row |
| `Publication.OneFirstPrice` | backend/app/services/first_price_publication_service.py:80-119 | over any run, retention included: at most one first price, and client messages queued = rows published = first publications + reprices |
| `Publication.OnePublishedRow` | backend/app/services/first_price_publication_service.py:203-206 | at most one published row and one keyed row per request, in every reachable state |
| `Publication.SupersededChain` | backend/app/services/reprice_service.py:107-132 | the links visit every published row once, versions increasing, from the keyed first to the one current row |
| `Publication.ClientMailDistinct` | backend/app/services/reprice_service.py:134-142 | no two client messages of a request share a key |
| `Publication.FreshFirstKey` | backend/app/services/first_price_publication_service.py:137-153 | a first-price key free in the selections was never mailed, even after retention |
| `Publication.FreshRepriceKey` | backend/app/services/first_price_publication_service.py:212-219 | the next reprice key was never mailed |
| `Publication.FollowHistory` | backend/app/services/reprice_service.py:132-132 | following the links from a published row gives the rest of the history |
| `Publication.MailCounts` | backend/app/services/reprice_service.py:86-143 | from any good state, mail grows by exactly the successful publications and reprices |
| `Publication.LateMailKeeps` | backend/app/services/reprice_service.py:73-83 | notices to operators leave the client mail alone |
| `Publication.KeyTextInjective` | backend/app/services/reprice_service.py:26-30 | different keys print differently |
| `PublishingService.SameDayReplyPublished` | backend/app/services/first_price_publication_service.py:50-78 | something is published exactly when a quote is eligible today and none is still eligible from an earlier day; it is then the earliest of today |
| `PublishingService.YesterdayBlocksToday` | backend/app/services/first_price_publication_service.py:64-78 | a concrete pair of quotes for which the promised publication does not happen |
| `PublishingService.ChooseFirst` | backend/app/services/first_price_publication_service.py:59-78 | the earliest eligible quote, only when of today and the request open |
| `PublishingService.ChooseBest` | backend/app/services/reprice_service.py:97-99 | the lowest eligible quote |
| `PublishingService.PublicationDesk.InsertPublishedSelection` | backend/app/services/first_price_publication_service.py:164-209 | inserts exactly when the idempotency key is free, the choice as it is, with a version above all before it |
| `PublishingService.PublicationDesk.EnqueueClientMessage` | backend/app/services/first_price_publication_service.py:122-153 | queues exactly when the dedupe key is free |
| `PublishingService.PublicationDesk.PublishFirstValidPrice` | backend/app/services/first_price_publication_service.py:43-119 | publishes exactly when enabled, a first choice exists and the key is free; then the one published row sells the earliest sound quote, of today, at its price plus markup, the client is told that price, and nothing else changes |
| `PublishingService.PublicationDesk.PublishChoice` | backend/app/services/first_price_publication_service.py:80-113 | the publishing transaction: all three writes or none |
| `PublishingService.PublicationDesk.ConfirmReprice` | backend/app/services/reprice_service.py:86-163 | reprices exactly when the best quote is another than the published one; then the one published row sells the best sound quote at its price plus markup, the client is told, and the old row points to it |
| `PublishingService.PublicationDesk.RepriceTo` | backend/app/services/reprice_service.py:107-143 | supersede, add, link and mail make the machine's reprice step |
| `PublishingService.NoticeWhen` | backend/app/services/reprice_service.py:45-51 | operators are told exactly when some eligible quote of whatever day is cheaper than the published price and the published quote is not itself the cheapest |
| `PublishingService.NoticeAsPromised` | backend/app/services/reprice_service.py:38-51 | exactly when this agrees with the documented later same-day quote |
| `PublishingService.YesterdayNoticed` | backend/app/services/reprice_service.py:38-51 | a price published in the evening, undercut the same evening: a notice after midnight though nothing cheaper came that day |
| `PublishingService.PublicationDesk.NotifyBetterLatePrice` | backend/app/services/reprice_service.py:33-83 | notifies exactly when enabled and another quote is strictly cheaper, one message a chat with its price; selections stay |
| `PublishingService.PublicationDesk.UpsertProvisionalSelection` | backend/app/services/best_quote_service.py:138-178 | adds the provisional row with the next version; the newest one before it ends superseded, published rows stay |
| `Windows.WindowBound` | backend/app/telegram/throttle.py:37-40 | spaced admissions never exceed the limit in any closed window |
| `Windows.TrimmedIsWindow` | backend/app/telegram/throttle.py:36-40 | the trimmed deque is exactly the last closed window |
| `Throttle.WindowsHold` | backend/app/telegram/throttle.py:18-46 | in every history any closed second holds at most the global limit of sends and the per-chat limit of any chat |
| `Throttle.AdmittedWhenRoom` | backend/app/telegram/throttle.py:21-29 | a caller is admitted exactly when neither window is full |
| `Throttle.ThirdPassAdmits` | backend/app/telegram/throttle.py:20-34 | from every reachable state, whoever slept at least the asked time after each of two refusals is admitted at the third pass |
| `Throttle.TwoSleepsSuffice` | backend/app/telegram/throttle.py:18-34 | a lone caller's loop ends admitted after at most two sleeps, however much longer they take |
| `Throttle.TwoSleepsNeeded` | backend/app/telegram/throttle.py:31-46 | two sleeps can be needed: the delay ends at the closed edge of the window |
| `Throttle.PauseIsLeast` | backend/app/telegram/throttle.py:30-46 | the asked sleep is the least that is a nap and lets both oldest sends grow one second old |
| `Throttle.TelegramThrottle.EvictBucket` | backend/app/telegram/throttle.py:36-40 | the loop drops exactly the old prefix |
| `Throttle.TelegramThrottle.Pass` | backend/app/telegram/throttle.py:20-33 | one pass under the lock is the machine's attempt: no delay exactly when admitted, else the longer of both delays and the minimum |
| `Throttle.TelegramThrottle.Wait` | backend/app/telegram/throttle.py:18-34 | the loop goes through exactly the passes and sleeps of the lone caller, counts the refused passes, and sleeps at most twice |
| `RateLimit.WindowHolds` | backend/app/middleware/rate_limit.py:31-37 | any closed window holds at most the limit of calls accepted since the key's last eviction |
| `RateLimit.AcceptedWhenRoom` | backend/app/middleware/rate_limit.py:31-37 | a call is accepted exactly when the window ending now has room |
| `RateLimit.LeastRecentlyUsedGoes` | backend/app/middleware/rate_limit.py:23-30 | never more than the maximum of keys; only a new key at a full dictionary evicts, and only the least recently used one |
| `RateLimit.InMemoryRateLimiter.TouchKey` | backend/app/middleware/rate_limit.py:23-30 | the eviction loop and the move to the end |
| `RateLimit.InMemoryRateLimiter.TrimBucket` | backend/app/middleware/rate_limit.py:31-33 | the trimming loop drops exactly the old prefix |
| `RateLimit.InMemoryRateLimiter.Allow` | backend/app/middleware/rate_limit.py:21-37 | one call is the machine's step and keeps keys in order of use |
| `Packing.NextChunk` | backend/app/services/supplier_rfq_batch_service.py:47-50 | when a line does not fit, no split with one more chunk gets further |
| `Packing.Cheapest` | backend/app/services/supplier_rfq_batch_service.py:44-55 | a greedy packing is a split and uses the fewest chunks |
| `Chunking.ChunkLines` | backend/app/services/supplier_rfq_batch_service.py:33-55 | lines come back in order, no empty chunk, each a single line or within the limit, and no other such split is shorter |
| `Chunking.LineLengthIs` | backend/app/services/supplier_rfq_batch_service.py:29-46 | the length of a printed line, its text and line feed at the end |
| `Chunking.CopiedLineUnderstood` | backend/app/services/supplier_rfq_batch_service.py:45-46 | a copied message line reads back as its code and never as a request id |
| `LineCodes.LineCodeRoundTrip` | backend/app/services/explicit_request_parser.py:7-15 | up to line 99 a printed code leading a text is read back, and not as a request id |
| `LineCodes.LineCodeLimit` | backend/app/services/supplier_rfq_batch_service.py:29-30 | reads back exactly up to line 99; beyond, the batch number becomes a request id |
| `LineCodes.TwoPatternsDecide` | backend/app/services/explicit_request_parser.py:18-36 | the third and fourth pattern never decide |
| `LineCodes.LineCodeWhen` | backend/app/services/explicit_request_parser.py:7 | what the line-code pattern matches at a place, as a decomposition of the text |
| `LineCodes.NumberWhen` | backend/app/services/explicit_request_parser.py:19 | what the hash pattern matches |
| `LineCodes.RequestWordWhen` | backend/app/services/explicit_request_parser.py:20 | what the pattern with the word for a request matches |
| `LineCodes.LeftmostLine` | backend/app/services/explicit_request_parser.py:12 | the search answers with the leftmost match |
| `Callback.RoundTrip` | backend/app/telegram/keyboards.py:47-65 | every callback that can be encoded decodes to itself, negative numbers included, within 64 characters |
| `Callback.PayloadIsAscii` | backend/app/telegram/keyboards.py:25-29 | payloads are ASCII, so characters are bytes |
| `Callback.Injective` | backend/app/telegram/keyboards.py:47-48 | different callbacks have different payloads |
| `Callback.EncodeFits` | backend/app/telegram/keyboards.py:25-29 | encoding fails exactly on length, never for numbers of at most 21 characters together |
| `Decimals.PrintedWhenCanonical` | backend/app/telegram/keyboards.py:57-60 | of the spellings of a number that `int` reads, printing gives back exactly the one without plus, leading zero, underscore or space |
| `Decimals.SpellingsRead` | backend/app/telegram/keyboards.py:57-60 | an underscore between two runs of digits and spaces around them are passed over |
| `Callback.DecodedCanonical` | backend/app/telegram/keyboards.py:50-65 | a decoded payload encodes back to itself exactly when its two numbers are spelled that way and it is at most 64 characters |
| `Callback.AnySpellingAccepted` | backend/app/telegram/keyboards.py:57-63 | any spelling of the numbers that `int` reads is accepted |
| `Callback.DecodesWhen` | backend/app/telegram/keyboards.py:50-65 | a payload is read exactly when it has four parts, names of up to 16 and 24 allowed characters, and two numbers `int` reads; these become its fields |
| `Callback.PlusSignAccepted` | backend/app/telegram/keyboards.py:11-13 | a plus sign is decoded and never produced |
| `Callback.NegativePageWhen` | backend/app/telegram/keyboards.py:9-63 | a decoded page is negative exactly when the fourth part, spaces aside, starts with a minus and holds a digit other than zero |
| `Callback.NegativePageAccepted` | backend/app/telegram/keyboards.py:47-65 | page minus one is encoded and decoded under any names |
| `ProductMatch.ModelIdentityConflicts` | backend/app/parsers/product_normalizer.py:548-569 | exactly the clashing identity fields |
| `ProductMatch.DetectProductContradictions` | backend/app/parsers/product_normalizer.py:572-593 | exactly the clashing fields of both kinds |
| `ProductMatch.ContradictionMeans` | backend/app/parsers/product_normalizer.py:548-593 | the eight comparisons, field by field: identity exactly, other details but for the case of letters |
| `ProductMatch.AttrsMatchScore` | backend/app/parsers/product_normalizer.py:461-522 | the score accumulated in the source's order |
| `ProductMatch.ScoreMeans` | backend/app/parsers/product_normalizer.py:465-522 | excluded exactly on a mismatch of named products; at most six, and six only when all five details agree |
| `ProductMatch.DetailsAdd` | backend/app/parsers/product_normalizer.py:496-511 | detail by detail: storage is worth two points, color, SIM, region and quantity one each, and nothing else any |
| `ProductMatch.ScoreWhen` | backend/app/parsers/product_normalizer.py:465-522 | the score exactly: excluded on a difference in family, number or variant, else the points, else two for a contained model text |
| `ProductMatch.StorageOutweighsColor` | backend/app/parsers/product_normalizer.py:496-501 | a request agreeing in storage alone scores two, one agreeing in color alone one |
| `ClearMatch.FindBestMatch` | backend/app/services/reply_binding_service.py:120-146 | the scoring loop, the sort and the margin test |
| `ClearMatch.OverlapAdds` | backend/app/services/reply_binding_service.py:130-135 | the text route adds the overlap point for point, the attribute route ignores it |
| `ClearMatch.BestMatchIsBest` | backend/app/services/reply_binding_service.py:136-145 | a match is a candidate, not excluded, scores enough, and nobody beats it |
| `ClearMatch.BestMatchIsClear` | backend/app/services/reply_binding_service.py:136-146 | with a positive margin the match is exactly the request that leads all others by it |
| `ClearMatch.MatchWhen` | backend/app/services/reply_binding_service.py:126-146 | for any settings and any list: the match is exactly the candidate that is good enough and ahead of every other by score, id or place, and by the margin |
| `ClearMatch.TextIgnoresOrder` | backend/app/services/reply_binding_service.py:136-146 | the text match is the same for every order of the candidates, for any settings |
| `ClearMatch.AttrsIgnoreOrder` | backend/app/services/reply_binding_service.py:575-590 | so is the attribute match under a positive margin or an unreachable score |
| `ClearMatch.FirstListedWins` | backend/app/services/reply_binding_service.py:582-590 | otherwise the first listed of two equal requests wins |
| `Binding.NarrowedFits` | backend/app/services/reply_binding_service.py:99-117 | narrowing keeps exactly the non-conflicting requests, and gives up exactly when the message names a model and all conflict |
| `Binding.CompatibleGrows` | backend/app/services/reply_binding_service.py:99-117 | the requests that fit stay in the order they came |
| `Binding.ResolveSingle` | backend/app/services/reply_binding_service.py:482-554 | the single-candidate rules |
| `Binding.ResolveByScore` | backend/app/services/reply_binding_service.py:556-675 | text, attributes, classifier and language model, in this order |
| `Binding.ResolveBinding` | backend/app/services/reply_binding_service.py:280-675 | the whole cascade in the source's order of tests |
| `BindingRoutes.DecidedWhen` | backend/app/services/reply_binding_service.py:280-675 | the whole decision as a table of 24 ways, each with its exact condition on the inputs and its answer: something is decided exactly when a way the message goes answers it |
| `BindingRoutes.EveryMessageGoes` | backend/app/services/reply_binding_service.py:280-675 | every message goes one of the ways |
| `BindingRoutes.BoundWhen` | backend/app/services/reply_binding_service.py:280-675 | for each of the nine binding routes: bound by it to a request exactly when the message goes that way to it |
| `BindingRoutes.ReplyBindsWhen` | backend/app/services/reply_binding_service.py:293-318 | bound by reply exactly when the message replies to the request and does not contradict it |
| `Binding.EveryBindingSound` | backend/app/services/reply_binding_service.py:280-675 | every bound decision is justified by its route; every guessed one names an eligible request without family, number, variant or SKU conflict |
| `Binding.NoPriceNoBinding` | backend/app/services/reply_binding_service.py:333-380 | without a price only a reply to the request is bound |
| `Binding.WrongModelDismissed` | backend/app/services/reply_binding_service.py:469-502 | dismissed as another model exactly when the message names one and every eligible request conflicts |
| `Binding.LoneCandidate` | backend/app/services/reply_binding_service.py:482-554 | with one open request: a bare price is its answer whatever the settings, a named product only when enabled or on a rebind; another model is dismissed, any other contradiction asked about |
| `Binding.ClearLeaderBinds` | backend/app/services/reply_binding_service.py:556-573 | with several fitting requests the text route binds one exactly when it leads all others by the margin |
| `Binding.CopiedLineBinds` | backend/app/services/reply_binding_service.py:419-438 | a copied line of a grouped request binds that line's request, whatever else is said |
| `Binding.DecisiveIsOrderFree` | backend/app/services/reply_binding_service.py:469-675 | under a positive margin or an unreachable score the outcome depends on the set of candidates only |
| `Binding.OrderFreeWhen` | backend/app/services/reply_binding_service.py:575-610 | and under no other settings |
| `BindSession.RankKeeps` | backend/app/services/supplier_bind_session_service.py:117-131 | the ranking keeps exactly the candidates not excluded, or all when all are |
| `BindSession.RankOrders` | backend/app/services/supplier_bind_session_service.py:126-131 | best score first, lower id among equals; by id when all are excluded |
| `BindSession.RankDistinct` | backend/app/services/supplier_bind_session_service.py:86-87 | no candidate is listed twice |
| `BindSession.WalkTheRanking` | backend/app/services/supplier_bind_session_service.py:434-468 | the k-th refusal presents the next ranked candidate, as many refusals as candidates end ignored, and ok is answered at most once |
| `BindSession.RefusedNeverBound` | backend/app/services/supplier_bind_session_service.py:209-288 | what is bound is an original candidate nobody refused; a settled session never changes again |
| `BindSession.NoWalks` | backend/app/services/supplier_bind_session_service.py:442-458 | a refusal strictly shrinks the list |
| `BindSession.OkWhen` | backend/app/services/supplier_bind_session_service.py:221-288 | ok exactly for the owner's pending unexpired session, a listed candidate, an unbound message and an open request |
| `BindSession.AnswerWhen` | backend/app/services/supplier_bind_session_service.py:209-288 | each of the seven answers to a session that exists, with its exact condition and the status it leaves |
| `BindSession.StepMakes` | backend/app/services/supplier_bind_session_service.py:291-310 | what cancelling, expiring, giving up and a refusal leave of a session |
| `BindSession.BindDesk.CreateBindSession` | backend/app/services/supplier_bind_session_service.py:74-114 | a session over the ranked candidates, presenting the first |
| `BindSession.BindDesk.ResolveBindSession` | backend/app/services/supplier_bind_session_service.py:209-288 | the answer and the one changed session |
| `BindSession.BindDesk.CancelForMessage` | backend/app/services/supplier_bind_session_service.py:291-310 | cancels exactly the message's pending sessions |
| `BindSession.BindDesk.PendingSessions` | backend/app/services/supplier_bind_session_service.py:404-431 | exactly the supplier's pending, unexpired sessions of the chat on the route, in order of creation; stale ones on the route are expired on the way, nothing else changes |
| `BindSession.BindDesk.AdvanceYesNo` | backend/app/services/supplier_bind_session_service.py:434-468 | a refusal drops the presented candidate and presents the next |
| `BindSession.BindDesk.BindOther` | backend/app/services/supplier_bind_session_service.py:497-505 | gives up a session that is still pending |

## Left out

- Telegram, parser and model-provider clients, operator alerts, templates, metrics and logging: I/O. A
  classifier's or model's answer is an input of the decision.
- The retries of the Telegram client inside one send, each of which could reach Telegram.
- Database isolation anomalies, partially committed rows, and the audit columns (`replay_of_id`,
  `resolved_by`, `resolution_reason`).
- Batch publication and hard purge, which bypass the idempotency key or delete rows outright; retention of
  the parse cache.
- Text extraction: product attributes, prices, noise and negative or affirmative replies are inputs, as are
  the normalised model text and the overlap score of two texts.
- The `failed` outbox status, which the delivering code never assigns.
- Of the text of a client message only its key and the price it tells.
- Dedupe keys of supplier messages are opaque numbers; the keys of client messages are modelled as texts.
- Time zones: the business day has a fixed offset. `observed_at` is always present, as its column is not
  nullable.
- Rounding: prices are whole kopecks, limiter clocks are real numbers, confidences whole thousandths.
- Digits, spaces and letters outside ASCII and Cyrillic in the line-code and callback parsers.
- The orchestration around a bind session (choosing the session for an incoming text, prompts,
  acknowledgements) and around reuse of today's price (`reuse_today_price_for_request`).
- Admin menus, reports, webhook routing, configuration, scheduling and heartbeats.
- LeaseRows: does not fix the order in which rows come back from the second query of the claim, because the
  query has no order.
- RunRetention: does not fix which expired rows a batch deletes, because the query has no order.
- DirectSelectionSeesIt: bounds the price only and does not say the attached quote wins, because a cheaper
  or newer quote of the request may.
- AttachFreshDailyQuote: does not model the condition, markup and final-price columns of the copied quote.
- UpsertQuote: does not model those columns either, nor the provisional row, the publication and the notice that
  may follow the write, each of which is modelled by itself.
- PendingSessions: takes ids to grow with the time of creation, by which the query sorts.
- ResolveBinding: does not model the binding price, the numeric score and the log lines of a decision.
