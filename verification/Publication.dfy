/** Publishing a client price: the first price, repricing, better-late notices, and the selection table
    behind them, as a state machine over the selections and the client messages. */
module Publication {
  import opened Wrappers
  import opened Decimals
  import opened Texts

  datatype Status = Provisional | Published | Superseded

  /** Dedupe and idempotency keys of client messages. */
  datatype MailKey =
    | FirstKey(request: int)
    | RepriceKey(request: int, version: nat)
    | LateKey(request: int, quote: int, chat: int)

  /** A queued message and the client price its text tells. */
  datatype Mail = Mail(key: MailKey, price: int)

  datatype Choice = Choice(quoteId: int, supplierId: int, purchase: int, client: int)

  datatype Selection = Selection(
    request: int, status: Status, choice: Choice, version: nat,
    key: Option<MailKey>, publishedAt: Option<int>, supersededBy: Option<nat>)

  /** `selections` is the table, a row's id being its index. `mailed` lists every message ever queued;
      `outbox` the rows not yet deleted by retention. */
  datatype World = World(
    selections: seq<Selection>, outbox: set<MailKey>, mailed: seq<Mail>, priced: set<int>)

  datatype Step =
    | PublishFirst(request: int, choice: Choice, at: int)
    | Reprice(request: int, choice: Choice, at: int)
    | NotifyLate(request: int, choice: Choice, chats: seq<int>)
    | Provision(request: int, choice: Choice)
    | Retain(victims: set<MailKey>)

  const INIT := World([], {}, [], {})

  // ----- Queries -----

  /** The published selection of a request. */
  function PublishedRow(s: seq<Selection>, r: int): (i: Option<nat>)
    ensures i.Some? ==> i.value < |s| && s[i.value].request == r && s[i.value].status == Published
    ensures i.None? ==> forall j :: 0 <= j < |s| && s[j].request == r ==> s[j].status != Published
  {
    if s == [] then None
    else if s[|s| - 1].request == r && s[|s| - 1].status == Published then Some(|s| - 1)
    else PublishedRow(s[..|s| - 1], r)
  }

  predicate KeyUsed(s: seq<Selection>, key: MailKey) {
    exists i :: 0 <= i < |s| && s[i].key == Some(key)
  }

  /** Highest version of the request, zero when it has none. */
  function LastVersion(s: seq<Selection>, r: int): (v: nat)
    ensures forall i :: 0 <= i < |s| && s[i].request == r ==> s[i].version <= v
  {
    if s == [] then 0
    else
      var v := LastVersion(s[..|s| - 1], r);
      var last := s[|s| - 1];
      if last.request == r && last.version > v then last.version else v
  }

  /** The latest provisional selection of a request. */
  function ProvisionalRow(s: seq<Selection>, r: int): (i: Option<nat>)
    ensures i.Some? ==> i.value < |s| && s[i.value].request == r && s[i.value].status == Provisional
    ensures forall j :: 0 <= j < |s| && s[j].request == r && s[j].status == Provisional ==>
              i.Some? && s[j].version <= s[i.value].version
  {
    if s == [] then None
    else
      var i := ProvisionalRow(s[..|s| - 1], r);
      var last := s[|s| - 1];
      if last.request == r && last.status == Provisional && (i.None? || last.version > s[i.value].version)
      then Some(|s| - 1) else i
  }

  // ----- Steps -----

  /** Queue a message unless a live outbox row already has its key. */
  function Enqueue(w: World, mail: Mail): World {
    if mail.key in w.outbox then w else w.(outbox := w.outbox + {mail.key}, mailed := w.mailed + [mail])
  }

  function EnqueueAll(w: World, r: int, c: Choice, chats: seq<int>): (w': World)
    ensures w'.selections == w.selections && w'.priced == w.priced
    decreases |chats|
  {
    if chats == [] then w
    else EnqueueAll(Enqueue(w, Mail(LateKey(r, c.quoteId, chats[0]), c.client)), r, c, chats[1..])
  }

  function FirstRow(s: seq<Selection>, r: int, c: Choice, at: int): Selection {
    Selection(r, Published, c, LastVersion(s, r) + 1, Some(FirstKey(r)), Some(at), None)
  }

  function RepriceRow(s: seq<Selection>, r: int, c: Choice, at: int): Selection {
    Selection(r, Published, c, LastVersion(s, r) + 1, None, Some(at), None)
  }

  predicate CanReprice(w: World, r: int, c: Choice) {
    var p := PublishedRow(w.selections, r);
    p.Some? && w.selections[p.value].choice.quoteId != c.quoteId
  }

  predicate BeatsPublished(w: World, r: int, c: Choice) {
    var p := PublishedRow(w.selections, r);
    p.Some? && c.quoteId != w.selections[p.value].choice.quoteId && c.purchase < w.selections[p.value].choice.purchase
  }

  /** The published row gives way to a new one, which it then points to. */
  function Supersede(s: seq<Selection>, p: nat, row: Selection): seq<Selection>
    requires p < |s|
  {
    s[p := s[p].(status := Superseded, supersededBy := Some(|s|))] + [row]
  }

  function Apply(w: World, step: Step): World {
    match step
    case PublishFirst(r, c, at) =>
      if KeyUsed(w.selections, FirstKey(r)) then w
      else
        Enqueue(w.(selections := w.selections + [FirstRow(w.selections, r, c, at)],
                   priced := w.priced + {r}), Mail(FirstKey(r), c.client))
    case Reprice(r, c, at) =>
      if !CanReprice(w, r, c) then w
      else
        var row := RepriceRow(w.selections, r, c, at);
        var p := PublishedRow(w.selections, r).value;
        Enqueue(w.(selections := Supersede(w.selections, p, row), priced := w.priced + {r}),
                Mail(RepriceKey(r, row.version), c.client))
    case NotifyLate(r, c, chats) =>
      if BeatsPublished(w, r, c) then EnqueueAll(w, r, c, chats) else w
    case Provision(r, c) =>
      var p := ProvisionalRow(w.selections, r);
      if p.None? then w.(selections := w.selections + [Selection(r, Provisional, c, 1, None, None, None)])
      else
        var previous := w.selections[p.value];
        w.(selections := w.selections[p.value := previous.(status := Superseded)]
                         + [Selection(r, Provisional, c, previous.version + 1, None, None, None)])
    case Retain(victims) => w.(outbox := w.outbox - victims)
  }

  function Exec(w: World, steps: seq<Step>): World
    decreases |steps|
  {
    if steps == [] then w else Exec(Apply(w, steps[0]), steps[1..])
  }

  // ----- Published history -----

  predicate Ever(row: Selection) {
    row.publishedAt.Some?
  }

  /** The rows of a request that were ever published, oldest first. */
  function History(s: seq<Selection>, r: int): (h: seq<nat>)
    ensures forall k :: 0 <= k < |h| ==> h[k] < |s| && s[h[k]].request == r && Ever(s[h[k]])
  {
    if s == [] then []
    else
      var h := History(s[..|s| - 1], r);
      if s[|s| - 1].request == r && Ever(s[|s| - 1]) then h + [|s| - 1] else h
  }

  /** The key of the client message a published row sent. */
  function KeyOf(row: Selection): MailKey {
    if row.key.Some? then FirstKey(row.request) else RepriceKey(row.request, row.version)
  }

  function MailOf(row: Selection): Mail {
    Mail(KeyOf(row), row.choice.client)
  }

  function MailsOf(s: seq<Selection>, h: seq<nat>): (mails: seq<Mail>)
    requires forall k :: 0 <= k < |h| ==> h[k] < |s|
    ensures |mails| == |h| && forall k :: 0 <= k < |h| ==> mails[k] == MailOf(s[h[k]])
  {
    seq(|h|, k requires 0 <= k < |h| => MailOf(s[h[k]]))
  }

  predicate Mailed(mailed: seq<Mail>, key: MailKey) {
    exists mail :: mail in mailed && mail.key == key
  }

  /** Client messages among the queued ones, in order. */
  function ClientMail(mailed: seq<Mail>, r: int): seq<Mail> {
    if mailed == [] then []
    else
      var rest := ClientMail(mailed[..|mailed| - 1], r);
      var last := mailed[|mailed| - 1];
      if last.key.request == r && !last.key.LateKey? then rest + [last] else rest
  }

  /** Row `k` of a published history: only the first carries the key; every row but the last was superseded by
      the next one, with a higher version; the last one is the published row. */
  predicate Link(s: seq<Selection>, h: seq<nat>, k: int)
    requires 0 <= k < |h|
  {
    && h[k] < |s|
    && (s[h[k]].key == if k == 0 then Some(FirstKey(s[h[k]].request)) else None)
    && (if k + 1 < |h| then
          && h[k + 1] < |s|
          && s[h[k]].status == Superseded && s[h[k]].supersededBy == Some(h[k + 1])
          && h[k] < h[k + 1] && s[h[k]].version < s[h[k + 1]].version
        else s[h[k]].status == Published && s[h[k]].supersededBy == None)
  }

  ghost predicate Chained(s: seq<Selection>, h: seq<nat>) {
    forall k :: 0 <= k < |h| ==> Link(s, h, k)
  }

  ghost predicate RequestOk(w: World, r: int) {
    var h := History(w.selections, r);
    && Chained(w.selections, h)
    && ClientMail(w.mailed, r) == MailsOf(w.selections, h)
    && (r in w.priced <==> h != [])
  }

  ghost predicate Inv(w: World) {
    && (forall r: int :: RequestOk(w, r))
    && (forall i :: 0 <= i < |w.selections| && !Ever(w.selections[i]) ==>
          w.selections[i].key.None? && w.selections[i].status != Published)
    && (forall key | key in w.outbox :: Mailed(w.mailed, key))
  }

  // ----- How the history and the mail grow -----

  lemma HistoryAppends(s: seq<Selection>, row: Selection, r: int)
    ensures History(s + [row], r) == History(s, r) + (if row.request == r && Ever(row) then [|s|] else [])
  {
    assert (s + [row])[..|s|] == s;
  }

  lemma {:induction false} HistoryRewrites(s: seq<Selection>, p: nat, row: Selection, r: int)
    requires p < |s| && row.request == s[p].request && Ever(row) == Ever(s[p])
    ensures History(s[p := row], r) == History(s, r)
    decreases |s|
  {
    var n := |s| - 1;
    if p < n {
      assert s[p := row][..n] == s[..n][p := row];
      HistoryRewrites(s[..n], p, row, r);
    } else {
      assert s[p := row][..n] == s[..n];
    }
  }

  lemma {:induction false} HistoryHasAll(s: seq<Selection>, r: int, i: nat)
    requires i < |s| && s[i].request == r && Ever(s[i])
    ensures i in History(s, r)
    decreases |s|
  {
    if i < |s| - 1 {
      HistoryHasAll(s[..|s| - 1], r, i);
      assert forall k | k in History(s[..|s| - 1], r) :: k in History(s, r);
    }
  }

  lemma MailAppends(mailed: seq<Mail>, mail: Mail, r: int)
    ensures ClientMail(mailed + [mail], r) ==
              ClientMail(mailed, r) + (if mail.key.request == r && !mail.key.LateKey? then [mail] else [])
  {
    assert (mailed + [mail])[..|mailed|] == mailed;
  }

  lemma {:induction false} MailHasAll(mailed: seq<Mail>, mail: Mail)
    requires mail in mailed && !mail.key.LateKey?
    ensures mail in ClientMail(mailed, mail.key.request)
    decreases |mailed|
  {
    var n := |mailed| - 1;
    assert mailed == mailed[..n] + [mailed[n]];
    MailAppends(mailed[..n], mailed[n], mail.key.request);
    if mail in mailed[..n] {
      MailHasAll(mailed[..n], mail);
    }
  }

  // ----- What the queries mean in a good state -----

  lemma PublishedIsLast(w: World, r: int)
    requires Inv(w)
    ensures var h := History(w.selections, r);
            PublishedRow(w.selections, r) == if h == [] then None else Some(h[|h| - 1])
  {
    var s, h, p := w.selections, History(w.selections, r), PublishedRow(w.selections, r);
    assert RequestOk(w, r);
    assert h != [] ==> Link(s, h, |h| - 1);
    if p.Some? {
      HistoryHasAll(s, r, p.value);
      var k :| 0 <= k < |h| && h[k] == p.value;
      assert Link(s, h, k);
    }
  }

  lemma KeyUsedMeans(w: World, r: int)
    requires Inv(w)
    ensures KeyUsed(w.selections, FirstKey(r)) <==> History(w.selections, r) != []
  {
    var s := w.selections;
    var h := History(s, r);
    assert RequestOk(w, r);
    if h != [] {
      assert Link(s, h, 0);
    }
    if KeyUsed(s, FirstKey(r)) {
      var i :| 0 <= i < |s| && s[i].key == Some(FirstKey(r));
      assert Ever(s[i]);
      var q := s[i].request;
      assert RequestOk(w, q);
      HistoryHasAll(s, q, i);
      var hq := History(s, q);
      var k :| 0 <= k < |hq| && hq[k] == i;
      assert Link(s, hq, k);
    }
  }

  /** A client message that was queued belongs to a row of the history. */
  lemma MailedHasRow(w: World, key: MailKey)
    requires Inv(w) && Mailed(w.mailed, key) && !key.LateKey?
    ensures exists k :: 0 <= k < |History(w.selections, key.request)|
                     && KeyOf(w.selections[History(w.selections, key.request)[k]]) == key
  {
    assert RequestOk(w, key.request);
    var mail :| mail in w.mailed && mail.key == key;
    MailHasAll(w.mailed, mail);
    var mails := MailsOf(w.selections, History(w.selections, key.request));
    var k :| 0 <= k < |mails| && mails[k] == mail;
  }

  lemma FreshFirstKey(w: World, r: int)
    requires Inv(w) && !KeyUsed(w.selections, FirstKey(r))
    ensures !Mailed(w.mailed, FirstKey(r))
  {
    KeyUsedMeans(w, r);
    if Mailed(w.mailed, FirstKey(r)) {
      MailedHasRow(w, FirstKey(r));
      assert false;
    }
  }

  lemma FreshRepriceKey(w: World, r: int)
    requires Inv(w)
    ensures var key := RepriceKey(r, LastVersion(w.selections, r) + 1); !Mailed(w.mailed, key) && key !in w.outbox
  {
    var key := RepriceKey(r, LastVersion(w.selections, r) + 1);
    if Mailed(w.mailed, key) {
      MailedHasRow(w, key);
      assert false;
    }
  }

  lemma FirstMails(w: World, r0: int, c: Choice, at: int, r: int)
    requires Inv(w) && !KeyUsed(w.selections, FirstKey(r0))
    ensures ClientMail(Apply(w, PublishFirst(r0, c, at)).mailed, r)
            == ClientMail(w.mailed, r) + (if r == r0 then [Mail(FirstKey(r), c.client)] else [])
  {
    FreshFirstKey(w, r0);
    MailAppends(w.mailed, Mail(FirstKey(r0), c.client), r);
  }

  lemma RepriceQueues(w: World, r: int, c: Choice, at: int)
    requires CanReprice(w, r, c) && RepriceKey(r, LastVersion(w.selections, r) + 1) !in w.outbox
    ensures Apply(w, Reprice(r, c, at)).mailed
            == w.mailed + [Mail(RepriceKey(r, LastVersion(w.selections, r) + 1), c.client)]
  {
  }

  lemma RepriceMails(w: World, r0: int, c: Choice, at: int, r: int)
    requires Inv(w) && CanReprice(w, r0, c)
    ensures ClientMail(Apply(w, Reprice(r0, c, at)).mailed, r)
            == ClientMail(w.mailed, r)
               + (if r == r0 then [Mail(RepriceKey(r, LastVersion(w.selections, r) + 1), c.client)] else [])
  {
    FreshRepriceKey(w, r0);
    RepriceQueues(w, r0, c, at);
    MailAppends(w.mailed, Mail(RepriceKey(r0, LastVersion(w.selections, r0) + 1), c.client), r);
  }

  // ----- Each step keeps the invariant -----

  lemma ChainedGrows(s: seq<Selection>, h: seq<nat>, s': seq<Selection>)
    requires Chained(s, h) && |s| <= |s'| && forall k :: 0 <= k < |h| ==> h[k] < |s| && s'[h[k]] == s[h[k]]
    ensures Chained(s', h) && MailsOf(s', h) == MailsOf(s, h)
  {
    forall k | 0 <= k < |h| ensures Link(s', h, k) {
      assert Link(s, h, k);
    }
  }

  lemma StartsChain(s: seq<Selection>, row: Selection)
    requires row.key == Some(FirstKey(row.request)) && row.status == Published && row.supersededBy.None?
    ensures Chained(s + [row], [|s|]) && MailsOf(s + [row], [|s|]) == [Mail(FirstKey(row.request), row.choice.client)]
  {
    assert Link(s + [row], [|s|], 0);
  }

  lemma PublishFirstKeeps(w: World, r0: int, c: Choice, at: int, r: int)
    requires Inv(w) && !KeyUsed(w.selections, FirstKey(r0))
    ensures RequestOk(Apply(w, PublishFirst(r0, c, at)), r)
  {
    var w' := Apply(w, PublishFirst(r0, c, at));
    var row := FirstRow(w.selections, r0, c, at);
    FirstMails(w, r0, c, at, r);
    assert RequestOk(w, r);
    HistoryAppends(w.selections, row, r);
    KeyUsedMeans(w, r0);
    if r == r0 {
      StartsChain(w.selections, row);
    } else {
      ChainedGrows(w.selections, History(w.selections, r), w'.selections);
    }
  }

  lemma SupersedeChains(s: seq<Selection>, h: seq<nat>, row: Selection)
    requires Chained(s, h) && h != [] && h[|h| - 1] < |s|
    requires row.status == Published && row.supersededBy.None? && row.key.None? && Ever(row)
    requires forall i :: 0 <= i < |s| && s[i].request == row.request ==> s[i].version < row.version
    requires forall k :: 0 <= k < |h| ==> h[k] < |s| && s[h[k]].request == row.request
    ensures var s' := Supersede(s, h[|h| - 1], row);
            && Chained(s', h + [|s|])
            && MailsOf(s', h + [|s|]) == MailsOf(s, h) + [Mail(RepriceKey(row.request, row.version), row.choice.client)]
  {
    var s', h' := Supersede(s, h[|h| - 1], row), h + [|s|];
    assert forall k :: 0 <= k < |h| ==> h'[k] == h[k];
    forall k | 0 <= k < |h'| ensures Link(s', h', k) {
      if k < |h| {
        assert Link(s, h, k);
        if k + 1 < |h| {
          AscendsTo(s, h, k, |h| - 1);
          assert s'[h[k]] == s[h[k]];
        }
      }
    }
  }

  lemma {:induction false} AscendsTo(s: seq<Selection>, h: seq<nat>, i: nat, j: nat)
    requires Chained(s, h) && i < j < |h|
    ensures h[i] < h[j]
    decreases j - i
  {
    if i + 1 < j {
      AscendsTo(s, h, i + 1, j);
    }
    assert Link(s, h, i);
  }

  lemma RepriceHistory(s: seq<Selection>, r0: int, p: nat, row: Selection, r: int)
    requires p < |s| && s[p].request == r0 && Ever(s[p]) && row.request == r0 && Ever(row)
    ensures History(Supersede(s, p, row), r) == History(s, r) + (if r == r0 then [|s|] else [])
  {
    var replaced := s[p].(status := Superseded, supersededBy := Some(|s|));
    HistoryRewrites(s, p, replaced, r);
    HistoryAppends(s[p := replaced], row, r);
  }

  lemma RepriceKeeps(w: World, r0: int, c: Choice, at: int, r: int)
    requires Inv(w) && CanReprice(w, r0, c)
    ensures RequestOk(Apply(w, Reprice(r0, c, at)), r)
  {
    var s := w.selections;
    var row, p := RepriceRow(s, r0, c, at), PublishedRow(s, r0).value;
    PublishedIsLast(w, r0);
    RepriceMails(w, r0, c, at, r);
    assert RequestOk(w, r);
    RepriceHistory(s, r0, p, row, r);
    RepriceChains(s, r0, p, row, r);
    RepriceApplied(w, r0, c, at);
  }

  lemma RepriceApplied(w: World, r: int, c: Choice, at: int)
    requires CanReprice(w, r, c)
    ensures var w' := Apply(w, Reprice(r, c, at));
            && w'.selections
               == Supersede(w.selections, PublishedRow(w.selections, r).value, RepriceRow(w.selections, r, c, at))
            && w'.priced == w.priced + {r}
  {
  }

  lemma RepriceChains(s: seq<Selection>, r0: int, p: nat, row: Selection, r: int)
    requires p < |s| && s[p].request == r0 && Chained(s, History(s, r))
    requires r == r0 ==> History(s, r) != [] && p == History(s, r)[|History(s, r)| - 1]
    requires row.request == r0 && row.status == Published && row.supersededBy.None? && row.key.None? && Ever(row)
    requires row.version == LastVersion(s, r0) + 1
    ensures var s', h' := Supersede(s, p, row), History(s, r) + (if r == r0 then [|s|] else []);
            && Chained(s', h')
            && MailsOf(s', h')
               == MailsOf(s, History(s, r))
                  + (if r == r0 then [Mail(RepriceKey(r0, row.version), row.choice.client)] else [])
  {
    var h := History(s, r);
    if r == r0 {
      SupersedeChains(s, h, row);
    } else {
      assert h + [] == h;
      assert forall k :: 0 <= k < |h| ==> h[k] != p;
      ChainedGrows(s, h, Supersede(s, p, row));
    }
  }

  lemma ProvisionKeeps(w: World, r0: int, c: Choice, r: int)
    requires Inv(w)
    ensures RequestOk(Apply(w, Provision(r0, c)), r)
  {
    var s := w.selections;
    var w' := Apply(w, Provision(r0, c));
    var p := ProvisionalRow(s, r0);
    assert RequestOk(w, r);
    var h := History(s, r);
    var row := w'.selections[|s|];
    if p.None? {
      HistoryAppends(s, row, r);
    } else {
      assert !Ever(s[p.value]) by {
        if Ever(s[p.value]) { EverNotProvisional(w, p.value); }
      }
      var replaced := s[p.value].(status := Superseded);
      HistoryRewrites(s, p.value, replaced, r);
      HistoryAppends(s[p.value := replaced], row, r);
      assert forall k :: 0 <= k < |h| ==> h[k] != p.value;
    }
    ChainedGrows(s, h, w'.selections);
  }

  lemma EverNotProvisional(w: World, i: nat)
    requires Inv(w) && i < |w.selections| && Ever(w.selections[i])
    ensures w.selections[i].status != Provisional
  {
    var r := w.selections[i].request;
    assert RequestOk(w, r);
    HistoryHasAll(w.selections, r, i);
    var h := History(w.selections, r);
    var k :| 0 <= k < |h| && h[k] == i;
    assert Link(w.selections, h, k);
  }

  lemma EnqueueKeepsMailed(w: World, mail: Mail)
    requires forall key | key in w.outbox :: Mailed(w.mailed, key)
    ensures var w' := Enqueue(w, mail); forall key | key in w'.outbox :: Mailed(w'.mailed, key)
  {
    forall key | key in Enqueue(w, mail).outbox ensures Mailed(Enqueue(w, mail).mailed, key) {
      if m :| m in w.mailed && m.key == key {
        assert m in Enqueue(w, mail).mailed;
      } else {
        assert mail in Enqueue(w, mail).mailed;
      }
    }
  }

  lemma {:induction false} LateMailKeeps(w: World, r0: int, c: Choice, chats: seq<int>)
    requires forall key | key in w.outbox :: Mailed(w.mailed, key)
    ensures var w' := EnqueueAll(w, r0, c, chats);
            && (forall r: int :: ClientMail(w'.mailed, r) == ClientMail(w.mailed, r))
            && (forall key | key in w'.outbox :: Mailed(w'.mailed, key))
    decreases |chats|
  {
    if chats != [] {
      var mail := Mail(LateKey(r0, c.quoteId, chats[0]), c.client);
      forall r: int ensures ClientMail(Enqueue(w, mail).mailed, r) == ClientMail(w.mailed, r) {
        MailAppends(w.mailed, mail, r);
      }
      EnqueueKeepsMailed(w, mail);
      LateMailKeeps(Enqueue(w, mail), r0, c, chats[1..]);
    }
  }

  lemma StepKeeps(w: World, step: Step)
    requires Inv(w)
    ensures Inv(Apply(w, step))
  {
    var w' := Apply(w, step);
    if step.NotifyLate? {
      LateMailKeeps(w, step.request, step.choice, step.chats);
    }
    forall r: int ensures RequestOk(w', r) {
      assert RequestOk(w, r);
      match step
      case PublishFirst(r0, c, at) =>
        if !KeyUsed(w.selections, FirstKey(r0)) { PublishFirstKeeps(w, r0, c, at, r); }
      case Reprice(r0, c, at) =>
        if CanReprice(w, r0, c) { RepriceKeeps(w, r0, c, at, r); }
      case NotifyLate(r0, c, chats) =>
      case Provision(r0, c) => ProvisionKeeps(w, r0, c, r);
      case Retain(victims) =>
    }
    StepKeepsRest(w, step);
  }

  lemma StepKeepsRest(w: World, step: Step)
    requires Inv(w)
    ensures var w' := Apply(w, step);
            && (forall i :: 0 <= i < |w'.selections| && !Ever(w'.selections[i]) ==>
                  w'.selections[i].key.None? && w'.selections[i].status != Published)
            && (forall key | key in w'.outbox :: Mailed(w'.mailed, key))
  {
    if step.NotifyLate? {
      LateMailKeeps(w, step.request, step.choice, step.chats);
    }
  }

  lemma {:induction false} RunKeeps(w: World, steps: seq<Step>)
    requires Inv(w)
    ensures Inv(Exec(w, steps))
    decreases |steps|
  {
    if steps != [] {
      StepKeeps(w, steps[0]);
      RunKeeps(Apply(w, steps[0]), steps[1..]);
    }
  }

  // ----- What each step leaves behind -----

  /** Row `i` is the one published row of its request. */
  predicate TheOnePublished(s: seq<Selection>, i: nat) {
    && i < |s| && s[i].status == Published && s[i].supersededBy.None?
    && forall j :: 0 <= j < |s| && s[j].request == s[i].request ==> (s[j].status == Published <==> j == i)
  }

  predicate NewestVersion(s: seq<Selection>, i: nat) {
    i < |s| && forall j :: 0 <= j < i && s[j].request == s[i].request ==> s[j].version < s[i].version
  }

  lemma OneIsPublished(w: World, i: nat)
    requires Inv(w) && i < |w.selections| && w.selections[i].status == Published
    ensures TheOnePublished(w.selections, i)
  {
    PlaceInHistory(w, i);
    var s, h := w.selections, History(w.selections, w.selections[i].request);
    assert RequestOk(w, s[i].request);
    assert Link(s, h, |h| - 1);
    forall j | 0 <= j < |s| && s[j].request == s[i].request && s[j].status == Published ensures j == i {
      PlaceInHistory(w, j);
    }
  }

  lemma PublishFirstRows(w: World, r: int, c: Choice, at: int)
    requires !KeyUsed(w.selections, FirstKey(r)) && FirstKey(r) !in w.outbox
    ensures var w' := Apply(w, PublishFirst(r, c, at));
            var s, s' := w.selections, w'.selections;
            && |s'| == |s| + 1 && s'[..|s|] == s && NewestVersion(s', |s|)
            && s'[|s|] == Selection(r, Published, c, s'[|s|].version, Some(FirstKey(r)), Some(at), None)
            && w'.priced == w.priced + {r} && w'.mailed == w.mailed + [Mail(FirstKey(r), c.client)]
  {
  }

  lemma RepriceRows(w: World, r: int, c: Choice, at: int, p: nat)
    requires PublishedRow(w.selections, r) == Some(p) && w.selections[p].choice.quoteId != c.quoteId
    requires RepriceKey(r, LastVersion(w.selections, r) + 1) !in w.outbox
    ensures var w' := Apply(w, Reprice(r, c, at));
            var s, s' := w.selections, w'.selections;
            && |s'| == |s| + 1 && NewestVersion(s', |s|)
            && s'[..|s|] == s[p := s[p].(status := Superseded, supersededBy := Some(|s|))]
            && s'[|s|] == Selection(r, Published, c, s'[|s|].version, None, Some(at), None)
            && w'.priced == w.priced + {r}
            && w'.mailed == w.mailed + [Mail(RepriceKey(r, s'[|s|].version), c.client)]
  {
    RepriceApplied(w, r, c, at);
    RepriceQueues(w, r, c, at);
  }

  /** A first publication adds the chosen price as the request's one published row and tells it to the client; all
      other rows stay as they are. */
  lemma PublishFirstMakes(w: World, r: int, c: Choice, at: int)
    requires Inv(w) && !KeyUsed(w.selections, FirstKey(r))
    ensures var w' := Apply(w, PublishFirst(r, c, at));
            var s, s' := w.selections, w'.selections;
            && |s'| == |s| + 1 && s'[..|s|] == s && TheOnePublished(s', |s|) && NewestVersion(s', |s|)
            && s'[|s|] == Selection(r, Published, c, s'[|s|].version, Some(FirstKey(r)), Some(at), None)
            && w'.priced == w.priced + {r} && w'.mailed == w.mailed + [Mail(FirstKey(r), c.client)]
  {
    FreshFirstKey(w, r);
    PublishFirstRows(w, r, c, at);
    StepKeeps(w, PublishFirst(r, c, at));
    OneIsPublished(Apply(w, PublishFirst(r, c, at)), |w.selections|);
  }

  /** A reprice adds the chosen price as the one published row, which the one it replaces points to. */
  lemma RepriceMakes(w: World, r: int, c: Choice, at: int, p: nat)
    requires Inv(w) && PublishedRow(w.selections, r) == Some(p) && w.selections[p].choice.quoteId != c.quoteId
    ensures var w' := Apply(w, Reprice(r, c, at));
            var s, s' := w.selections, w'.selections;
            && |s'| == |s| + 1 && TheOnePublished(s', |s|) && NewestVersion(s', |s|)
            && s'[..|s|] == s[p := s[p].(status := Superseded, supersededBy := Some(|s|))]
            && s'[|s|] == Selection(r, Published, c, s'[|s|].version, None, Some(at), None)
            && w'.priced == w.priced + {r}
            && w'.mailed == w.mailed + [Mail(RepriceKey(r, s'[|s|].version), c.client)]
  {
    FreshRepriceKey(w, r);
    RepriceRows(w, r, c, at, p);
    StepKeeps(w, Reprice(r, c, at));
    OneIsPublished(Apply(w, Reprice(r, c, at)), |w.selections|);
  }

  /** Any other choice leaves everything as it is: a request without a published row, or the quote already out. */
  lemma RepriceRefused(w: World, r: int, c: Choice, at: int)
    requires forall p :: 0 <= p < |w.selections| && w.selections[p].request == r && w.selections[p].status == Published
               ==> w.selections[p].choice.quoteId == c.quoteId
    ensures Apply(w, Reprice(r, c, at)) == w
  {
  }

  /** A provisional row is added with the next version; the newest one before it, if any, ends superseded. */
  ghost predicate Provisioned(s: seq<Selection>, s': seq<Selection>, r: int, c: Choice) {
    && |s'| == |s| + 1
    && if forall j :: 0 <= j < |s| && s[j].request == r ==> s[j].status != Provisional
       then s'[..|s|] == s && s'[|s|] == Selection(r, Provisional, c, 1, None, None, None)
       else
         exists p: nat | p < |s| ::
           && s[p].request == r && s[p].status == Provisional
           && (forall j :: 0 <= j < |s| && s[j].request == r && s[j].status == Provisional ==>
                 s[j].version <= s[p].version)
           && s'[..|s|] == s[p := s[p].(status := Superseded)]
           && s'[|s|] == Selection(r, Provisional, c, s[p].version + 1, None, None, None)
  }

  lemma ProvisionMakes(w: World, r: int, c: Choice)
    ensures var w' := Apply(w, Provision(r, c));
            w' == w.(selections := w'.selections) && Provisioned(w.selections, w'.selections, r, c)
  {
    var s, s' := w.selections, Apply(w, Provision(r, c)).selections;
    var p := ProvisionalRow(s, r);
    if p.Some? {
      assert s'[..|s|] == s[p.value := s[p.value].(status := Superseded)];
    }
  }

  /** Notices queue one message a chat, telling the better price, where none is queued yet, and nothing else. */
  lemma {:induction false} NoticesMake(w: World, r: int, c: Choice, chats: seq<int>)
    ensures var w' := EnqueueAll(w, r, c, chats);
            && w' == w.(outbox := w'.outbox, mailed := w'.mailed)
            && (forall key :: key in w'.outbox <==>
                  key in w.outbox || exists chat :: chat in chats && key == LateKey(r, c.quoteId, chat))
            && |w.mailed| <= |w'.mailed| && w'.mailed[..|w.mailed|] == w.mailed
            && (forall mail | mail in w'.mailed[|w.mailed|..] ::
                  mail.price == c.client && mail.key !in w.outbox
                  && exists chat :: chat in chats && mail.key == LateKey(r, c.quoteId, chat))
    decreases |chats|
  {
    if chats != [] {
      var next, w' := Enqueue(w, Mail(LateKey(r, c.quoteId, chats[0]), c.client)), EnqueueAll(w, r, c, chats);
      NoticesMake(next, r, c, chats[1..]);
      assert chats == [chats[0]] + chats[1..];
      forall mail | mail in w'.mailed[|w.mailed|..]
        ensures mail in w'.mailed[|next.mailed|..] || mail == Mail(LateKey(r, c.quoteId, chats[0]), c.client)
      {
        assert w'.mailed[|w.mailed|..] == next.mailed[|w.mailed|..] + w'.mailed[|next.mailed|..];
      }
    }
  }

  // ----- Guarantees over every run -----

  predicate FirstSucceeds(w: World, step: Step, r: int) {
    step.PublishFirst? && step.request == r && !KeyUsed(w.selections, FirstKey(r))
  }

  predicate RepriceSucceeds(w: World, step: Step, r: int) {
    step.Reprice? && step.request == r && CanReprice(w, r, step.choice)
  }

  /** Successful first publications and successful reprices of a request along a run. */
  function Firsts(w: World, steps: seq<Step>, r: int): nat
    decreases |steps|
  {
    if steps == [] then 0
    else (if FirstSucceeds(w, steps[0], r) then 1 else 0) + Firsts(Apply(w, steps[0]), steps[1..], r)
  }

  function Reprices(w: World, steps: seq<Step>, r: int): nat
    decreases |steps|
  {
    if steps == [] then 0
    else (if RepriceSucceeds(w, steps[0], r) then 1 else 0) + Reprices(Apply(w, steps[0]), steps[1..], r)
  }

  lemma MailGrows(w: World, step: Step, r: int)
    requires Inv(w)
    ensures var n, n' := |ClientMail(w.mailed, r)|, |ClientMail(Apply(w, step).mailed, r)|;
            && n' == n + (if FirstSucceeds(w, step, r) then 1 else 0) + (if RepriceSucceeds(w, step, r) then 1 else 0)
            && (FirstSucceeds(w, step, r) ==> n == 0) && (RepriceSucceeds(w, step, r) ==> n > 0)
  {
    assert RequestOk(w, r);
    match step
    case PublishFirst(r0, c, at) =>
      KeyUsedMeans(w, r);
      if !KeyUsed(w.selections, FirstKey(r0)) { FirstMails(w, r0, c, at, r); }
    case Reprice(r0, c, at) =>
      PublishedIsLast(w, r);
      if CanReprice(w, r0, c) { RepriceMails(w, r0, c, at, r); }
    case NotifyLate(r0, c, chats) =>
      LateMailKeeps(w, r0, c, chats);
    case Provision(r0, c) =>
    case Retain(victims) =>
  }

  lemma {:induction false} MailCounts(w: World, steps: seq<Step>, r: int)
    requires Inv(w)
    ensures var n, n' := |ClientMail(w.mailed, r)|, |ClientMail(Exec(w, steps).mailed, r)|;
            && n' == n + Firsts(w, steps, r) + Reprices(w, steps, r)
            && Firsts(w, steps, r) <= (if n == 0 then 1 else 0)
            && (n + Firsts(w, steps, r) == 0 ==> Reprices(w, steps, r) == 0)
    decreases |steps|
  {
    if steps != [] {
      MailGrows(w, steps[0], r);
      StepKeeps(w, steps[0]);
      MailCounts(Apply(w, steps[0]), steps[1..], r);
    }
  }

  /** Over any sequence of publications, reprices, notices, provisional updates and retention, for any mix of
      requests: the first price is published at most once, and client messages ever queued = rows ever
      published = successful first publications + successful reprices. */
  lemma OneFirstPrice(steps: seq<Step>, r: int)
    ensures var w := Exec(INIT, steps);
            && Firsts(INIT, steps, r) <= 1
            && (Firsts(INIT, steps, r) == 0 ==> Reprices(INIT, steps, r) == 0)
            && |ClientMail(w.mailed, r)| == |History(w.selections, r)|
               == Firsts(INIT, steps, r) + Reprices(INIT, steps, r)
            && (r in w.priced <==> Firsts(INIT, steps, r) == 1)
  {
    MailCounts(INIT, steps, r);
    RunKeeps(INIT, steps);
    assert RequestOk(Exec(INIT, steps), r);
  }

  /** At most one row of a request is published and at most one carries the first-price key, in every
      reachable state. */
  lemma OnePublishedRow(steps: seq<Step>, i: nat, j: nat)
    requires i < |Exec(INIT, steps).selections| && j < |Exec(INIT, steps).selections|
    ensures var s := Exec(INIT, steps).selections;
            && (s[i].status == Published && s[j].status == Published && s[i].request == s[j].request ==> i == j)
            && (s[i].key.Some? && s[i].key == s[j].key ==> i == j)
            && (s[i].key.Some? ==> s[i].key == Some(FirstKey(s[i].request)))
  {
    RunKeeps(INIT, steps);
    var w := Exec(INIT, steps);
    PlaceInHistory(w, i);
    PlaceInHistory(w, j);
  }

  lemma PlaceInHistory(w: World, i: nat)
    requires Inv(w) && i < |w.selections|
    ensures var s, h := w.selections, History(w.selections, w.selections[i].request);
            && (s[i].status == Published ==> h != [] && i == h[|h| - 1])
            && (s[i].key.Some? ==> h != [] && i == h[0] && s[i].key == Some(FirstKey(s[i].request)))
  {
    var s, r := w.selections, w.selections[i].request;
    assert RequestOk(w, r);
    var h := History(s, r);
    if Ever(s[i]) {
      HistoryHasAll(s, r, i);
      var k :| 0 <= k < |h| && h[k] == i;
      assert Link(s, h, k);
    }
  }

  /** Follow the superseded-by links from a row. */
  function Follow(s: seq<Selection>, i: nat): seq<nat>
    requires i < |s|
    decreases |s| - i
  {
    if s[i].supersededBy.Some? && i < s[i].supersededBy.value < |s|
    then [i] + Follow(s, s[i].supersededBy.value) else [i]
  }

  lemma {:induction false} FollowHistory(s: seq<Selection>, h: seq<nat>, k: nat)
    requires Chained(s, h) && k < |h|
    ensures h[k] < |s| && Follow(s, h[k]) == h[k..]
    decreases |h| - k
  {
    assert Link(s, h, k);
    if k + 1 < |h| {
      FollowHistory(s, h, k + 1);
      assert h[k..] == [h[k]] + h[k + 1..];
    } else {
      assert h[k..] == [h[k]];
    }
  }

  /** The links from the first row of the history visit all of it, in order of version, and end at the
      published row. */
  ghost predicate ChainOf(s: seq<Selection>, r: int, h: seq<nat>) {
    && h != [] && (forall k :: 0 <= k < |h| ==> h[k] < |s|)
    && s[h[0]].key == Some(FirstKey(r))
    && Follow(s, h[0]) == h
    && PublishedRow(s, r) == Some(h[|h| - 1])
    && (forall i, j :: 0 <= i < j < |h| ==> h[i] < h[j] && s[h[i]].version < s[h[j]].version)
  }

  lemma HistoryIsChain(w: World, r: int)
    requires Inv(w) && History(w.selections, r) != []
    ensures ChainOf(w.selections, r, History(w.selections, r))
  {
    var s, h := w.selections, History(w.selections, r);
    assert RequestOk(w, r);
    assert Link(s, h, 0);
    FollowHistory(s, h, 0);
    PublishedIsLast(w, r);
    forall i, j | 0 <= i < j < |h| ensures h[i] < h[j] && s[h[i]].version < s[h[j]].version {
      VersionsAscend(s, h, i, j);
    }
  }

  /** From the row carrying the first-price key the links visit every row the request ever published, once
      each and in order of version, and end at the one published row. */
  lemma SupersededChain(steps: seq<Step>, r: int)
    requires History(Exec(INIT, steps).selections, r) != []
    ensures ChainOf(Exec(INIT, steps).selections, r, History(Exec(INIT, steps).selections, r))
  {
    RunKeeps(INIT, steps);
    HistoryIsChain(Exec(INIT, steps), r);
  }

  /** No two client messages of a request share a key. */
  lemma ClientMailDistinct(steps: seq<Step>, r: int, i: nat, j: nat)
    requires i < j < |ClientMail(Exec(INIT, steps).mailed, r)|
    ensures ClientMail(Exec(INIT, steps).mailed, r)[i].key != ClientMail(Exec(INIT, steps).mailed, r)[j].key
  {
    RunKeeps(INIT, steps);
    var w := Exec(INIT, steps);
    assert RequestOk(w, r);
    var s, h := w.selections, History(w.selections, r);
    VersionsAscend(s, h, i, j);
    assert Link(s, h, i) && Link(s, h, j);
  }

  /** The client is told each published price once, in order: the k-th client message tells the client price of the
      k-th row of the history, the last one that of the published row. */
  lemma PricesAsTold(steps: seq<Step>, r: int)
    ensures var w := Exec(INIT, steps);
            var s, h, mail := w.selections, History(w.selections, r), ClientMail(w.mailed, r);
            && |mail| == |h|
            && (forall k :: 0 <= k < |h| ==> mail[k].price == s[h[k]].choice.client)
            && (mail != [] ==>
                  && PublishedRow(s, r).Some?
                  && mail[|mail| - 1].price == s[PublishedRow(s, r).value].choice.client)
  {
    RunKeeps(INIT, steps);
    var w := Exec(INIT, steps);
    assert RequestOk(w, r);
    PublishedIsLast(w, r);
  }

  lemma {:induction false} VersionsAscend(s: seq<Selection>, h: seq<nat>, i: nat, j: nat)
    requires Chained(s, h) && i < j < |h|
    ensures h[i] < h[j] < |s| && s[h[i]].version < s[h[j]].version
    decreases j - i
  {
    assert Link(s, h, i);
    if i + 1 < j {
      VersionsAscend(s, h, i + 1, j);
    }
  }

  // ----- The keys as texts -----

  /** The key texts built by the two services. */
  function KeyParts(key: MailKey): (parts: seq<string>)
    ensures parts != []
  {
    match key
    case FirstKey(r) => ["request", Text(r), "first-client-price"]
    case RepriceKey(r, v) => ["request", Text(r), "reprice", "v" + Digits(v)]
    case LateKey(r, q, chat) => ["request", Text(r), "better-late", "q" + Text(q), Text(chat)]
  }

  function KeyText(key: MailKey): string {
    Join(KeyParts(key))
  }

  lemma TextInjective(a: int, b: int)
    requires Text(a) == Text(b)
    ensures a == b
  {
    PyIntText(a);
    PyIntText(b);
  }

  lemma KeySplits(key: MailKey)
    ensures Split(KeyText(key)) == KeyParts(key)
  {
    TextChars(key.request);
    match key {
      case FirstKey(r) =>
      case RepriceKey(r, v) =>
      case LateKey(r, q, chat) =>
        TextChars(q);
        TextChars(chat);
    }
    SplitJoin(KeyParts(key));
  }

  /** Different keys are different texts, so the unique index sees exactly the keys of this model. */
  lemma KeyTextInjective(a: MailKey, b: MailKey)
    requires KeyText(a) == KeyText(b)
    ensures a == b
  {
    KeySplits(a);
    KeySplits(b);
    var p, q := KeyParts(a), KeyParts(b);
    assert p == q && p[1] == q[1] && p[2] == q[2];
    TextInjective(a.request, b.request);
    if a.RepriceKey? && b.RepriceKey? {
      assert p[3][1..] == Text(a.version) && q[3][1..] == Text(b.version);
      TextInjective(a.version, b.version);
    }
    if a.LateKey? && b.LateKey? {
      assert p[3][1..] == Text(a.quote) && q[3][1..] == Text(b.quote) && p[4] == q[4];
      TextInjective(a.quote, b.quote);
      TextInjective(a.chat, b.chat);
    }
  }
}
