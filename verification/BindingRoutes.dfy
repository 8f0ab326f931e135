/** The binding decision as a table: for every way a message can go, when it does and what is decided. */
module BindingRoutes {
  import opened Wrappers
  import opened ProductMatch
  import opened ClearMatch
  import opened Binding
  import LineCodes

  datatype Way =
    | Replied(to: Request) | Noisy(kind: string)
    | QuietIgnored(j: Jev) | QuietAsked(j: Jev) | Unpriced
    | PriceListed | NothingOpen | ListAsked
    | LineCoded(line: Request) | IdKnown(named: Request) | IdUnknown | OtherModel
    | LoneMismatch | LoneBare | LoneNamed | LoneAsked
    | TextLeads(i: nat) | AttrsLead(i: nat)
    | JevBinds(j: Jev, chosen: Request) | JevUnsure(j: Jev) | JevIgnores(j: Jev) | JevAsks(j: Jev)
    | LlmBinds(chosen: Request) | Undecided

  // ----- How far a message gets -----

  predicate Agrees(b: Inbound, r: Request) {
    b.reply == Some(r) && !Contradiction(b.attrs, r)
  }

  /** No reply to a request it agrees with, and no noise. */
  ghost predicate Heard(b: Inbound) {
    b.noise.None? && forall r :: !Agrees(b, r)
  }

  /** The classifier is asked, answers, and counts. */
  predicate JevSays(b: Inbound, candidates: seq<Request>, s: Settings, j: Jev) {
    && s.jevEnabled && !s.jevShadow && !(s.batchReply && b.multiline)
    && candidates != [] && b.jev == Some(j)
  }

  ghost predicate JevSilent(b: Inbound, candidates: seq<Request>, s: Settings) {
    forall j :: !JevSays(b, candidates, s, j)
  }

  ghost predicate Priced(b: Inbound, eligible: seq<Request>, s: Settings) {
    Heard(b) && b.hasPrice && eligible != [] && (b.genericList ==> s.batchReply)
  }

  predicate NamesLine(b: Inbound, r: Request) {
    exists code | code in b.batchLines :: LineCodes.ParseBatchLineCode(b.text) == Some(code) && b.batchLines[code] == r
  }

  ghost predicate Unnumbered(b: Inbound, eligible: seq<Request>, s: Settings) {
    Priced(b, eligible, s) && forall r :: !NamesLine(b, r)
  }

  /** The requests that remain are these, in the order they came. */
  ghost predicate Narrowed(b: Inbound, eligible: seq<Request>, s: Settings, fitting: seq<Request>) {
    && Unnumbered(b, eligible, s) && b.explicitId.None?
    && CompatibleCandidates(b.attrs, eligible) == Some(fitting)
  }

  predicate NamesProduct(b: Inbound) {
    HasProductIdentity(b.attrs)
  }

  /** Whether a lone candidate is settled without any scores. */
  predicate LoneSettled(b: Inbound, only: Request, s: Settings) {
    || Contradiction(b.attrs, only)
    || (b.barePrice && !NamesProduct(b))
    || (NamesProduct(b) && (s.singleAutoBind || b.forRebind))
    || !s.jevEnabled
  }

  ghost predicate Scored(b: Inbound, eligible: seq<Request>, s: Settings, fitting: seq<Request>) {
    Narrowed(b, eligible, s, fitting) && (|fitting| == 1 ==> !LoneSettled(b, fitting[0], s))
  }

  ghost predicate TextLeader(b: Inbound, fitting: seq<Request>, s: Settings, i: nat) {
    NamesProduct(b) && Leads(b.attrs, fitting, ByText, s.minScore, s.minMargin, i)
  }

  ghost predicate AttrsLeader(b: Inbound, fitting: seq<Request>, s: Settings, i: nat) {
    Leads(b.attrs, fitting, ByAttrs, s.minScore, s.minMargin, i)
  }

  /** No request leads by text or attributes. */
  ghost predicate Unled(b: Inbound, eligible: seq<Request>, s: Settings, fitting: seq<Request>) {
    && Scored(b, eligible, s, fitting)
    && forall i: nat :: !TextLeader(b, fitting, s, i) && !AttrsLeader(b, fitting, s, i)
  }

  /** The first with that id. */
  ghost predicate FirstWith(candidates: seq<Request>, id: int, r: Request) {
    exists i: nat | i < |candidates| ::
      candidates[i] == r && r.id == id && forall j: nat | j < i :: candidates[j].id != id
  }

  /** Nor does the classifier settle it. */
  ghost predicate Unjudged(b: Inbound, eligible: seq<Request>, s: Settings, fitting: seq<Request>) {
    && Unled(b, eligible, s, fitting)
    && forall j | JevSays(b, fitting, s, j) ::
         (j.action == AutoBind && j.selected.None?) || (j.action == Fallback && s.jevFallback)
  }

  ghost predicate LlmNames(b: Inbound, fitting: seq<Request>, s: Settings, r: Request) {
    && NamesProduct(b) && b.llm.Some? && b.llm.value.related && b.llm.value.confidence >= s.llmThreshold
    && b.llm.value.request == Some(r.id) && FirstWith(fitting, r.id, r) && !ModelConflict(b.attrs, r)
  }

  // ----- When a message goes which way -----

  ghost predicate Goes(b: Inbound, eligible: seq<Request>, s: Settings, fitting: seq<Request>, way: Way) {
    match way
    case Replied(r) => Agrees(b, r)
    case Noisy(kind) => b.noise == Some(kind) && forall r :: !Agrees(b, r)
    case QuietIgnored(j) => Heard(b) && !b.hasPrice && JevSays(b, eligible, s, j) && j.action == Ignore
    case QuietAsked(j) => Heard(b) && !b.hasPrice && JevSays(b, eligible, s, j) && j.action != Ignore
    case Unpriced => Heard(b) && !b.hasPrice && JevSilent(b, eligible, s)
    case PriceListed => Heard(b) && b.hasPrice && eligible == [] && b.genericList
    case NothingOpen => Heard(b) && b.hasPrice && eligible == [] && !b.genericList
    case ListAsked => Heard(b) && b.hasPrice && eligible != [] && b.genericList && !s.batchReply
    case LineCoded(r) => Priced(b, eligible, s) && NamesLine(b, r)
    case IdKnown(r) => Unnumbered(b, eligible, s) && b.explicitId == Some(r.id) && FirstWith(eligible, r.id, r)
    case IdUnknown =>
      Unnumbered(b, eligible, s) && b.explicitId.Some? && forall r | r in eligible :: r.id != b.explicitId.value
    case OtherModel =>
      && Unnumbered(b, eligible, s) && b.explicitId.None?
      && HasModelIdentity(b.attrs) && forall r | r in eligible :: ModelConflict(b.attrs, r)
    case LoneMismatch => Narrowed(b, eligible, s, fitting) && |fitting| == 1 && Contradiction(b.attrs, fitting[0])
    case LoneBare =>
      && Narrowed(b, eligible, s, fitting) && |fitting| == 1 && !Contradiction(b.attrs, fitting[0])
      && b.barePrice && !NamesProduct(b)
    case LoneNamed =>
      && Narrowed(b, eligible, s, fitting) && |fitting| == 1 && !Contradiction(b.attrs, fitting[0])
      && NamesProduct(b) && (s.singleAutoBind || b.forRebind)
    case LoneAsked =>
      && Narrowed(b, eligible, s, fitting) && |fitting| == 1 && !Contradiction(b.attrs, fitting[0])
      && !s.jevEnabled && (if NamesProduct(b) then !s.singleAutoBind && !b.forRebind else !b.barePrice)
    case TextLeads(i) => Scored(b, eligible, s, fitting) && TextLeader(b, fitting, s, i)
    case AttrsLead(i) =>
      Scored(b, eligible, s, fitting) && AttrsLeader(b, fitting, s, i) && forall k: nat :: !TextLeader(b, fitting, s, k)
    case JevBinds(j, r) =>
      && Unled(b, eligible, s, fitting) && JevSays(b, fitting, s, j) && j.action == AutoBind
      && j.selected == Some(r.id) && FirstWith(fitting, r.id, r) && b.priceParsed
    case JevUnsure(j) =>
      && Unled(b, eligible, s, fitting) && JevSays(b, fitting, s, j) && j.action == AutoBind && j.selected.Some?
      && (!b.priceParsed || forall r | r in fitting :: r.id != j.selected.value)
    case JevIgnores(j) => Unled(b, eligible, s, fitting) && JevSays(b, fitting, s, j) && j.action == Ignore
    case JevAsks(j) =>
      && Unled(b, eligible, s, fitting) && JevSays(b, fitting, s, j)
      && (j.action == Review || (j.action == Fallback && !s.jevFallback))
    case LlmBinds(r) => Unjudged(b, eligible, s, fitting) && LlmNames(b, fitting, s, r)
    case Undecided => Unjudged(b, eligible, s, fitting) && forall r :: !LlmNames(b, fitting, s, r)
  }

  function At(candidates: seq<Request>, i: nat): Option<Request> {
    if i < |candidates| then Some(candidates[i]) else None
  }

  /** And what is decided then. */
  function Answer(b: Inbound, eligible: seq<Request>, fitting: seq<Request>, way: Way): Decision {
    match way
    case Replied(r) => Decision(Bound, ByReply, Some(r), [], NoReason, false)
    case Noisy(kind) => Decision(Ignored, NoMethod, None, [], Noise(kind), false)
    case QuietIgnored(j) => Decision(Ignored, NoMethod, None, eligible, FromJev(j.reason), false)
    case QuietAsked(j) => Decision(PendingBinding, NoMethod, None, eligible, FromJev(j.reason), false)
    case Unpriced => Decision(Ignored, NoMethod, None, [], NoPrice, false)
    case PriceListed => Decision(Ignored, NoMethod, None, [], PriceList, false)
    case NothingOpen => Decision(Unbound, NoMethod, None, [], NoReason, false)
    case ListAsked => Decision(PendingBinding, NoMethod, None, eligible, NoReason, false)
    case LineCoded(r) => Decision(Bound, BatchLineCode, Some(r), eligible, NoReason, false)
    case IdKnown(r) => Decision(Bound, ExplicitId, Some(r), eligible, NoReason, false)
    case IdUnknown => Decision(Unbound, NoMethod, None, eligible, NoReason, false)
    case OtherModel => Decision(Ignored, NoMethod, None, [], NoMatchingModel, false)
    case LoneMismatch => Decision(PendingBinding, NoMethod, None, fitting, ProductMismatch, false)
    case LoneBare => Decision(Bound, SingleBarePrice, At(fitting, 0), fitting, NoReason, false)
    case LoneNamed => Decision(Bound, SingleCandidate, At(fitting, 0), fitting, NoReason, false)
    case LoneAsked => Decision(PendingBinding, NoMethod, None, fitting, NoReason, NamesProduct(b))
    case TextLeads(i) => Decision(Bound, TextMethod, At(fitting, i), fitting, NoReason, false)
    case AttrsLead(i) => Decision(Bound, AttrsMethod, At(fitting, i), fitting, NoReason, false)
    case JevBinds(j, r) => Decision(Bound, JevMethod, Some(r), fitting, NoReason, false)
    case JevUnsure(j) => Decision(PendingBinding, NoMethod, None, fitting, JevUnknownCandidate, false)
    case JevIgnores(j) => Decision(Ignored, NoMethod, None, [], FromJev(j.reason), false)
    case JevAsks(j) => Decision(PendingBinding, NoMethod, None, fitting, FromJev(j.reason), false)
    case LlmBinds(r) => Decision(Bound, LlmMethod, Some(r), fitting, NoReason, false)
    case Undecided => Decision(PendingBinding, NoMethod, None, fitting, NoReason, false)
  }

  // ----- The table decides -----

  lemma {:induction false} ByIdWhen(candidates: seq<Request>, id: int, r: Request)
    ensures ById(candidates, id) == Some(r) <==> FirstWith(candidates, id, r)
    decreases |candidates|
  {
    if candidates != [] {
      var rest := candidates[1..];
      ByIdWhen(rest, id, r);
      if candidates[0].id != id {
        if FirstWith(rest, id, r) {
          var i: nat :| i < |rest| && rest[i] == r && r.id == id && forall j: nat | j < i :: rest[j].id != id;
          assert candidates[i + 1] == r && forall j: nat | j < i + 1 :: candidates[j].id != id by {
            forall j: nat | j < i + 1 ensures candidates[j].id != id {
              assert j > 0 ==> candidates[j] == rest[j - 1];
            }
          }
        }
        if FirstWith(candidates, id, r) {
          var i: nat :| i < |candidates| && candidates[i] == r && r.id == id
                        && forall j: nat | j < i :: candidates[j].id != id;
          assert rest[i - 1] == r && forall j: nat | j < i - 1 :: rest[j].id != id by {
            forall j: nat | j < i - 1 ensures rest[j].id != id { assert rest[j] == candidates[j + 1]; }
          }
        }
      }
    }
  }

  lemma LineWhen(b: Inbound, r: Request)
    ensures LineRequest(b) == Some(r) <==> NamesLine(b, r)
  {
  }

  predicate Early(way: Way) {
    || way.Replied? || way.Noisy? || way.QuietIgnored? || way.QuietAsked? || way.Unpriced? || way.PriceListed?
    || way.NothingOpen? || way.ListAsked?
  }

  predicate Spelled(way: Way) {
    way.LineCoded? || way.IdKnown? || way.IdUnknown? || way.OtherModel?
  }

  lemma JevIsAsked(b: Inbound, candidates: seq<Request>, s: Settings)
    ensures (forall j :: JevSays(b, candidates, s, j) <==> AskJev(b, candidates, s) == Some(j) && !s.jevShadow)
  {
  }

  lemma NotHeard(b: Inbound)
    ensures (forall r :: !Agrees(b, r)) <==> b.reply.None? || Contradiction(b.attrs, b.reply.value)
    ensures Heard(b) <==> b.noise.None? && (b.reply.None? || Contradiction(b.attrs, b.reply.value))
  {
    assert b.reply.Some? && !Contradiction(b.attrs, b.reply.value) ==> Agrees(b, b.reply.value);
  }

  lemma EarlyDecides(b: Inbound, eligible: seq<Request>, s: Settings, fitting: seq<Request>, way: Way)
    requires Early(way) && Goes(b, eligible, s, fitting, way)
    ensures Decide(b, eligible, s) == Answer(b, eligible, fitting, way)
  {
    NotHeard(b);
    JevIsAsked(b, eligible, s);
  }

  lemma PricedDecides(b: Inbound, eligible: seq<Request>, s: Settings)
    requires Priced(b, eligible, s)
    ensures Decide(b, eligible, s) == DecidePriced(b, eligible, s)
    ensures forall r :: LineRequest(b) == Some(r) <==> NamesLine(b, r)
  {
    NotHeard(b);
    forall r ensures LineRequest(b) == Some(r) <==> NamesLine(b, r) { LineWhen(b, r); }
  }

  lemma SpelledDecides(b: Inbound, eligible: seq<Request>, s: Settings, fitting: seq<Request>, way: Way)
    requires Spelled(way) && Goes(b, eligible, s, fitting, way)
    ensures Decide(b, eligible, s) == Answer(b, eligible, fitting, way)
  {
    PricedDecides(b, eligible, s);
    NarrowedFits(b.attrs, eligible);
    if way.IdKnown? {
      ByIdWhen(eligible, way.named.id, way.named);
    }
  }

  lemma NarrowedDecides(b: Inbound, eligible: seq<Request>, s: Settings, fitting: seq<Request>)
    requires Narrowed(b, eligible, s, fitting)
    ensures Decide(b, eligible, s) == DecideAmong(b, fitting, s)
    ensures forall r | r in fitting :: !ModelConflict(b.attrs, r)
  {
    PricedDecides(b, eligible, s);
    NarrowedFits(b.attrs, eligible);
  }

  predicate Lone(way: Way) {
    way.LoneMismatch? || way.LoneBare? || way.LoneNamed? || way.LoneAsked?
  }

  lemma LoneDecides(b: Inbound, eligible: seq<Request>, s: Settings, fitting: seq<Request>, way: Way)
    requires Lone(way) && Goes(b, eligible, s, fitting, way)
    ensures Decide(b, eligible, s) == Answer(b, eligible, fitting, way)
  {
    NarrowedDecides(b, eligible, s, fitting);
    assert fitting[0] in fitting && fitting == [fitting[0]];
  }

  lemma ScoredDecides(b: Inbound, eligible: seq<Request>, s: Settings, fitting: seq<Request>)
    requires Scored(b, eligible, s, fitting)
    ensures Decide(b, eligible, s) == DecideByScore(b, fitting, s)
  {
    NarrowedDecides(b, eligible, s, fitting);
    if |fitting| == 1 {
      assert fitting[0] in fitting;
    }
  }

  lemma LeaderIsMatch(b: Inbound, fitting: seq<Request>, s: Settings, r: Request)
    ensures FindClearTextMatch(b.attrs, fitting, s) == Some(r) <==>
            exists i: nat :: TextLeader(b, fitting, s, i) && fitting[i] == r
    ensures BestMatch(b.attrs, fitting, ByAttrs, s.minScore, s.minMargin) == Some(r) <==>
            exists i: nat :: AttrsLeader(b, fitting, s, i) && fitting[i] == r
  {
    MatchWhen(b.attrs, fitting, ByText, s.minScore, s.minMargin, r);
    MatchWhen(b.attrs, fitting, ByAttrs, s.minScore, s.minMargin, r);
    if i: nat :| Leads(b.attrs, fitting, ByText, s.minScore, s.minMargin, i) && fitting[i] == r {
      assert NamesProduct(b) ==> TextLeader(b, fitting, s, i);
    }
    if i: nat :| Leads(b.attrs, fitting, ByAttrs, s.minScore, s.minMargin, i) && fitting[i] == r {
      assert AttrsLeader(b, fitting, s, i);
    }
  }

  lemma NoLeaderNoMatch(b: Inbound, fitting: seq<Request>, s: Settings)
    ensures FindClearTextMatch(b.attrs, fitting, s).None? <==> forall i: nat :: !TextLeader(b, fitting, s, i)
    ensures BestMatch(b.attrs, fitting, ByAttrs, s.minScore, s.minMargin).None? <==>
            forall i: nat :: !AttrsLeader(b, fitting, s, i)
  {
    forall r
      ensures FindClearTextMatch(b.attrs, fitting, s) == Some(r) <==>
              exists i: nat :: TextLeader(b, fitting, s, i) && fitting[i] == r
      ensures BestMatch(b.attrs, fitting, ByAttrs, s.minScore, s.minMargin) == Some(r) <==>
              exists i: nat :: AttrsLeader(b, fitting, s, i) && fitting[i] == r
    {
      LeaderIsMatch(b, fitting, s, r);
    }
    var text, attrs := FindClearTextMatch(b.attrs, fitting, s),
      BestMatch(b.attrs, fitting, ByAttrs, s.minScore, s.minMargin);
    if i: nat :| TextLeader(b, fitting, s, i) {
      assert text == Some(fitting[i]);
    }
    if i: nat :| AttrsLeader(b, fitting, s, i) {
      assert attrs == Some(fitting[i]);
    }
  }

  lemma LeaderDecides(b: Inbound, eligible: seq<Request>, s: Settings, fitting: seq<Request>, way: Way)
    requires (way.TextLeads? || way.AttrsLead?) && Goes(b, eligible, s, fitting, way)
    ensures Decide(b, eligible, s) == Answer(b, eligible, fitting, way)
  {
    ScoredDecides(b, eligible, s, fitting);
    LeaderIsMatch(b, fitting, s, fitting[way.i]);
    NoLeaderNoMatch(b, fitting, s);
  }

  predicate Judged(way: Way) {
    way.JevBinds? || way.JevUnsure? || way.JevIgnores? || way.JevAsks?
  }

  lemma JevDecides(b: Inbound, eligible: seq<Request>, s: Settings, fitting: seq<Request>, way: Way)
    requires Judged(way) && Goes(b, eligible, s, fitting, way)
    ensures Decide(b, eligible, s) == Answer(b, eligible, fitting, way)
  {
    ScoredDecides(b, eligible, s, fitting);
    NoLeaderNoMatch(b, fitting, s);
    JevIsAsked(b, fitting, s);
    if way.JevBinds? {
      ByIdWhen(fitting, way.chosen.id, way.chosen);
    }
  }

  lemma LlmWhen(b: Inbound, fitting: seq<Request>, s: Settings, r: Request)
    ensures LlmNames(b, fitting, s, r) <==> HasProductIdentity(b.attrs) && LlmChoice(b, fitting, s) == Some(r)
  {
    ByIdWhen(fitting, r.id, r);
    if b.llm.Some? && b.llm.value.request.Some? {
      ByIdWhen(fitting, b.llm.value.request.value, r);
    }
  }

  lemma UnjudgedPasses(b: Inbound, eligible: seq<Request>, s: Settings, fitting: seq<Request>)
    requires Unjudged(b, eligible, s, fitting)
    ensures BindingFromJev(AskJev(b, fitting, s), b, fitting, s).None?
  {
    JevIsAsked(b, fitting, s);
  }

  lemma LastDecides(b: Inbound, eligible: seq<Request>, s: Settings, fitting: seq<Request>, way: Way)
    requires (way.LlmBinds? || way.Undecided?) && Goes(b, eligible, s, fitting, way)
    ensures Decide(b, eligible, s) == Answer(b, eligible, fitting, way)
  {
    ScoredDecides(b, eligible, s, fitting);
    NoLeaderNoMatch(b, fitting, s);
    UnjudgedPasses(b, eligible, s, fitting);
    var llm := LlmChoice(b, fitting, s);
    if way.LlmBinds? {
      LlmWhen(b, fitting, s, way.chosen);
    } else if llm.Some? {
      LlmWhen(b, fitting, s, llm.value);
    }
  }

  /** Whichever way a message goes, that way's answer is the decision. */
  lemma WayDecides(b: Inbound, eligible: seq<Request>, s: Settings, fitting: seq<Request>, way: Way)
    requires Goes(b, eligible, s, fitting, way)
    ensures Decide(b, eligible, s) == Answer(b, eligible, fitting, way)
  {
    if Early(way) {
      EarlyDecides(b, eligible, s, fitting, way);
    } else if Spelled(way) {
      SpelledDecides(b, eligible, s, fitting, way);
    } else if Lone(way) {
      LoneDecides(b, eligible, s, fitting, way);
    } else if way.TextLeads? || way.AttrsLead? {
      LeaderDecides(b, eligible, s, fitting, way);
    } else if Judged(way) {
      JevDecides(b, eligible, s, fitting, way);
    } else {
      LastDecides(b, eligible, s, fitting, way);
    }
  }

  // ----- Every message goes some way -----

  lemma QuietGoes(b: Inbound, eligible: seq<Request>, s: Settings) returns (way: Way)
    requires Heard(b) && !b.hasPrice
    ensures forall fitting :: Goes(b, eligible, s, fitting, way)
  {
    if j :| JevSays(b, eligible, s, j) {
      way := if j.action == Ignore then QuietIgnored(j) else QuietAsked(j);
    } else {
      way := Unpriced;
    }
  }

  lemma NumberedGoes(b: Inbound, eligible: seq<Request>, s: Settings) returns (way: Way)
    requires Unnumbered(b, eligible, s) && b.explicitId.Some?
    ensures forall fitting :: Goes(b, eligible, s, fitting, way)
  {
    var found := ById(eligible, b.explicitId.value);
    if found.Some? {
      ByIdWhen(eligible, b.explicitId.value, found.value);
      way := IdKnown(found.value);
    } else {
      way := IdUnknown;
    }
  }

  lemma LoneGoes(b: Inbound, eligible: seq<Request>, s: Settings, fitting: seq<Request>) returns (way: Way)
    requires Narrowed(b, eligible, s, fitting) && |fitting| == 1 && LoneSettled(b, fitting[0], s)
    ensures Goes(b, eligible, s, fitting, way)
  {
    way := if Contradiction(b.attrs, fitting[0]) then LoneMismatch
           else if b.barePrice && !NamesProduct(b) then LoneBare
           else if NamesProduct(b) && (s.singleAutoBind || b.forRebind) then LoneNamed
           else LoneAsked;
  }

  lemma JudgedGoes(b: Inbound, eligible: seq<Request>, s: Settings, fitting: seq<Request>, j: Jev) returns (way: Way)
    requires Unled(b, eligible, s, fitting) && JevSays(b, fitting, s, j)
    requires !(j.action == AutoBind && j.selected.None?) && !(j.action == Fallback && s.jevFallback)
    ensures Goes(b, eligible, s, fitting, way)
  {
    if j.action == AutoBind {
      var chosen := ById(fitting, j.selected.value);
      if chosen.Some? && b.priceParsed {
        ByIdWhen(fitting, j.selected.value, chosen.value);
        way := JevBinds(j, chosen.value);
      } else {
        way := JevUnsure(j);
      }
    } else {
      way := if j.action == Ignore then JevIgnores(j) else JevAsks(j);
    }
  }

  lemma ScoredGoes(b: Inbound, eligible: seq<Request>, s: Settings, fitting: seq<Request>) returns (way: Way)
    requires Scored(b, eligible, s, fitting)
    ensures Goes(b, eligible, s, fitting, way)
  {
    if i: nat :| TextLeader(b, fitting, s, i) {
      way := TextLeads(i);
    } else if i: nat :| AttrsLeader(b, fitting, s, i) {
      way := AttrsLead(i);
    } else if j :| JevSays(b, fitting, s, j)
                   && !(j.action == AutoBind && j.selected.None?) && !(j.action == Fallback && s.jevFallback) {
      way := JudgedGoes(b, eligible, s, fitting, j);
    } else if r :| LlmNames(b, fitting, s, r) {
      way := LlmBinds(r);
    } else {
      way := Undecided;
    }
  }

  lemma PricedGoes(b: Inbound, eligible: seq<Request>, s: Settings) returns (fitting: seq<Request>, way: Way)
    requires Priced(b, eligible, s)
    ensures Goes(b, eligible, s, fitting, way)
  {
    fitting := [];
    if r :| NamesLine(b, r) {
      way := LineCoded(r);
    } else if b.explicitId.Some? {
      way := NumberedGoes(b, eligible, s);
    } else if CompatibleCandidates(b.attrs, eligible).None? {
      NarrowedFits(b.attrs, eligible);
      way := OtherModel;
    } else {
      fitting := CompatibleCandidates(b.attrs, eligible).value;
      if |fitting| == 1 && LoneSettled(b, fitting[0], s) {
        way := LoneGoes(b, eligible, s, fitting);
      } else {
        way := ScoredGoes(b, eligible, s, fitting);
      }
    }
  }

  lemma EveryMessageGoes(b: Inbound, eligible: seq<Request>, s: Settings) returns (fitting: seq<Request>, way: Way)
    ensures Goes(b, eligible, s, fitting, way)
  {
    fitting := [];
    if r :| Agrees(b, r) {
      way := Replied(r);
    } else if b.noise.Some? {
      way := Noisy(b.noise.value);
    } else if !b.hasPrice {
      way := QuietGoes(b, eligible, s);
    } else if eligible == [] {
      way := if b.genericList then PriceListed else NothingOpen;
    } else if b.genericList && !s.batchReply {
      way := ListAsked;
    } else {
      fitting, way := PricedGoes(b, eligible, s);
    }
  }

  /** The table is the decision: something is decided exactly when a way the message goes answers it. */
  lemma DecidedWhen(b: Inbound, eligible: seq<Request>, s: Settings, d: Decision)
    ensures Decide(b, eligible, s) == d <==>
            exists fitting, way :: Goes(b, eligible, s, fitting, way) && Answer(b, eligible, fitting, way) == d
  {
    var fitting, way := EveryMessageGoes(b, eligible, s);
    WayDecides(b, eligible, s, fitting, way);
    if f, w :| Goes(b, eligible, s, f, w) && Answer(b, eligible, f, w) == d {
      WayDecides(b, eligible, s, f, w);
    }
  }

  /** How each binding route binds, and exactly when. */
  predicate BindsBy(way: Way, how: Method) {
    match how
    case NoMethod => false
    case ByReply => way.Replied?
    case BatchLineCode => way.LineCoded?
    case ExplicitId => way.IdKnown?
    case SingleBarePrice => way.LoneBare?
    case SingleCandidate => way.LoneNamed?
    case TextMethod => way.TextLeads?
    case AttrsMethod => way.AttrsLead?
    case JevMethod => way.JevBinds?
    case LlmMethod => way.LlmBinds?
  }

  lemma AnswerBinds(b: Inbound, eligible: seq<Request>, fitting: seq<Request>, way: Way, how: Method)
    requires !how.NoMethod?
    ensures var d := Answer(b, eligible, fitting, way);
            d.status == Bound && d.how == how <==> BindsBy(way, how)
  {
  }

  ghost predicate BindsTo(b: Inbound, eligible: seq<Request>, s: Settings, fitting: seq<Request>, way: Way, how: Method,
                          r: Request) {
    Goes(b, eligible, s, fitting, way) && BindsBy(way, how) && Answer(b, eligible, fitting, way).request == Some(r)
  }

  lemma BoundWhen(b: Inbound, eligible: seq<Request>, s: Settings, how: Method, r: Request)
    requires !how.NoMethod?
    ensures var d := Decide(b, eligible, s);
            d.status == Bound && d.how == how && d.request == Some(r) <==>
              exists fitting, way :: BindsTo(b, eligible, s, fitting, way, how, r)
  {
    var fitting, way := EveryMessageGoes(b, eligible, s);
    WayDecides(b, eligible, s, fitting, way);
    AnswerBinds(b, eligible, fitting, way, how);
    assert Decide(b, eligible, s).request == Some(r) && BindsBy(way, how) ==>
        BindsTo(b, eligible, s, fitting, way, how, r);
    if f, w :| BindsTo(b, eligible, s, f, w, how, r) {
      WayDecides(b, eligible, s, f, w);
      AnswerBinds(b, eligible, f, w, how);
    }
  }

  /** A reply to a request it does not contradict is bound to that request, whatever else it says. */
  lemma ReplyBindsWhen(b: Inbound, eligible: seq<Request>, s: Settings, r: Request)
    ensures Decide(b, eligible, s) == Decision(Bound, ByReply, Some(r), [], NoReason, false) <==>
            b.reply == Some(r) && !Contradiction(b.attrs, r)
  {
    var fitting, way := EveryMessageGoes(b, eligible, s);
    WayDecides(b, eligible, s, fitting, way);
    if Agrees(b, r) {
      WayDecides(b, eligible, s, [], Replied(r));
    }
  }
}
