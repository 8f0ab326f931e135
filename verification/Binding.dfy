/** Deciding which request a supplier's message answers: a cascade of routes from the explicit to the guessed. */
module Binding {
  import opened Wrappers
  import opened ProductMatch
  import opened ClearMatch
  import LineCodes

  /** Confidences and thresholds are in thousandths. */
  datatype Settings = Settings(
    minScore: int, minMargin: int, llmThreshold: int, batchReply: bool, singleAutoBind: bool,
    jevEnabled: bool, jevShadow: bool, jevFallback: bool)

  datatype JevAction = AutoBind | Ignore | Review | Fallback

  /** What the price classifier answers, and what the language model answers; either may answer nothing. */
  datatype Jev = Jev(action: JevAction, selected: Option<int>, reason: string)
  datatype Llm = Llm(related: bool, confidence: int, request: Option<int>)

  /** A message and what the parsers and classifiers make of it. `reply` is the request the message replies to,
      `batchLines` the requests by printed line code. */
  datatype Inbound = Inbound(
    text: string, attrs: Attrs, reply: Option<Request>, noise: Option<string>, hasPrice: bool, priceParsed: bool,
    barePrice: bool, genericList: bool, multiline: bool, batchLines: map<string, Request>, explicitId: Option<int>,
    jev: Option<Jev>, llm: Option<Llm>, forRebind: bool)

  datatype Method =
    | NoMethod | ByReply | BatchLineCode | ExplicitId | SingleBarePrice | SingleCandidate
    | TextMethod | AttrsMethod | JevMethod | LlmMethod

  datatype Status = Bound | Ignored | PendingBinding | Unbound

  datatype Reason =
    | NoReason | Noise(kind: string) | NoPrice | PriceList | NoMatchingModel | ProductMismatch
    | JevUnknownCandidate | FromJev(code: string)

  datatype Decision = Decision(
    status: Status, how: Method, request: Option<Request>, candidates: seq<Request>, reason: Reason, confirm: bool)

  function BoundTo(how: Method, r: Request, candidates: seq<Request>): Decision {
    Decision(Bound, how, Some(r), candidates, NoReason, false)
  }

  function IgnoredFor(reason: Reason): Decision {
    Decision(Ignored, NoMethod, None, [], reason, false)
  }

  function Ask(candidates: seq<Request>, reason: Reason, confirm: bool): Decision {
    Decision(PendingBinding, NoMethod, None, candidates, reason, confirm)
  }

  // ----- The parts of the cascade -----

  function Compatible(m: Attrs, candidates: seq<Request>): (s: seq<Request>)
    ensures forall r :: r in s <==> r in candidates && !ModelConflict(m, r)
    ensures |s| <= |candidates|
    decreases |candidates|
  {
    if candidates == [] then []
    else
      var n := |candidates| - 1;
      assert candidates == candidates[..n] + [candidates[n]];
      var rest := Compatible(m, candidates[..n]);
      if ModelConflict(m, candidates[n]) then rest else rest + [candidates[n]]
  }

  /** Without the requests that are another model; `None` when the message names a model and none is it. A
      message naming no model keeps them all. */
  function CompatibleCandidates(m: Attrs, candidates: seq<Request>): Option<seq<Request>> {
    if !HasModelIdentity(m) then Some(candidates)
    else if Compatible(m, candidates) == [] then None
    else Some(Compatible(m, candidates))
  }

  function FindClearTextMatch(m: Attrs, candidates: seq<Request>, s: Settings): Option<Request> {
    if HasProductIdentity(m) then BestMatch(m, candidates, ByText, s.minScore, s.minMargin) else None
  }

  /** The first candidate with the id. */
  function ById(candidates: seq<Request>, id: int): (r: Option<Request>)
    ensures r.Some? ==> r.value in candidates && r.value.id == id
    ensures r.None? ==> forall q | q in candidates :: q.id != id
  {
    if candidates == [] then None
    else if candidates[0].id == id then Some(candidates[0])
    else ById(candidates[1..], id)
  }

  function AskJev(b: Inbound, candidates: seq<Request>, s: Settings): Option<Jev> {
    if !s.jevEnabled || candidates == [] || (s.batchReply && b.multiline) then None else b.jev
  }

  function JevVerdict(j: Jev, chosen: Option<Request>, b: Inbound, candidates: seq<Request>, s: Settings)
      : Option<Decision> {
    if j.action == AutoBind && j.selected.Some? then
      if chosen.None? || !b.priceParsed then Some(Ask(candidates, JevUnknownCandidate, false))
      else Some(BoundTo(JevMethod, chosen.value, candidates))
    else if j.action == Ignore then Some(IgnoredFor(FromJev(j.reason)))
    else if j.action == Review || (j.action == Fallback && !s.jevFallback) then
        Some(Ask(candidates, FromJev(j.reason), false))
    else None
  }

  /** The classifier's word, outside shadow mode; `None` hands over to the next route. */
  function BindingFromJev(jev: Option<Jev>, b: Inbound, candidates: seq<Request>, s: Settings): Option<Decision> {
    if jev.None? || s.jevShadow then None
    else
      var chosen := if jev.value.selected.Some? then ById(candidates, jev.value.selected.value) else None;
      JevVerdict(jev.value, chosen, b, candidates, s)
  }

  function ResolveWithLlm(b: Inbound, candidates: seq<Request>, s: Settings): Option<Request> {
    if b.llm.None? || !b.llm.value.related || b.llm.value.confidence < s.llmThreshold
       || b.llm.value.request.None? then None
    else ById(candidates, b.llm.value.request.value)
  }

  /** A message without a price is ignored, unless the classifier wants it seen. */
  function DecideUnpriced(b: Inbound, eligible: seq<Request>, s: Settings): Decision {
    var jev := AskJev(b, eligible, s);
    if jev.Some? && !s.jevShadow then
      if jev.value.action == Ignore then Decision(Ignored, NoMethod, None, eligible, FromJev(jev.value.reason), false)
      else Ask(eligible, FromJev(jev.value.reason), false)
    else IgnoredFor(NoPrice)
  }

  /** One candidate left; `None` hands over to the scoring routes. */
  function DecideSingle(b: Inbound, only: Request, s: Settings): Option<Decision> {
    var product := HasProductIdentity(b.attrs);
    var safe := !Contradiction(b.attrs, only) && (b.barePrice || product);
    var bareToOnly := safe && b.barePrice && !product;
    if Contradiction(b.attrs, only) then
      Some(if ModelConflict(b.attrs, only) then IgnoredFor(NoMatchingModel) else Ask([only], ProductMismatch, false))
    else if bareToOnly || (safe && (s.singleAutoBind || b.forRebind)) then
      Some(BoundTo(if b.barePrice && !product then SingleBarePrice else SingleCandidate, only, [only]))
    else if !s.jevEnabled then Some(Ask([only], NoReason, safe))
    else None
  }

  /** The model's choice, dropped when it is another product than the message names. */
  function LlmChoice(b: Inbound, candidates: seq<Request>, s: Settings): Option<Request> {
    var llm := ResolveWithLlm(b, candidates, s);
    if llm.Some? && ModelConflict(b.attrs, llm.value) then None else llm
  }

  /** The scoring routes in order, given what each of them finds. */
  function FirstRoute(text: Option<Request>, attrs: Option<Request>, jev: Option<Decision>, product: bool,
                      llm: Option<Request>, candidates: seq<Request>): Decision {
    if text.Some? then BoundTo(TextMethod, text.value, candidates)
    else if attrs.Some? then BoundTo(AttrsMethod, attrs.value, candidates)
    else if jev.Some? then jev.value
    else if product && llm.Some? then BoundTo(LlmMethod, llm.value, candidates)
    else Ask(candidates, NoReason, false)
  }

  function DecideByScore(b: Inbound, candidates: seq<Request>, s: Settings): Decision {
    FirstRoute(
      FindClearTextMatch(b.attrs, candidates, s),
      BestMatch(b.attrs, candidates, ByAttrs, s.minScore, s.minMargin),
      BindingFromJev(AskJev(b, candidates, s), b, candidates, s),
      HasProductIdentity(b.attrs), LlmChoice(b, candidates, s), candidates)
  }

  function DecideAmong(b: Inbound, candidates: seq<Request>, s: Settings): Decision {
    var single := if |candidates| == 1 then DecideSingle(b, candidates[0], s) else None;
    if single.Some? then single.value else DecideByScore(b, candidates, s)
  }

  function LineRequest(b: Inbound): Option<Request> {
    var code := LineCodes.ParseBatchLineCode(b.text);
    if code.Some? && code.value in b.batchLines then Some(b.batchLines[code.value]) else None
  }

  function DecideExplicit(id: int, eligible: seq<Request>): Decision {
    var r := ById(eligible, id);
    if r.Some? then BoundTo(ExplicitId, r.value, eligible)
    else Decision(Unbound, NoMethod, None, eligible, NoReason, false)
  }

  function DecidePriced(b: Inbound, eligible: seq<Request>, s: Settings): Decision {
    if eligible == [] then
      if b.genericList then IgnoredFor(PriceList) else Decision(Unbound, NoMethod, None, [], NoReason, false)
    else if b.genericList && !s.batchReply then Ask(eligible, NoReason, false)
    else if LineRequest(b).Some? then BoundTo(BatchLineCode, LineRequest(b).value, eligible)
    else if b.explicitId.Some? then DecideExplicit(b.explicitId.value, eligible)
    else
      var narrowed := CompatibleCandidates(b.attrs, eligible);
      if narrowed.None? then IgnoredFor(NoMatchingModel) else DecideAmong(b, narrowed.value, s)
  }

  function Decide(b: Inbound, eligible: seq<Request>, s: Settings): Decision {
    if b.reply.Some? && !Contradiction(b.attrs, b.reply.value) then BoundTo(ByReply, b.reply.value, [])
    else if b.noise.Some? then IgnoredFor(Noise(b.noise.value))
    else if !b.hasPrice then DecideUnpriced(b, eligible, s)
    else DecidePriced(b, eligible, s)
  }

  // ----- The cascade as written -----

  method ResolveSingle(b: Inbound, only: Request, s: Settings) returns (d: Option<Decision>)
    ensures d == DecideSingle(b, only, s)
  {
    var conflicts := DetectProductContradictions(b.attrs, only);
    var hasProduct := HasProductIdentity(b.attrs);
    var safeSingle := conflicts == [] && (b.barePrice || hasProduct);
    if conflicts != [] {
      var modelConflicts := ModelIdentityConflicts(b.attrs, only);
      if modelConflicts != [] {
        return Some(IgnoredFor(NoMatchingModel));
      }
      return Some(Ask([only], ProductMismatch, false));
    }
    var how := if b.barePrice && !hasProduct then SingleBarePrice else SingleCandidate;
    var bareToOnlyRequest := safeSingle && b.barePrice && !hasProduct;
    if bareToOnlyRequest || (safeSingle && (s.singleAutoBind || b.forRebind)) {
      return Some(BoundTo(how, only, [only]));
    }
    if !s.jevEnabled {
      return Some(Ask([only], NoReason, safeSingle));
    }
    return None;
  }

  method ResolveByScore(b: Inbound, candidates: seq<Request>, s: Settings) returns (d: Decision)
    ensures d == DecideByScore(b, candidates, s)
  {
    if HasProductIdentity(b.attrs) {
      var textMatch := FindBestMatch(b.attrs, candidates, ByText, s.minScore, s.minMargin);
      if textMatch.Some? {
        return BoundTo(TextMethod, textMatch.value, candidates);
      }
    }
    var attrsMatch := FindBestMatch(b.attrs, candidates, ByAttrs, s.minScore, s.minMargin);
    if attrsMatch.Some? {
      return BoundTo(AttrsMethod, attrsMatch.value, candidates);
    }
    var jevGate := BindingFromJev(AskJev(b, candidates, s), b, candidates, s);
    if jevGate.Some? {
      return jevGate.value;
    }
    if !HasProductIdentity(b.attrs) {
      return Ask(candidates, NoReason, false);
    }
    var llmRequest := ResolveWithLlm(b, candidates, s);
    if llmRequest.Some? {
      var conflicts := ModelIdentityConflicts(b.attrs, llmRequest.value);
      if conflicts != [] {
        llmRequest := None;
      }
    }
    if llmRequest.Some? {
      return BoundTo(LlmMethod, llmRequest.value, candidates);
    }
    return Ask(candidates, NoReason, false);
  }

  method ResolveBinding(b: Inbound, eligible: seq<Request>, s: Settings) returns (d: Decision)
    ensures d == Decide(b, eligible, s)
    ensures b.reply.Some? && !Contradiction(b.attrs, b.reply.value) ==>
              d == Decision(Bound, ByReply, b.reply, [], NoReason, false)
  {
    if b.reply.Some? {
      var replyConflicts := DetectProductContradictions(b.attrs, b.reply.value);
      if replyConflicts == [] {
        return BoundTo(ByReply, b.reply.value, []);
      }
    }
    if b.noise.Some? {
      return IgnoredFor(Noise(b.noise.value));
    }
    if !b.hasPrice {
      return DecideUnpriced(b, eligible, s);
    }
    if eligible == [] {
      if b.genericList {
        return IgnoredFor(PriceList);
      }
      return Decision(Unbound, NoMethod, None, [], NoReason, false);
    }
    if b.genericList && !s.batchReply {
      return Ask(eligible, NoReason, false);
    }
    var lineRequest := LineRequest(b);
    if lineRequest.Some? {
      return BoundTo(BatchLineCode, lineRequest.value, eligible);
    }
    if b.explicitId.Some? {
      return DecideExplicit(b.explicitId.value, eligible);
    }
    var narrowed := CompatibleCandidates(b.attrs, eligible);
    if narrowed.None? {
      return IgnoredFor(NoMatchingModel);
    }
    var candidates := narrowed.value;
    if |candidates| == 1 {
      var single := ResolveSingle(b, candidates[0], s);
      if single.Some? {
        return single.value;
      }
    }
    d := ResolveByScore(b, candidates, s);
  }

  // ----- What a decision means -----

  /** Narrowing leaves only eligible requests that do not conflict with the message. */
  lemma NarrowedFits(m: Attrs, eligible: seq<Request>)
    ensures var narrowed := CompatibleCandidates(m, eligible);
            && (narrowed.Some? ==> forall r :: r in narrowed.value <==> r in eligible && !ModelConflict(m, r))
            && (narrowed.None? <==> HasModelIdentity(m) && forall r | r in eligible :: ModelConflict(m, r))
  {
    if CompatibleCandidates(m, eligible).Some? && !HasModelIdentity(m) {
      assert forall r: Request, f: Field | IsIdentity(f) :: !FieldClash(m, r.stored, f);
    }
    var kept := Compatible(m, eligible);
    assert kept != [] ==> kept[0] in kept;
    assert kept == [] ==> forall r | r in eligible :: r !in kept;
  }

  /** A guess: a bound decision the supplier did not spell out. */
  predicate Guessed(how: Method) {
    how == SingleBarePrice || how == SingleCandidate || how == TextMethod || how == AttrsMethod || how == JevMethod
    || how == LlmMethod
  }

  /** What each route must have seen before it binds a message to `r`. */
  ghost predicate Justified(b: Inbound, eligible: seq<Request>, s: Settings, how: Method, r: Request) {
    match how
    case NoMethod => false
    case ByReply => b.reply == Some(r) && !Contradiction(b.attrs, r)
    case BatchLineCode => LineRequest(b) == Some(r)
    case ExplicitId => r in eligible && b.explicitId == Some(r.id)
    case SingleBarePrice => !Contradiction(b.attrs, r) && b.barePrice && !HasProductIdentity(b.attrs)
    case SingleCandidate =>
      !Contradiction(b.attrs, r) && HasProductIdentity(b.attrs) && (s.singleAutoBind || b.forRebind)
    case TextMethod =>
      HasProductIdentity(b.attrs) && MatchScore(b.attrs, r) >= 0 && Total(b.attrs, r, ByText) >= s.minScore
    case AttrsMethod => MatchScore(b.attrs, r) >= 0 && MatchScore(b.attrs, r) >= s.minScore
    case JevMethod => s.jevEnabled && !s.jevShadow && b.priceParsed && b.jev.Some?
                      && b.jev.value.action == AutoBind && b.jev.value.selected == Some(r.id)
    case LlmMethod => HasProductIdentity(b.attrs) && b.llm.Some? && b.llm.value.related
                      && b.llm.value.confidence >= s.llmThreshold && b.llm.value.request == Some(r.id)
  }

  ghost predicate Sound(b: Inbound, eligible: seq<Request>, s: Settings, d: Decision) {
    && (d.status == Bound <==> d.request.Some?)
    && (d.request.Some? ==>
          && Justified(b, eligible, s, d.how, d.request.value)
          && (Guessed(d.how) ==> d.request.value in eligible && !ModelConflict(b.attrs, d.request.value)))
    && (d.request.None? ==> d.how == NoMethod)
    && forall r :: r in d.candidates ==> r in eligible
  }

  lemma ScoreSound(b: Inbound, eligible: seq<Request>, candidates: seq<Request>, s: Settings)
    requires forall r | r in candidates :: r in eligible && !ModelConflict(b.attrs, r)
    ensures Sound(b, eligible, s, DecideByScore(b, candidates, s))
  {
    BestMatchIsBest(b.attrs, candidates, ByText, s.minScore, s.minMargin);
    BestMatchIsBest(b.attrs, candidates, ByAttrs, s.minScore, s.minMargin);
  }

  lemma AmongSound(b: Inbound, eligible: seq<Request>, candidates: seq<Request>, s: Settings)
    requires forall r | r in candidates :: r in eligible && !ModelConflict(b.attrs, r)
    ensures Sound(b, eligible, s, DecideAmong(b, candidates, s))
  {
    ScoreSound(b, eligible, candidates, s);
    if |candidates| == 1 {
      assert candidates[0] in candidates;
      assert candidates == [candidates[0]];
    }
  }

  lemma PricedSound(b: Inbound, eligible: seq<Request>, s: Settings)
    ensures Sound(b, eligible, s, DecidePriced(b, eligible, s))
  {
    var narrowed := CompatibleCandidates(b.attrs, eligible);
    NarrowedFits(b.attrs, eligible);
    if narrowed.Some? {
      AmongSound(b, eligible, narrowed.value, s);
    }
  }

  /** Every bound decision is justified by its route, and every guessed one names an eligible request whose
      family, number, variant and SKU do not conflict with the message. */
  lemma EveryBindingSound(b: Inbound, eligible: seq<Request>, s: Settings)
    ensures Sound(b, eligible, s, Decide(b, eligible, s))
  {
    if b.hasPrice {
      PricedSound(b, eligible, s);
    }
  }

  /** Without a price nothing is bound but a reply to the request itself. */
  lemma NoPriceNoBinding(b: Inbound, eligible: seq<Request>, s: Settings)
    requires !b.hasPrice && Decide(b, eligible, s).status == Bound
    ensures Decide(b, eligible, s).how == ByReply
  {
  }

  lemma AmongNotDismissed(b: Inbound, candidates: seq<Request>, s: Settings)
    requires forall r | r in candidates :: !ModelConflict(b.attrs, r)
    ensures DecideAmong(b, candidates, s).reason != NoMatchingModel
  {
    if |candidates| == 1 {
      assert candidates[0] in candidates;
    }
  }

  /** The message gets as far as looking at the candidates: priced, not noise, and no reply to a request it
      agrees with. */
  predicate Considered(b: Inbound, s: Settings) {
    && b.hasPrice && b.noise.None? && (b.genericList ==> s.batchReply)
    && (b.reply.Some? ==> Contradiction(b.attrs, b.reply.value))
  }

  /** And it names no request by a line code or an id. */
  predicate LeftToGuess(b: Inbound, s: Settings) {
    Considered(b, s) && LineRequest(b).None? && b.explicitId.None?
  }

  /** A priced message is dismissed as being about another model exactly when it names one and every eligible
      request is another: the single-candidate check for it never fires. */
  lemma WrongModelDismissed(b: Inbound, eligible: seq<Request>, s: Settings)
    requires LeftToGuess(b, s) && eligible != []
    ensures Decide(b, eligible, s) == IgnoredFor(NoMatchingModel) <==>
            HasModelIdentity(b.attrs) && forall r | r in eligible :: ModelConflict(b.attrs, r)
  {
    NarrowedFits(b.attrs, eligible);
    var narrowed := CompatibleCandidates(b.attrs, eligible);
    if narrowed.Some? {
      AmongNotDismissed(b, narrowed.value, s);
    }
  }

  /** With one open request, a bare price is its answer whatever the settings; a named product is bound by
      itself only when enabled or on a rebind; another model is dismissed and any other contradiction is asked
      about. */
  lemma LoneCandidate(b: Inbound, r: Request, s: Settings)
    requires LeftToGuess(b, s)
    ensures var d := Decide(b, [r], s);
            && (d.how == SingleBarePrice <==>
                  b.barePrice && !HasProductIdentity(b.attrs) && !Contradiction(b.attrs, r))
            && (d.how == SingleCandidate <==>
                  HasProductIdentity(b.attrs) && !Contradiction(b.attrs, r) && (s.singleAutoBind || b.forRebind))
            && (ModelConflict(b.attrs, r) ==> d == IgnoredFor(NoMatchingModel))
            && (Contradiction(b.attrs, r) && !ModelConflict(b.attrs, r) ==> d == Ask([r], ProductMismatch, false))
  {
    NarrowedFits(b.attrs, [r]);
    if ModelConflict(b.attrs, r) {
      OnlyIdentityConflicts(b.attrs, r);
      assert forall q | q in [r] :: ModelConflict(b.attrs, q);
    } else {
      LoneDecided(b, r, s);
    }
  }

  lemma LoneDecided(b: Inbound, r: Request, s: Settings)
    requires LeftToGuess(b, s) && !ModelConflict(b.attrs, r)
    ensures var d, single := Decide(b, [r], s), DecideSingle(b, r, s);
            if single.Some? then d == single.value else d.how != SingleBarePrice && d.how != SingleCandidate
  {
    LoneNarrowed(b.attrs, r);
    assert Decide(b, [r], s) == DecideAmong(b, [r], s);
  }

  lemma OnlyIdentityConflicts(m: Attrs, r: Request)
    ensures ModelConflict(m, r) ==> HasModelIdentity(m)
  {
  }

  lemma LoneNarrowed(m: Attrs, r: Request)
    requires !ModelConflict(m, r)
    ensures CompatibleCandidates(m, [r]) == Some([r])
  {
    assert [r][..0] == [];
    assert Compatible(m, []) == [];
    assert Compatible(m, [r]) == [r];
  }

  /** The requests that fit stay in the order they came: one more request is added at the end or not at all. */
  lemma CompatibleGrows(m: Attrs, xs: seq<Request>, r: Request)
    ensures Compatible(m, []) == []
    ensures Compatible(m, xs + [r]) == Compatible(m, xs) + if ModelConflict(m, r) then [] else [r]
  {
    assert (xs + [r])[..|xs|] == xs;
  }

  lemma {:induction false} CompatibleNoRepeats(m: Attrs, candidates: seq<Request>)
    requires NoRepeats(candidates)
    ensures NoRepeats(Compatible(m, candidates))
    decreases |candidates|
  {
    if candidates != [] {
      var n := |candidates| - 1;
      CompatibleNoRepeats(m, candidates[..n]);
      var rest := Compatible(m, candidates[..n]);
      forall i | 0 <= i < |rest| ensures rest[i] != candidates[n] {
        assert rest[i] in rest;
        assert rest[i] in candidates[..n];
      }
    }
  }

  /** With several requests that fit and a positive margin, a message naming a product is bound by text to a
      request exactly when that one clearly leads the others. */
  lemma ClearLeaderBinds(b: Inbound, eligible: seq<Request>, s: Settings, r: Request)
    requires LeftToGuess(b, s) && HasProductIdentity(b.attrs) && s.minMargin > 0 && NoRepeats(eligible)
    requires CompatibleCandidates(b.attrs, eligible).Some? && |CompatibleCandidates(b.attrs, eligible).value| > 1
    ensures var fitting := CompatibleCandidates(b.attrs, eligible).value;
            ClearlyBest(b.attrs, fitting, ByText, s.minScore, s.minMargin, r) <==>
              Decide(b, eligible, s) == BoundTo(TextMethod, r, fitting)
  {
    var fitting := CompatibleCandidates(b.attrs, eligible).value;
    CompatibleNoRepeats(b.attrs, eligible);
    BestMatchIsClear(b.attrs, fitting, ByText, s.minScore, s.minMargin, r);
    DecideSeveral(b, eligible, s);
    TextRouteOnly(b, fitting, s, r);
  }

  lemma DecideSeveral(b: Inbound, eligible: seq<Request>, s: Settings)
    requires LeftToGuess(b, s) && CompatibleCandidates(b.attrs, eligible).Some?
    requires |CompatibleCandidates(b.attrs, eligible).value| > 1
    ensures Decide(b, eligible, s) == DecideByScore(b, CompatibleCandidates(b.attrs, eligible).value, s)
  {
  }

  lemma TextRouteOnly(b: Inbound, candidates: seq<Request>, s: Settings, r: Request)
    ensures DecideByScore(b, candidates, s) == BoundTo(TextMethod, r, candidates) <==>
            FindClearTextMatch(b.attrs, candidates, s) == Some(r)
  {
  }

  /** A supplier who answers with a copied line of a grouped price request is bound to that line's request,
      whatever else the message or the candidates say. */
  lemma CopiedLineBinds(b: Inbound, eligible: seq<Request>, s: Settings, batch: nat, line: nat, tail: string)
    requires line <= 99 && (tail != "" ==> !LineCodes.IsWord(tail[0]))
    requires b.text == LineCodes.LineCode(batch, line) + tail && LineCodes.LineCode(batch, line) in b.batchLines
    requires Considered(b, s) && eligible != []
    ensures Decide(b, eligible, s) == BoundTo(BatchLineCode, b.batchLines[LineCodes.LineCode(batch, line)], eligible)
  {
    LineCodes.LineCodeRoundTrip(batch, line, tail);
  }

  // ----- The order of the candidates -----

  predicate SameOutcome(d: Decision, e: Decision) {
    && d.status == e.status && d.how == e.how && d.request == e.request
    && d.reason == e.reason && d.confirm == e.confirm && multiset(d.candidates) == multiset(e.candidates)
  }

  lemma {:induction false} CompatibleCount(m: Attrs, candidates: seq<Request>, r: Request)
    ensures multiset(Compatible(m, candidates))[r] == if ModelConflict(m, r) then 0 else multiset(candidates)[r]
    decreases |candidates|
  {
    if candidates != [] {
      var n := |candidates| - 1;
      assert candidates == candidates[..n] + [candidates[n]];
      CompatibleCount(m, candidates[..n], r);
    }
  }

  lemma CompatibleSame(m: Attrs, xs: seq<Request>, ys: seq<Request>)
    requires multiset(xs) == multiset(ys)
    ensures multiset(Compatible(m, xs)) == multiset(Compatible(m, ys))
  {
    forall r: Request ensures multiset(Compatible(m, xs))[r] == multiset(Compatible(m, ys))[r] {
      CompatibleCount(m, xs, r);
      CompatibleCount(m, ys, r);
    }
  }

  lemma ByIdSame(xs: seq<Request>, ys: seq<Request>, id: int)
    requires multiset(xs) == multiset(ys) && OnePerId(xs)
    ensures ById(xs, id) == ById(ys, id)
  {
    assert forall r :: r in xs <==> r in multiset(xs);
    assert forall r :: r in ys <==> r in multiset(ys);
  }

  lemma EmptySame(xs: seq<Request>, ys: seq<Request>)
    requires multiset(xs) == multiset(ys)
    ensures |xs| == |ys| && (|xs| == 1 ==> xs[0] == ys[0])
  {
    assert |multiset(xs)| == |xs| && |multiset(ys)| == |ys|;
    if |xs| == 1 {
      assert xs[0] in multiset(ys);
    }
  }

  lemma VerdictSame(j: Jev, chosen: Option<Request>, b: Inbound, xs: seq<Request>, ys: seq<Request>, s: Settings)
    requires multiset(xs) == multiset(ys)
    ensures SameOption(JevVerdict(j, chosen, b, xs, s), JevVerdict(j, chosen, b, ys, s))
  {
  }

  lemma JevSame(jev: Option<Jev>, b: Inbound, xs: seq<Request>, ys: seq<Request>, s: Settings)
    requires multiset(xs) == multiset(ys) && OnePerId(xs)
    ensures SameOption(BindingFromJev(jev, b, xs, s), BindingFromJev(jev, b, ys, s))
  {
    if jev.Some? {
      if jev.value.selected.Some? {
        ByIdSame(xs, ys, jev.value.selected.value);
      }
      var chosen := if jev.value.selected.Some? then ById(xs, jev.value.selected.value) else None;
      VerdictSame(jev.value, chosen, b, xs, ys, s);
    }
  }

  predicate SameOption(d: Option<Decision>, e: Option<Decision>) {
    d.Some? == e.Some? && (d.Some? ==> SameOutcome(d.value, e.value))
  }

  predicate Decisive(s: Settings) {
    s.minMargin > 0 || s.minScore > TOP_SCORE
  }

  lemma LlmSame(b: Inbound, xs: seq<Request>, ys: seq<Request>, s: Settings)
    requires multiset(xs) == multiset(ys) && OnePerId(xs)
    ensures LlmChoice(b, xs, s) == LlmChoice(b, ys, s)
  {
    if b.llm.Some? && b.llm.value.request.Some? {
      ByIdSame(xs, ys, b.llm.value.request.value);
    }
  }

  lemma RouteSame(text: Option<Request>, attrs: Option<Request>, jev: Option<Decision>, other: Option<Decision>,
                  product: bool, llm: Option<Request>, xs: seq<Request>, ys: seq<Request>)
    requires multiset(xs) == multiset(ys) && SameOption(jev, other)
    ensures SameOutcome(FirstRoute(text, attrs, jev, product, llm, xs),
                        FirstRoute(text, attrs, other, product, llm, ys))
  {
  }

  lemma ScoreSame(b: Inbound, xs: seq<Request>, ys: seq<Request>, s: Settings)
    requires multiset(xs) == multiset(ys) && OnePerId(xs) && Decisive(s)
    ensures SameOutcome(DecideByScore(b, xs, s), DecideByScore(b, ys, s))
  {
    EmptySame(xs, ys);
    var text := FindClearTextMatch(b.attrs, xs, s);
    var attrs := BestMatch(b.attrs, xs, ByAttrs, s.minScore, s.minMargin);
    var jev := AskJev(b, xs, s);
    TextIgnoresOrder(b.attrs, xs, ys, s.minScore, s.minMargin);
    AttrsIgnoreOrder(b.attrs, xs, ys, s.minScore, s.minMargin);
    JevSame(jev, b, xs, ys, s);
    LlmSame(b, xs, ys, s);
    RouteSame(text, attrs, BindingFromJev(jev, b, xs, s), BindingFromJev(jev, b, ys, s),
              HasProductIdentity(b.attrs), LlmChoice(b, xs, s), xs, ys);
  }

  lemma AmongSame(b: Inbound, xs: seq<Request>, ys: seq<Request>, s: Settings)
    requires multiset(xs) == multiset(ys) && OnePerId(xs) && Decisive(s)
    ensures SameOutcome(DecideAmong(b, xs, s), DecideAmong(b, ys, s))
  {
    EmptySame(xs, ys);
    ScoreSame(b, xs, ys, s);
  }

  lemma ExplicitSame(id: int, xs: seq<Request>, ys: seq<Request>)
    requires multiset(xs) == multiset(ys) && OnePerId(xs)
    ensures SameOutcome(DecideExplicit(id, xs), DecideExplicit(id, ys))
  {
    ByIdSame(xs, ys, id);
  }

  lemma NarrowedSame(b: Inbound, xs: seq<Request>, ys: seq<Request>, s: Settings)
    requires multiset(xs) == multiset(ys) && OnePerId(xs) && Decisive(s)
    ensures var x, y := CompatibleCandidates(b.attrs, xs), CompatibleCandidates(b.attrs, ys);
            x.Some? == y.Some? && (x.Some? ==> SameOutcome(DecideAmong(b, x.value, s), DecideAmong(b, y.value, s)))
  {
    if HasModelIdentity(b.attrs) {
      CompatibleSame(b.attrs, xs, ys);
      EmptySame(Compatible(b.attrs, xs), Compatible(b.attrs, ys));
      AmongSame(b, Compatible(b.attrs, xs), Compatible(b.attrs, ys), s);
    } else {
      AmongSame(b, xs, ys, s);
    }
  }

  lemma PricedSame(b: Inbound, xs: seq<Request>, ys: seq<Request>, s: Settings)
    requires multiset(xs) == multiset(ys) && OnePerId(xs) && Decisive(s)
    ensures SameOutcome(DecidePriced(b, xs, s), DecidePriced(b, ys, s))
  {
    EmptySame(xs, ys);
    if xs == [] || (b.genericList && !s.batchReply) || LineRequest(b).Some? {
    } else if b.explicitId.Some? {
      ExplicitSame(b.explicitId.value, xs, ys);
    } else {
      NarrowedSame(b, xs, ys, s);
    }
  }

  ghost predicate OrderFree(s: Settings) {
    forall b, xs, ys | multiset(xs) == multiset(ys) && OnePerId(xs) :: SameOutcome(Decide(b, xs, s), Decide(b, ys, s))
  }

  lemma DecisiveIsOrderFree(b: Inbound, xs: seq<Request>, ys: seq<Request>, s: Settings)
    requires multiset(xs) == multiset(ys) && OnePerId(xs) && Decisive(s)
    ensures SameOutcome(Decide(b, xs, s), Decide(b, ys, s))
  {
    EmptySame(xs, ys);
    PricedSame(b, xs, ys, s);
  }

  /** A message that gives every detail but the model, and requests for one and the same phone. */
  function Details(family: string, number: string, variant: string, model: string, modelText: string): Attrs {
    Attrs(family, number, variant, "256GB", "Black", "EU", "eSIM", "", model, modelText, Some(2))
  }

  const UNNAMED := Details("", "", "", "", "")
  const PHONE := Details("iphone", "17", "pro", "iPhone 17 Pro", "iphone 17 pro")

  function AmbiguousMessage(): Inbound {
    Inbound("256gb black EU eSIM 2 шт 95000", UNNAMED, None, None, true, true, false, false, false, map[],
            None, None, None, false)
  }

  function Twin(id: int): Request {
    Request(id, true, PHONE, PHONE, 0)
  }

  lemma TwinsTie(s: Settings, id: int, other: int)
    requires !Decisive(s)
    ensures Decide(AmbiguousMessage(), [Twin(id), Twin(other)], s).request == Some(Twin(id))
  {
    FirstListedWins(UNNAMED, Twin(id), Twin(other), s.minScore, s.minMargin);
    assert LineRequest(AmbiguousMessage()).None?;
  }

  lemma OrderMatters(s: Settings) returns (b: Inbound, xs: seq<Request>, ys: seq<Request>)
    requires !Decisive(s)
    ensures multiset(xs) == multiset(ys) && OnePerId(xs) && !SameOutcome(Decide(b, xs, s), Decide(b, ys, s))
  {
    b, xs, ys := AmbiguousMessage(), [Twin(1), Twin(2)], [Twin(2), Twin(1)];
    TwinsTie(s, 1, 2);
    TwinsTie(s, 2, 1);
  }

  /** The decision depends on nothing but the set of candidates exactly when a positive margin is configured, or
      a score that cannot be reached; otherwise the first listed of two equal candidates is bound. */
  lemma OrderFreeWhen(s: Settings)
    ensures OrderFree(s) <==> Decisive(s)
  {
    if Decisive(s) {
      forall b, xs, ys | multiset(xs) == multiset(ys) && OnePerId(xs)
        ensures SameOutcome(Decide(b, xs, s), Decide(b, ys, s))
      {
        DecisiveIsOrderFree(b, xs, ys, s);
      }
    } else {
      var b, xs, ys := OrderMatters(s);
    }
  }
}
