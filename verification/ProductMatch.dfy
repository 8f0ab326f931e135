/** Comparing the product a supplier's message names with the product of a request. */
module ProductMatch {
  import opened Wrappers
  import opened Texts

  /** Attributes extracted from a text; the empty string stands for an attribute it does not mention.
      `modelText` is the model as the text normaliser writes it. */
  datatype Attrs = Attrs(
    family: string, number: string, variant: string, storage: string, color: string, region: string,
    sim: string, sku: string, model: string, modelText: string, qty: Option<int>)

  /** A request on offer. `scored` is read from its model, storage and color; `stored` from these and its SIM,
      region and SKU; neither means anything when the request has no normalised product. `overlap` is how much
      of the supplier's text its own text shares. */
  datatype Request = Request(id: int, normalized: bool, scored: Attrs, stored: Attrs, overlap: nat)

  datatype Field = Family | ModelNumber | Variant | Sku | Storage | Color | Sim | Region

  predicate Clash(a: string, b: string) {
    a != "" && b != "" && a != b
  }

  predicate LooseClash(a: string, b: string) {
    a != "" && b != "" && !SameText(a, b)
  }

  predicate Agree(a: string, b: string) {
    a != "" && b != "" && SameText(a, b)
  }

  predicate FieldClash(m: Attrs, r: Attrs, f: Field) {
    match f
    case Family => Clash(m.family, r.family)
    case ModelNumber => Clash(m.number, r.number)
    case Variant => Clash(m.variant, r.variant)
    case Sku => Clash(m.sku, r.sku)
    case Storage => LooseClash(m.storage, r.storage)
    case Color => LooseClash(m.color, r.color)
    case Sim => LooseClash(m.sim, r.sim)
    case Region => LooseClash(m.region, r.region)
  }

  predicate IsIdentity(f: Field) {
    f == Family || f == ModelNumber || f == Variant || f == Sku
  }

  /** The two name different products. */
  predicate ModelConflict(m: Attrs, r: Request) {
    r.normalized && exists f :: IsIdentity(f) && FieldClash(m, r.stored, f)
  }

  /** That, or storage, color, SIM or region. */
  predicate Contradiction(m: Attrs, r: Request) {
    r.normalized && exists f :: FieldClash(m, r.stored, f)
  }

  predicate HasModelIdentity(m: Attrs) {
    m.family != "" || m.number != "" || m.variant != "" || m.sku != ""
  }

  predicate HasProductIdentity(m: Attrs) {
    m.model != "" || HasModelIdentity(m)
  }

  predicate BothSay(a: string, b: string) {
    a != "" && b != ""
  }

  /** Two products differ where both are named and named differently; other details clash where both are given and
      differ in more than the case of their letters. */
  lemma ContradictionMeans(m: Attrs, r: Request)
    ensures ModelConflict(m, r) <==>
              && r.normalized
              && ((BothSay(m.family, r.stored.family) && m.family != r.stored.family)
                  || (BothSay(m.number, r.stored.number) && m.number != r.stored.number)
                  || (BothSay(m.variant, r.stored.variant) && m.variant != r.stored.variant)
                  || (BothSay(m.sku, r.stored.sku) && m.sku != r.stored.sku))
    ensures Contradiction(m, r) <==>
              || ModelConflict(m, r)
              || (&& r.normalized
                  && ((BothSay(m.storage, r.stored.storage) && Lower(m.storage) != Lower(r.stored.storage))
                      || (BothSay(m.color, r.stored.color) && Lower(m.color) != Lower(r.stored.color))
                      || (BothSay(m.sim, r.stored.sim) && Lower(m.sim) != Lower(r.stored.sim))
                      || (BothSay(m.region, r.stored.region) && Lower(m.region) != Lower(r.stored.region))))
  {
    forall f ensures FieldClash(m, r.stored, f) ==> Contradiction(m, r) || !r.normalized {}
    if r.normalized {
      forall f | IsIdentity(f) && FieldClash(m, r.stored, f) ensures ModelConflict(m, r) {}
      var s := r.stored;
      assert FieldClash(m, s, Family) <==> BothSay(m.family, s.family) && m.family != s.family;
      assert FieldClash(m, s, ModelNumber) <==> BothSay(m.number, s.number) && m.number != s.number;
      assert FieldClash(m, s, Variant) <==> BothSay(m.variant, s.variant) && m.variant != s.variant;
      assert FieldClash(m, s, Sku) <==> BothSay(m.sku, s.sku) && m.sku != s.sku;
      assert FieldClash(m, s, Storage) <==> BothSay(m.storage, s.storage) && Lower(m.storage) != Lower(s.storage);
      assert FieldClash(m, s, Color) <==> BothSay(m.color, s.color) && Lower(m.color) != Lower(s.color);
      assert FieldClash(m, s, Sim) <==> BothSay(m.sim, s.sim) && Lower(m.sim) != Lower(s.sim);
      assert FieldClash(m, s, Region) <==> BothSay(m.region, s.region) && Lower(m.region) != Lower(s.region);
    }
  }

  /** A message names a model by its family, number, variant or SKU, and a product by these or its model text. */
  lemma NamesWhen(m: Attrs)
    ensures HasModelIdentity(m) <==> [m.family, m.number, m.variant, m.sku] != ["", "", "", ""]
    ensures HasProductIdentity(m) <==> [m.family, m.number, m.variant, m.sku, m.model] != ["", "", "", "", ""]
  {
    var four, five := [m.family, m.number, m.variant, m.sku], [m.family, m.number, m.variant, m.sku, m.model];
    assert four == ["", "", "", ""] ==> four[0] == four[1] == four[2] == four[3] == "";
    assert five == ["", "", "", "", ""] ==> five[0] == five[1] == five[2] == five[3] == five[4] == "";
  }

  function Noting(conflicts: seq<Field>, f: Field, clash: bool): (r: seq<Field>)
    ensures forall g :: g in r <==> g in conflicts || (clash && g == f)
  {
    if clash then conflicts + [f] else conflicts
  }

  /** The clashing identity fields, in order. */
  method ModelIdentityConflicts(m: Attrs, r: Request) returns (conflicts: seq<Field>)
    ensures forall f :: f in conflicts <==> r.normalized && IsIdentity(f) && FieldClash(m, r.stored, f)
    ensures conflicts != [] <==> ModelConflict(m, r)
  {
    conflicts := [];
    if !r.normalized {
      return;
    }
    conflicts := Noting(conflicts, Family, Clash(m.family, r.stored.family));
    conflicts := Noting(conflicts, ModelNumber, Clash(m.number, r.stored.number));
    conflicts := Noting(conflicts, Variant, Clash(m.variant, r.stored.variant));
    conflicts := Noting(conflicts, Sku, Clash(m.sku, r.stored.sku));
    assert conflicts != [] ==> conflicts[0] in conflicts;
  }

  method DetectProductContradictions(m: Attrs, r: Request) returns (conflicts: seq<Field>)
    ensures forall f :: f in conflicts <==> r.normalized && FieldClash(m, r.stored, f)
    ensures conflicts != [] <==> Contradiction(m, r)
  {
    conflicts := ModelIdentityConflicts(m, r);
    if !r.normalized {
      return;
    }
    conflicts := Noting(conflicts, Storage, LooseClash(m.storage, r.stored.storage));
    conflicts := Noting(conflicts, Color, LooseClash(m.color, r.stored.color));
    conflicts := Noting(conflicts, Sim, LooseClash(m.sim, r.stored.sim));
    conflicts := Noting(conflicts, Region, LooseClash(m.region, r.stored.region));
    assert conflicts != [] ==> conflicts[0] in conflicts;
  }

  // ----- Scoring -----

  /** Neither side names a model or a number: nothing to score. */
  predicate Nameless(m: Attrs, r: Attrs) {
    m.model == "" && r.model == "" && m.number == "" && r.number == ""
  }

  predicate Mismatch(m: Attrs, r: Attrs) {
    Clash(m.family, r.family) || Clash(m.number, r.number) || Clash(m.variant, r.variant)
  }

  predicate SameQty(m: Attrs, r: Attrs) {
    m.qty.Some? && m.qty == r.qty
  }

  predicate ModelTextContained(m: Attrs, r: Attrs) {
    m.model != "" && r.model != "" && (Contains(r.modelText, m.modelText) || Contains(m.modelText, r.modelText))
  }

  function Points(m: Attrs, r: Attrs): nat {
    (if Agree(m.storage, r.storage) then 2 else 0) + (if Agree(m.color, r.color) then 1 else 0)
    + (if Agree(m.sim, r.sim) then 1 else 0) + (if Agree(m.region, r.region) then 1 else 0)
    + (if SameQty(m, r) then 1 else 0)
  }

  /** How well a message matches a request: -1 excludes it. */
  function MatchScore(m: Attrs, r: Request): int {
    if !r.normalized || Nameless(m, r.scored) then 0
    else if Mismatch(m, r.scored) then -1
    else if Points(m, r.scored) == 0 && ModelTextContained(m, r.scored) then 2
    else Points(m, r.scored)
  }

  const TOP_SCORE := 6

  /** A request is excluded exactly on a mismatch between named products; the score never exceeds six, and is
      six only when all five details agree. */
  lemma ScoreMeans(m: Attrs, r: Request)
    ensures -1 <= MatchScore(m, r) <= TOP_SCORE
    ensures MatchScore(m, r) < 0 <==> r.normalized && !Nameless(m, r.scored) && Mismatch(m, r.scored)
    ensures MatchScore(m, r) == TOP_SCORE ==>
              && Agree(m.storage, r.scored.storage) && Agree(m.color, r.scored.color) && Agree(m.sim, r.scored.sim)
              && Agree(m.region, r.scored.region) && SameQty(m, r.scored)
  {
  }

  /** Detail by detail: an agreement in storage is worth two points, one in color, SIM, region or quantity one; and
      nothing else is worth any. */
  lemma DetailsAdd(m: Attrs, r: Attrs)
    ensures Points(m, r) == Points(m, r.(storage := ""))
              + (if BothSay(m.storage, r.storage) && Lower(m.storage) == Lower(r.storage) then 2 else 0)
    ensures Points(m, r) == Points(m, r.(color := ""))
              + (if BothSay(m.color, r.color) && Lower(m.color) == Lower(r.color) then 1 else 0)
    ensures Points(m, r) == Points(m, r.(sim := ""))
              + (if BothSay(m.sim, r.sim) && Lower(m.sim) == Lower(r.sim) then 1 else 0)
    ensures Points(m, r) == Points(m, r.(region := ""))
              + (if BothSay(m.region, r.region) && Lower(m.region) == Lower(r.region) then 1 else 0)
    ensures Points(m, r) == Points(m, r.(qty := None)) + (if r.qty.Some? && m.qty == r.qty then 1 else 0)
    ensures Points(m, r.(storage := "", color := "", sim := "", region := "", qty := None)) == 0
  {
  }

  /** The score is -1 when both name a family, number or variant and differ in it; else the points of the agreeing
      details; and without any of these two when one model text contains the other. Nothing is scored where
      neither side names a model or a number. */
  lemma ScoreWhen(m: Attrs, r: Request)
    ensures var a, score := r.scored, MatchScore(m, r);
            var named := r.normalized && [m.model, a.model, m.number, a.number] != ["", "", "", ""];
            var differ := (BothSay(m.family, a.family) && m.family != a.family)
                          || (BothSay(m.number, a.number) && m.number != a.number)
                          || (BothSay(m.variant, a.variant) && m.variant != a.variant);
            && (!named ==> score == 0)
            && (named && differ ==> score == -1)
            && (named && !differ && Points(m, a) > 0 ==> score == Points(m, a))
            && (named && !differ && Points(m, a) == 0 ==>
                  score == if BothSay(m.model, a.model)
                              && (Contains(a.modelText, m.modelText) || Contains(m.modelText, a.modelText))
                           then 2 else 0)
  {
    var four := [m.model, r.scored.model, m.number, r.scored.number];
    assert four == ["", "", "", ""] ==> four[0] == four[1] == four[2] == four[3] == "";
  }

  /** So storage alone outweighs color alone. */
  lemma StorageOutweighsColor(m: Attrs, byStorage: Request, byColor: Request)
    requires byStorage.normalized && byColor.normalized && m.model != "" && m.storage != "" && m.color != ""
    requires m.family == byStorage.scored.family == byColor.scored.family
    requires m.number == byStorage.scored.number == byColor.scored.number
    requires m.variant == byStorage.scored.variant == byColor.scored.variant
    requires var a, b := byStorage.scored, byColor.scored;
             && a.storage == m.storage && a.color == a.sim == a.region == "" && a.qty.None?
             && b.color == m.color && b.storage == b.sim == b.region == "" && b.qty.None?
    ensures MatchScore(m, byStorage) == 2 && MatchScore(m, byColor) == 1
  {
  }

  method AttrsMatchScore(m: Attrs, r: Request) returns (score: int)
    ensures score == MatchScore(m, r)
  {
    if !r.normalized {
      return 0;
    }
    var a := r.scored;
    if m.model == "" && a.model == "" {
      if m.number == "" && a.number == "" {
        return 0;
      }
    }
    if Clash(m.family, a.family) {
      return -1;
    }
    if Clash(m.number, a.number) {
      return -1;
    }
    if Clash(m.variant, a.variant) {
      return -1;
    }
    score := 0;
    if Agree(m.storage, a.storage) { score := score + 2; }
    if Agree(m.color, a.color) { score := score + 1; }
    if Agree(m.sim, a.sim) { score := score + 1; }
    if Agree(m.region, a.region) { score := score + 1; }
    if m.qty.Some? && a.qty.Some? && m.qty == a.qty { score := score + 1; }
    if score == 0 && m.model != "" && a.model != "" {
      if Contains(a.modelText, m.modelText) || Contains(m.modelText, a.modelText) { score := score + 2; }
    }
  }
}
