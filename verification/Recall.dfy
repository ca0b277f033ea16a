/**
 Recall assembly: pinned atoms, query-ranked atoms, scenes and the core share one character
 budget. Each tier owns a fraction of it and passes what it leaves unused to the next tier.
 */
module Recall {
  import opened Tables
  import Text

  datatype TierBudgets = TierBudgets(pinned: real, atoms: real, scenes: real, core: real) {
    function Total(): real { pinned + atoms + scenes + core }

    predicate NonNegative() {
      pinned >= 0.0 && atoms >= 0.0 && scenes >= 0.0 && core >= 0.0
    }
  }

  const DEFAULT_TIER_BUDGETS := TierBudgets(0.20, 0.40, 0.25, 0.15)

  datatype TierOverrides = TierOverrides(pinned: Option<real>, atoms: Option<real>, scenes: Option<real>,
                                         core: Option<real>)

  function Or(x: Option<real>, default: real): real {
    if x.Some? then x.value else default
  }

  function Fractions(o: TierOverrides): TierBudgets {
    var d := DEFAULT_TIER_BUDGETS;
    TierBudgets(Or(o.pinned, d.pinned), Or(o.atoms, d.atoms), Or(o.scenes, d.scenes), Or(o.core, d.core))
  }

  // ----- What the store offers

  datatype Hit = Hit(id: string, content: string, score: Option<real>)

  datatype SceneHit = SceneHit(id: string, kind: SceneKind, title: string, summary: Option<string>, score: Option<real>)

  /** The two searches answer anything to a query, given the number of hits wanted. */
  datatype Offer = Offer(pinned: seq<Hit>, searchAtoms: int -> seq<Hit>, searchScenes: int -> seq<SceneHit>,
                         core: string)

  datatype ItemCaps = ItemCaps(atom: int, scene: int)

  // ----- What is assembled

  datatype Source = Pinned | Ranked | FromScene | FromCore

  datatype Item = Item(source: Source, id: string, chars: nat, score: Option<real>)

  datatype TierChars = TierChars(pinned: nat, atoms: nat, scenes: nat, core: nat)

  datatype Context = Context(
    pinnedAtoms: seq<string>,
    rankedAtoms: seq<string>,
    scenes: seq<string>,
    core: Option<string>,
    totalChars: nat,
    budgetChars: int,
    perTier: TierChars,
    items: seq<Item>,
    truncated: bool)

  datatype Assembly = Assembled(context: Context) | BadFractions

  // ----- Rendering candidates

  function Truncate(s: string, limit: int): string {
    if |s| <= limit then s else Text.SliceTo(s, limit - 3) + "..."
  }

  /** A hit as it would appear in the context. */
  datatype Candidate = Candidate(id: string, text: string, score: Option<real>)

  function KindName(kind: SceneKind): string {
    match kind
    case Episode => "episode"
    case Topic => "topic"
  }

  function AtomCandidate(hit: Hit, caps: ItemCaps): Candidate {
    Candidate(hit.id, Truncate(hit.content, caps.atom), hit.score)
  }

  function SceneCandidate(hit: SceneHit, caps: ItemCaps): Candidate {
    var heading := "[" + KindName(hit.kind) + "] " + hit.title;
    var text := if hit.summary.Some? && hit.summary.value != "" then heading + "\n" + hit.summary.value else heading;
    Candidate(hit.id, Truncate(text, caps.scene), hit.score)
  }

  function PinnedCandidates(hits: seq<Hit>, caps: ItemCaps): (r: seq<Candidate>)
    ensures |r| == |hits|
  {
    if hits == [] then []
    else PinnedCandidates(hits[..|hits| - 1], caps) + [AtomCandidate(hits[|hits| - 1], caps).(score := None)]
  }

  /** The ranked hits that are not pinned. */
  function RankedCandidates(hits: seq<Hit>, pinnedIds: set<string>, caps: ItemCaps): seq<Candidate> {
    if hits == [] then []
    else
      var last := hits[|hits| - 1];
      var rest := RankedCandidates(hits[..|hits| - 1], pinnedIds, caps);
      if last.id in pinnedIds then rest else rest + [AtomCandidate(last, caps)]
  }

  function SceneCandidates(hits: seq<SceneHit>, caps: ItemCaps): (r: seq<Candidate>)
    ensures |r| == |hits|
  {
    if hits == [] then [] else SceneCandidates(hits[..|hits| - 1], caps) + [SceneCandidate(hits[|hits| - 1], caps)]
  }

  // ----- Admission to one tier

  /** Which candidates got in, and the characters they take. */
  datatype Tier = Tier(admitted: seq<bool>, used: nat)

  /** Query-ranked tiers skip a candidate that does not fit and go on. */
  function Greedy(cands: seq<Candidate>, cap: int): (t: Tier)
    ensures |t.admitted| == |cands|
  {
    if cands == [] then Tier([], 0)
    else
      var t := Greedy(cands[..|cands| - 1], cap);
      var n := |cands[|cands| - 1].text|;
      if t.used + n > cap then Tier(t.admitted + [false], t.used) else Tier(t.admitted + [true], t.used + n)
  }

  /** The pinned tier stops at the first candidate that does not fit. */
  function Leading(cands: seq<Candidate>, cap: int): (t: Tier)
    ensures |t.admitted| == |cands|
  {
    if cands == [] then Tier([], 0)
    else
      var t := Leading(cands[..|cands| - 1], cap);
      var n := |cands[|cands| - 1].text|;
      if false in t.admitted || t.used + n > cap then Tier(t.admitted + [false], t.used) else Tier(t.admitted + [true], t.used + n)
  }

  function Chosen(cands: seq<Candidate>, admitted: seq<bool>): seq<Candidate>
    requires |admitted| == |cands|
  {
    if cands == [] then []
    else
      var n := |cands| - 1;
      Chosen(cands[..n], admitted[..n]) + (if admitted[n] then [cands[n]] else [])
  }

  function Texts(cands: seq<Candidate>): (r: seq<string>)
    ensures |r| == |cands|
  {
    if cands == [] then [] else Texts(cands[..|cands| - 1]) + [cands[|cands| - 1].text]
  }

  function Items(cands: seq<Candidate>, source: Source): (r: seq<Item>)
    ensures |r| == |cands|
  {
    if cands == [] then []
    else
      var last := cands[|cands| - 1];
      Items(cands[..|cands| - 1], source) + [Item(source, last.id, |last.text|, last.score)]
  }

  // ----- The whole assembly

  function Portion(budget: int, fraction: real): int {
    (budget as real * fraction).Floor
  }

  /** What each tier owns; the core owns what rounding down left of the budget. */
  datatype Allowances = Allowances(pinned: int, atoms: int, scenes: int, core: int)

  function Allot(budget: int, f: TierBudgets): Allowances
    requires f.Total() > 0.0
  {
    var pinned, atoms, scenes := Portion(budget, f.pinned / f.Total()), Portion(budget, f.atoms / f.Total()), Portion(budget, f.scenes / f.Total());
    Allowances(pinned, atoms, scenes, budget - pinned - atoms - scenes)
  }

  function CeilDiv(n: int, d: nat): int
    requires d > 0
  {
    -((-n) / d)
  }

  function Max(a: int, b: int): int {
    if a >= b then a else b
  }

  /** One and a half hits for every 100 characters. */
  function AtomLimit(cap: int): int {
    Max(15, CeilDiv(3 * cap, 200))
  }

  /** One and a half hits for every 300 characters. */
  function SceneLimit(cap: int): int {
    Max(8, CeilDiv(cap, 200))
  }

  /** The caps and the contents of the four tiers. */
  datatype Layout = Layout(
    pinnedCap: int, atomsCap: int, scenesCap: int, coreCap: int,
    pinned: seq<Candidate>, pinnedTier: Tier,
    atoms: seq<Candidate>, atomsTier: Tier,
    scenes: seq<Candidate>, scenesTier: Tier,
    core: Option<string>)
  {
    ghost predicate Shaped() {
      |pinnedTier.admitted| == |pinned| && |atomsTier.admitted| == |atoms| && |scenesTier.admitted| == |scenes|
    }
  }

  function LayOut(offer: Offer, caps: ItemCaps, a: Allowances): (l: Layout)
    ensures l.Shaped()
  {
    var pinnedCap := a.pinned;
    var pinned := PinnedCandidates(offer.pinned, caps);
    var pinnedTier := Leading(pinned, pinnedCap);
    var atomsCap := a.atoms + (pinnedCap - pinnedTier.used);
    var atoms := RankedCandidates(offer.searchAtoms(AtomLimit(atomsCap)), PinnedIds(offer), caps);
    var atomsTier := Greedy(atoms, atomsCap);
    var scenesCap := a.scenes + (atomsCap - atomsTier.used);
    var scenes := SceneCandidates(offer.searchScenes(SceneLimit(scenesCap)), caps);
    var scenesTier := Greedy(scenes, scenesCap);
    var coreCap := a.core + (scenesCap - scenesTier.used);
    var core := if offer.core != "" && coreCap > 50 then Some(Truncate(offer.core, coreCap)) else None;
    Layout(pinnedCap, atomsCap, scenesCap, coreCap, pinned, pinnedTier, atoms, atomsTier, scenes, scenesTier, core)
  }

  function PinnedIds(offer: Offer): set<string> {
    set hit <- offer.pinned :: hit.id
  }

  function CoreChars(core: Option<string>): nat {
    if core.Some? then |core.value| else 0
  }

  function CoreItems(core: Option<string>): seq<Item> {
    if core.Some? then [Item(FromCore, "core", |core.value|, None)] else []
  }

  function Render(l: Layout, offer: Offer, budget: int): Context
    requires l.Shaped()
  {
    var pinned, atoms, scenes := Chosen(l.pinned, l.pinnedTier.admitted), Chosen(l.atoms, l.atomsTier.admitted), Chosen(l.scenes, l.scenesTier.admitted);
    Context(Texts(pinned), Texts(atoms), Texts(scenes), l.core,
            l.pinnedTier.used + l.atomsTier.used + l.scenesTier.used + CoreChars(l.core), budget,
            TierChars(l.pinnedTier.used, l.atomsTier.used, l.scenesTier.used, CoreChars(l.core)),
            Items(pinned, Pinned) + Items(atoms, Ranked) + Items(scenes, FromScene) + CoreItems(l.core),
            LeftOut(l) || CoreIsCut(offer.core, l.core))
  }

  predicate LeftOut(l: Layout) {
    false in l.pinnedTier.admitted || false in l.atomsTier.admitted || false in l.scenesTier.admitted
  }

  // ----- Assembling step by step

  lemma ChosenGrows(cands: seq<Candidate>, last: Candidate, admitted: seq<bool>, flag: bool)
    requires |admitted| == |cands|
    ensures Chosen(cands + [last], admitted + [flag]) == Chosen(cands, admitted) + (if flag then [last] else [])
  {
    assert (cands + [last])[..|cands|] == cands && (admitted + [flag])[..|cands|] == admitted;
  }

  lemma TextsGrow(cands: seq<Candidate>, c: Candidate, source: Source)
    ensures Texts(cands + [c]) == Texts(cands) + [c.text]
    ensures Items(cands + [c], source) == Items(cands, source) + [Item(source, c.id, |c.text|, c.score)]
  {
    assert (cands + [c])[..|cands|] == cands;
  }

  lemma PinnedGrow(hits: seq<Hit>, caps: ItemCaps, k: nat)
    requires k < |hits|
    ensures PinnedCandidates(hits[..k + 1], caps) == PinnedCandidates(hits[..k], caps) + [AtomCandidate(hits[k], caps).(score := None)]
  {
    assert hits[..k + 1][..k] == hits[..k];
  }

  lemma {:induction false} PinnedPrefix(hits: seq<Hit>, caps: ItemCaps, k: nat)
    requires k <= |hits|
    ensures PinnedCandidates(hits, caps)[..k] == PinnedCandidates(hits[..k], caps)
    decreases |hits|
  {
    if k < |hits| {
      PinnedPrefix(hits[..|hits| - 1], caps, k);
      assert hits[..|hits| - 1][..k] == hits[..k];
    } else {
      assert hits[..k] == hits;
    }
  }

  lemma ScenesGrow(hits: seq<SceneHit>, caps: ItemCaps, k: nat)
    requires k < |hits|
    ensures SceneCandidates(hits[..k + 1], caps) == SceneCandidates(hits[..k], caps) + [SceneCandidate(hits[k], caps)]
  {
    assert hits[..k + 1][..k] == hits[..k];
  }

  lemma RankedGrow(hits: seq<Hit>, pinnedIds: set<string>, caps: ItemCaps, k: nat)
    requires k < |hits|
    ensures RankedCandidates(hits[..k + 1], pinnedIds, caps)
            == if hits[k].id in pinnedIds then RankedCandidates(hits[..k], pinnedIds, caps)
               else RankedCandidates(hits[..k], pinnedIds, caps) + [AtomCandidate(hits[k], caps)]
  {
    assert hits[..k + 1][..k] == hits[..k];
  }

  lemma GreedyGrows(cands: seq<Candidate>, c: Candidate, cap: int)
    ensures var t := Greedy(cands, cap); var fits := t.used + |c.text| <= cap;
            Greedy(cands + [c], cap) == Tier(t.admitted + [fits], if fits then t.used + |c.text| else t.used)
  {
    assert (cands + [c])[..|cands|] == cands;
  }

  lemma LeadingGrows(cands: seq<Candidate>, c: Candidate, cap: int)
    ensures var t := Leading(cands, cap); var fits := false !in t.admitted && t.used + |c.text| <= cap;
            Leading(cands + [c], cap) == Tier(t.admitted + [fits], if fits then t.used + |c.text| else t.used)
  {
    assert (cands + [c])[..|cands|] == cands;
  }

  /** Once the pinned tier has stopped, the remaining candidates change nothing. */
  lemma {:induction false} LeadingStopped(cands: seq<Candidate>, cap: int, k: nat)
    requires k <= |cands| && false in Leading(cands[..k], cap).admitted
    ensures var t, full := Leading(cands[..k], cap), Leading(cands, cap);
            && false in full.admitted && full.used == t.used
            && Chosen(cands, full.admitted) == Chosen(cands[..k], t.admitted)
    decreases |cands|
  {
    if k < |cands| {
      var n := |cands| - 1;
      assert cands[..n][..k] == cands[..k] && cands == cands[..n] + [cands[n]];
      LeadingStopped(cands[..n], cap, k);
      LeadingGrows(cands[..n], cands[n], cap);
      ChosenGrows(cands[..n], cands[n], Leading(cands[..n], cap).admitted, false);
    } else {
      assert cands[..k] == cands;
    }
  }

  /** What one tier has gathered so far. */
  predicate Gathered(texts: seq<string>, items: seq<Item>, used: nat, cut: bool, cands: seq<Candidate>, t: Tier,
                     source: Source)
    requires |t.admitted| == |cands|
  {
    var chosen := Chosen(cands, t.admitted);
    texts == Texts(chosen) && items == Items(chosen, source) && used == t.used && cut == (false in t.admitted)
  }

  /** Admitting one more candidate, or leaving it out. */
  lemma GatherOne(texts: seq<string>, items: seq<Item>, used: nat, cut: bool, cands: seq<Candidate>, t: Tier,
                  c: Candidate, source: Source)
    requires |t.admitted| == |cands| && Gathered(texts, items, used, cut, cands, t, source)
    ensures Gathered(texts + [c.text], items + [Item(source, c.id, |c.text|, c.score)], used + |c.text|, cut,
                     cands + [c], Tier(t.admitted + [true], t.used + |c.text|), source)
    ensures Gathered(texts, items, used, true, cands + [c], Tier(t.admitted + [false], t.used), source)
  {
    ChosenGrows(cands, c, t.admitted, true);
    ChosenGrows(cands, c, t.admitted, false);
    var chosen := Chosen(cands, t.admitted);
    assert chosen + [] == chosen;
    TextsGrow(chosen, c, source);
  }

  /** The first `k` pinned atoms all fitted. */
  ghost predicate PinnedSoFar(hits: seq<Hit>, caps: ItemCaps, cap: int, k: nat, texts: seq<string>, items: seq<Item>,
                              used: nat) {
    && k <= |hits|
    && var cands := PinnedCandidates(hits[..k], caps);
    Gathered(texts, items, used, false, cands, Leading(cands, cap), Pinned)
  }

  lemma PinnedStep(hits: seq<Hit>, caps: ItemCaps, cap: int, k: nat, texts: seq<string>, items: seq<Item>, used: nat,
                   c: Candidate)
    requires PinnedSoFar(hits, caps, cap, k, texts, items, used) && k < |hits|
    requires c == AtomCandidate(hits[k], caps).(score := None)
    ensures used + |c.text| <= cap ==>
              PinnedSoFar(hits, caps, cap, k + 1, texts + [c.text], items + [Item(Pinned, c.id, |c.text|, c.score)], used + |c.text|)
    ensures used + |c.text| > cap ==>
              var cands := PinnedCandidates(hits, caps); Gathered(texts, items, used, true, cands, Leading(cands, cap), Pinned)
  {
    var seen := PinnedCandidates(hits[..k], caps);
    var tier := Leading(seen, cap);
    PinnedGrow(hits, caps, k);
    LeadingGrows(seen, c, cap);
    GatherOne(texts, items, used, false, seen, tier, c, Pinned);
    if used + |c.text| > cap { StopsHere(hits, caps, cap, k + 1); }
  }

  method GatherPinned(hits: seq<Hit>, caps: ItemCaps, cap: int) returns (texts: seq<string>, items: seq<Item>,
                      used: nat, cut: bool)
    ensures var cands := PinnedCandidates(hits, caps); Gathered(texts, items, used, cut, cands, Leading(cands, cap), Pinned)
  {
    texts, items, used, cut := [], [], 0, false;
    for k := 0 to |hits|
      invariant PinnedSoFar(hits, caps, cap, k, texts, items, used) && !cut
    {
      var c := AtomCandidate(hits[k], caps).(score := None);
      PinnedStep(hits, caps, cap, k, texts, items, used, c);
      if used + |c.text| > cap { return texts, items, used, true; }
      texts := texts + [c.text];
      used := used + |c.text|;
      items := items + [Item(Pinned, c.id, |c.text|, c.score)];
    }
    assert hits[..|hits|] == hits;
  }

  lemma StopsHere(hits: seq<Hit>, caps: ItemCaps, cap: int, k: nat)
    requires k <= |hits| && false in Leading(PinnedCandidates(hits[..k], caps), cap).admitted
    ensures var cands, seen := PinnedCandidates(hits, caps), PinnedCandidates(hits[..k], caps);
            var full, t := Leading(cands, cap), Leading(seen, cap);
            false in full.admitted && full.used == t.used && Chosen(cands, full.admitted) == Chosen(seen, t.admitted)
  {
    PinnedPrefix(hits, caps, k);
    LeadingStopped(PinnedCandidates(hits, caps), cap, k);
  }

  method GatherRanked(hits: seq<Hit>, pinnedIds: set<string>, caps: ItemCaps, cap: int)
    returns (texts: seq<string>, items: seq<Item>, used: nat, cut: bool)
    ensures var cands := RankedCandidates(hits, pinnedIds, caps); Gathered(texts, items, used, cut, cands, Greedy(cands, cap), Ranked)
  {
    texts, items, used, cut := [], [], 0, false;
    for k := 0 to |hits|
      invariant var cands := RankedCandidates(hits[..k], pinnedIds, caps); Gathered(texts, items, used, cut, cands, Greedy(cands, cap), Ranked)
    {
      RankedGrow(hits, pinnedIds, caps, k);
      if hits[k].id in pinnedIds {
        continue;
      }
      var c := AtomCandidate(hits[k], caps);
      texts, items, used, cut := Offered(texts, items, used, cut, RankedCandidates(hits[..k], pinnedIds, caps), c, cap, Ranked);
    }
    assert hits[..|hits|] == hits;
  }

  method GatherScenes(hits: seq<SceneHit>, caps: ItemCaps, cap: int) returns (texts: seq<string>, items: seq<Item>,
                      used: nat, cut: bool)
    ensures var cands := SceneCandidates(hits, caps); Gathered(texts, items, used, cut, cands, Greedy(cands, cap), FromScene)
  {
    texts, items, used, cut := [], [], 0, false;
    for k := 0 to |hits|
      invariant var cands := SceneCandidates(hits[..k], caps); Gathered(texts, items, used, cut, cands, Greedy(cands, cap), FromScene)
    {
      ScenesGrow(hits, caps, k);
      var c := SceneCandidate(hits[k], caps);
      texts, items, used, cut := Offered(texts, items, used, cut, SceneCandidates(hits[..k], caps), c, cap, FromScene);
    }
    assert hits[..|hits|] == hits;
  }

  /** One step of a query-ranked tier: admit the candidate, or note that it was left out. */
  method Offered(texts: seq<string>, items: seq<Item>, used: nat, cut: bool, ghost seen: seq<Candidate>, c: Candidate,
                 cap: int, source: Source)
    returns (texts': seq<string>, items': seq<Item>, used': nat, cut': bool)
    requires Gathered(texts, items, used, cut, seen, Greedy(seen, cap), source)
    ensures Gathered(texts', items', used', cut', seen + [c], Greedy(seen + [c], cap), source)
  {
    GreedyGrows(seen, c, cap);
    GatherOne(texts, items, used, cut, seen, Greedy(seen, cap), c, source);
    if used + |c.text| > cap {
      texts', items', used', cut' := texts, items, used, true;
    } else {
      texts', items', used', cut' := texts + [c.text], items + [Item(source, c.id, |c.text|, c.score)], used + |c.text|, cut;
    }
  }

  method AssembleContext(offer: Offer, caps: ItemCaps, budget: int, overrides: TierOverrides) returns (r: Assembly)
    ensures var f := Fractions(overrides);
            r == if f.Total() <= 0.0 then BadFractions else Assembled(Render(LayOut(offer, caps, Allot(budget, f)), offer, budget))
  {
    var f := Fractions(overrides);
    if f.Total() <= 0.0 { return BadFractions; }
    var a := Allot(budget, f);
    ghost var l := LayOut(offer, caps, a);
    CapsLaidOut(offer, caps, a, l);
    ContentsLaidOut(offer, caps, a, l);
    var context := FillTiers(offer, caps, budget, a, l);
    return Assembled(context);
  }

  /** How each tier's cap follows from the one before. */
  ghost predicate Chained(l: Layout, a: Allowances) {
    && l.pinnedCap == a.pinned && l.pinnedTier == Leading(l.pinned, l.pinnedCap)
    && l.atomsCap == a.atoms + (l.pinnedCap - l.pinnedTier.used) && l.atomsTier == Greedy(l.atoms, l.atomsCap)
    && l.scenesCap == a.scenes + (l.atomsCap - l.atomsTier.used) && l.scenesTier == Greedy(l.scenes, l.scenesCap)
    && l.coreCap == a.core + (l.scenesCap - l.scenesTier.used)
  }

  ghost predicate DrawnFrom(l: Layout, offer: Offer, caps: ItemCaps) {
    && l.pinned == PinnedCandidates(offer.pinned, caps)
    && l.atoms == RankedCandidates(offer.searchAtoms(AtomLimit(l.atomsCap)), PinnedIds(offer), caps)
    && l.scenes == SceneCandidates(offer.searchScenes(SceneLimit(l.scenesCap)), caps)
    && l.core == (if offer.core != "" && l.coreCap > 50 then Some(Truncate(offer.core, l.coreCap)) else None)
  }

  lemma CapsLaidOut(offer: Offer, caps: ItemCaps, a: Allowances, l: Layout)
    requires l == LayOut(offer, caps, a)
    ensures Chained(l, a)
  {
  }

  lemma ContentsLaidOut(offer: Offer, caps: ItemCaps, a: Allowances, l: Layout)
    requires l == LayOut(offer, caps, a)
    ensures DrawnFrom(l, offer, caps)
  {
  }

  lemma RenderedFrom(l: Layout, offer: Offer, budget: int, perTier: TierChars,
                     pinned: seq<string>, i: seq<Item>, cut: bool, atoms: seq<string>, j: seq<Item>, atomsCut: bool,
                     scenes: seq<string>, k: seq<Item>, scenesCut: bool)
    requires l.Shaped() && perTier.core == CoreChars(l.core)
    requires Gathered(pinned, i, perTier.pinned, cut, l.pinned, l.pinnedTier, Pinned)
    requires Gathered(atoms, j, perTier.atoms, atomsCut, l.atoms, l.atomsTier, Ranked)
    requires Gathered(scenes, k, perTier.scenes, scenesCut, l.scenes, l.scenesTier, FromScene)
    ensures Render(l, offer, budget)
            == Joined(budget, perTier, pinned, i, cut, atoms, j, atomsCut, scenes, k, scenesCut, l.core, CoreIsCut(offer.core, l.core))
  {
  }

  predicate CoreIsCut(text: string, core: Option<string>) {
    text != "" && CoreChars(core) < |text|
  }

  function Joined(budget: int, perTier: TierChars, pinned: seq<string>, i: seq<Item>, cut: bool, atoms: seq<string>,
                  j: seq<Item>, atomsCut: bool,
                  scenes: seq<string>, k: seq<Item>, scenesCut: bool, core: Option<string>, coreCut: bool): Context
  {
    Context(pinned, atoms, scenes, core, perTier.pinned + perTier.atoms + perTier.scenes + perTier.core, budget, perTier,
            i + j + k + CoreItems(core), cut || atomsCut || scenesCut || coreCut)
  }

  method FillTiers(offer: Offer, caps: ItemCaps, budget: int, a: Allowances, ghost l: Layout) returns (c: Context)
    requires Chained(l, a) && DrawnFrom(l, offer, caps) && l.Shaped()
    ensures c == Render(l, offer, budget)
  {
    var pinned, pinnedItems, pinnedChars, pinnedCut := GatherPinned(offer.pinned, caps, a.pinned);
    var spillover := a.pinned - pinnedChars;

    var atomsCap := a.atoms + spillover;
    assert atomsCap == l.atomsCap;
    var hits := offer.searchAtoms(AtomLimit(atomsCap));
    var atoms, atomItems, atomChars, atomsCut := GatherRanked(hits, PinnedIds(offer), caps, atomsCap);
    assert Gathered(atoms, atomItems, atomChars, atomsCut, l.atoms, l.atomsTier, Ranked);
    spillover := atomsCap - atomChars;

    var scenesCap := a.scenes + spillover;
    assert scenesCap == l.scenesCap;
    var scenes, sceneItems, sceneChars, scenesCut, core, coreChars, coreCut := FillLower(offer, caps, a, scenesCap, l);
    var perTier := TierChars(pinnedChars, atomChars, sceneChars, coreChars);
    RenderedFrom(l, offer, budget, perTier, pinned, pinnedItems, pinnedCut, atoms, atomItems, atomsCut, scenes, sceneItems, scenesCut);
    return Joined(budget, perTier, pinned, pinnedItems, pinnedCut, atoms, atomItems, atomsCut, scenes, sceneItems, scenesCut, core, coreCut);
  }

  /** The two lower tiers, scenes and core, with what the upper ones left over. */
  method FillLower(offer: Offer, caps: ItemCaps, a: Allowances, scenesCap: int, ghost l: Layout)
    returns (scenes: seq<string>, items: seq<Item>, chars: nat, cut: bool, core: Option<string>, coreChars: nat, coreCut: bool)
    requires Chained(l, a) && DrawnFrom(l, offer, caps) && l.Shaped() && scenesCap == l.scenesCap
    ensures Gathered(scenes, items, chars, cut, l.scenes, l.scenesTier, FromScene)
    ensures core == l.core && coreChars == CoreChars(core) && coreCut == CoreIsCut(offer.core, core)
  {
    var sceneHits := offer.searchScenes(SceneLimit(scenesCap));
    scenes, items, chars, cut := GatherScenes(sceneHits, caps, scenesCap);
    core, coreChars, coreCut := TakeCore(offer.core, a.core + (scenesCap - chars));
  }

  method TakeCore(text: string, cap: int) returns (core: Option<string>, chars: nat, cut: bool)
    ensures core == (if text != "" && cap > 50 then Some(Truncate(text, cap)) else None)
    ensures chars == CoreChars(core) && cut == CoreIsCut(text, core)
  {
    core, chars, cut := None, 0, false;
    if text != "" && cap > 50 {
      var t := Truncate(text, cap);
      core, chars := Some(t), |t|;
      if |t| < |text| { cut := true; }
    } else if text != "" {
      cut := true;
    }
  }

  // ----- What admission guarantees

  function Taken(cands: seq<Candidate>, admitted: seq<bool>): nat
    requires |admitted| == |cands|
  {
    if cands == [] then 0
    else
      var n := |cands| - 1;
      Taken(cands[..n], admitted[..n]) + (if admitted[n] then |cands[n].text| else 0)
  }

  lemma {:induction false} GreedyStep(cands: seq<Candidate>, cap: int, k: nat)
    requires k < |cands|
    ensures Greedy(cands[..k], cap).admitted == Greedy(cands, cap).admitted[..k]
    ensures Greedy(cands[..k], cap).used <= Greedy(cands, cap).used
    ensures Greedy(cands, cap).admitted[k] == (Greedy(cands[..k], cap).used + |cands[k].text| <= cap)
    decreases |cands|
  {
    var n := |cands| - 1;
    if k < n {
      GreedyStep(cands[..n], cap, k);
      assert cands[..n][..k] == cands[..k];
      assert Greedy(cands, cap).admitted[..k] == Greedy(cands[..n], cap).admitted[..k];
    }
  }

  lemma {:induction false} GreedyTakes(cands: seq<Candidate>, cap: int)
    ensures Greedy(cands, cap).used == Taken(cands, Greedy(cands, cap).admitted)
    ensures Greedy(cands, cap).used > 0 ==> Greedy(cands, cap).used <= cap
  {
    if cands != [] {
      var n := |cands| - 1;
      GreedyTakes(cands[..n], cap);
      assert Greedy(cands, cap).admitted[..n] == Greedy(cands[..n], cap).admitted;
    }
  }

  /** A query-ranked tier leaves out only candidates that do not fit what is left when the
      tier is complete. */
  lemma LeftOutDoesNotFit(cands: seq<Candidate>, cap: int, k: nat)
    requires k < |cands| && !Greedy(cands, cap).admitted[k]
    ensures Greedy(cands, cap).used + |cands[k].text| > cap
  {
    GreedyStep(cands, cap, k);
  }

  lemma {:induction false} TakenGrows(cands: seq<Candidate>, admitted: seq<bool>, k: nat)
    requires |admitted| == |cands| && k <= |cands|
    ensures Taken(cands[..k], admitted[..k]) <= Taken(cands, admitted)
    decreases |cands|
  {
    var n := |cands| - 1;
    if k < |cands| {
      TakenGrows(cands[..n], admitted[..n], k);
      assert cands[..n][..k] == cands[..k] && admitted[..n][..k] == admitted[..k];
    } else {
      assert cands[..k] == cands && admitted[..k] == admitted;
    }
  }

  /** Two selections agree before rank `k`, and only the first takes that candidate. */
  ghost predicate PrefersAt(first: seq<bool>, second: seq<bool>, k: nat) {
    k < |first| == |second| && first[..k] == second[..k] && first[k] && !second[k]
  }

  ghost predicate Prefers(first: seq<bool>, second: seq<bool>) {
    exists k :: PrefersAt(first, second, k)
  }

  lemma {:induction false} FirstDifference(a: seq<bool>, b: seq<bool>) returns (k: nat)
    requires |a| == |b| && a != b
    ensures k < |a| && a[..k] == b[..k] && a[k] != b[k]
  {
    k := |a| - 1;
    assert a == a[..k] + [a[k]] && b == b[..k] + [b[k]];
    if a[..k] != b[..k] {
      var n := FirstDifference(a[..k], b[..k]);
      assert a[..k][..n] == a[..n] && b[..k][..n] == b[..n];
      k := n;
    }
  }

  /** Of all selections within the cap, the tier makes the one that serves rank order best. */
  lemma GreedyServesRankBest(cands: seq<Candidate>, cap: int, other: seq<bool>)
    requires |other| == |cands| && Taken(cands, other) <= cap && other != Greedy(cands, cap).admitted
    ensures Prefers(Greedy(cands, cap).admitted, other)
  {
    var mine := Greedy(cands, cap).admitted;
    var k := FirstDifference(mine, other);
    GreedyStep(cands, cap, k);
    GreedyTakes(cands[..k], cap);
    if other[k] {
      assert cands[..k + 1][..k] == cands[..k] && other[..k + 1][..k] == other[..k];
      TakenGrows(cands, other, k + 1);
      assert false;
    }
    assert PrefersAt(mine, other, k);
  }

  /** The pinned tier admits a leading run, as long as fits. */
  lemma {:induction false} PinnedIsLeadingRun(cands: seq<Candidate>, cap: int) returns (n: nat)
    ensures n <= |cands| && forall i :: 0 <= i < |cands| ==> (Leading(cands, cap).admitted[i] <==> i < n)
    ensures n < |cands| ==> Leading(cands, cap).used + |cands[n].text| > cap
    ensures n > 0 ==> Leading(cands, cap).used <= cap
  {
    if cands == [] {
      n := 0;
    } else {
      var last := |cands| - 1;
      var t := Leading(cands[..last], cap);
      n := PinnedIsLeadingRun(cands[..last], cap);
      if n < last {
        assert !t.admitted[n];
      } else if t.used + |cands[last].text| <= cap {
        n := last + 1;
      }
    }
  }

  // ----- What the assembly guarantees

  function Sum(items: seq<Item>): nat {
    if items == [] then 0 else Sum(items[..|items| - 1]) + items[|items| - 1].chars
  }

  lemma {:induction false} SumSplits(a: seq<Item>, b: seq<Item>)
    ensures Sum(a + b) == Sum(a) + Sum(b)
  {
    if b == [] {
      assert a + b == a;
    } else {
      var n := |b| - 1;
      assert (a + b)[..|a + b| - 1] == a + b[..n];
      SumSplits(a, b[..n]);
    }
  }

  lemma {:induction false} ItemsSum(cands: seq<Candidate>, admitted: seq<bool>, source: Source)
    requires |admitted| == |cands|
    ensures Sum(Items(Chosen(cands, admitted), source)) == Taken(cands, admitted)
  {
    if cands != [] {
      var n := |cands| - 1;
      ItemsSum(cands[..n], admitted[..n], source);
      var rest := Chosen(cands[..n], admitted[..n]);
      assert rest + [] == rest;
      if admitted[n] {
        TextsGrow(rest, cands[n], source);
        assert Items(rest + [cands[n]], source)[..|rest|] == Items(rest, source);
      }
    }
  }

  lemma {:induction false} LeadingTakes(cands: seq<Candidate>, cap: int)
    ensures Leading(cands, cap).used == Taken(cands, Leading(cands, cap).admitted)
    ensures Leading(cands, cap).used > 0 ==> Leading(cands, cap).used <= cap
  {
    if cands != [] {
      var n := |cands| - 1;
      LeadingTakes(cands[..n], cap);
      assert Leading(cands, cap).admitted[..n] == Leading(cands[..n], cap).admitted;
    }
  }

  lemma UsedIsSum(l: Layout, a: Allowances)
    requires Chained(l, a) && l.Shaped()
    ensures l.pinnedTier.used == Sum(Items(Chosen(l.pinned, l.pinnedTier.admitted), Pinned))
    ensures l.atomsTier.used == Sum(Items(Chosen(l.atoms, l.atomsTier.admitted), Ranked))
    ensures l.scenesTier.used == Sum(Items(Chosen(l.scenes, l.scenesTier.admitted), FromScene))
  {
    LeadingTakes(l.pinned, l.pinnedCap);
    GreedyTakes(l.atoms, l.atomsCap);
    GreedyTakes(l.scenes, l.scenesCap);
    ItemsSum(l.pinned, l.pinnedTier.admitted, Pinned);
    ItemsSum(l.atoms, l.atomsTier.admitted, Ranked);
    ItemsSum(l.scenes, l.scenesTier.admitted, FromScene);
  }

  lemma SumOfFour(a: seq<Item>, b: seq<Item>, c: seq<Item>, core: Option<string>)
    ensures Sum(a + b + c + CoreItems(core)) == Sum(a) + Sum(b) + Sum(c) + CoreChars(core)
  {
    SumSplits(a, b);
    SumSplits(a + b, c);
    SumSplits(a + b + c, CoreItems(core));
    if core.Some? { assert CoreItems(core)[..0] == []; }
  }

  /** The item sizes add up to the total, and so do the tiers. */
  lemma CharsAddUp(offer: Offer, caps: ItemCaps, budget: int, a: Allowances, l: Layout, c: Context)
    requires l == LayOut(offer, caps, a) && c == Render(l, offer, budget)
    ensures Sum(c.items) == c.totalChars == c.perTier.pinned + c.perTier.atoms + c.perTier.scenes + c.perTier.core
  {
    CapsLaidOut(offer, caps, a, l);
    UsedIsSum(l, a);
    SumOfFour(Items(Chosen(l.pinned, l.pinnedTier.admitted), Pinned), Items(Chosen(l.atoms, l.atomsTier.admitted), Ranked),
              Items(Chosen(l.scenes, l.scenesTier.admitted), FromScene), l.core);
  }

  lemma NonNegativeProduct(x: real, y: real)
    requires x >= 0.0 && y >= 0.0
    ensures x * y >= 0.0
  {
  }

  lemma NonNegativeQuotient(x: real, t: real)
    requires x >= 0.0 && t > 0.0
    ensures x / t >= 0.0
  {
  }

  lemma ScaleUp(i: real, b: real, q: real, t: real, x: real)
    requires i <= b * q && t > 0.0 && q * t == x
    ensures i * t <= b * x
  {
    NonNegativeProduct(b * q - i, t);
    assert b * q * t == b * x;
  }

  lemma ScaleDown(n: real, b: real, t: real)
    requires n * t <= b * t && t > 0.0
    ensures n <= b
  {
  }

  lemma PortionBounds(budget: int, x: real, t: real)
    requires budget >= 0 && x >= 0.0 && t > 0.0
    ensures 0 <= Portion(budget, x / t)
    ensures Portion(budget, x / t) as real * t <= budget as real * x
  {
    NonNegativeQuotient(x, t);
    NonNegativeProduct(budget as real, x / t);
    ScaleUp(Portion(budget, x / t) as real, budget as real, x / t, t, x);
  }

  lemma FourDistribute(x: real, y: real, z: real, w: real, t: real)
    ensures (x + y + z + w) * t == x * t + y * t + z * t + w * t
  {
  }

  lemma PortionsLeaveRoom(budget: int, i: int, j: int, k: int, p: real, a: real, s: real, c: real, t: real)
    requires t == p + a + s + c && t > 0.0 && c >= 0.0 && budget >= 0
    requires i as real * t <= budget as real * p && j as real * t <= budget as real * a && k as real * t <= budget as real * s
    ensures i + j + k <= budget
  {
    var b := budget as real;
    NonNegativeProduct(b, c);
    FourDistribute(p, a, s, c, b);
    FourDistribute(i as real, j as real, k as real, 0.0, t);
    var n := i + j + k;
    assert n as real == i as real + j as real + k as real + 0.0;
    ScaleDown(n as real, b, t);
  }

  /** No tier owns less than nothing, and together they own the budget. */
  lemma AllowancesShareBudget(budget: int, f: TierBudgets, a: Allowances)
    requires f.Total() > 0.0 && a == Allot(budget, f)
    ensures a.pinned + a.atoms + a.scenes + a.core == budget
    ensures budget >= 0 && f.NonNegative() ==> a.pinned >= 0 && a.atoms >= 0 && a.scenes >= 0 && a.core >= 0
  {
    if budget >= 0 && f.NonNegative() {
      var t := f.Total();
      PortionBounds(budget, f.pinned, t);
      PortionBounds(budget, f.atoms, t);
      PortionBounds(budget, f.scenes, t);
      PortionsLeaveRoom(budget, a.pinned, a.atoms, a.scenes, f.pinned, f.atoms, f.scenes, f.core, t);
    }
  }

  /** Whatever the earlier tiers used, each tier may use at least its own share. */
  lemma AllowancesAreKept(a: Allowances, l: Layout)
    requires a.pinned >= 0 && a.atoms >= 0 && a.scenes >= 0 && a.core >= 0 && Chained(l, a)
    ensures l.pinnedTier.used <= l.pinnedCap == a.pinned
    ensures l.atomsTier.used <= l.atomsCap && a.atoms <= l.atomsCap
    ensures l.scenesTier.used <= l.scenesCap && a.scenes <= l.scenesCap
    ensures a.core <= l.coreCap
  {
    LeadingTakes(l.pinned, l.pinnedCap);
    GreedyTakes(l.atoms, l.atomsCap);
    GreedyTakes(l.scenes, l.scenesCap);
  }

  lemma TruncateFits(s: string, limit: int)
    requires limit >= 3
    ensures |Truncate(s, limit)| <= limit
    ensures |Truncate(s, limit)| < |s| <==> |s| > limit
    ensures |s| <= limit ==> Truncate(s, limit) == s
  {
  }

  /** Spillover telescopes: the budget holds exactly when the core's cap did not go negative,
      whatever the weights. */
  lemma BudgetHoldsExactly(offer: Offer, caps: ItemCaps, budget: int, a: Allowances, l: Layout)
    requires a.pinned + a.atoms + a.scenes + a.core == budget && l == LayOut(offer, caps, a)
    ensures Render(l, offer, budget).totalChars <= budget <==> l.coreCap >= 0
  {
    if l.coreCap > 50 { TruncateFits(offer.core, l.coreCap); }
  }

  /** The context never exceeds the budget when no weight is negative. */
  lemma BudgetIsKept(offer: Offer, caps: ItemCaps, budget: int, f: TierBudgets)
    requires budget >= 0 && f.NonNegative() && f.Total() > 0.0
    ensures Render(LayOut(offer, caps, Allot(budget, f)), offer, budget).totalChars <= budget
  {
    var a := Allot(budget, f);
    AllowancesShareBudget(budget, f, a);
    var l := LayOut(offer, caps, a);
    CapsLaidOut(offer, caps, a, l);
    AllowancesAreKept(a, l);
    BudgetHoldsExactly(offer, caps, budget, a, l);
  }

  // ----- Which weights keep the budget, whatever the store holds

  /** Item sizes from `least` to `most` that add up to `total`. */
  function Sizes(total: nat, least: nat, most: nat): (sizes: seq<nat>)
    requires 0 < least && 2 * least <= most && (total == 0 || least <= total)
    ensures Total(sizes) == total && forall n <- sizes :: least <= n <= most
  {
    if total == 0 then []
    else if total <= most then [total]
    else if total >= most + least then Sizes(total - most, least, most) + [most]
    else
      assert [least, total - least][..1] == [least] && Total([least]) == least;
      [least, total - least]
  }

  function Total(sizes: seq<nat>): nat {
    if sizes == [] then 0 else Total(sizes[..|sizes| - 1]) + sizes[|sizes| - 1]
  }

  function TextTotal(cands: seq<Candidate>): nat {
    if cands == [] then 0 else TextTotal(cands[..|cands| - 1]) + |cands[|cands| - 1].text|
  }

  lemma {:induction false} GreedyTakesAll(cands: seq<Candidate>, cap: int)
    requires TextTotal(cands) <= cap
    ensures Greedy(cands, cap).used == TextTotal(cands)
  {
    if cands != [] { GreedyTakesAll(cands[..|cands| - 1], cap); }
  }

  lemma {:induction false} LeadingTakesAll(cands: seq<Candidate>, cap: int)
    requires TextTotal(cands) <= cap
    ensures Leading(cands, cap).used == TextTotal(cands) && false !in Leading(cands, cap).admitted
  {
    if cands != [] { LeadingTakesAll(cands[..|cands| - 1], cap); }
  }

  function Filler(n: nat): string {
    seq(n, _ => 'x')
  }

  function AtomHits(sizes: seq<nat>): seq<Hit> {
    if sizes == [] then [] else AtomHits(sizes[..|sizes| - 1]) + [Hit("a", Filler(sizes[|sizes| - 1]), None)]
  }

  /** Scenes whose texts take these sizes. */
  function SceneHits(sizes: seq<nat>): seq<SceneHit> {
    if sizes == [] then []
    else
      var n := sizes[|sizes| - 1];
      SceneHits(sizes[..|sizes| - 1]) + [SceneHit("s", Topic, Filler(if n >= 8 then n - 8 else 0), None, None)]
  }

  lemma FillerFits(n: nat, caps: ItemCaps)
    requires n <= caps.atom
    ensures AtomCandidate(Hit("a", Filler(n), None), caps).text == Filler(n) && |Filler(n)| == n
  {
  }

  lemma {:induction false} PinnedHitsTotal(sizes: seq<nat>, caps: ItemCaps)
    requires forall n <- sizes :: n <= caps.atom
    ensures TextTotal(PinnedCandidates(AtomHits(sizes), caps)) == Total(sizes)
  {
    if sizes != [] {
      var n := |sizes| - 1;
      assert sizes[n] in sizes && forall m <- sizes[..n] :: m in sizes;
      PinnedHitsTotal(sizes[..n], caps);
      FillerFits(sizes[n], caps);
      assert AtomHits(sizes)[..|AtomHits(sizes)| - 1] == AtomHits(sizes[..n]);
    }
  }

  lemma {:induction false} RankedHitsTotal(sizes: seq<nat>, caps: ItemCaps)
    requires forall n <- sizes :: n <= caps.atom
    ensures TextTotal(RankedCandidates(AtomHits(sizes), {}, caps)) == Total(sizes)
  {
    if sizes != [] {
      var n := |sizes| - 1;
      assert sizes[n] in sizes && forall m <- sizes[..n] :: m in sizes;
      RankedHitsTotal(sizes[..n], caps);
      FillerFits(sizes[n], caps);
      assert AtomHits(sizes)[..|AtomHits(sizes)| - 1] == AtomHits(sizes[..n]);
      TextAppended(RankedCandidates(AtomHits(sizes[..n]), {}, caps), AtomCandidate(Hit("a", Filler(sizes[n]), None), caps));
    }
  }

  lemma TextAppended(cands: seq<Candidate>, c: Candidate)
    ensures TextTotal(cands + [c]) == TextTotal(cands) + |c.text|
  {
    assert (cands + [c])[..|cands|] == cands;
  }

  lemma SceneFillerFits(n: nat, caps: ItemCaps)
    requires 8 <= n <= caps.scene
    ensures |SceneCandidate(SceneHit("s", Topic, Filler(n - 8), None, None), caps).text| == n
  {
    var heading := "[" + KindName(Topic) + "] ";
    assert |heading| == 8 && |heading + Filler(n - 8)| == n;
  }

  lemma SceneTotalGrows(hits: seq<SceneHit>, hit: SceneHit, caps: ItemCaps, n: nat)
    requires |SceneCandidate(hit, caps).text| == n
    ensures TextTotal(SceneCandidates(hits + [hit], caps)) == TextTotal(SceneCandidates(hits, caps)) + n
  {
    assert (hits + [hit])[..|hits|] == hits;
    TextAppended(SceneCandidates(hits, caps), SceneCandidate(hit, caps));
  }

  lemma {:induction false} SceneHitsTotal(sizes: seq<nat>, caps: ItemCaps)
    requires forall n <- sizes :: 8 <= n <= caps.scene
    ensures TextTotal(SceneCandidates(SceneHits(sizes), caps)) == Total(sizes)
  {
    if sizes != [] {
      var n := |sizes| - 1;
      assert sizes[n] in sizes && forall m <- sizes[..n] :: m in sizes;
      SceneHitsTotal(sizes[..n], caps);
      SceneFillerFits(sizes[n], caps);
      SceneTotalGrows(SceneHits(sizes[..n]), SceneHit("s", Topic, Filler(sizes[n] - 8), None, None), caps, sizes[n]);
    }
  }

  /** A scene takes at least the 8 characters of its heading. */
  lemma {:induction false} NoSceneUnderEight(hits: seq<SceneHit>, caps: ItemCaps, cap: int)
    requires caps.scene >= 8 && cap < 8
    ensures Greedy(SceneCandidates(hits, caps), cap).used == 0
  {
    if hits != [] {
      var n := |hits| - 1;
      NoSceneUnderEight(hits[..n], caps, cap);
      assert SceneCandidates(hits, caps)[..n] == SceneCandidates(hits[..n], caps);
    }
  }

  /** The shares of the first tiers, added up one by one, stay within the budget; the last sum may
      exceed it by less than the smallest scene takes. */
  predicate SharesFit(a: Allowances, budget: int) {
    && 0 <= budget && a.pinned <= budget && a.pinned + a.atoms <= budget
    && (a.pinned + a.atoms + a.scenes <= budget || a.pinned + a.atoms + a.scenes < 8)
  }

  ghost predicate KeepsBudget(offer: Offer, caps: ItemCaps, budget: int, a: Allowances) {
    Render(LayOut(offer, caps, a), offer, budget).totalChars <= budget
  }

  lemma FittingSharesKeep(offer: Offer, caps: ItemCaps, budget: int, a: Allowances, l: Layout)
    requires caps.scene >= 8 && a.pinned + a.atoms + a.scenes + a.core == budget && l == LayOut(offer, caps, a)
    requires SharesFit(a, budget)
    ensures KeepsBudget(offer, caps, budget, a)
  {
    CapsLaidOut(offer, caps, a, l);
    ContentsLaidOut(offer, caps, a, l);
    LeadingTakes(l.pinned, l.pinnedCap);
    GreedyTakes(l.atoms, l.atomsCap);
    GreedyTakes(l.scenes, l.scenesCap);
    if a.pinned + a.atoms + a.scenes < 8 { NoSceneUnderEight(offer.searchScenes(SceneLimit(l.scenesCap)), caps, l.scenesCap); }
    BudgetHoldsExactly(offer, caps, budget, a, l);
  }

  function OfferOf(pinned: seq<Hit>, atoms: seq<Hit>, scenes: seq<SceneHit>): Offer {
    Offer(pinned, _ => atoms, _ => scenes, "")
  }

  lemma Overruns(offer: Offer, caps: ItemCaps, budget: int, a: Allowances, l: Layout)
    requires l == LayOut(offer, caps, a) && l.pinnedTier.used + l.atomsTier.used + l.scenesTier.used > budget
    ensures !KeepsBudget(offer, caps, budget, a)
  {
  }

  lemma OnlyPinned(hits: seq<Hit>, caps: ItemCaps, a: Allowances, l: Layout)
    requires l == LayOut(OfferOf(hits, [], []), caps, a) && TextTotal(PinnedCandidates(hits, caps)) == a.pinned
    ensures l.pinnedTier.used == a.pinned
  {
    CapsLaidOut(OfferOf(hits, [], []), caps, a, l);
    ContentsLaidOut(OfferOf(hits, [], []), caps, a, l);
    LeadingTakesAll(l.pinned, a.pinned);
  }

  lemma OnlyAtoms(hits: seq<Hit>, caps: ItemCaps, a: Allowances, l: Layout)
    requires l == LayOut(OfferOf([], hits, []), caps, a) && TextTotal(RankedCandidates(hits, {}, caps)) == a.pinned + a.atoms
    ensures l.atomsTier.used == a.pinned + a.atoms
  {
    CapsLaidOut(OfferOf([], hits, []), caps, a, l);
    ContentsLaidOut(OfferOf([], hits, []), caps, a, l);
    assert PinnedIds(OfferOf([], hits, [])) == {} && l.pinned == [];
    GreedyTakesAll(l.atoms, l.atomsCap);
  }

  lemma OnlyScenes(hits: seq<SceneHit>, caps: ItemCaps, a: Allowances, l: Layout)
    requires l == LayOut(OfferOf([], [], hits), caps, a) && TextTotal(SceneCandidates(hits, caps)) == a.pinned + a.atoms + a.scenes
    ensures l.scenesTier.used == a.pinned + a.atoms + a.scenes
  {
    CapsLaidOut(OfferOf([], [], hits), caps, a, l);
    ContentsLaidOut(OfferOf([], [], hits), caps, a, l);
    assert l.pinned == [] && l.atoms == [];
    GreedyTakesAll(l.scenes, l.scenesCap);
  }

  lemma PinnedOverrun(caps: ItemCaps, budget: int, a: Allowances) returns (offer: Offer)
    requires caps.atom >= 2 && a.pinned > budget >= 0
    ensures !KeepsBudget(offer, caps, budget, a)
  {
    var hits := AtomHits(Sizes(a.pinned, 1, caps.atom));
    offer := OfferOf(hits, [], []);
    PinnedHitsTotal(Sizes(a.pinned, 1, caps.atom), caps);
    OnlyPinned(hits, caps, a, LayOut(offer, caps, a));
    Overruns(offer, caps, budget, a, LayOut(offer, caps, a));
  }

  lemma AtomsOverrun(caps: ItemCaps, budget: int, a: Allowances) returns (offer: Offer)
    requires caps.atom >= 2 && a.pinned + a.atoms > budget >= 0
    ensures !KeepsBudget(offer, caps, budget, a)
  {
    var hits := AtomHits(Sizes(a.pinned + a.atoms, 1, caps.atom));
    offer := OfferOf([], hits, []);
    RankedHitsTotal(Sizes(a.pinned + a.atoms, 1, caps.atom), caps);
    OnlyAtoms(hits, caps, a, LayOut(offer, caps, a));
    Overruns(offer, caps, budget, a, LayOut(offer, caps, a));
  }

  lemma ScenesOverrun(caps: ItemCaps, budget: int, a: Allowances) returns (offer: Offer)
    requires caps.scene >= 16 && a.pinned + a.atoms + a.scenes > budget >= 0 && a.pinned + a.atoms + a.scenes >= 8
    ensures !KeepsBudget(offer, caps, budget, a)
  {
    var hits := SceneHits(Sizes(a.pinned + a.atoms + a.scenes, 8, caps.scene));
    offer := OfferOf([], [], hits);
    SceneHitsTotal(Sizes(a.pinned + a.atoms + a.scenes, 8, caps.scene), caps);
    OnlyScenes(hits, caps, a, LayOut(offer, caps, a));
    Overruns(offer, caps, budget, a, LayOut(offer, caps, a));
  }

  /** For any weights, negative ones included: the budget holds for whatever the store holds and
      the searches answer if and only if it is not negative and no running sum of the shares
      exceeds it, give or take what no scene fits into. */
  lemma BudgetAlwaysHoldsExactly(caps: ItemCaps, budget: int, a: Allowances)
    requires caps.atom >= 2 && caps.scene >= 16 && a.pinned + a.atoms + a.scenes + a.core == budget
    ensures (forall offer :: KeepsBudget(offer, caps, budget, a)) <==> SharesFit(a, budget)
  {
    if SharesFit(a, budget) {
      forall offer ensures KeepsBudget(offer, caps, budget, a) {
        FittingSharesKeep(offer, caps, budget, a, LayOut(offer, caps, a));
      }
    } else if budget < 0 {
      assert !KeepsBudget(OfferOf([], [], []), caps, budget, a);
    } else if a.pinned > budget {
      var offer := PinnedOverrun(caps, budget, a);
    } else if a.pinned + a.atoms > budget {
      var offer := AtomsOverrun(caps, budget, a);
    } else {
      var offer := ScenesOverrun(caps, budget, a);
    }
  }

  lemma {:induction false} RankedAreNotPinned(hits: seq<Hit>, pinnedIds: set<string>, caps: ItemCaps)
    ensures forall c <- RankedCandidates(hits, pinnedIds, caps) :: c.id !in pinnedIds
  {
    if hits != [] { RankedAreNotPinned(hits[..|hits| - 1], pinnedIds, caps); }
  }

  lemma {:induction false} ChosenAreCandidates(cands: seq<Candidate>, admitted: seq<bool>)
    requires |admitted| == |cands|
    ensures forall c <- Chosen(cands, admitted) :: c in cands
  {
    if cands != [] { ChosenAreCandidates(cands[..|cands| - 1], admitted[..|cands| - 1]); }
  }

  /** A pinned atom is never repeated as a ranked one, even when it did not fit its own tier. */
  lemma NoPinnedAtomIsRanked(offer: Offer, caps: ItemCaps, a: Allowances, l: Layout, c: Candidate)
    requires l == LayOut(offer, caps, a) && c in Chosen(l.atoms, l.atomsTier.admitted)
    ensures forall hit <- offer.pinned :: hit.id != c.id
  {
    RankedAreNotPinned(offer.searchAtoms(AtomLimit(l.atomsCap)), PinnedIds(offer), caps);
    ChosenAreCandidates(l.atoms, l.atomsTier.admitted);
  }

  /** The context is marked truncated exactly when some candidate is missing from it or its
      core is not the stored one. */
  lemma TruncatedExactly(offer: Offer, caps: ItemCaps, budget: int, a: Allowances, l: Layout, c: Context)
    requires l == LayOut(offer, caps, a) && c == Render(l, offer, budget)
    ensures !c.truncated <==>
            && c.pinnedAtoms == Texts(l.pinned) && c.rankedAtoms == Texts(l.atoms) && c.scenes == Texts(l.scenes)
            && c.core == (if offer.core == "" then None else Some(offer.core))
  {
    AllChosen(l.pinned, l.pinnedTier.admitted);
    AllChosen(l.atoms, l.atomsTier.admitted);
    AllChosen(l.scenes, l.scenesTier.admitted);
    if l.coreCap > 50 { TruncateFits(offer.core, l.coreCap); }
  }

  lemma {:induction false} AllChosen(cands: seq<Candidate>, admitted: seq<bool>)
    requires |admitted| == |cands|
    ensures |Chosen(cands, admitted)| <= |cands|
    ensures if false in admitted then |Chosen(cands, admitted)| < |cands| else Chosen(cands, admitted) == cands
  {
    if cands != [] {
      var n := |cands| - 1;
      AllChosen(cands[..n], admitted[..n]);
      assert cands == cands[..n] + [cands[n]] && admitted == admitted[..n] + [admitted[n]];
    }
  }
}
