/**
 What recall hands back, told from the weights, the budget and the hits.
 */
module RecallProofs {
  import opened Tables
  import opened Recall

  // ----- Shares

  // Products are named, which keeps them out of the solver's way.

  lemma Scaled(a: real, b: real, t: real, at: real, bt: real)
    requires a <= b && t > 0.0 && at == a * t && bt == b * t
    ensures at <= bt
  {
    assert (b - a) * t >= 0.0;
    assert bt - at == (b - a) * t;
  }

  lemma ScaledBelow(a: real, b: real, t: real, at: real, bt: real)
    requires a < b && t > 0.0 && at == a * t && bt == b * t
    ensures at < bt
  {
    assert (b - a) * t > 0.0;
    assert bt - at == (b - a) * t;
  }

  lemma Undivided(b: real, w: real, t: real, x: real)
    requires t > 0.0 && x == b * (w / t)
    ensures x * t == b * w
  {
    var q := w / t;
    assert q * t == w;
    assert b * q * t == b * (q * t);
  }

  lemma Between(x: real, s: real, t: real, w: real)
    requires s <= x && x < s + 1.0 && t > 0.0 && x * t == w
    ensures s * t <= w
    ensures w < (s + 1.0) * t
  {
    var xt, st, nt := x * t, s * t, (s + 1.0) * t;
    Scaled(s, x, t, st, xt);
    ScaledBelow(x, s + 1.0, t, xt, nt);
  }

  /** The share of weight `w` among weights that sum to `t`: its part of `b`, rounded down. */
  ghost predicate IsShare(share: int, b: int, w: real, t: real) {
    share as real * t <= b as real * w && b as real * w < (share as real + 1.0) * t
  }

  lemma ShareOf(b: int, weight: real, total: real, share: int)
    requires total > 0.0 && share == (b as real * (weight / total)).Floor
    ensures IsShare(share, b, weight, total)
  {
    var x := b as real * (weight / total);
    Undivided(b as real, weight, total, x);
    var s := share as real;
    assert s <= x && x < s + 1.0;
    Between(x, s, total, b as real * weight);
  }

  /** Each of the first three tiers gets its own weight's part of the budget, rounded down; the core
      gets the rest. */
  lemma SharesExactly(budget: int, f: TierBudgets, a: Allowances)
    requires f.pinned + f.atoms + f.scenes + f.core > 0.0 && a == Allot(budget, f)
    ensures var t := f.pinned + f.atoms + f.scenes + f.core;
            IsShare(a.pinned, budget, f.pinned, t) && IsShare(a.atoms, budget, f.atoms, t) && IsShare(a.scenes, budget, f.scenes, t)
    ensures a.core == budget - a.pinned - a.atoms - a.scenes
  {
    var t := f.Total();
    ShareOf(budget, f.pinned, t, a.pinned);
    ShareOf(budget, f.atoms, t, a.atoms);
    ShareOf(budget, f.scenes, t, a.scenes);
  }

  /** Weights that are given count as they are, and the others as the default: 20, 40, 25 and 15 of
      100 for pinned atoms, ranked atoms, scenes and core. */
  lemma WeightsExactly(o: TierOverrides)
    ensures Fractions(o).pinned == match o.pinned case Some(x) => x case None => 0.20
    ensures Fractions(o).atoms == match o.atoms case Some(x) => x case None => 0.40
    ensures Fractions(o).scenes == match o.scenes case Some(x) => x case None => 0.25
    ensures Fractions(o).core == match o.core case Some(x) => x case None => 0.15
  {
  }

  /** Without overrides: a fifth, two fifths and a quarter of the budget, each rounded down. */
  lemma DefaultShares(budget: int, a: Allowances)
    requires a == Allot(budget, Fractions(TierOverrides(None, None, None, None)))
    ensures 5 * a.pinned <= budget < 5 * a.pinned + 5
    ensures 5 * a.atoms <= 2 * budget < 5 * a.atoms + 5
    ensures 4 * a.scenes <= budget < 4 * a.scenes + 4
  {
    var f := Fractions(TierOverrides(None, None, None, None));
    WeightsExactly(TierOverrides(None, None, None, None));
    SharesExactly(budget, f, a);
    assert f.pinned + f.atoms + f.scenes + f.core == 1.0;
    InWholes(a.pinned, budget, 0.20, 1, 5);
    InWholes(a.atoms, budget, 0.40, 2, 5);
    InWholes(a.scenes, budget, 0.25, 1, 4);
  }

  lemma InWholes(share: int, budget: int, p: real, n: int, d: int)
    requires d > 0 && p * d as real == n as real && IsShare(share, budget, p, 1.0)
    ensures d * share <= n * budget < d * share + d
  {
    var s, y, t := share as real, budget as real * p, d as real;
    assert s <= y && y < s + 1.0;
    var st, yt, nt := s * t, y * t, (s + 1.0) * t;
    Scaled(s, y, t, st, yt);
    ScaledBelow(y, s + 1.0, t, yt, nt);
    assert yt == budget as real * n as real by {
      var b := budget as real;
      assert b * p * t == b * (p * t);
    }
    assert nt == st + t;
    assert st == (share * d) as real && yt == (budget * n) as real;
    assert nt == (share * d + d) as real;
  }

  // ----- Hits asked for

  /** One and a half times as many hits as items of 100 characters, or of 300, fill the cap, rounded
      up, and never fewer than 15 atoms or 8 scenes. */
  lemma LimitsExactly(cap: int, n: int)
    ensures AtomLimit(cap) <= n <==> 15 <= n && 3 * cap <= 200 * n
    ensures SceneLimit(cap) <= n <==> 8 <= n && cap <= 200 * n
  {
    CeilExactly(3 * cap, 200, n);
    CeilExactly(cap, 200, n);
  }

  lemma CeilExactly(m: int, d: nat, n: int)
    requires d == 200
    ensures CeilDiv(m, d) <= n <==> m <= d * n
  {
    var q := (-m) / d;
    assert d * q <= -m < d * q + d;
  }

  // ----- Texts

  /** A text that is too long keeps its beginning and ends in three dots, so that it meets the limit;
      a limit below three takes that many characters fewer than three off its end instead. */
  ghost function Shortened(s: string, limit: int): string {
    if |s| <= limit then s
    else if limit >= 3 then s[..limit - 3] + "..."
    else if |s| > 3 - limit then s[..|s| - (3 - limit)] + "..."
    else "..."
  }

  lemma TruncateExactly(s: string, limit: int)
    ensures Truncate(s, limit) == Shortened(s, limit)
    ensures limit >= 3 ==> |Shortened(s, limit)| <= limit
  {
  }

  /** A scene shows its kind and title and, if it has one, its summary below. */
  lemma SceneTextExactly(hit: SceneHit, caps: ItemCaps)
    ensures var head := (match hit.kind case Episode => "[episode] " case Topic => "[topic] ") + hit.title;
            var text := if hit.summary == None || hit.summary == Some("") then head else head + "\n" + hit.summary.value;
            SceneCandidate(hit, caps) == Candidate(hit.id, Shortened(text, caps.scene), hit.score)
  {
    var kind := match hit.kind case Episode => "episode" case Topic => "topic";
    assert "[" + kind + "] " == match hit.kind case Episode => "[episode] " case Topic => "[topic] ";
  }

  lemma AtomTextExactly(hit: Hit, caps: ItemCaps)
    ensures AtomCandidate(hit, caps) == Candidate(hit.id, Shortened(hit.content, caps.atom), hit.score)
  {
  }

  // ----- Candidates

  lemma {:induction false} PinnedExactly(hits: seq<Hit>, caps: ItemCaps)
    ensures forall k :: 0 <= k < |hits| ==> PinnedCandidates(hits, caps)[k] == AtomCandidate(hits[k], caps).(score := None)
  {
    if hits != [] { PinnedExactly(hits[..|hits| - 1], caps); }
  }

  lemma {:induction false} ScenesExactly(hits: seq<SceneHit>, caps: ItemCaps)
    ensures forall k :: 0 <= k < |hits| ==> SceneCandidates(hits, caps)[k] == SceneCandidate(hits[k], caps)
  {
    if hits != [] { ScenesExactly(hits[..|hits| - 1], caps); }
  }

  ghost predicate Increasing(at: seq<nat>, n: nat) {
    (forall j :: 0 <= j < |at| ==> at[j] < n) && forall i, j :: 0 <= i < j < |at| ==> at[i] < at[j]
  }

  lemma IncreasingGrows(at: seq<nat>, n: nat)
    requires Increasing(at, n)
    ensures Increasing(at, n + 1) && Increasing(at + [n], n + 1)
  {
  }

  /** `picked` is what `keep` marks of `all`, in order; `at` says where each is. */
  ghost predicate Picked(at: seq<nat>, picked: seq<Candidate>, all: seq<Candidate>, keep: seq<bool>) {
    && |all| == |keep| && |at| == |picked| && Increasing(at, |all|)
    && (forall j :: 0 <= j < |at| ==> at[j] < |all| && picked[j] == all[at[j]])
    && forall k :: 0 <= k < |keep| ==> (k in at <==> keep[k])
  }

  lemma PickedNext(at: seq<nat>, picked: seq<Candidate>, all: seq<Candidate>, keep: seq<bool>, c: Candidate)
    requires Picked(at, picked, all, keep)
    ensures Picked(at + [|all|], picked + [c], all + [c], keep + [true])
    ensures Picked(at, picked, all + [c], keep + [false])
  {
    IncreasingGrows(at, |all|);
    assert |all| !in at;
  }

  function AtomCandidates(hits: seq<Hit>, caps: ItemCaps): (cands: seq<Candidate>)
    ensures |cands| == |hits| && forall k :: 0 <= k < |hits| ==> cands[k] == AtomCandidate(hits[k], caps)
  {
    seq(|hits|, k requires 0 <= k < |hits| => AtomCandidate(hits[k], caps))
  }

  function NotPinned(hits: seq<Hit>, pinnedIds: set<string>): (keep: seq<bool>)
    ensures |keep| == |hits| && forall k :: 0 <= k < |hits| ==> keep[k] == (hits[k].id !in pinnedIds)
  {
    seq(|hits|, k requires 0 <= k < |hits| => hits[k].id !in pinnedIds)
  }

  /** The ranked candidates are the hits that are not pinned, in their order. */
  lemma {:induction false} RankedExactly(hits: seq<Hit>, pinnedIds: set<string>, caps: ItemCaps) returns (at: seq<nat>)
    ensures Picked(at, RankedCandidates(hits, pinnedIds, caps), AtomCandidates(hits, caps), NotPinned(hits, pinnedIds))
  {
    if hits == [] { return []; }
    var n := |hits| - 1;
    at := RankedExactly(hits[..n], pinnedIds, caps);
    PickedNext(at, RankedCandidates(hits[..n], pinnedIds, caps), AtomCandidates(hits[..n], caps), NotPinned(hits[..n], pinnedIds),
               AtomCandidate(hits[n], caps));
    assert AtomCandidates(hits, caps) == AtomCandidates(hits[..n], caps) + [AtomCandidate(hits[n], caps)];
    assert NotPinned(hits, pinnedIds) == NotPinned(hits[..n], pinnedIds) + [hits[n].id !in pinnedIds];
    if hits[n].id !in pinnedIds { at := at + [n]; }
  }

  /** What is taken from a tier: the admitted candidates, in their order. */
  lemma {:induction false} ChosenExactly(cands: seq<Candidate>, admitted: seq<bool>) returns (at: seq<nat>)
    requires |admitted| == |cands|
    ensures Picked(at, Chosen(cands, admitted), cands, admitted)
  {
    if cands == [] { return []; }
    var n := |cands| - 1;
    at := ChosenExactly(cands[..n], admitted[..n]);
    PickedNext(at, Chosen(cands[..n], admitted[..n]), cands[..n], admitted[..n], cands[n]);
    assert cands == cands[..n] + [cands[n]] && admitted == admitted[..n] + [admitted[n]];
    if admitted[n] {
      at := at + [n];
    } else {
      assert Chosen(cands[..n], admitted[..n]) + [] == Chosen(cands[..n], admitted[..n]);
    }
  }

  lemma {:induction false} ShownExactly(chosen: seq<Candidate>, source: Source)
    ensures forall j :: 0 <= j < |chosen| ==>
              Texts(chosen)[j] == chosen[j].text && Items(chosen, source)[j] == Item(source, chosen[j].id, |chosen[j].text|, chosen[j].score)
  {
    if chosen != [] { ShownExactly(chosen[..|chosen| - 1], source); }
  }

  /** Item `from + j` stands for text `j` of a tier. */
  ghost predicate Listed(items: seq<Item>, from: nat, texts: seq<string>, chosen: seq<Candidate>, source: Source) {
    && from + |texts| <= |items| && |texts| == |chosen|
    && forall j :: 0 <= j < |texts| ==>
         texts[j] == chosen[j].text && items[from + j] == Item(source, chosen[j].id, |texts[j]|, chosen[j].score)
  }

  /** What was taken from the three tiers. */
  datatype Picks = Picks(pinned: seq<Candidate>, ranked: seq<Candidate>, scenes: seq<Candidate>)

  function PicksOf(l: Layout): Picks
    requires l.Shaped()
  {
    Picks(Chosen(l.pinned, l.pinnedTier.admitted), Chosen(l.atoms, l.atomsTier.admitted), Chosen(l.scenes, l.scenesTier.admitted))
  }

  lemma RenderedPicks(l: Layout, offer: Offer, budget: int, c: Context, t: Picks)
    requires l.Shaped() && c == Render(l, offer, budget) && t == PicksOf(l)
    ensures c.pinnedAtoms == Texts(t.pinned) && c.rankedAtoms == Texts(t.ranked) && c.scenes == Texts(t.scenes)
    ensures c.core == l.core && c.budgetChars == budget
    ensures c.items == Items(t.pinned, Pinned) + Items(t.ranked, Ranked) + Items(t.scenes, FromScene) + CoreItems(l.core)
  {
  }

  /** The context shows, tier by tier, the texts of what was taken, and lists one item for each: where
      it came from, its id, its size and its score. */
  lemma ContextExactly(l: Layout, offer: Offer, budget: int, c: Context, t: Picks)
    requires l.Shaped() && c == Render(l, offer, budget) && t == PicksOf(l)
    ensures Listed(c.items, 0, c.pinnedAtoms, t.pinned, Pinned)
    ensures Listed(c.items, |t.pinned|, c.rankedAtoms, t.ranked, Ranked)
    ensures Listed(c.items, |t.pinned| + |t.ranked|, c.scenes, t.scenes, FromScene)
    ensures |c.items| == |t.pinned| + |t.ranked| + |t.scenes| + if c.core == None then 0 else 1
    ensures c.core.Some? ==> c.items[|c.items| - 1] == Item(FromCore, "core", |c.core.value|, None)
    ensures c.core == l.core && c.budgetChars == budget
  {
    RenderedPicks(l, offer, budget, c, t);
    AllListed(c.items, t, CoreItems(l.core));
  }

  lemma AllListed(items: seq<Item>, t: Picks, core: seq<Item>)
    requires items == Items(t.pinned, Pinned) + Items(t.ranked, Ranked) + Items(t.scenes, FromScene) + core
    ensures Listed(items, 0, Texts(t.pinned), t.pinned, Pinned)
    ensures Listed(items, |t.pinned|, Texts(t.ranked), t.ranked, Ranked)
    ensures Listed(items, |t.pinned| + |t.ranked|, Texts(t.scenes), t.scenes, FromScene)
    ensures items[|t.pinned| + |t.ranked| + |t.scenes|..] == core
  {
    var x, y, z := Items(t.pinned, Pinned), Items(t.ranked, Ranked), Items(t.scenes, FromScene);
    FourParts(items, x, y, z, core);
    TierListed(items, [], t.pinned, Pinned, y + z + core);
    TierListed(items, x, t.ranked, Ranked, z + core);
    TierListed(items, x + y, t.scenes, FromScene, core);
  }

  lemma FourParts(items: seq<Item>, x: seq<Item>, y: seq<Item>, z: seq<Item>, w: seq<Item>)
    requires items == x + y + z + w
    ensures items == [] + x + (y + z + w) && items == x + y + (z + w) && items == (x + y) + z + w
    ensures items[|x| + |y| + |z|..] == w
  {
  }

  lemma TierListed(items: seq<Item>, before: seq<Item>, chosen: seq<Candidate>, source: Source, after: seq<Item>)
    requires items == before + Items(chosen, source) + after
    ensures Listed(items, |before|, Texts(chosen), chosen, source)
  {
    ShownExactly(chosen, source);
    forall j | 0 <= j < |chosen| ensures items[|before| + j] == Items(chosen, source)[j] {}
  }

  // ----- Caps

  /** A tier may use its own share and all that the tiers before it were given and did not use. The
      core is shown, cut to its cap, if there is one and its cap is above 50. */
  lemma CapsExactly(offer: Offer, caps: ItemCaps, a: Allowances, l: Layout)
    requires l == LayOut(offer, caps, a)
    ensures l.pinnedCap == a.pinned
    ensures l.atomsCap == a.pinned + a.atoms - l.pinnedTier.used
    ensures l.scenesCap == a.pinned + a.atoms + a.scenes - l.pinnedTier.used - l.atomsTier.used
    ensures l.coreCap == a.pinned + a.atoms + a.scenes + a.core - l.pinnedTier.used - l.atomsTier.used - l.scenesTier.used
    ensures l.core == if offer.core == "" || l.coreCap <= 50 then None else Some(Shortened(offer.core, l.coreCap))
  {
    TruncateExactly(offer.core, l.coreCap);
  }
}
