/**
 When the greedy matching of clusters to topics depends on the order of the clusters:
 above a match threshold of 1/2 it never does, at 1/2 (the default) and below it can.
 */
module TopicOrder {
  import opened Tables
  import opened TextOrder
  import opened Topics
  import opened TopicFixedPoint
  import Jaccard

  ghost predicate DisjointTopics(existing: seq<Row>) {
    && (forall r :: 0 <= r < |existing| ==> Distinct(existing[r].scene.atomIds))
    && (forall r, q :: 0 <= r < q < |existing| ==> existing[r].id != existing[q].id)
    && (forall r, q, x :: 0 <= r < |existing| && 0 <= q < |existing| && Shares(existing, r, q, x) ==> r == q)
  }

  predicate Shares(existing: seq<Row>, r: int, q: int, x: string)
    requires 0 <= r < |existing| && 0 <= q < |existing|
  {
    x in existing[r].scene.atomIds && x in existing[q].scene.atomIds
  }

  function Claim(existing: seq<Row>, matched: set<string>, j: int): set<string> {
    if 0 <= j < |existing| then matched + {existing[j].id} else matched
  }

  /** The topic each cluster takes, in the order the clusters are placed. */
  function Choices(existing: seq<Row>, m: real, matched: set<string>, clusters: seq<seq<string>>): (js: seq<int>)
    ensures |js| == |clusters|
    ensures forall i :: 0 <= i < |js| ==> -1 <= js[i] < |existing|
    decreases |clusters|
  {
    if clusters == [] then []
    else
      var j := Chosen(clusters[0], existing, matched, m);
      [j] + Choices(existing, m, Claim(existing, matched, j), clusters[1..])
  }

  function ClaimAll(existing: seq<Row>, matched: set<string>, js: seq<int>): set<string>
    decreases |js|
  {
    if js == [] then matched else ClaimAll(existing, Claim(existing, matched, js[0]), js[1..])
  }

  /** These are the topics reconciliation claims. */
  lemma {:induction false} PlaceAllChoices(env: Env, oracle: Oracle, opts: Options, existing: seq<Row>, p: Progress,
                                           clusters: seq<seq<string>>)
    requires p.ok && PlaceAll(env, oracle, opts, existing, p, clusters).ok
    ensures PlaceAll(env, oracle, opts, existing, p, clusters).matched
            == ClaimAll(existing, p.matched, Choices(existing, opts.matchThreshold, p.matched, clusters))
    decreases |clusters|
  {
    if clusters != [] {
      var j := Chosen(clusters[0], existing, p.matched, opts.matchThreshold);
      var q := PlaceCluster(env, oracle, opts, existing, p, clusters[0]);
      ClusterClaims(env, oracle, opts, existing, p, clusters[0]);
      PlaceAllTurn(env, oracle, opts, existing, p, clusters);
      PlaceAllChoices(env, oracle, opts, existing, q, clusters[1..]);
      var rest := Choices(existing, opts.matchThreshold, q.matched, clusters[1..]);
      assert ([j] + rest)[1..] == rest;
    }
  }

  lemma ClusterClaims(env: Env, oracle: Oracle, opts: Options, existing: seq<Row>, p: Progress, members: seq<string>)
    ensures PlaceCluster(env, oracle, opts, existing, p, members).matched
            == Claim(existing, p.matched, Chosen(members, existing, p.matched, opts.matchThreshold))
  {
  }

  /** A topic at or above the threshold, if the cluster has one. */
  ghost predicate IsPartner(members: seq<string>, existing: seq<Row>, m: real, j: int) {
    if j >= 0 then j < |existing| && Jaccard.Score(members, existing[j].scene.atomIds) >= m
    else forall r :: 0 <= r < |existing| ==> Jaccard.Score(members, existing[r].scene.atomIds) < m
  }

  lemma PartnerUnique(members: seq<string>, existing: seq<Row>, m: real, j: int, j': int)
    requires m > 0.5 && Distinct(members) && DisjointTopics(existing)
    requires -1 <= j && -1 <= j' && IsPartner(members, existing, m, j) && IsPartner(members, existing, m, j')
    ensures j == j'
  {
    if j != j' && j >= 0 && j' >= 0 {
      forall x | x in existing[j].scene.atomIds ensures x !in existing[j'].scene.atomIds {
        assert !Shares(existing, j, j', x);
      }
      Jaccard.AboveHalfUnique(members, existing[j].scene.atomIds, existing[j'].scene.atomIds);
    }
  }

  /** Topics already claimed went to clusters sharing no atom with this one. */
  ghost predicate ClaimedByOthers(existing: seq<Row>, matched: set<string>, m: real, members: seq<string>) {
    forall r :: 0 <= r < |existing| && existing[r].id in matched ==>
      exists c: seq<string> :: Distinct(c) && (forall x :: x in c ==> x !in members)
        && Jaccard.Score(c, existing[r].scene.atomIds) >= m
  }

  lemma {:induction false} BestIsAtLeast(members: seq<string>, existing: seq<Row>, matched: set<string>, r: nat, k: nat)
    requires r < k <= |existing| && existing[r].id !in matched
    requires Jaccard.Score(members, existing[r].scene.atomIds) > 0.0
    ensures BestMatch(members, existing, matched, k).index >= 0
    ensures BestMatch(members, existing, matched, k).score >= Jaccard.Score(members, existing[r].scene.atomIds)
  {
    if r < k - 1 { BestIsAtLeast(members, existing, matched, r, k - 1); }
    else { BestNotNegative(members, existing, matched, k - 1); }
  }

  lemma {:induction false} BestNotNegative(members: seq<string>, existing: seq<Row>, matched: set<string>, k: nat)
    requires k <= |existing|
    ensures BestMatch(members, existing, matched, k).score >= 0.0
    ensures BestMatch(members, existing, matched, k).score > 0.0 ==> BestMatch(members, existing, matched, k).index >= 0
    ensures BestMatch(members, existing, matched, k).index < 0 ==> BestMatch(members, existing, matched, k).score == 0.0
  {
    if k > 0 { BestNotNegative(members, existing, matched, k - 1); }
  }

  /** Above 1/2 the claimed topics never matter: the choice is the cluster's partner. */
  lemma ChoiceIsPartner(members: seq<string>, existing: seq<Row>, matched: set<string>, m: real)
    requires m > 0.5 && Distinct(members) && DisjointTopics(existing)
    requires ClaimedByOthers(existing, matched, m, members)
    ensures IsPartner(members, existing, m, Chosen(members, existing, matched, m))
  {
    var j := Chosen(members, existing, matched, m);
    if j < 0 {
      forall r | 0 <= r < |existing| ensures Jaccard.Score(members, existing[r].scene.atomIds) < m {
        var topic := existing[r].scene.atomIds;
        if existing[r].id in matched {
          var c: seq<string> :| Distinct(c) && (forall x :: x in c ==> x !in members) && Jaccard.Score(c, topic) >= m;
          Jaccard.ScoreSymmetric(c, topic);
          Jaccard.ScoreSymmetric(members, topic);
          Jaccard.AboveHalfUnique(topic, c, members);
        } else if Jaccard.Score(members, topic) >= m {
          BestIsAtLeast(members, existing, matched, r, |existing|);
        }
      }
    }
  }

  lemma {:induction false} ChoicesArePartners(existing: seq<Row>, m: real, matched: set<string>,
                                              clusters: seq<seq<string>>)
    requires m > 0.5 && DisjointTopics(existing) && Separate(clusters)
    requires forall i :: 0 <= i < |clusters| ==> ClaimedByOthers(existing, matched, m, clusters[i])
    ensures forall i :: 0 <= i < |clusters| ==>
              IsPartner(clusters[i], existing, m, Choices(existing, m, matched, clusters)[i])
    decreases |clusters|
  {
    if clusters != [] {
      var j := Chosen(clusters[0], existing, matched, m);
      var matched' := Claim(existing, matched, j);
      assert ClaimedByOthers(existing, matched, m, clusters[0]);
      ChoiceIsPartner(clusters[0], existing, matched, m);
      SeparateRest(clusters);
      forall i | 0 <= i < |clusters[1..]| ensures ClaimedByOthers(existing, matched', m, clusters[1..][i]) {
        assert ClaimedByOthers(existing, matched, m, clusters[i + 1]);
        ClaimGrows(existing, matched, j, m, clusters[0], clusters[i + 1]);
      }
      ChoicesArePartners(existing, m, matched', clusters[1..]);
    }
  }

  lemma SeparateRest(clusters: seq<seq<string>>)
    requires clusters != [] && Separate(clusters)
    ensures Separate(clusters[1..]) && Distinct(clusters[0])
    ensures forall i :: 1 <= i < |clusters| ==> forall x :: x in clusters[0] ==> x !in clusters[i]
  {
    forall i, j, x | 0 <= i < |clusters[1..]| && 0 <= j < |clusters[1..]| && x in clusters[1..][i] && x in clusters[1..][j]
      ensures i == j
    {
      assert x in clusters[i + 1] && x in clusters[j + 1];
    }
  }

  lemma ClaimGrows(existing: seq<Row>, matched: set<string>, j: int, m: real, c: seq<string>, members: seq<string>)
    requires -1 <= j < |existing| && Distinct(c) && (forall x :: x in c ==> x !in members)
    requires j >= 0 ==> Jaccard.Score(c, existing[j].scene.atomIds) >= m
    requires DisjointTopics(existing)
    requires ClaimedByOthers(existing, matched, m, members)
    ensures ClaimedByOthers(existing, Claim(existing, matched, j), m, members)
  {
  }

  /** With a match threshold above 1/2, reordering the clusters gives each cluster the
      same topic as before. */
  lemma MatchingIgnoresOrder(existing: seq<Row>, m: real, clusters: seq<seq<string>>, reordered: seq<seq<string>>,
                             i: nat, k: nat)
    requires m > 0.5 && DisjointTopics(existing) && Separate(clusters) && Separate(reordered)
    requires i < |clusters| && k < |reordered| && clusters[i] == reordered[k]
    ensures Choices(existing, m, {}, clusters)[i] == Choices(existing, m, {}, reordered)[k]
  {
    ChoicesArePartners(existing, m, {}, clusters);
    ChoicesArePartners(existing, m, {}, reordered);
    PartnerUnique(clusters[i], existing, m, Choices(existing, m, {}, clusters)[i], Choices(existing, m, {}, reordered)[k]);
  }

  /** Two atoms that were one topic and are now two clusters: whichever cluster comes
      first takes the topic, for every threshold up to 1/2. */
  lemma MatchingDependsOnOrder(row: Row, x: string, y: string, m: real)
    requires m <= 0.5 && x != y && row.scene.atomIds == [x, y]
    ensures Choices([row], m, {}, [[x], [y]]) == [0, -1]
    ensures Choices([row], m, {}, [[y], [x]]) == [0, -1]
  {
    Jaccard.HalfIsShared(x, y);
    forall a | a in {[x], [y]}
      ensures Chosen(a, [row], {}, m) == 0 && Chosen(a, [row], {row.id}, m) == -1
    {
      assert BestMatch(a, [row], {}, 0) == Match(-1, 0.0);
      assert BestMatch(a, [row], {}, 1) == Match(0, 0.5);
      assert BestMatch(a, [row], {row.id}, 0) == Match(-1, 0.0);
      assert BestMatch(a, [row], {row.id}, 1) == Match(-1, 0.0);
    }
    assert [[x], [y]][1..] == [[y]] && [[y], [x]][1..] == [[x]];
    assert [[y]][1..] == [] && [[x]][1..] == [];
  }
}
