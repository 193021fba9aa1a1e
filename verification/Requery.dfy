/** Asking again for a resolved mention: the answer is recomputed from its stored, truncated links. */
module Requery {
  import opened Domain
  import opened Ordering
  import opened Placement
  import opened Ranking
  import opened Tables
  import opened Resolver
  import opened Forest
  import opened Candidates

  function FoundScores(db: Database, id: MentionId): Scores {
    LinkedScores(FindFor(db.links, id), id, ClusterMap(db.clusters))
  }

  /** The candidate scores of a re-query before pruning. */
  function RequeryScores(db: Database, id: MentionId): Scores {
    match ClusterOf(db.clusters, id)
    case Some(own) => FoundScores(db, id).SetDefault(own)
    case None => FoundScores(db, id)
  }

  /** `_gen_cand`, for a mention that has a cluster. */
  function GenCand(cfg: Config, db: Database, id: MentionId): (result: seq<Candidate>)
    requires ClusterOf(db.clusters, id).Some?
    ensures result == Largest(cfg.topN, RequeryScores(db, id).Items(), CandidateScore)
  {
    var links := FindFor(db.links, id);
    RankCandidates(cfg.topN, id, ClusterOf(db.clusters, id).value, links, ClusterMap(db.clusters))
  }

  /**
   * What a re-query has to answer: the top of the score table over the stored links of the mention and the stored
   * clusters of the mentions they lead to, with the stored cluster of the mention itself.
   */
  ghost predicate RanksStored(cfg: Config, db: Database, id: MentionId, candidates: seq<Candidate>) {
    candidates != []
    && exists own, s: Scores | Membership(id, own) in db.clusters
                               && IsTable(s, FindFor(db.links, id), id, own, ClusterMap(db.clusters)) && s.Valid() ::
         AreTop(candidates, s.Items(), cfg.topN, CandidateScore) && RanksTable(candidates, s.best, cfg.topN)
  }

  lemma RequeryRanksStored(cfg: Config, db: Database, id: MentionId)
    requires cfg.Valid() && Invariant(cfg, db) && Stores(db, id)
    ensures ClusterOf(db.clusters, id).Some? && RanksStored(cfg, db, id, GenCand(cfg, db, id))
  {
    hide LinkedScores, FindFor, ClusterMap, AreTop, IsTable, RanksTable, CandidateScores;
    LookupsAgree(db, id);
    ClusterOfIsFirst(db.clusters, id);
    StoredLinksAreProbabilities(cfg, db, id);
    var own, links, clusters := ClusterOf(db.clusters, id).value, FindFor(db.links, id), ClusterMap(db.clusters);
    RankingIsTop(cfg.topN, id, own, links, clusters);
    RankingIsExact(cfg.topN, id, own, links, clusters);
    assert Membership(id, own) in db.clusters;
    assert IsTable(CandidateScores(links, id, own, clusters), links, id, own, clusters);
  }

  /** What is stored allows one answer only. */
  lemma {:induction false} StoredRankingIsUnique(cfg: Config, db: Database, id: MentionId, a: seq<Candidate>,
                                                 b: seq<Candidate>)
    requires Aligned(db) && RanksStored(cfg, db, id, a) && RanksStored(cfg, db, id, b)
    ensures a == b
  {
    hide FindFor, ClusterMap, IsTable, AreTop, RanksTable;
    var links, clusters := FindFor(db.links, id), ClusterMap(db.clusters);
    var own, s: Scores :| Membership(id, own) in db.clusters && IsTable(s, links, id, own, clusters) && s.Valid()
      && AreTop(a, s.Items(), cfg.topN, CandidateScore);
    var own', t: Scores :| Membership(id, own') in db.clusters && IsTable(t, links, id, own', clusters) && t.Valid()
      && AreTop(b, t.Items(), cfg.topN, CandidateScore);
    OneMembership(db, id, own, own');
    TableIsUnique(s, t, links, id, own, clusters);
    TopIsUnique(a, b, s.Items(), cfg.topN, CandidateScore);
  }

  lemma OneMembership(db: Database, id: MentionId, a: ClusterId, b: ClusterId)
    requires Aligned(db) && Membership(id, a) in db.clusters && Membership(id, b) in db.clusters
    ensures a == b
  {
    var i :| 0 <= i < |db.clusters| && db.clusters[i] == Membership(id, a);
    var j :| 0 <= j < |db.clusters| && db.clusters[j] == Membership(id, b);
    assert IdsOf(db.mentions)[i] == id == IdsOf(db.mentions)[j];
  }

  /** A re-query lists the mention's own cluster if and only if fewer than `top_n` clusters come before it. */
  lemma OwnIsListedByPlace(cfg: Config, db: Database, id: MentionId)
    requires ClusterOf(db.clusters, id).Some?
    ensures var own := ClusterOf(db.clusters, id).value;
            own in RequeryScores(db, id).best
            && (Lists(GenCand(cfg, db, id), own) <==> PlaceOf(RequeryScores(db, id), own) < cfg.topN)
  {
    hide Largest, LinkedScores, PlaceOf, FindFor;
    ListedByPlace(RequeryScores(db, id), cfg.topN, ClusterOf(db.clusters, id).value);
  }

  /** `find_cluster_for`: nothing for a mention without a cluster. */
  function FindClusterFor(cfg: Config, db: Database, id: MentionId): Option<seq<Candidate>> {
    if ClusterOf(db.clusters, id).Some? then Some(GenCand(cfg, db, id)) else None
  }

  lemma {:induction false} MoreLinksRaiseScores(xs: seq<Link>, ys: seq<Link>, id: MentionId,
                                                a: map<MentionId, ClusterId>, b: map<MentionId, ClusterId>)
    requires AllTouch(xs, id) && AllTouch(ys, id) && NonNegative(ys)
    requires forall l | l in xs :: l in ys
    requires forall l | l in xs && l.Other(id) in a :: l.Other(id) in b && a[l.Other(id)] == b[l.Other(id)]
    ensures var s, t := LinkedScores(xs, id, a).best, LinkedScores(ys, id, b).best;
            forall c | c in s :: c in t && s[c] <= t[c]
  {
    LinkedScoresAreMaxima(xs, id, a);
    LinkedScoresAreMaxima(ys, id, b);
    var s := LinkedScores(xs, id, a).best;
    forall c | c in s
      ensures c in LinkedScores(ys, id, b).best && s[c] <= LinkedScores(ys, id, b).best[c]
    {
      var l :| l in xs && LeadsTo(l, id, a, c) && l.score == s[c];
      assert l in ys;
    }
  }

  lemma StoredLinksAreProbabilities(cfg: Config, db: Database, id: MentionId)
    requires Invariant(cfg, db)
    ensures NonNegative(FindFor(db.links, id))
    ensures forall l | l in db.links :: Stores(db, l.left) && Stores(db, l.right)
  {
    forall l | l in db.links
      ensures l.score >= 0.0 && Stores(db, l.left) && Stores(db, l.right)
    {
      var i: nat, j: nat :| PointsBack(db, l, i, j);
      assert IdsOf(db.mentions)[i] == l.left && IdsOf(db.mentions)[j] == l.right;
    }
  }

  lemma {:induction false} FoundLinksGrow(earlier: Database, later: Database, id: MentionId)
    requires Extends(earlier, later)
    ensures forall l | l in FindFor(earlier.links, id) :: l in FindFor(later.links, id)
  {
    var more := later.links[|earlier.links|..];
    assert later.links == earlier.links + more;
    FindForAppend(earlier.links, more, id);
  }

  lemma DefaultsGrow(s: Scores, t: Scores, own: ClusterId)
    requires forall c | c in s.best :: c in t.best && s.best[c] <= t.best[c]
    requires forall c | c in t.best :: t.best[c] >= 0.0
    ensures var s', t' := s.SetDefault(own).best, t.SetDefault(own).best;
            forall c | c in s' :: c in t' && s'[c] <= t'[c]
  {
  }

  lemma {:induction false} LinkedScoresAreNonNegative(links: seq<Link>, id: MentionId,
                                                      clusters: map<MentionId, ClusterId>)
    requires AllTouch(links, id) && NonNegative(links)
    ensures forall c | c in LinkedScores(links, id, clusters).best :: LinkedScores(links, id, clusters).best[c] >= 0.0
  {
    LinkedScoresAreMaxima(links, id, clusters);
  }

  /** The cluster of a stored mention is stored, and stays. */
  lemma {:induction false} OwnClusterIsStable(earlier: Database, later: Database, id: MentionId)
    requires Aligned(earlier) && Aligned(later) && Extends(earlier, later) && Stores(earlier, id)
    ensures ClusterOf(later.clusters, id) == ClusterOf(earlier.clusters, id) != None
  {
    LookupsAreStable(earlier, later);
    LookupsAgree(earlier, id);
    LookupsAgree(later, id);
  }

  /**
   * Re-query only grows: whatever is committed later, a mention keeps its cluster, and no cluster's score in
   * its un-pruned table ever decreases or disappears.
   */
  lemma {:induction false} RequeryOnlyGrows(cfg: Config, earlier: Database, later: Database, id: MentionId)
    requires Invariant(cfg, earlier) && Invariant(cfg, later) && Extends(earlier, later) && Stores(earlier, id)
    ensures ClusterOf(later.clusters, id) == ClusterOf(earlier.clusters, id) != None
    ensures var s, t := RequeryScores(earlier, id).best, RequeryScores(later, id).best;
            forall c | c in s :: c in t && s[c] <= t[c]
  {
    OwnClusterIsStable(earlier, later, id);
    FoundScoresGrow(cfg, earlier, later, id);
    var own := ClusterOf(earlier.clusters, id).value;
    DefaultsGrow(FoundScores(earlier, id), FoundScores(later, id), own);
    assert RequeryScores(earlier, id) == FoundScores(earlier, id).SetDefault(own);
    assert RequeryScores(later, id) == FoundScores(later, id).SetDefault(own);
  }

  lemma {:induction false} FoundScoresGrow(cfg: Config, earlier: Database, later: Database, id: MentionId)
    requires Invariant(cfg, earlier) && Invariant(cfg, later) && Extends(earlier, later)
    ensures var s, t := FoundScores(earlier, id).best, FoundScores(later, id).best;
            && (forall c | c in s :: c in t && s[c] <= t[c])
            && (forall c | c in t :: t[c] >= 0.0)
  {
    hide LinkedScores, FindFor, ClusterMap;
    var xs, ys := FindFor(earlier.links, id), FindFor(later.links, id);
    var a, b := ClusterMap(earlier.clusters), ClusterMap(later.clusters);
    StoredLinksAreProbabilities(cfg, later, id);
    FoundLinksGrow(earlier, later, id);
    FoundLookups(cfg, earlier, later, id);
    MoreLinksRaiseScores(xs, ys, id, a, b);
    LinkedScoresAreNonNegative(ys, id, b);
    assert FoundScores(earlier, id) == LinkedScores(xs, id, a);
    assert FoundScores(later, id) == LinkedScores(ys, id, b);
  }

  lemma {:induction false} FoundLookups(cfg: Config, earlier: Database, later: Database, id: MentionId)
    requires Invariant(cfg, earlier) && Aligned(later) && Extends(earlier, later)
    ensures var a, b := ClusterMap(earlier.clusters), ClusterMap(later.clusters);
            forall l | l in FindFor(earlier.links, id) ::
              l.Other(id) in a && l.Other(id) in b && a[l.Other(id)] == b[l.Other(id)]
  {
    LookupsAreStable(earlier, later);
    StoredLinksAreProbabilities(cfg, earlier, id);
  }

  /** Of a new mention's links exactly the top `top_n` are found again. */
  lemma {:induction false} OwnLinksAreFound(cfg: Config, db: Database, m: Mention, links: seq<Link>)
    requires Invariant(cfg, db) && !Stores(db, m.id) && AllTouch(links, m.id)
    ensures AreTop(FindFor(CommitOne(cfg, db, m, links).links, m.id), links, cfg.topN, LinkScore)
    ensures FindFor(CommitOne(cfg, db, m, links).links, m.id) == BestLinks(cfg, links)
  {
    hide AreTop, Largest, BestLinks, FindFor;
    BestLinksAreTop(cfg, links);
    StoredLinksAreProbabilities(cfg, db, m.id);
    FindForAppend(db.links, BestLinks(cfg, links), m.id);
    FindForNone(db.links, m.id);
    FindForAll(BestLinks(cfg, links), m.id);
    assert [] + BestLinks(cfg, links) == BestLinks(cfg, links);
  }

  /** The clusters still linked keep their scores, and a lost one beats no kept link. */
  ghost predicate KeepsScores(full: map<ClusterId, real>, kept: map<ClusterId, real>, top: seq<Link>) {
    && (forall c | c in kept :: c in full && kept[c] == full[c])
    && (forall c, l | c in full && c !in kept && l in top :: full[c] <= l.score)
  }

  /** Keeping the top links keeps the scores of the clusters still linked; a lost cluster beats no kept link. */
  lemma {:induction false} TruncationKeepsScores(topN: nat, links: seq<Link>, top: seq<Link>, id: MentionId,
                                                 clusters: map<MentionId, ClusterId>)
    requires AllTouch(links, id) && NonNegative(links) && AreTop(top, links, topN, LinkScore)
    ensures AllTouch(top, id)
    ensures var full := LinkedScores(links, id, clusters).best;
            var kept := LinkedScores(top, id, clusters).best;
            KeepsScores(full, kept, top) && (|links| <= topN ==> kept == full)
  {
    hide AreTop, Largest, LinkedScores;
    LargestAreTop(topN, links, LinkScore);
    TopIsUnique(top, Largest(topN, links, LinkScore), links, topN, LinkScore);
    LargestIsExact(topN, links, LinkScore);
    var full, kept := LinkedScores(links, id, clusters).best, LinkedScores(top, id, clusters).best;
    MoreLinksRaiseScores(top, links, id, clusters, clusters);
    LinkedScoresAreMaxima(links, id, clusters);
    LinkedScoresAreMaxima(top, id, clusters);
    forall c | c in kept
      ensures full[c] <= kept[c]
    {
      var l :| l in links && LeadsTo(l, id, clusters, c) && l.score == full[c];
      if l !in top {
        var k :| k in top && LeadsTo(k, id, clusters, c) && k.score == kept[c];
        assert LinkScore(l) <= LinkScore(k);
      }
    }
    forall c, k | c in full && c !in kept && k in top
      ensures full[c] <= k.score
    {
      var l :| l in links && LeadsTo(l, id, clusters, c) && l.score == full[c];
      assert l !in top;
      assert LinkScore(l) <= LinkScore(k);
    }
    if |links| <= topN {
      SameElements(links, top);
      MaximaAreUnique(full, kept, links, top, id, clusters);
    }
  }

  lemma SameElements(xs: seq<Link>, ys: seq<Link>)
    requires multiset(xs) == multiset(ys)
    ensures forall l :: l in xs <==> l in ys
  {
    forall l
      ensures l in xs <==> l in ys
    {
      assert l in xs <==> l in multiset(xs);
      assert l in ys <==> l in multiset(ys);
    }
  }

  /**
   * Re-query agrees with the first answer up to truncation, as long as no later link touches the mention:
   * every cluster of the un-pruned table has its first score; one that is missing scored no more than any
   * kept link; and with at most `top_n` links the un-pruned tables are equal.
   */
  lemma {:induction false} RequeryAgreesWithFirstAnswer(cfg: Config, db: Database, m: Mention, links: seq<Link>,
                                                        top: seq<Link>, later: Database)
    requires cfg.Valid() && Invariant(cfg, db) && !Stores(db, m.id) && AllTouch(links, m.id)
    requires forall l | l in links :: LinksIntoStore(db, m.id, l)
    requires AreTop(top, links, cfg.topN, LinkScore)
    requires Invariant(cfg, later) && Extends(CommitOne(cfg, db, m, links), later)
    requires FindFor(later.links, m.id) == FindFor(CommitOne(cfg, db, m, links).links, m.id)
    ensures AllTouch(top, m.id)
    ensures var clusters := ClusterMap(db.clusters);
            var own := AssignCluster(cfg, m.id, links, clusters);
            var first := CandidateScores(links, m.id, own, clusters).best;
            var again := RequeryScores(later, m.id).best;
            && ClusterOf(later.clusters, m.id) == Some(own)
            && (forall c | c in again :: c in first && again[c] == first[c])
            && (forall c | c in LinkedScores(top, m.id, clusters).best :: c in again)
            && (forall c, l | c in first && c !in again && l in top :: first[c] <= l.score)
            && (|links| <= cfg.topN ==> again == first)
  {
    hide LinkedScores, ClusterMap, Largest, BestLinks, FindFor, ClusterOf, CommitOne, AssignCluster, RequeryScores,
         Scores.SetDefault, AreTop;
    var clusters := ClusterMap(db.clusters);
    var own := AssignCluster(cfg, m.id, links, clusters);
    BestLinksAreTop(cfg, links);
    TopIsUnique(top, BestLinks(cfg, links), links, cfg.topN, LinkScore);
    StoredLinksAreScored(links, m.id, db);
    TruncationKeepsScores(cfg.topN, links, top, m.id, clusters);
    RequeryOfNewMention(cfg, db, m, links, later);
    OwnLinkIsKept(cfg, db, m, links);
    TruncatedTables(LinkedScores(links, m.id, clusters), LinkedScores(top, m.id, clusters), own, top,
                    |links| <= cfg.topN);
  }

  lemma StoredLinksAreScored(links: seq<Link>, id: MentionId, db: Database)
    requires forall l | l in links :: LinksIntoStore(db, id, l)
    ensures NonNegative(links)
  {
  }

  /** Truncation never drops the last link to the own cluster. */
  lemma {:induction false} OwnLinkIsKept(cfg: Config, db: Database, m: Mention, links: seq<Link>)
    requires cfg.Valid() && Invariant(cfg, db) && !Stores(db, m.id) && AllTouch(links, m.id)
    requires forall l | l in links :: LinksIntoStore(db, m.id, l)
    ensures var clusters := ClusterMap(db.clusters);
            var own := AssignCluster(cfg, m.id, links, clusters);
            own in LinkedScores(links, m.id, clusters).best ==>
              own in LinkedScores(BestLinks(cfg, links), m.id, clusters).best
  {
    var clusters, top := ClusterMap(db.clusters), BestLinks(cfg, links);
    if JoinsBest(cfg, m.id, links, clusters) {
      LargestIsExact(cfg.topN, links, LinkScore);
      LinkedScoresAreMaxima(top, m.id, clusters);
      assert top[0] == FirstMax(links, LinkScore) && top[0] in top;
    } else {
      OwnIsNotLinked(cfg, db, m, links);
    }
  }

  lemma {:induction false} RequeryOfNewMention(cfg: Config, db: Database, m: Mention, links: seq<Link>, later: Database)
    requires Invariant(cfg, db) && !Stores(db, m.id) && AllTouch(links, m.id)
    requires forall l | l in links :: LinksIntoStore(db, m.id, l)
    requires Invariant(cfg, later) && Extends(CommitOne(cfg, db, m, links), later)
    requires FindFor(later.links, m.id) == FindFor(CommitOne(cfg, db, m, links).links, m.id)
    ensures var clusters := ClusterMap(db.clusters);
            var own := AssignCluster(cfg, m.id, links, clusters);
            && ClusterOf(later.clusters, m.id) == Some(own)
            && RequeryScores(later, m.id) == LinkedScores(BestLinks(cfg, links), m.id, clusters).SetDefault(own)
  {
    var top := BestLinks(cfg, links);
    OwnLinksAreFound(cfg, db, m, links);
    OwnClusterIsStored(cfg, db, m, links, later);
    LaterLookups(db, m.id, top, later);
    LinkedScoresDependOnLinkedClusters(top, m.id, ClusterMap(db.clusters), ClusterMap(later.clusters));
  }

  lemma TruncatedTables(full: Scores, kept: Scores, own: ClusterId, top: seq<Link>, all: bool)
    requires KeepsScores(full.best, kept.best, top)
    requires all ==> kept.best == full.best
    requires own in full.best ==> own in kept.best
    ensures var first, again := full.SetDefault(own).best, kept.SetDefault(own).best;
            && (forall c | c in again :: c in first && again[c] == first[c])
            && (forall c | c in kept.best :: c in again)
            && (forall c, l | c in first && c !in again && l in top :: first[c] <= l.score)
            && (all ==> again == first)
  {
  }

  lemma {:induction false} OwnClusterIsStored(cfg: Config, db: Database, m: Mention, links: seq<Link>, later: Database)
    requires Aligned(db) && AllTouch(links, m.id)
    requires Aligned(later) && Extends(CommitOne(cfg, db, m, links), later)
    ensures ClusterOf(later.clusters, m.id) == Some(AssignCluster(cfg, m.id, links, ClusterMap(db.clusters)))
    ensures Extends(db, later)
  {
    var n := |db.mentions|;
    var after := CommitOne(cfg, db, m, links);
    AlignedLookups(later);
    LookupsAgree(later, m.id);
    assert later.mentions[n] == after.mentions[n] && later.clusters[n] == after.clusters[n];
  }

  lemma {:induction false} LaterLookups(db: Database, id: MentionId, top: seq<Link>, later: Database)
    requires Aligned(db) && Aligned(later) && Extends(db, later)
    requires AllTouch(top, id) && forall l | l in top :: LinksIntoStore(db, id, l)
    ensures forall l | l in top ::
              && l.Other(id) in ClusterMap(db.clusters) && l.Other(id) in ClusterMap(later.clusters)
              && ClusterMap(db.clusters)[l.Other(id)] == ClusterMap(later.clusters)[l.Other(id)]
  {
    LookupsAreStable(db, later);
  }
}
