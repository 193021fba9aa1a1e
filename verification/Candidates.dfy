/** What the ranked candidates say about the assigned cluster, when a mention joins one and when it founds one. */
module Candidates {
  import opened Domain
  import opened Ordering
  import opened Placement
  import opened Ranking
  import opened Tables
  import opened Resolver
  import opened Forest

  /** A new mention in a reachable state, with links into what is stored. */
  ghost predicate Arrives(cfg: Config, db: Database, m: Mention, links: seq<Link>) {
    && cfg.Valid() && Invariant(cfg, db) && !Stores(db, m.id)
    && AllTouch(links, m.id) && NonNegative(links)
    && forall l | l in links :: LinksIntoStore(db, m.id, l)
  }

  function Assigned(cfg: Config, db: Database, m: Mention, links: seq<Link>): ClusterId
    requires AllTouch(links, m.id)
  {
    AssignCluster(cfg, m.id, links, ClusterMap(db.clusters))
  }

  function Linked(db: Database, m: Mention, links: seq<Link>): Scores
    requires AllTouch(links, m.id)
  {
    LinkedScores(links, m.id, ClusterMap(db.clusters))
  }

  /** No stored mention is in a cluster named after a mention that is not stored. */
  lemma {:induction false} ClustersAreNamedAfterStored(cfg: Config, db: Database, id: MentionId, other: MentionId)
    requires Invariant(cfg, db) && !Stores(db, id) && other in ClusterMap(db.clusters)
    ensures ClusterMap(db.clusters)[other] != FoundedBy(id)
  {
    AlignedLookups(db);
    var i :| 0 <= i < |db.mentions| && IdsOf(db.mentions)[i] == other;
    var chain := ClusterIsRootedAtFounder(cfg, db, i);
    var f := chain[|chain| - 1];
    assert IdsOf(db.mentions)[f] == db.mentions[f].id;
    assert MentionId(FoundedBy(db.mentions[f].id).value) == db.mentions[f].id;
    assert MentionId(FoundedBy(id).value) == id;
  }

  /**
   * Joining is decided by the first best link alone: the cluster is founded if and only if there is none or it is
   * below the threshold, and else is that of the mention it leads to.
   */
  lemma JoinsExactlyAboveThreshold(cfg: Config, db: Database, m: Mention, links: seq<Link>)
    requires Arrives(cfg, db, m, links)
    ensures Assigned(cfg, db, m, links) == FoundedBy(m.id) <==>
              forall l | l in links :: l.score < cfg.threshold
    ensures Assigned(cfg, db, m, links) != FoundedBy(m.id) ==>
              exists i | 0 <= i < |links| ::
                && (forall other | other in links :: other.score <= links[i].score)
                && (forall j | 0 <= j < i :: links[j].score < links[i].score)
                && links[i].Other(m.id) in ClusterMap(db.clusters)
                && Assigned(cfg, db, m, links) == ClusterMap(db.clusters)[links[i].Other(m.id)]
  {
    if links != [] {
      var i := FirstMaxIsFirst(links, LinkScore);
      var best := links[i];
      forall l | l in links
        ensures l.score <= best.score
      {
        var j :| 0 <= j < |links| && links[j] == l;
        assert LinkScore(links[j]) <= LinkScore(links[i]);
      }
      assert best in links && LinksIntoStore(db, m.id, best);
      forall j | 0 <= j < i
        ensures links[j].score < best.score
      {
        assert LinkScore(links[j]) < LinkScore(links[i]);
      }
      AlignedLookups(db);
      ClustersAreNamedAfterStored(cfg, db, m.id, best.Other(m.id));
    }
  }

  /** On a join the assigned cluster holds the best score of the whole table. */
  lemma {:induction false} JoinedClusterScoresBest(cfg: Config, db: Database, m: Mention, links: seq<Link>)
    requires Arrives(cfg, db, m, links) && Assigned(cfg, db, m, links) != FoundedBy(m.id)
    ensures links != []
    ensures var table := Linked(db, m, links).best;
            var cid := Assigned(cfg, db, m, links);
            && cid in table && table[cid] == FirstMax(links, LinkScore).score
            && forall c | c in table :: table[c] <= table[cid]
  {
    var clusters, table := ClusterMap(db.clusters), Linked(db, m, links).best;
    var i := FirstMaxIsFirst(links, LinkScore);
    var best := links[i];
    LinkedScoresAreMaxima(links, m.id, clusters);
    forall c | c in table
      ensures table[c] <= best.score
    {
      var l :| l in links && LeadsTo(l, m.id, clusters, c) && l.score == table[c];
      var j :| 0 <= j < |links| && links[j] == l;
      assert LinkScore(links[j]) <= LinkScore(links[i]);
    }
    assert best in links;
  }

  /**
   * On a join the first candidate has the assigned cluster's score; it is the assigned cluster itself if and
   * only if no cluster linked earlier in the list ties with it. `p` is its place among the linked clusters.
   */
  lemma {:induction false} JoinedClusterRanksFirst(cfg: Config, db: Database, m: Mention, links: seq<Link>)
    returns (p: nat)
    requires Arrives(cfg, db, m, links) && Assigned(cfg, db, m, links) != FoundedBy(m.id)
    ensures var linked := Linked(db, m, links);
            var cid := Assigned(cfg, db, m, links);
            var ranked := RankOne(cfg, db, m, links);
            && p < |linked.order| && linked.order[p] == cid && cid in linked.best
            && ranked != [] && ranked[0].score == linked.best[cid]
            && (ranked[0].cluster == cid <==>
                  forall k | 0 <= k < p :: linked.order[k] in linked.best
                    && linked.best[linked.order[k]] < linked.best[cid])
  {
    hide LinkedScores, ClusterMap, Largest;
    JoinedClusterScoresBest(cfg, db, m, links);
    var linked, cid := Linked(db, m, links), Assigned(cfg, db, m, links);
    assert CandidateScores(links, m.id, cid, ClusterMap(db.clusters)) == linked;
    p :| p < |linked.order| && linked.order[p] == cid;
    var first := FirstItem(linked, cfg.topN);
    assert linked.best[linked.order[p]] <= linked.best[linked.order[first]];
    assert linked.best[linked.order[first]] <= linked.best[cid];
  }

  /** The first of the kept items is the first entry of the table with the highest score. */
  lemma {:induction false} FirstItem(s: Scores, topN: nat) returns (first: nat)
    requires s.Valid() && s.order != [] && topN >= 1
    ensures first < |s.order| && Largest(topN, s.Items(), CandidateScore) != []
    ensures Largest(topN, s.Items(), CandidateScore)[0] == Candidate(s.order[first], s.best[s.order[first]])
    ensures forall k | 0 <= k < |s.order| :: s.best[s.order[k]] <= s.best[s.order[first]]
    ensures forall k | 0 <= k < first :: s.best[s.order[k]] < s.best[s.order[first]]
  {
    first := FirstOfLargest(topN, s.Items(), CandidateScore);
    forall k | 0 <= k < |s.order|
      ensures s.best[s.order[k]] <= s.best[s.order[first]]
      ensures k < first ==> s.best[s.order[k]] < s.best[s.order[first]]
    {
      assert CandidateScore(s.Items()[k]) <= CandidateScore(s.Items()[first]);
      assert k < first ==> CandidateScore(s.Items()[k]) < CandidateScore(s.Items()[first]);
    }
  }

  /**
   * Founded or joined, the assigned cluster is a candidate if and only if fewer than `top_n` clusters come
   * before it.
   */
  lemma AssignedIsListedByPlace(cfg: Config, db: Database, m: Mention, links: seq<Link>)
    requires AllTouch(links, m.id)
    ensures var own := Assigned(cfg, db, m, links);
            var table := CandidateScores(links, m.id, own, ClusterMap(db.clusters));
            own in table.best && (Lists(RankOne(cfg, db, m, links), own) <==> PlaceOf(table, own) < cfg.topN)
  {
    hide Largest, LinkedScores, PlaceOf;
    var own := Assigned(cfg, db, m, links);
    ListedByPlace(CandidateScores(links, m.id, own, ClusterMap(db.clusters)), cfg.topN, own);
  }

  /** On a join only clusters linked earlier that tie with it come before it: it is cut if they fill all places. */
  lemma JoinedClusterIsListed(cfg: Config, db: Database, m: Mention, links: seq<Link>)
    requires Arrives(cfg, db, m, links) && Assigned(cfg, db, m, links) != FoundedBy(m.id)
    ensures var linked, own := Linked(db, m, links), Assigned(cfg, db, m, links);
            && own in linked.best
            && (Lists(RankOne(cfg, db, m, links), own) <==>
                  AtLeast(linked.Items()[..PositionIn(linked.order, own)], CandidateScore, linked.best[own]) < cfg.topN)
  {
    hide Largest, LinkedScores, ClusterMap;
    JoinedClusterScoresBest(cfg, db, m, links);
    AssignedIsListedByPlace(cfg, db, m, links);
    var linked, own := Linked(db, m, links), Assigned(cfg, db, m, links);
    var p := PositionIn(linked.order, own);
    assert CandidateScores(links, m.id, own, ClusterMap(db.clusters)) == linked;
    NoneAbove(linked.Items()[p + 1..], CandidateScore, linked.best[own]);
  }

  /**
   * A mention that founds a cluster ranks it last, so it is listed exactly if fewer than `top_n` clusters are
   * linked.
   */
  lemma {:induction false} FoundedClusterRanksLast(cfg: Config, db: Database, m: Mention, links: seq<Link>)
    requires Arrives(cfg, db, m, links) && Assigned(cfg, db, m, links) == FoundedBy(m.id)
    ensures Lists(RankOne(cfg, db, m, links), FoundedBy(m.id)) <==>
              |Linked(db, m, links).best| < cfg.topN
    ensures |Linked(db, m, links).best| < cfg.topN ==>
              var ranked := RankOne(cfg, db, m, links);
              ranked != [] && ranked[|ranked| - 1] == Candidate(FoundedBy(m.id), 0.0)
  {
    var linked, own := Linked(db, m, links), FoundedBy(m.id);
    OwnIsNotLinked(cfg, db, m, links);
    ItemsAreTheTable(linked);
    UnlinkedOwnIsLast(linked, own, cfg.topN);
  }

  lemma {:induction false} UnlinkedOwnIsLast(linked: Scores, own: ClusterId, topN: nat)
    requires linked.Valid() && own !in linked.best
    requires forall c | c in linked.best :: linked.best[c] >= 0.0
    ensures var ranked := Largest(topN, linked.SetDefault(own).Items(), CandidateScore);
            && ((exists x | x in ranked :: x.cluster == own) <==> |linked.order| < topN)
            && (|linked.order| < topN ==> ranked != [] && ranked[|ranked| - 1] == Candidate(own, 0.0))
  {
    hide Largest, SortDesc;
    var items, last := linked.Items(), Candidate(own, 0.0);
    assert forall y | y in items :: CandidateScore(last) <= CandidateScore(y) && y.cluster != own by {
      ItemsAreTheTable(linked);
    }
    assert linked.SetDefault(own).Items() == items + [last];
    LeastIsKeptIfRoom(topN, items, last, CandidateScore);
    OnlyOneOfOwn(Largest(topN, items + [last], CandidateScore), items, last);
  }

  lemma {:induction false} OnlyOneOfOwn(ranked: seq<Candidate>, items: seq<Candidate>, last: Candidate)
    requires forall y | y in ranked :: y == last || y in items
    requires forall y | y in items :: y.cluster != last.cluster
    ensures (exists x | x in ranked :: x.cluster == last.cluster) <==> last in ranked
  {
  }

  lemma {:induction false} OwnIsNotLinked(cfg: Config, db: Database, m: Mention, links: seq<Link>)
    requires Arrives(cfg, db, m, links)
    ensures FoundedBy(m.id) !in Linked(db, m, links).best
    ensures forall c | c in Linked(db, m, links).best :: Linked(db, m, links).best[c] >= 0.0
  {
    var clusters, best := ClusterMap(db.clusters), Linked(db, m, links).best;
    LinkedScoresAreMaxima(links, m.id, clusters);
    forall c | c in best
      ensures c != FoundedBy(m.id) && best[c] >= 0.0
    {
      var l :| l in links && LeadsTo(l, m.id, clusters, c) && l.score == best[c];
      ClustersAreNamedAfterStored(cfg, db, m.id, l.Other(m.id));
    }
  }
}
