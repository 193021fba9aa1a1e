/** Ranking the clusters a mention is linked to. */
module Ranking {
  import opened Domain
  import opened Ordering
  import opened Placement

  function MaxScore(a: real, b: real): real {
    if b > a then b else a
  }

  /** A dictionary from cluster to score with the order of first insertion. */
  datatype Scores = Scores(order: seq<ClusterId>, best: map<ClusterId, real>) {
    ghost predicate Valid() {
      && Distinct(order)
      && (forall c :: c in best <==> c in order)
    }

    /** `cluster_scores[cid] = max(cluster_scores.get(cid, 0.0), score)`. */
    function Raise(cid: ClusterId, score: real): (r: Scores)
      ensures Valid() ==> r.Valid()
    {
      Scores(if cid in best then order else order + [cid],
             best[cid := MaxScore(if cid in best then best[cid] else 0.0, score)])
    }

    /** `cluster_scores.setdefault(cid, 0.0)`. */
    function SetDefault(cid: ClusterId): (r: Scores)
      ensures Valid() ==> r.Valid()
    {
      if cid in best then this else Scores(order + [cid], best[cid := 0.0])
    }

    function Items(): (items: seq<Candidate>)
      requires forall i | 0 <= i < |order| :: order[i] in best
      ensures |items| == |order|
      ensures forall i | 0 <= i < |order| :: items[i] == Candidate(order[i], best[order[i]])
    {
      seq(|order|, i requires 0 <= i < |order| => Candidate(order[i], best[order[i]]))
    }
  }

  ghost predicate AllTouch(links: seq<Link>, id: MentionId) {
    forall l | l in links :: l.Touches(id)
  }

  ghost predicate NonNegative(links: seq<Link>) {
    forall l | l in links :: l.score >= 0.0
  }

  /** The cluster a link leads to, if the mention on its other side has one. */
  predicate LeadsTo(link: Link, id: MentionId, clusters: map<MentionId, ClusterId>, cid: ClusterId)
    requires link.Touches(id)
  {
    link.Other(id) in clusters && clusters[link.Other(id)] == cid
  }

  /** The highest score per linked cluster. */
  function LinkedScores(links: seq<Link>, id: MentionId, clusters: map<MentionId, ClusterId>): (s: Scores)
    requires AllTouch(links, id)
    ensures s.Valid()
  {
    if links == [] then Scores([], map[])
    else
      var rest := LinkedScores(links[..|links| - 1], id, clusters);
      var last := links[|links| - 1];
      if last.Other(id) in clusters then rest.Raise(clusters[last.Other(id)], last.score) else rest
  }

  function CandidateScores(links: seq<Link>, id: MentionId, own: ClusterId, clusters: map<MentionId, ClusterId>)
    : (s: Scores)
    requires AllTouch(links, id)
    ensures s.Valid()
  {
    LinkedScores(links, id, clusters).SetDefault(own)
  }

  function RankCandidates(topN: nat, id: MentionId, own: ClusterId, links: seq<Link>,
                          clusters: map<MentionId, ClusterId>): seq<Candidate>
    requires AllTouch(links, id)
  {
    Largest(topN, CandidateScores(links, id, own, clusters).Items(), CandidateScore)
  }

  /** A score table holds, for exactly the linked clusters, the maximum over the links that lead there. */
  ghost predicate HoldsMaxima(best: map<ClusterId, real>, links: seq<Link>, id: MentionId,
                              clusters: map<MentionId, ClusterId>)
    requires AllTouch(links, id)
  {
    && (forall c | c in best :: exists l | l in links :: LeadsTo(l, id, clusters, c) && l.score == best[c])
    && (forall l | l in links && l.Other(id) in clusters ::
          clusters[l.Other(id)] in best && l.score <= best[clusters[l.Other(id)]])
  }

  lemma {:induction false} LinkedScoresAreMaxima(links: seq<Link>, id: MentionId, clusters: map<MentionId, ClusterId>)
    requires AllTouch(links, id) && NonNegative(links)
    ensures HoldsMaxima(LinkedScores(links, id, clusters).best, links, id, clusters)
  {
    if links != [] {
      var init, last := links[..|links| - 1], links[|links| - 1];
      assert links == init + [last];
      LinkedScoresAreMaxima(init, id, clusters);
      var before, after := LinkedScores(init, id, clusters).best, LinkedScores(links, id, clusters).best;
      forall c | c in after
        ensures exists l | l in links :: LeadsTo(l, id, clusters, c) && l.score == after[c]
      {
        if c in before && after[c] == before[c] {
          var l :| l in init && LeadsTo(l, id, clusters, c) && l.score == before[c];
          assert l in links;
        } else {
          assert last in links && LeadsTo(last, id, clusters, c) && last.score == after[c];
        }
      }
    }
  }

  /** Maxima are determined by which links there are, not by their order or repetition. */
  lemma MaximaAreUnique(a: map<ClusterId, real>, b: map<ClusterId, real>, xs: seq<Link>, ys: seq<Link>, id: MentionId,
                        clusters: map<MentionId, ClusterId>)
    requires AllTouch(xs, id) && AllTouch(ys, id)
    requires forall l :: l in xs <==> l in ys
    requires HoldsMaxima(a, xs, id, clusters) && HoldsMaxima(b, ys, id, clusters)
    ensures a == b
  {
    forall c | c in a
      ensures c in b && a[c] <= b[c]
    {
      var l :| l in xs && LeadsTo(l, id, clusters, c) && l.score == a[c];
    }
    forall c | c in b
      ensures c in a && b[c] <= a[c]
    {
      var l :| l in ys && LeadsTo(l, id, clusters, c) && l.score == b[c];
    }
  }

  /** Only the clusters of the linked mentions matter. */
  lemma {:induction false} LinkedScoresDependOnLinkedClusters(
      links: seq<Link>, id: MentionId, a: map<MentionId, ClusterId>, b: map<MentionId, ClusterId>)
    requires AllTouch(links, id)
    requires forall l | l in links :: (l.Other(id) in a <==> l.Other(id) in b)
    requires forall l | l in links && l.Other(id) in a :: a[l.Other(id)] == b[l.Other(id)]
    ensures LinkedScores(links, id, a) == LinkedScores(links, id, b)
  {
    if links != [] {
      assert links[|links| - 1] in links;
      LinkedScoresDependOnLinkedClusters(links[..|links| - 1], id, a, b);
    }
  }

  /** No candidate is listed twice, and each entry of the table is an item. */
  lemma ItemsAreTheTable(s: Scores)
    requires s.Valid()
    ensures forall c :: c in s.best ==> Candidate(c, s.best[c]) in s.Items()
    ensures forall x | x in s.Items() :: x.cluster in s.best && x.score == s.best[x.cluster]
    ensures |s.Items()| == |s.best|
  {
    forall c | c in s.best
      ensures Candidate(c, s.best[c]) in s.Items()
    {
      var i :| 0 <= i < |s.order| && s.order[i] == c;
      assert s.Items()[i] == Candidate(c, s.best[c]);
    }
    DistinctCount(s.order, s.best.Keys);
  }

  lemma {:induction false} DistinctCount<T>(xs: seq<T>, elements: set<T>)
    requires Distinct(xs)
    requires forall x :: x in elements <==> x in xs
    ensures |elements| == |xs|
  {
    if xs == [] {
      assert elements == {};
    } else {
      var init, last := xs[..|xs| - 1], xs[|xs| - 1];
      assert xs == init + [last];
      assert last !in init;
      DistinctCount(init, elements - {last});
    }
  }

  /** The linked clusters keep their maxima in the full table, and the own cluster is always in it. */
  lemma TableExtendsMaxima(links: seq<Link>, id: MentionId, own: ClusterId, clusters: map<MentionId, ClusterId>)
    requires AllTouch(links, id) && NonNegative(links)
    ensures var table := CandidateScores(links, id, own, clusters).best;
            var linked := LinkedScores(links, id, clusters).best;
            && HoldsMaxima(linked, links, id, clusters)
            && table == (if own in linked then linked else linked[own := 0.0])
  {
    LinkedScoresAreMaxima(links, id, clusters);
  }

  /**
   * The ranking is exact: never empty, best first, as long as the table and `topN` allow; every entry
   * carries its table score, and no entry of the table that is cut beats one that is kept.
   */
  ghost predicate RanksTable(ranked: seq<Candidate>, table: map<ClusterId, real>, topN: nat) {
    && |ranked| == (if topN < |table| then topN else |table|)
    && Descending(ranked, CandidateScore)
    && (forall x | x in ranked :: x.cluster in table && x.score == table[x.cluster])
    && (forall c, x | c in table && Candidate(c, table[c]) !in ranked && x in ranked :: table[c] <= x.score)
  }

  lemma {:induction false} RankingIsExact(topN: nat, id: MentionId, own: ClusterId, links: seq<Link>,
                                          clusters: map<MentionId, ClusterId>)
    requires AllTouch(links, id) && topN >= 1
    ensures var ranked := RankCandidates(topN, id, own, links, clusters);
            ranked != [] && RanksTable(ranked, CandidateScores(links, id, own, clusters).best, topN)
  {
    var s := CandidateScores(links, id, own, clusters);
    var ranked := RankCandidates(topN, id, own, links, clusters);
    ItemsAreTheTable(s);
    LargestIsExact(topN, s.Items(), CandidateScore);
    assert own in s.best && |s.best| > 0;
    forall c, x | c in s.best && Candidate(c, s.best[c]) !in ranked && x in ranked
      ensures s.best[c] <= x.score
    {
      assert CandidateScore(Candidate(c, s.best[c])) <= CandidateScore(x);
    }
  }

  predicate Lists(ranked: seq<Candidate>, c: ClusterId) {
    exists x | x in ranked :: x.cluster == c
  }

  function PositionIn(order: seq<ClusterId>, c: ClusterId): (p: nat)
    requires c in order
    ensures p < |order| && order[p] == c
  {
    if order[0] == c then 0 else 1 + PositionIn(order[1..], c)
  }

  /** How many entries of a score table come before a cluster: a higher score, or the same and earlier in the table. */
  function PlaceOf(s: Scores, c: ClusterId): nat
    requires s.Valid() && c in s.best
  {
    Place(s.Items(), CandidateScore, PositionIn(s.order, c))
  }

  /** A cluster is among the candidates if and only if fewer than `topN` entries of the table come before it. */
  lemma ListedByPlace(s: Scores, topN: nat, c: ClusterId)
    requires s.Valid() && c in s.best
    ensures Lists(Largest(topN, s.Items(), CandidateScore), c) <==> PlaceOf(s, c) < topN
  {
    hide Largest, Place;
    var items, p := s.Items(), PositionIn(s.order, c);
    LargestByPlace(topN, items, CandidateScore, p);
    LargestIsPrefix(topN, items, CandidateScore);
    assert forall x | x in items && x.cluster == c :: x == items[p];
  }

  /** The `p`-th link is the first one that leads to this cluster. */
  ghost predicate FirstLinkAt(links: seq<Link>, id: MentionId, clusters: map<MentionId, ClusterId>, c: ClusterId,
                              p: nat)
    requires AllTouch(links, id)
  {
    && p < |links| && LeadsTo(links[p], id, clusters, c)
    && forall q | 0 <= q < p :: !LeadsTo(links[q], id, clusters, c)
  }

  /** The clusters in the order of the first links that lead to them. */
  ghost predicate FirstLinksAt(order: seq<ClusterId>, links: seq<Link>, id: MentionId,
                               clusters: map<MentionId, ClusterId>, at: seq<nat>)
    requires AllTouch(links, id)
  {
    && |at| == |order|
    && (forall i | 0 <= i < |at| :: FirstLinkAt(links, id, clusters, order[i], at[i]))
    && (forall i, j | 0 <= i < j < |at| :: at[i] < at[j])
  }

  lemma {:induction false} LinkedInOrder(links: seq<Link>, id: MentionId, clusters: map<MentionId, ClusterId>)
    returns (at: seq<nat>)
    requires AllTouch(links, id)
    ensures FirstLinksAt(LinkedScores(links, id, clusters).order, links, id, clusters, at)
    ensures forall p: nat | p < |links| && links[p].Other(id) in clusters ::
              clusters[links[p].Other(id)] in LinkedScores(links, id, clusters).best
  {
    at := [];
    if links != [] {
      var n := |links| - 1;
      var init, last := links[..n], links[n];
      at := LinkedInOrder(init, id, clusters);
      var before := LinkedScores(init, id, clusters);
      FirstLinksStay(before.order, links, id, clusters, at);
      if last.Other(id) in clusters && clusters[last.Other(id)] !in before.best {
        assert forall q: nat | q < n :: init[q] == links[q];
        at := at + [n];
      }
    }
  }

  lemma FirstLinksStay(order: seq<ClusterId>, links: seq<Link>, id: MentionId, clusters: map<MentionId, ClusterId>,
                       at: seq<nat>)
    requires links != [] && AllTouch(links, id) && FirstLinksAt(order, links[..|links| - 1], id, clusters, at)
    ensures FirstLinksAt(order, links, id, clusters, at)
  {
    var init := links[..|links| - 1];
    forall i | 0 <= i < |at|
      ensures FirstLinkAt(links, id, clusters, order[i], at[i])
    {
      assert FirstLinkAt(init, id, clusters, order[i], at[i]);
    }
  }

  /** No link leads to this cluster. */
  ghost predicate Unlinked(links: seq<Link>, id: MentionId, clusters: map<MentionId, ClusterId>, c: ClusterId)
    requires AllTouch(links, id)
  {
    forall l | l in links :: !LeadsTo(l, id, clusters, c)
  }

  /** Each linked cluster with the highest score of its links, in the order of their first links. */
  ghost predicate IsLinkedTable(s: Scores, links: seq<Link>, id: MentionId, clusters: map<MentionId, ClusterId>)
    requires AllTouch(links, id)
  {
    && s.Valid() && HoldsMaxima(s.best, links, id, clusters)
    && exists at :: FirstLinksAt(s.order, links, id, clusters, at)
  }

  /** The linked clusters and, if no link leads to the mention's own cluster, that one last with score 0.0. */
  ghost predicate IsTable(s: Scores, links: seq<Link>, id: MentionId, own: ClusterId,
                          clusters: map<MentionId, ClusterId>)
    requires AllTouch(links, id)
  {
    exists linked: Scores | IsLinkedTable(linked, links, id, clusters) ::
      s == if Unlinked(links, id, clusters, own) then Scores(linked.order + [own], linked.best[own := 0.0]) else linked
  }

  lemma {:induction false} OrderIsUnique(a: seq<ClusterId>, b: seq<ClusterId>, links: seq<Link>, id: MentionId,
                                         clusters: map<MentionId, ClusterId>, at: seq<nat>, bt: seq<nat>, n: nat)
    requires AllTouch(links, id) && Distinct(a) && Distinct(b) && n <= |a| == |b|
    requires forall c :: c in a <==> c in b
    requires FirstLinksAt(a, links, id, clusters, at) && FirstLinksAt(b, links, id, clusters, bt)
    ensures forall i | 0 <= i < n :: a[i] == b[i]
  {
    if n > 0 {
      OrderIsUnique(a, b, links, id, clusters, at, bt, n - 1);
      NextInOrder(a, b, links, id, clusters, at, bt, n - 1);
      NextInOrder(b, a, links, id, clusters, bt, at, n - 1);
      assert FirstLinkAt(links, id, clusters, a[n - 1], at[n - 1]);
      assert FirstLinkAt(links, id, clusters, b[n - 1], bt[n - 1]);
    }
  }

  lemma NextInOrder(a: seq<ClusterId>, b: seq<ClusterId>, links: seq<Link>, id: MentionId,
                    clusters: map<MentionId, ClusterId>, at: seq<nat>, bt: seq<nat>, k: nat)
    requires AllTouch(links, id) && Distinct(a) && k < |a| == |b| && forall c :: c in a <==> c in b
    requires FirstLinksAt(a, links, id, clusters, at) && FirstLinksAt(b, links, id, clusters, bt)
    requires forall i | 0 <= i < k :: a[i] == b[i]
    ensures bt[k] <= at[k]
  {
    assert a[k] in b;
    var j :| 0 <= j < |b| && b[j] == a[k];
    assert FirstLinkAt(links, id, clusters, a[k], at[k]) && FirstLinkAt(links, id, clusters, b[j], bt[j]);
  }

  /** A mention has one score table. */
  lemma {:induction false} TableIsUnique(s: Scores, t: Scores, links: seq<Link>, id: MentionId, own: ClusterId,
                                         clusters: map<MentionId, ClusterId>)
    requires AllTouch(links, id) && IsTable(s, links, id, own, clusters) && IsTable(t, links, id, own, clusters)
    ensures s == t
  {
    hide HoldsMaxima, FirstLinksAt, Unlinked;
    var a: Scores :| IsLinkedTable(a, links, id, clusters)
      && s == if Unlinked(links, id, clusters, own) then Scores(a.order + [own], a.best[own := 0.0]) else a;
    var b: Scores :| IsLinkedTable(b, links, id, clusters)
      && t == if Unlinked(links, id, clusters, own) then Scores(b.order + [own], b.best[own := 0.0]) else b;
    var at :| FirstLinksAt(a.order, links, id, clusters, at);
    var bt :| FirstLinksAt(b.order, links, id, clusters, bt);
    MaximaAreUnique(a.best, b.best, links, links, id, clusters);
    DistinctCount(a.order, a.best.Keys);
    DistinctCount(b.order, b.best.Keys);
    assert forall c :: c in a.order <==> c in b.order;
    OrderIsUnique(a.order, b.order, links, id, clusters, at, bt, |a.order|);
    assert a.order == b.order;
  }

  /** What is ranked is the score table, and the candidates are its top entries, ties included. */
  lemma RankingIsTop(topN: nat, id: MentionId, own: ClusterId, links: seq<Link>, clusters: map<MentionId, ClusterId>)
    requires AllTouch(links, id) && NonNegative(links)
    ensures var s := CandidateScores(links, id, own, clusters);
            && IsTable(s, links, id, own, clusters)
            && AreTop(RankCandidates(topN, id, own, links, clusters), s.Items(), topN, CandidateScore)
  {
    hide LinkedScores, Largest, AreTop;
    var linked := LinkedScores(links, id, clusters);
    var at := LinkedInOrder(links, id, clusters);
    LinkedScoresAreMaxima(links, id, clusters);
    LargestAreTop(topN, linked.SetDefault(own).Items(), CandidateScore);
    assert IsLinkedTable(linked, links, id, clusters);
  }
}
