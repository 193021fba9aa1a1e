/** When the pruned answer of a re-query is the pruned first answer. */
module Pruning {
  import opened Domain
  import opened Ordering
  import opened Placement
  import opened Ranking
  import opened Tables
  import opened Resolver
  import opened Forest
  import opened Candidates
  import opened Requery

  /** What keeping only the best links does to the scores of the linked clusters. */
  ghost predicate Truncates(full: Scores, kept: Scores, own: ClusterId) {
    && full.Valid() && kept.Valid()
    && (forall c | c in kept.best :: c in full.best && kept.best[c] == full.best[c])
    && (forall c, d | c in full.best && c !in kept.best && d in kept.best :: full.best[c] <= kept.best[d])
    && (own in full.best ==> own in kept.best)
    && (forall c | c in full.best :: full.best[c] >= 0.0)
  }

  ghost predicate NoTies(table: map<ClusterId, real>) {
    forall c, d | c in table && d in table && table[c] == table[d] :: c == d
  }

  function Ranked(s: Scores, own: ClusterId, topN: nat): seq<Candidate>
    requires s.Valid()
  {
    Largest(topN, s.SetDefault(own).Items(), CandidateScore)
  }

  /** What a ranking of a score table with its own cluster is. */
  lemma RankedIsExact(s: Scores, own: ClusterId, topN: nat)
    requires s.Valid()
    ensures var table, r := s.SetDefault(own).best, Ranked(s, own, topN);
            && Distinct(r) && Descending(r, CandidateScore)
            && |table| == |s.best| + (if own in s.best then 0 else 1)
            && |r| == (if topN < |table| then topN else |table|)
            && (forall x | x in r :: x.cluster in table && x.score == table[x.cluster])
            && (forall c, y | c in table && Candidate(c, table[c]) !in r && y in r :: table[c] <= y.score)
  {
    hide Largest;
    var all := s.SetDefault(own);
    ItemsAreTheTable(all);
    LargestIsExact(topN, all.Items(), CandidateScore);
    DistinctPrefix(all.Items(), topN);
    forall c, y | c in all.best && Candidate(c, all.best[c]) !in Ranked(s, own, topN) && y in Ranked(s, own, topN)
      ensures all.best[c] <= y.score
    {
      assert CandidateScore(Candidate(c, all.best[c])) <= CandidateScore(y);
    }
  }

  lemma DistinctPrefix(items: seq<Candidate>, topN: nat)
    requires Distinct(items)
    ensures Distinct(Largest(topN, items, CandidateScore))
  {
    hide SortDesc;
    SortOfDistinct(items, CandidateScore);
  }

  lemma SubsetSizes<T>(a: set<T>, b: set<T>)
    requires a <= b
    ensures |a| <= |b| && (|a| == |b| <==> a == b)
  {
    assert b == a + (b - a);
  }

  /** An unlinked own cluster is listed exactly if what is linked leaves room. */
  lemma OwnNeedsRoom(full: Scores, kept: Scores, own: ClusterId, topN: nat)
    requires Truncates(full, kept, own)
    ensures own !in full.best ==> own !in kept.best
    ensures own !in full.best ==> (Lists(Ranked(full, own, topN), own) <==> |full.best| < topN)
    ensures own !in full.best ==> (Lists(Ranked(kept, own, topN), own) <==> |kept.best| < topN)
  {
    hide Largest;
    if own !in full.best {
      ItemsAreTheTable(full);
      ItemsAreTheTable(kept);
      UnlinkedOwnIsLast(full, own, topN);
      UnlinkedOwnIsLast(kept, own, topN);
    }
  }

  /** The tables agree on what both have. */
  lemma TablesAgree(full: Scores, kept: Scores, own: ClusterId)
    requires Truncates(full, kept, own)
    ensures var t, u := full.SetDefault(own).best, kept.SetDefault(own).best;
            && (forall c | c in u :: c in t && t[c] == u[c])
            && (forall c | c in t && c !in u :: c in full.best && c !in kept.best && t[c] == full.best[c])
  {
  }

  lemma SameLength(full: Scores, kept: Scores, own: ClusterId, topN: nat)
    requires Truncates(full, kept, own)
    requires |kept.best| >= topN || |kept.best| == |full.best|
    ensures |Ranked(full, own, topN)| == |Ranked(kept, own, topN)|
  {
    hide Ranked;
    SubsetSizes(kept.best.Keys, full.best.Keys);
    RankedIsExact(full, own, topN);
    RankedIsExact(kept, own, topN);
  }

  /** If a linked cluster is lost and what is kept leaves room, the first answer has a candidate the re-query lacks. */
  lemma DifferentAnswer(full: Scores, kept: Scores, own: ClusterId, topN: nat)
    requires Truncates(full, kept, own) && |kept.best| < topN && |kept.best| < |full.best|
    ensures Ranked(full, own, topN) != Ranked(kept, own, topN)
  {
    hide Ranked;
    RankedIsExact(full, own, topN);
    RankedIsExact(kept, own, topN);
    OwnNeedsRoom(full, kept, own, topN);
  }

  /** Each candidate is at its place: as many entries of the table come before it as stand before it. */
  lemma {:induction false} CandidateAtPlace(s: Scores, own: ClusterId, topN: nat, c: ClusterId)
    requires s.Valid() && c in s.SetDefault(own).best && PlaceOf(s.SetDefault(own), c) < topN
    ensures var t := s.SetDefault(own);
            PlaceOf(t, c) < |Ranked(s, own, topN)| && Ranked(s, own, topN)[PlaceOf(t, c)] == Candidate(c, t.best[c])
  {
    hide SortDesc, Place, Scores.SetDefault;
    var t := s.SetDefault(own);
    var p := PositionIn(t.order, c);
    PlaceInSorted(t.Items(), CandidateScore, p);
    SortIsPermutation(t.Items(), CandidateScore);
  }

  lemma {:induction false} PlaceOfCandidate(s: Scores, own: ClusterId, topN: nat, i: nat)
    requires s.Valid() && i < |Ranked(s, own, topN)|
    ensures var t, x := s.SetDefault(own), Ranked(s, own, topN)[i];
            x.cluster in t.best && x.score == t.best[x.cluster] && PlaceOf(t, x.cluster) == i
  {
    hide Largest, PlaceOf, Scores.SetDefault;
    var t, r := s.SetDefault(own), Ranked(s, own, topN);
    RankedIsExact(s, own, topN);
    var c := r[i].cluster;
    assert r[i] in r;
    ListedByPlace(t, topN, c);
    CandidateAtPlace(s, own, topN, c);
    RankedAreFew(s, own, topN);
    assert r[PlaceOf(t, c)] == r[i];
  }

  lemma RankedAreFew(s: Scores, own: ClusterId, topN: nat)
    requires s.Valid()
    ensures |Ranked(s, own, topN)| <= topN
  {
    hide SortDesc;
  }

  /** Every candidate of the first table has the same place in the other: ties, too, are listed in the same order. */
  ghost predicate KeepsPlaces(t: Scores, u: Scores, topN: nat)
    requires t.Valid() && u.Valid()
  {
    forall c | c in t.best && PlaceOf(t, c) < topN :: c in u.best && PlaceOf(u, c) == PlaceOf(t, c)
  }

  /** What is kept leaves no place for a lost cluster. */
  predicate NoneMissed(full: Scores, kept: Scores, topN: nat) {
    |kept.best| >= topN || |kept.best| == |full.best|
  }

  lemma {:induction false} SamePlacesSameAnswer(full: Scores, kept: Scores, own: ClusterId, topN: nat)
    requires full.Valid() && kept.Valid() && Truncates(full, kept, own) && NoneMissed(full, kept, topN)
    requires KeepsPlaces(full.SetDefault(own), kept.SetDefault(own), topN)
    ensures Ranked(full, own, topN) == Ranked(kept, own, topN)
  {
    hide Ranked, PlaceOf, Truncates;
    var a, b := Ranked(full, own, topN), Ranked(kept, own, topN);
    SameLength(full, kept, own, topN);
    RankedAreFew(full, own, topN);
    forall i: nat | i < |a|
      ensures a[i] == b[i]
    {
      PlaceOfCandidate(full, own, topN, i);
      CandidateAtPlace(kept, own, topN, a[i].cluster);
      TablesAgree(full, kept, own);
    }
  }

  lemma {:induction false} SameAnswerSamePlaces(full: Scores, kept: Scores, own: ClusterId, topN: nat)
    requires full.Valid() && kept.Valid() && Ranked(full, own, topN) == Ranked(kept, own, topN)
    ensures KeepsPlaces(full.SetDefault(own), kept.SetDefault(own), topN)
  {
    hide Ranked, PlaceOf, Scores.SetDefault;
    var t, u := full.SetDefault(own), kept.SetDefault(own);
    forall c | c in t.best && PlaceOf(t, c) < topN
      ensures c in u.best && PlaceOf(u, c) == PlaceOf(t, c)
    {
      CandidateAtPlace(full, own, topN, c);
      PlaceOfCandidate(kept, own, topN, PlaceOf(t, c));
    }
  }

  /**
   * Whatever the scores, the answers are the same if and only if no place is missed and every candidate keeps its
   * own.
   */
  lemma {:induction false} SameAnswerExactly(full: Scores, kept: Scores, own: ClusterId, topN: nat)
    requires full.Valid() && kept.Valid() && Truncates(full, kept, own)
    ensures Ranked(full, own, topN) == Ranked(kept, own, topN) <==>
              NoneMissed(full, kept, topN) && KeepsPlaces(full.SetDefault(own), kept.SetDefault(own), topN)
  {
    hide Ranked, KeepsPlaces, Truncates;
    if !NoneMissed(full, kept, topN) {
      KeptAreNoMore(full, kept, own);
      DifferentAnswer(full, kept, own, topN);
    } else if KeepsPlaces(full.SetDefault(own), kept.SetDefault(own), topN) {
      SamePlacesSameAnswer(full, kept, own, topN);
    }
    if Ranked(full, own, topN) == Ranked(kept, own, topN) {
      SameAnswerSamePlaces(full, kept, own, topN);
    }
  }

  /** In a score table `d` stands before `c`. */
  predicate Earlier(s: Scores, d: ClusterId, c: ClusterId)
  {
    d in s.order && c in s.order && PositionIn(s.order, d) < PositionIn(s.order, c)
  }

  /** A cluster comes before another if it scores higher, or the same and stands before it in the table. */
  lemma PlacesFollowScores(s: Scores, d: ClusterId, c: ClusterId)
    requires s.Valid() && d in s.best && c in s.best && d != c
    ensures PlaceOf(s, d) < PlaceOf(s, c) <==>
              s.best[d] > s.best[c] || (s.best[d] == s.best[c] && Earlier(s, d, c))
  {
    hide Place;
    var items, p, q := s.Items(), PositionIn(s.order, d), PositionIn(s.order, c);
    if s.best[d] > s.best[c] {
      HigherFirst(items, CandidateScore, p, q);
    } else if s.best[c] > s.best[d] {
      HigherFirst(items, CandidateScore, q, p);
    } else if p < q {
      EarlierTieFirst(items, CandidateScore, p, q);
    } else {
      EarlierTieFirst(items, CandidateScore, q, p);
    }
  }

  /**
   * A cluster tied with a candidate of the first table stands before it in one table exactly if it does in the
   * other.
   */
  ghost predicate TiesKeepOrder(t: Scores, u: Scores, topN: nat)
    requires t.Valid() && u.Valid()
  {
    forall c, d | c in t.best && d in t.best && c != d && t.best[c] == t.best[d] && PlaceOf(t, c) < topN ::
      c in u.best && (Earlier(u, d, c) <==> Earlier(t, d, c))
  }

  lemma {:induction false} SamePlacesKeepTies(full: Scores, kept: Scores, own: ClusterId, topN: nat)
    requires full.Valid() && kept.Valid() && Truncates(full, kept, own)
    requires Ranked(full, own, topN) == Ranked(kept, own, topN)
    ensures TiesKeepOrder(full.SetDefault(own), kept.SetDefault(own), topN)
  {
    hide Ranked, PlaceOf, Scores.SetDefault, Earlier, Truncates;
    var t, u := full.SetDefault(own), kept.SetDefault(own);
    TablesAgree(full, kept, own);
    SameAnswerSamePlaces(full, kept, own, topN);
    SameAnswerSamePlaces(kept, full, own, topN);
    forall c, d | c in t.best && d in t.best && c != d && t.best[c] == t.best[d] && PlaceOf(t, c) < topN
      ensures c in u.best && (Earlier(u, d, c) <==> Earlier(t, d, c))
    {
      PlacesFollowScores(t, d, c);
      if d in u.best {
        PlacesFollowScores(u, d, c);
      } else {
        OnlyEntriesStand(u, d, c);
      }
    }
  }

  lemma OnlyEntriesStand(s: Scores, d: ClusterId, c: ClusterId)
    requires s.Valid() && d !in s.best
    ensures !Earlier(s, d, c)
  {
  }

  /** What is not among the first candidates of one answer is not among them in the other, if those agree. */
  lemma {:induction false} NoEarlierPlace(s: Scores, other: Scores, own: ClusterId, topN: nat, i: nat, c: ClusterId)
    requires s.Valid() && other.Valid() && i <= |Ranked(s, own, topN)| && i <= |Ranked(other, own, topN)|
    requires forall j | 0 <= j < i :: Ranked(s, own, topN)[j] == Ranked(other, own, topN)[j]
    requires c in s.SetDefault(own).best && c in other.SetDefault(own).best && PlaceOf(other.SetDefault(own), c) >= i
    ensures PlaceOf(s.SetDefault(own), c) >= i
  {
    hide Ranked, PlaceOf, Scores.SetDefault;
    RankedAreFew(s, own, topN);
    var j := PlaceOf(s.SetDefault(own), c);
    if j < i {
      CandidateAtPlace(s, own, topN, c);
      PlaceOfCandidate(other, own, topN, j);
    }
  }

  /** A lost cluster is not the next candidate. */
  lemma {:induction false} LostIsNotNext(full: Scores, kept: Scores, own: ClusterId, topN: nat, c: ClusterId,
                                         e: ClusterId)
    requires full.Valid() && kept.Valid() && Truncates(full, kept, own) && NoneMissed(full, kept, topN)
    requires TiesKeepOrder(full.SetDefault(own), kept.SetDefault(own), topN)
    requires c in full.best && c !in kept.SetDefault(own).best && e in kept.SetDefault(own).best
    requires PlaceOf(full.SetDefault(own), c) < topN && Lists(Ranked(kept, own, topN), e)
    ensures e in full.SetDefault(own).best
    ensures PlaceOf(full.SetDefault(own), e) < PlaceOf(full.SetDefault(own), c)
  {
    hide Ranked, PlaceOf, Earlier;
    SubsetSizes(kept.best.Keys, full.best.Keys);
    OwnNeedsRoom(full, kept, own, topN);
    TablesAgree(full, kept, own);
    PlacesFollowScores(full.SetDefault(own), e, c);
  }

  /** If the answers agree so far, what the re-query has next neither beats the next candidate nor ties before it. */
  lemma {:induction false} NextIsTheSame(full: Scores, kept: Scores, own: ClusterId, topN: nat, i: nat)
    requires full.Valid() && kept.Valid() && Truncates(full, kept, own) && NoneMissed(full, kept, topN)
    requires TiesKeepOrder(full.SetDefault(own), kept.SetDefault(own), topN)
    requires i < |Ranked(full, own, topN)| == |Ranked(kept, own, topN)|
    requires forall j | 0 <= j < i :: Ranked(full, own, topN)[j] == Ranked(kept, own, topN)[j]
    ensures Ranked(full, own, topN)[i] == Ranked(kept, own, topN)[i]
  {
    hide Ranked, PlaceOf, Scores.SetDefault, Earlier, Truncates, NoneMissed;
    var t, u, a, b := full.SetDefault(own), kept.SetDefault(own), Ranked(full, own, topN), Ranked(kept, own, topN);
    var c, e := a[i].cluster, b[i].cluster;
    TablesAgree(full, kept, own);
    RankedAreFew(full, own, topN);
    PlaceOfCandidate(full, own, topN, i);
    PlaceOfCandidate(kept, own, topN, i);
    NoEarlierPlace(full, kept, own, topN, i, e);
    if PlaceOf(t, e) == i {
      CandidateAtPlace(full, own, topN, e);
    } else if c in u.best {
      NoEarlierPlace(kept, full, own, topN, i, c);
      if PlaceOf(u, c) == i {
        CandidateAtPlace(kept, own, topN, c);
      }
      PlacesFollowScores(t, e, c);
      PlacesFollowScores(u, e, c);
    } else {
      assert b[i] in b;
      LostIsNotNext(full, kept, own, topN, c, e);
    }
  }

  lemma {:induction false} FirstAreTheSame(full: Scores, kept: Scores, own: ClusterId, topN: nat, n: nat)
    requires full.Valid() && kept.Valid() && Truncates(full, kept, own) && NoneMissed(full, kept, topN)
    requires TiesKeepOrder(full.SetDefault(own), kept.SetDefault(own), topN)
    requires n <= |Ranked(full, own, topN)| == |Ranked(kept, own, topN)|
    ensures forall j | 0 <= j < n :: Ranked(full, own, topN)[j] == Ranked(kept, own, topN)[j]
  {
    hide Ranked, TiesKeepOrder, Truncates, NoneMissed;
    if n > 0 {
      FirstAreTheSame(full, kept, own, topN, n - 1);
      NextIsTheSame(full, kept, own, topN, n - 1);
    }
  }

  /** Whatever the scores, the answers are the same if and only if no place is missed and ties keep their order. */
  lemma {:induction false} SameAnswerByTies(full: Scores, kept: Scores, own: ClusterId, topN: nat)
    requires full.Valid() && kept.Valid() && Truncates(full, kept, own)
    ensures Ranked(full, own, topN) == Ranked(kept, own, topN) <==>
              NoneMissed(full, kept, topN) && TiesKeepOrder(full.SetDefault(own), kept.SetDefault(own), topN)
  {
    hide Ranked, TiesKeepOrder, KeepsPlaces, Truncates;
    SameAnswerExactly(full, kept, own, topN);
    if Ranked(full, own, topN) == Ranked(kept, own, topN) {
      SamePlacesKeepTies(full, kept, own, topN);
    } else if NoneMissed(full, kept, topN) && TiesKeepOrder(full.SetDefault(own), kept.SetDefault(own), topN) {
      SameLength(full, kept, own, topN);
      FirstAreTheSame(full, kept, own, topN, |Ranked(full, own, topN)|);
    }
  }

  /** How many clusters a mention's kept links lead to. */
  function KeptClusters(cfg: Config, db: Database, m: Mention, links: seq<Link>): nat
    requires AllTouch(links, m.id)
  {
    |Linked(db, m, BestLinks(cfg, links)).best|
  }

  lemma TruncationOfLinks(cfg: Config, db: Database, m: Mention, links: seq<Link>)
    requires cfg.Valid() && Invariant(cfg, db) && !Stores(db, m.id) && AllTouch(links, m.id)
    requires forall l | l in links :: LinksIntoStore(db, m.id, l)
    ensures Truncates(Linked(db, m, links), Linked(db, m, BestLinks(cfg, links)), Assigned(cfg, db, m, links))
  {
    hide LinkedScores, ClusterMap, Largest, BestLinks, AssignCluster, Invariant, AreTop;
    var clusters, top := ClusterMap(db.clusters), BestLinks(cfg, links);
    StoredLinksAreScored(links, m.id, db);
    BestLinksAreTop(cfg, links);
    TruncationKeepsScores(cfg.topN, links, top, m.id, clusters);
    OwnLinkIsKept(cfg, db, m, links);
    LinkedScoresAreMaxima(top, m.id, clusters);
    LinkedScoresAreNonNegative(links, m.id, clusters);
    KeptBeatsLost(LinkedScores(links, m.id, clusters).best, LinkedScores(top, m.id, clusters).best, top, m.id,
                  clusters);
  }

  lemma KeptBeatsLost(full: map<ClusterId, real>, kept: map<ClusterId, real>, top: seq<Link>, id: MentionId,
                      clusters: map<MentionId, ClusterId>)
    requires AllTouch(top, id) && HoldsMaxima(kept, top, id, clusters)
    requires KeepsScores(full, kept, top)
    ensures forall c, d | c in full && c !in kept && d in kept :: full[c] <= kept[d]
  {
    forall c, d | c in full && c !in kept && d in kept
      ensures full[c] <= kept[d]
    {
      var l :| l in top && LeadsTo(l, id, clusters, d) && l.score == kept[d];
    }
  }

  /** The table of a mention's first answer, and that of a re-query as long as no later link touches it. */
  function FirstTable(cfg: Config, db: Database, m: Mention, links: seq<Link>): (t: Scores)
    requires AllTouch(links, m.id)
    ensures t.Valid()
  {
    Linked(db, m, links).SetDefault(Assigned(cfg, db, m, links))
  }

  function LaterTable(cfg: Config, db: Database, m: Mention, links: seq<Link>): (u: Scores)
    requires AllTouch(links, m.id)
    ensures u.Valid()
  {
    Linked(db, m, BestLinks(cfg, links)).SetDefault(Assigned(cfg, db, m, links))
  }

  /**
   * As long as no later link touches a mention, the pruned re-query is the pruned first answer if and only if
   * the kept links lead to as many clusters as have a place - `top_n`, or all that are linked - and a cluster
   * tied with a candidate of the first answer stands before it in both tables or in neither.
   */
  lemma PrunedRequeryIsFirstAnswer(cfg: Config, db: Database, m: Mention, links: seq<Link>, later: Database)
    requires cfg.Valid() && Invariant(cfg, db) && !Stores(db, m.id) && AllTouch(links, m.id)
    requires forall l | l in links :: LinksIntoStore(db, m.id, l)
    requires Invariant(cfg, later) && Extends(CommitOne(cfg, db, m, links), later)
    requires FindFor(later.links, m.id) == FindFor(CommitOne(cfg, db, m, links).links, m.id)
    ensures ClusterOf(later.clusters, m.id).Some? && RequeryScores(later, m.id) == LaterTable(cfg, db, m, links)
    ensures GenCand(cfg, later, m.id) == RankOne(cfg, db, m, links) <==>
              && (KeptClusters(cfg, db, m, links) >= cfg.topN
                  || KeptClusters(cfg, db, m, links) == |Linked(db, m, links).best|)
              && TiesKeepOrder(FirstTable(cfg, db, m, links), LaterTable(cfg, db, m, links), cfg.topN)
  {
    hide LinkedScores, ClusterMap, Largest, Truncates, FindFor, ClusterOf, CommitOne, Invariant, TiesKeepOrder;
    RequeryOfNewMention(cfg, db, m, links, later);
    TruncationOfLinks(cfg, db, m, links);
    SameAnswerByTies(Linked(db, m, links), Linked(db, m, BestLinks(cfg, links)), Assigned(cfg, db, m, links), cfg.topN);
  }

  /** For scores without ties the first half of the condition decides. */
  lemma PrunedRequeryWithoutTies(cfg: Config, db: Database, m: Mention, links: seq<Link>, later: Database)
    requires cfg.Valid() && Invariant(cfg, db) && !Stores(db, m.id) && AllTouch(links, m.id)
    requires forall l | l in links :: LinksIntoStore(db, m.id, l)
    requires Invariant(cfg, later) && Extends(CommitOne(cfg, db, m, links), later)
    requires FindFor(later.links, m.id) == FindFor(CommitOne(cfg, db, m, links).links, m.id)
    requires NoTies(FirstTable(cfg, db, m, links).best)
    ensures ClusterOf(later.clusters, m.id).Some?
    ensures GenCand(cfg, later, m.id) == RankOne(cfg, db, m, links) <==>
              KeptClusters(cfg, db, m, links) >= cfg.topN
              || KeptClusters(cfg, db, m, links) == |Linked(db, m, links).best|
  {
    hide LinkedScores, ClusterMap, Largest, FindFor, ClusterOf, CommitOne, Invariant;
    PrunedRequeryIsFirstAnswer(cfg, db, m, links, later);
  }

  lemma KeptAreNoMore(full: Scores, kept: Scores, own: ClusterId)
    requires Truncates(full, kept, own)
    ensures |kept.best| <= |full.best|
  {
    SubsetSizes(kept.best.Keys, full.best.Keys);
  }
}
