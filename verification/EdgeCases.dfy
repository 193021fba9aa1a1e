/**
 * Small runs on which a plain reading of the resolver's comments does not hold; the exact conditions are proved
 * elsewhere.
 */
module EdgeCases {
  import opened Domain
  import opened Ordering
  import opened Placement
  import opened Ranking
  import opened Tables
  import opened Resolver
  import opened Forest
  import opened Candidates
  import opened Requery
  import opened Pruning
  import opened Batching
  import opened RowOrder

  function Id(c: char): MentionId {
    MentionId([c])
  }

  function Plain(id: MentionId): Mention {
    Mention(id, map[])
  }

  /** What a small run has stored. */
  ghost predicate Holds(cfg: Config, db: Database, ids: seq<MentionId>, clusters: map<MentionId, ClusterId>,
                        links: seq<Link>) {
    Invariant(cfg, db) && IdsOf(db.mentions) == ids && ClusterMap(db.clusters) == clusters && db.links == links
  }

  lemma NothingArrived(cfg: Config)
    ensures Holds(cfg, EMPTY_DATABASE, [], map[], [])
  {
    EmptyDatabaseHolds(cfg);
  }

  /** The cluster of a mention whose links are listed best first. */
  function OwnCluster(cfg: Config, clusters: map<MentionId, ClusterId>, id: MentionId, links: seq<Link>): ClusterId
    requires forall l | l in links :: l.right in clusters
  {
    if links != [] && links[0].score >= cfg.threshold then clusters[links[0].right] else FoundedBy(id)
  }

  lemma BestFirst(cfg: Config, clusters: map<MentionId, ClusterId>, id: MentionId, links: seq<Link>)
    requires Descending(links, LinkScore) && |links| <= cfg.topN
    requires forall l | l in links :: l.left == id && l.right != id && l.right in clusters
    ensures AllTouch(links, id) && BestLinks(cfg, links) == links
    ensures AssignCluster(cfg, id, links, clusters) == OwnCluster(cfg, clusters, id, links)
  {
    hide SortDesc, FirstMax;
    SortOfDescending(links, LinkScore);
    SortIsDescending(links, LinkScore);
    if links != [] {
      assert links[0] in links && links[0].Other(id) == links[0].right;
    }
  }

  /** One arrival, its links best first and few enough to be all kept. */
  lemma Arrive(cfg: Config, db: Database, ids: seq<MentionId>, clusters: map<MentionId, ClusterId>, stored: seq<Link>,
               id: MentionId, links: seq<Link>)
    requires cfg.Valid() && Holds(cfg, db, ids, clusters, stored) && id !in ids && |links| <= cfg.topN
    requires Descending(links, LinkScore)
    requires forall l | l in links :: l.left == id && l.right in ids && 0.0 <= l.score <= 1.0
    ensures AllTouch(links, id) && forall l | l in links :: LinksIntoStore(db, id, l)
    ensures forall l | l in links :: l.right in clusters
    ensures AssignCluster(cfg, id, links, clusters) == OwnCluster(cfg, clusters, id, links)
    ensures Holds(cfg, CommitOne(cfg, db, Plain(id), links), ids + [id],
                  clusters[id := OwnCluster(cfg, clusters, id, links)],
                  stored + links)
  {
    hide AssignCluster, BestLinks, OwnCluster, ClusterMap, Aligned, Stored;
    assert Aligned(db) by { assert Invariant(cfg, db); }
    AlignedLookups(db);
    assert forall l | l in links :: LinksIntoStore(db, id, l);
    CommitOneKeepsInvariant(cfg, db, Plain(id), links);
    BestFirst(cfg, clusters, id, links);
    var after := CommitOne(cfg, db, Plain(id), links);
    ClusterMapSnoc(db.clusters, Membership(id, OwnCluster(cfg, clusters, id, links)));
    OneMoreId(cfg, db.mentions, id);
  }

  lemma OneMoreId(cfg: Config, mentions: seq<Mention>, id: MentionId)
    ensures IdsOf(mentions + [Stored(cfg.entityFields, Plain(id))]) == IdsOf(mentions) + [id]
  {
  }

  lemma {:induction false} SortOfDescending<T>(xs: seq<T>, key: T -> real)
    requires Descending(xs, key)
    ensures SortDesc(xs, key) == xs
  {
    hide Insert;
    if xs != [] {
      var rest, last := xs[..|xs| - 1], xs[|xs| - 1];
      SortOfDescending(rest, key);
      InsertLeast(rest, last, key);
      assert rest + [last] == xs;
    }
  }

  lemma InsertLeast<T>(sorted: seq<T>, x: T, key: T -> real)
    requires sorted != [] ==> key(sorted[|sorted| - 1]) >= key(x)
    ensures Insert(sorted, x, key) == sorted + [x]
  {
  }

  const NARROW := Config(0.8, 1, 0, {})

  /** One mention that founded its cluster. */
  function Founded(): Database {
    CommitOne(NARROW, EMPTY_DATABASE, Plain(Id('a')), [])
  }

  lemma FoundedHolds()
    ensures Holds(NARROW, Founded(), [Id('a')], map[Id('a') := FoundedBy(Id('a'))], [])
  {
    NothingArrived(NARROW);
    Arrive(NARROW, EMPTY_DATABASE, [], map[], [], Id('a'), []);
  }

  const HALF := [Link(Id('b'), Id('a'), 0.5)]

  /** A mention's own cluster is not always among its candidates: one linked cluster can take the only place. */
  lemma NewClusterCanBeCut()
    ensures AllTouch(HALF, Id('b')) && Assigned(NARROW, Founded(), Plain(Id('b')), HALF) == FoundedBy(Id('b'))
    ensures !Lists(RankOne(NARROW, Founded(), Plain(Id('b')), HALF), FoundedBy(Id('b')))
  {
    hide Founded, LinkedScores, RankOne;
    var db, m, other := Founded(), Plain(Id('b')), FoundedBy(Id('a'));
    FoundedHolds();
    Arrive(NARROW, db, [Id('a')], map[Id('a') := other], [], Id('b'), HALF);
    LinkedScoresAreMaxima(HALF, Id('b'), ClusterMap(db.clusters));
    assert HALF[0] in HALF && HALF[0].Other(Id('b')) == Id('a');
    FoundedClusterRanksLast(NARROW, db, m, HALF);
    assert {other} <= Linked(db, m, HALF).best.Keys;
    assert |Linked(db, m, HALF).best.Keys| >= |{other}|;
  }

  /** Three mentions in two clusters: `d` joined the cluster of `a`, `b` founded one. */
  function TwoClusters(): Database {
    CommitOne(NARROW, CommitOne(NARROW, Founded(), Plain(Id('d')), [Link(Id('d'), Id('a'), 0.9)]), Plain(Id('b')), [])
  }

  const CLUSTERS := map[Id('a') := FoundedBy(Id('a')), Id('d') := FoundedBy(Id('a')), Id('b') := FoundedBy(Id('b'))]

  lemma TwoClustersHolds()
    ensures Holds(NARROW, TwoClusters(), [Id('a'), Id('d'), Id('b')], CLUSTERS, [Link(Id('d'), Id('a'), 0.9)])
  {
    hide Holds, Founded, CommitOne;
    var links := [Link(Id('d'), Id('a'), 0.9)];
    var a := FoundedBy(Id('a'));
    FoundedHolds();
    Arrive(NARROW, Founded(), [Id('a')], map[Id('a') := a], [], Id('d'), links);
    var second := CommitOne(NARROW, Founded(), Plain(Id('d')), links);
    assert [Id('a')] + [Id('d')] == [Id('a'), Id('d')] && [] + links == links;
    Arrive(NARROW, second, [Id('a'), Id('d')], map[Id('a') := a, Id('d') := a], links, Id('b'), []);
    assert [Id('a'), Id('d')] + [Id('b')] == [Id('a'), Id('d'), Id('b')] && links + [] == links;
  }

  /** One more link that leads to a cluster. */
  lemma LinkedScoresSnoc(links: seq<Link>, last: Link, id: MentionId, clusters: map<MentionId, ClusterId>)
    requires AllTouch(links, id) && last.Touches(id) && last.Other(id) in clusters
    ensures AllTouch(links + [last], id)
    ensures LinkedScores(links + [last], id, clusters)
            == LinkedScores(links, id, clusters).Raise(clusters[last.Other(id)], last.score)
  {
    assert (links + [last])[..|links|] == links;
    assert forall l | l in links + [last] :: l in links || l == last;
  }

  lemma NoLinkedScores(id: MentionId, clusters: map<MentionId, ClusterId>)
    ensures AllTouch([], id) && LinkedScores([], id, clusters) == Scores([], map[])
  {
  }

  /** The scores of three links. */
  lemma ThreeLinks(id: MentionId, x: Link, y: Link, z: Link, clusters: map<MentionId, ClusterId>)
    requires x.Touches(id) && x.Other(id) in clusters && y.Touches(id) && y.Other(id) in clusters
    requires z.Touches(id) && z.Other(id) in clusters
    ensures AllTouch([x, y, z], id)
    ensures LinkedScores([x, y, z], id, clusters)
            == Scores([], map[]).Raise(clusters[x.Other(id)], x.score).Raise(clusters[y.Other(id)], y.score)
                                .Raise(clusters[z.Other(id)], z.score)
  {
    hide LinkedScores, AllTouch;
    NoLinkedScores(id, clusters);
    LinkedScoresSnoc([], x, id, clusters);
    LinkedScoresSnoc([x], y, id, clusters);
    LinkedScoresSnoc([x, y], z, id, clusters);
    assert [] + [x] == [x] && [x] + [y] == [x, y] && [x, y] + [z] == [x, y, z];
  }

  lemma RaiseFirst(a: ClusterId, x: real)
    requires x >= 0.0
    ensures Scores([], map[]).Raise(a, x) == Scores([a], map[a := x])
  {
  }

  lemma RaiseSecond(a: ClusterId, b: ClusterId, x: real, y: real)
    requires a != b && y >= 0.0
    ensures Scores([a], map[a := x]).Raise(b, y) == Scores([a, b], map[a := x, b := y])
  {
  }

  lemma RaiseThird(a: ClusterId, b: ClusterId, c: ClusterId, x: real, y: real, z: real)
    requires c != a && c != b && z >= 0.0
    ensures Scores([a, b], map[a := x, b := y]).Raise(c, z) == Scores([a, b, c], map[a := x, b := y, c := z])
  {
  }

  lemma RaiseAgain(a: ClusterId, b: ClusterId, x: real, y: real, z: real)
    requires a != b && z >= x
    ensures Scores([a, b], map[a := x, b := y]).Raise(a, z) == Scores([a, b], map[a := z, b := y])
  {
  }

  const TIED := [Link(Id('c'), Id('a'), 0.6), Link(Id('c'), Id('b'), 0.9), Link(Id('c'), Id('d'), 0.9)]

  lemma TiedBest()
    ensures FirstMax(TIED, LinkScore) == TIED[1]
  {
    var i := FirstMaxIsFirst(TIED, LinkScore);
    assert LinkScore(TIED[1]) <= LinkScore(TIED[i]) && LinkScore(TIED[0]) < LinkScore(TIED[1]);
  }

  lemma TiedScores()
    ensures AllTouch(TIED, Id('c'))
    ensures LinkedScores(TIED, Id('c'), CLUSTERS)
            == Scores([FoundedBy(Id('a')), FoundedBy(Id('b'))],
                      map[FoundedBy(Id('a')) := 0.9, FoundedBy(Id('b')) := 0.9])
  {
    hide LinkedScores, Scores.Raise;
    var a, b := FoundedBy(Id('a')), FoundedBy(Id('b'));
    ThreeLinks(Id('c'), TIED[0], TIED[1], TIED[2], CLUSTERS);
    RaiseFirst(a, 0.6);
    RaiseSecond(a, b, 0.6, 0.9);
    RaiseAgain(a, b, 0.6, 0.9, 0.9);
  }

  /** Of two tied clusters only the first has a place. */
  lemma FirstOfTwo(a: ClusterId, b: ClusterId)
    requires a != b
    ensures var s := Scores([a, b], map[a := 0.9, b := 0.9]);
            s.Valid() && Largest(1, s.Items(), CandidateScore) == [Candidate(a, 0.9)]
  {
    hide Largest;
    var s := Scores([a, b], map[a := 0.9, b := 0.9]);
    var first := FirstItem(s, 1);
    assert s.best[s.order[0]] == 0.9 && s.best[s.order[1]] == 0.9;
    LargestIsExact(1, s.Items(), CandidateScore);
  }

  /** Cluster `b` is joined, but cluster `a`, which ties with it, was linked earlier and takes the only place. */
  lemma JoinedClusterCanBeCut()
    ensures AllTouch(TIED, Id('c')) && Assigned(NARROW, TwoClusters(), Plain(Id('c')), TIED) == FoundedBy(Id('b'))
    ensures RankOne(NARROW, TwoClusters(), Plain(Id('c')), TIED) == [Candidate(FoundedBy(Id('a')), 0.9)]
    ensures !Lists(RankOne(NARROW, TwoClusters(), Plain(Id('c')), TIED), FoundedBy(Id('b')))
  {
    hide Largest, LinkedScores, ClusterMap, FirstMax, TwoClusters, Invariant;
    TwoClustersHolds();
    TiedScores();
    TiedBest();
    FirstOfTwo(FoundedBy(Id('a')), FoundedBy(Id('b')));
    assert CandidateScores(TIED, Id('c'), FoundedBy(Id('b')), CLUSTERS) == LinkedScores(TIED, Id('c'), CLUSTERS);
  }

  const WIDE := NARROW.(topN := 5)

  /** With room for both, the joined cluster is still only the second candidate. */
  lemma JoinedClusterCanRankSecond()
    ensures AllTouch(TIED, Id('c')) && Assigned(WIDE, TwoClusters(), Plain(Id('c')), TIED) == FoundedBy(Id('b'))
    ensures RankOne(WIDE, TwoClusters(), Plain(Id('c')), TIED)
            == [Candidate(FoundedBy(Id('a')), 0.9), Candidate(FoundedBy(Id('b')), 0.9)]
  {
    hide LinkedScores, ClusterMap, FirstMax, TwoClusters, Invariant, SortDesc;
    TwoClustersHolds();
    TiedScores();
    TiedBest();
    var s := LinkedScores(TIED, Id('c'), CLUSTERS);
    assert CandidateScores(TIED, Id('c'), FoundedBy(Id('b')), CLUSTERS) == s;
    SortOfDescending(s.Items(), CandidateScore);
  }

  /** Scores the mentions `a` and `b` alike. */
  function Alike(m: Mention, other: Mention): Option<real> {
    if other.id == Id('d') then None else Some(0.9)
  }

  /** With two earlier links tied for best, the order of the linker's rows can change the cluster. */
  lemma TieOrderChangesCluster()
    ensures !OrderIsIrrelevant(NARROW, Alike, TwoClusters(), [Plain(Id('c'))])
  {
    hide TwoClusters, Invariant, ClusterMap, OrderIsIrrelevant, TiesAgree, SpaceLinks;
    TwoClustersHolds();
    var db, c := TwoClusters(), Id('c');
    var links := SpaceLinks(Alike, Plain(c), db.mentions);
    assert db.mentions[0].id == Id('a') && db.mentions[1].id == Id('d') && db.mentions[2].id == Id('b') by {
      assert forall i | 0 <= i < 3 :: IdsOf(db.mentions)[i] == db.mentions[i].id;
    }
    AllLinks(db.mentions);
    LinksDiverge();
    assert [Plain(c)][..0] == [];
    assert !TurnIsHarmless(NARROW, Alike, db, [Plain(c)], 0);
    OrderMattersExactlyOnDivergingTies(NARROW, Alike, db, [Plain(c)]);
  }

  lemma LinksDiverge()
    ensures var links := [Link(Id('c'), Id('a'), 0.9), Link(Id('c'), Id('b'), 0.9)];
            AllTouch(links, Id('c')) && !TiesAgree(NARROW, Id('c'), links, CLUSTERS)
  {
    var a, b := Link(Id('c'), Id('a'), 0.9), Link(Id('c'), Id('b'), 0.9);
    assert IsTop([a, b], a) && IsTop([a, b], b);
    assert AssignVia(NARROW, Id('c'), a, CLUSTERS) != AssignVia(NARROW, Id('c'), b, CLUSTERS);
  }

  lemma AllLinks(stored: seq<Mention>)
    requires |stored| == 3 && stored[0].id == Id('a') && stored[1].id == Id('d') && stored[2].id == Id('b')
    ensures SpaceLinks(Alike, Plain(Id('c')), stored) == [Link(Id('c'), Id('a'), 0.9), Link(Id('c'), Id('b'), 0.9)]
  {
    assert stored[..2] == [stored[0], stored[1]] && stored[..2][..1] == [stored[0]] && [stored[0]][..0] == [];
    assert SpaceLinks(Alike, Plain(Id('c')), [stored[0]]) == [Link(Id('c'), Id('a'), 0.9)];
    assert SpaceLinks(Alike, Plain(Id('c')), stored[..2]) == [Link(Id('c'), Id('a'), 0.9)];
  }

  const PAIR := Config(0.8, 2, 0, {})

  const X_LINKS := [Link(Id('x'), Id('z'), 0.95), Link(Id('x'), Id('m'), 0.9)]
  const Y_LINKS := [Link(Id('y'), Id('w'), 0.95), Link(Id('y'), Id('m'), 0.85)]

  /** `m` joined the cluster of `a`; `z` and `w` founded clusters. */
  function ThreeClusters(): Database {
    var a := CommitOne(PAIR, EMPTY_DATABASE, Plain(Id('a')), []);
    var m := CommitOne(PAIR, a, Plain(Id('m')), [Link(Id('m'), Id('a'), 0.8)]);
    CommitOne(PAIR, CommitOne(PAIR, m, Plain(Id('z')), []), Plain(Id('w')), [])
  }

  /** Then `x` joined the cluster of `z` and `y` that of `w`, both with a lesser link to `m`. */
  function LinkedLater(): Database {
    CommitOne(PAIR, CommitOne(PAIR, ThreeClusters(), Plain(Id('x')), X_LINKS), Plain(Id('y')), Y_LINKS)
  }

  const THREE := map[Id('a') := FoundedBy(Id('a')), Id('m') := FoundedBy(Id('a')),
                     Id('z') := FoundedBy(Id('z')), Id('w') := FoundedBy(Id('w'))]

  lemma ThreeClustersHolds()
    ensures Holds(PAIR, ThreeClusters(), [Id('a'), Id('m'), Id('z'), Id('w')], THREE, [Link(Id('m'), Id('a'), 0.8)])
  {
    hide Holds, CommitOne;
    var links := [Link(Id('m'), Id('a'), 0.8)];
    var none: map<MentionId, ClusterId> := map[];
    NothingArrived(PAIR);
    Arrive(PAIR, EMPTY_DATABASE, [], none, [], Id('a'), []);
    var a, first := CommitOne(PAIR, EMPTY_DATABASE, Plain(Id('a')), []), none[Id('a') := FoundedBy(Id('a'))];
    Arrive(PAIR, a, [] + [Id('a')], first, [] + [], Id('m'), links);
    var m, second := CommitOne(PAIR, a, Plain(Id('m')), links), first[Id('m') := FoundedBy(Id('a'))];
    Arrive(PAIR, m, [] + [Id('a')] + [Id('m')], second, [] + [] + links, Id('z'), []);
    var z, third := CommitOne(PAIR, m, Plain(Id('z')), []), second[Id('z') := FoundedBy(Id('z'))];
    Arrive(PAIR, z, [] + [Id('a')] + [Id('m')] + [Id('z')], third, [] + [] + links + [], Id('w'), []);
    assert [] + [Id('a')] + [Id('m')] + [Id('z')] + [Id('w')] == [Id('a'), Id('m'), Id('z'), Id('w')];
    assert [] + [] + links + [] + [] == links && third[Id('w') := FoundedBy(Id('w'))] == THREE;
  }

  const STORED := [Link(Id('m'), Id('a'), 0.8)] + X_LINKS + Y_LINKS

  lemma LinkedLaterHolds()
    ensures Holds(PAIR, LinkedLater(), [Id('a'), Id('m'), Id('z'), Id('w')] + [Id('x')] + [Id('y')],
                  THREE[Id('x') := FoundedBy(Id('z'))][Id('y') := FoundedBy(Id('w'))], STORED)
  {
    hide Holds, CommitOne, ThreeClusters;
    var ids := [Id('a'), Id('m'), Id('z'), Id('w')];
    ThreeClustersHolds();
    Arrive(PAIR, ThreeClusters(), ids, THREE, [Link(Id('m'), Id('a'), 0.8)], Id('x'), X_LINKS);
    Arrive(PAIR, CommitOne(PAIR, ThreeClusters(), Plain(Id('x')), X_LINKS), ids + [Id('x')],
           THREE[Id('x') := FoundedBy(Id('z'))], [Link(Id('m'), Id('a'), 0.8)] + X_LINKS, Id('y'), Y_LINKS);
  }

  lemma LinksOfM()
    ensures FindFor(STORED, Id('m')) == [Link(Id('m'), Id('a'), 0.8), X_LINKS[1], Y_LINKS[1]]
  {
    hide FindFor;
    var m := Id('m');
    FindForAppend([Link(m, Id('a'), 0.8)] + X_LINKS, Y_LINKS, m);
    FindForAppend([Link(m, Id('a'), 0.8)], X_LINKS, m);
    FindForAll([Link(m, Id('a'), 0.8)], m);
    SecondTouches(X_LINKS, m);
    SecondTouches(Y_LINKS, m);
  }

  lemma SecondTouches(links: seq<Link>, id: MentionId)
    requires |links| == 2 && !links[0].Touches(id) && links[1].Touches(id)
    ensures FindFor(links, id) == [links[1]]
  {
    hide FindFor;
    FindForAppend([links[0]], [links[1]], id);
    FindForNone([links[0]], id);
    FindForAll([links[1]], id);
    assert links == [links[0]] + [links[1]];
  }

  /** Without any tie, later links to other clusters can cut a joined mention's own cluster from its re-query. */
  lemma RequeriedClusterCanBeCut()
    ensures Invariant(PAIR, LinkedLater()) && ClusterOf(LinkedLater().clusters, Id('m')) == Some(FoundedBy(Id('a')))
    ensures !Lists(GenCand(PAIR, LinkedLater(), Id('m')), FoundedBy(Id('a')))
  {
    hide FindFor, LinkedScores, ClusterMap, ClusterOf, LinkedLater, Largest, Aligned, Scores.Raise;
    var db, a, z, w := LinkedLater(), FoundedBy(Id('a')), FoundedBy(Id('z')), FoundedBy(Id('w'));
    LinkedLaterHolds();
    LookupsAgree(db, Id('m'));
    LinksOfM();
    ThreeLinks(Id('m'), STORED[0], X_LINKS[1], Y_LINKS[1], ClusterMap(db.clusters));
    RaiseFirst(a, 0.8);
    RaiseSecond(a, z, 0.8, 0.9);
    RaiseThird(a, z, w, 0.8, 0.9, 0.85);
    var s := RequeryScores(db, Id('m'));
    assert s == Scores([a, z, w], map[a := 0.8, z := 0.9, w := 0.85]);
    OwnIsListedByPlace(PAIR, db, Id('m'));
    FirstOfThree(s.Items());
  }

  /** Two entries come before the first if both score higher. */
  lemma FirstOfThree(items: seq<Candidate>)
    requires |items| == 3 && items[1].score > items[0].score && items[2].score > items[0].score
    ensures Place(items, CandidateScore, 0) == 2
  {
    assert items[1..][..1] == [items[1]] && [items[1]][..0] == [] && items[..0] == [];
    assert Above([items[1]], CandidateScore, items[0].score) == 1;
  }

  const FORGOTTEN := [Link(Id('c'), Id('a'), 0.95), Link(Id('c'), Id('d'), 0.9), Link(Id('c'), Id('b'), 0.85)]

  lemma SameThreshold(a: Config, b: Config, db: Database)
    requires a.threshold == b.threshold && Invariant(a, db)
    ensures Invariant(b, db)
  {
    forall i: nat | i < |db.mentions| && !IsFounder(db, i)
      ensures exists j: nat, l :: JoinWitness(b, db, i, j, l)
    {
      var j: nat, l :| JoinWitness(a, db, i, j, l);
      assert JoinWitness(b, db, i, j, l);
    }
  }

  lemma ForgottenKept()
    ensures BestLinks(PAIR, FORGOTTEN) == FORGOTTEN[..2]
  {
    hide SortDesc;
    SortOfDescending(FORGOTTEN, LinkScore);
  }

  lemma ForgottenScores()
    ensures AllTouch(FORGOTTEN, Id('c')) && BestLinks(PAIR, FORGOTTEN) == FORGOTTEN[..2]
    ensures |LinkedScores(FORGOTTEN, Id('c'), CLUSTERS).best| == 2
    ensures |LinkedScores(FORGOTTEN[..2], Id('c'), CLUSTERS).best| == 1
  {
    hide LinkedScores, Scores.Raise, BestLinks;
    var a, b := FoundedBy(Id('a')), FoundedBy(Id('b'));
    ForgottenKept();
    ThreeLinks(Id('c'), FORGOTTEN[0], FORGOTTEN[1], FORGOTTEN[2], CLUSTERS);
    NoLinkedScores(Id('c'), CLUSTERS);
    LinkedScoresSnoc([], FORGOTTEN[0], Id('c'), CLUSTERS);
    LinkedScoresSnoc([FORGOTTEN[0]], FORGOTTEN[1], Id('c'), CLUSTERS);
    assert [] + [FORGOTTEN[0]] == [FORGOTTEN[0]] && [FORGOTTEN[0]] + [FORGOTTEN[1]] == FORGOTTEN[..2];
    RaiseFirst(a, 0.95);
    RaiseLess(a, 0.95, 0.9);
    RaiseSecond(a, b, 0.95, 0.85);
  }

  lemma RaiseLess(a: ClusterId, x: real, y: real)
    requires y <= x
    ensures Scores([a], map[a := x]).Raise(a, y) == Scores([a], map[a := x])
  {
  }

  /**
   * Keeping only the best links can lose a candidate: both best links lead to one cluster, and the other is
   * forgotten.
   */
  lemma SecondCandidateCanBeForgotten()
    ensures AllTouch(FORGOTTEN, Id('c')) && Invariant(PAIR, TwoClusters())
    ensures var after := CommitOne(PAIR, TwoClusters(), Plain(Id('c')), FORGOTTEN);
            && ClusterOf(after.clusters, Id('c')).Some?
            && GenCand(PAIR, after, Id('c')) != RankOne(PAIR, TwoClusters(), Plain(Id('c')), FORGOTTEN)
  {
    hide TwoClusters, Largest, ClusterMap, LinkedScores, FindFor, ClusterOf, BestLinks;
    var db := TwoClusters();
    TwoClustersHolds();
    SameThreshold(NARROW, PAIR, db);
    ForgottenScores();
    CommitOneKeepsInvariant(PAIR, db, Plain(Id('c')), FORGOTTEN);
    PrunedRequeryIsFirstAnswer(PAIR, db, Plain(Id('c')), FORGOTTEN, CommitOne(PAIR, db, Plain(Id('c')), FORGOTTEN));
  }

  lemma TiedLargest()
    ensures BestLinks(NARROW, TIED) == [TIED[1]]
  {
    hide SortDesc;
    LargestIsExact(1, TIED, LinkScore);
    TiedBest();
  }

  lemma TiedKept()
    ensures AllTouch(TIED, Id('c')) && BestLinks(NARROW, TIED) == [TIED[1]]
    ensures LinkedScores([TIED[1]], Id('c'), CLUSTERS)
            == Scores([FoundedBy(Id('b'))], map[FoundedBy(Id('b')) := 0.9])
  {
    hide LinkedScores, Scores.Raise, BestLinks;
    TiedLargest();
    NoLinkedScores(Id('c'), CLUSTERS);
    LinkedScoresSnoc([], TIED[1], Id('c'), CLUSTERS);
    assert [] + [TIED[1]] == [TIED[1]];
    RaiseFirst(FoundedBy(Id('b')), 0.9);
  }

  lemma TiedLaterTable(db: Database)
    requires ClusterMap(db.clusters) == CLUSTERS
    ensures AllTouch(TIED, Id('c')) && KeptClusters(NARROW, db, Plain(Id('c')), TIED) == 1
    ensures LaterTable(NARROW, db, Plain(Id('c')), TIED) == Scores([FoundedBy(Id('b'))], map[FoundedBy(Id('b')) := 0.9])
  {
    hide ClusterMap, LinkedScores, BestLinks, FirstMax;
    TiedKept();
    TiedBest();
    assert |map[FoundedBy(Id('b')) := 0.9]| == 1;
  }

  lemma OnlyCandidate(s: Scores, c: ClusterId, score: real)
    requires s == Scores([c], map[c := score])
    ensures Largest(1, s.Items(), CandidateScore) == [Candidate(c, score)]
  {
    SortOfDescending(s.Items(), CandidateScore);
  }

  /** Kept links can fill all places and still not give the first answer: the lost one of two tied links was first. */
  lemma TiedCandidateCanBeSwapped()
    ensures AllTouch(TIED, Id('c')) && Invariant(NARROW, TwoClusters())
    ensures KeptClusters(NARROW, TwoClusters(), Plain(Id('c')), TIED) >= NARROW.topN
    ensures RankOne(NARROW, TwoClusters(), Plain(Id('c')), TIED) == [Candidate(FoundedBy(Id('a')), 0.9)]
    ensures var after := CommitOne(NARROW, TwoClusters(), Plain(Id('c')), TIED);
            && ClusterOf(after.clusters, Id('c')).Some?
            && GenCand(NARROW, after, Id('c')) == [Candidate(FoundedBy(Id('b')), 0.9)]
  {
    hide TwoClusters, Largest, ClusterMap, LinkedScores, FindFor, ClusterOf, BestLinks, AssignCluster, LaterTable,
         KeptClusters, RequeryScores, RankOne;
    var db, c := TwoClusters(), Plain(Id('c'));
    TwoClustersHolds();
    TiedLaterTable(db);
    JoinedClusterCanBeCut();
    CommitOneKeepsInvariant(NARROW, db, c, TIED);
    PrunedRequeryIsFirstAnswer(NARROW, db, c, TIED, CommitOne(NARROW, db, c, TIED));
    OnlyCandidate(LaterTable(NARROW, db, c, TIED), FoundedBy(Id('b')), 0.9);
  }
}
