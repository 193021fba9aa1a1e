/** What every reachable state of the tables keeps: clusters form a forest rooted at their founders. */
module Forest {
  import opened Domain
  import opened Ordering
  import opened Ranking
  import opened Tables
  import opened Resolver

  /** A stored link that justifies that the i-th mention is in the cluster of the earlier j-th one. */
  ghost predicate JoinWitness(cfg: Config, db: Database, i: nat, j: nat, link: Link)
    requires |db.clusters| == |db.mentions|
  {
    && j < i < |db.mentions|
    && link in db.links
    && link.left == db.mentions[i].id && link.right == db.mentions[j].id
    && link.score >= cfg.threshold
    && db.clusters[i].cluster == db.clusters[j].cluster
  }

  ghost predicate IsFounder(db: Database, i: nat)
    requires i < |db.clusters|
  {
    db.clusters[i].cluster == FoundedBy(db.clusters[i].mention)
  }

  ghost predicate PointsBack(db: Database, link: Link, i: nat, j: nat) {
    && j < i < |db.mentions|
    && link.left == db.mentions[i].id && link.right == db.mentions[j].id
    && 0.0 <= link.score <= 1.0
  }

  ghost predicate Invariant(cfg: Config, db: Database) {
    && Aligned(db)
    && (forall l | l in db.links :: exists i: nat, j: nat :: PointsBack(db, l, i, j))
    && (forall i: nat | i < |db.mentions| ::
          IsFounder(db, i) || exists j: nat, l :: JoinWitness(cfg, db, i, j, l))
  }

  lemma EmptyDatabaseHolds(cfg: Config)
    ensures Invariant(cfg, EMPTY_DATABASE)
  {
  }

  /** A mention that does not found a cluster joins that of its first best match, which it keeps a link to. */
  lemma JoinHasWitness(cfg: Config, db: Database, m: Mention, links: seq<Link>)
    requires cfg.Valid() && Aligned(db) && !Stores(db, m.id)
    requires AllTouch(links, m.id) && (forall l | l in links :: LinksIntoStore(db, m.id, l))
    requires AssignCluster(cfg, m.id, links, ClusterMap(db.clusters)) != FoundedBy(m.id)
    ensures exists j: nat, l :: JoinWitness(cfg, CommitOne(cfg, db, m, links), |db.mentions|, j, l)
  {
    var best := FirstMax(links, LinkScore);
    var after := CommitOne(cfg, db, m, links);
    assert best in links;
    var j :| 0 <= j < |db.mentions| && IdsOf(db.mentions)[j] == best.right;
    AlignedLookups(db);
    LargestIsExact(cfg.topN, links, LinkScore);
    assert best == BestLinks(cfg, links)[0];
    assert best in after.links;
    assert JoinWitness(cfg, after, |db.mentions|, j, best);
  }

  lemma WitnessIsKept(cfg: Config, earlier: Database, later: Database, i: nat)
    requires Aligned(earlier) && Aligned(later) && Extends(earlier, later) && i < |earlier.mentions|
    requires exists j: nat, l :: JoinWitness(cfg, earlier, i, j, l)
    ensures exists j: nat, l :: JoinWitness(cfg, later, i, j, l)
  {
    var j: nat, l :| JoinWitness(cfg, earlier, i, j, l);
    assert JoinWitness(cfg, later, i, j, l);
  }

  lemma LinksPointBackStill(earlier: Database, later: Database, l: Link)
    requires Extends(earlier, later) && exists i: nat, j: nat :: PointsBack(earlier, l, i, j)
    ensures exists i: nat, j: nat :: PointsBack(later, l, i, j)
  {
    var i: nat, j: nat :| PointsBack(earlier, l, i, j);
    assert PointsBack(later, l, i, j);
  }

  lemma CommitOneKeepsInvariant(cfg: Config, db: Database, m: Mention, links: seq<Link>)
    requires cfg.Valid() && Invariant(cfg, db) && !Stores(db, m.id)
    requires AllTouch(links, m.id) && (forall l | l in links :: LinksIntoStore(db, m.id, l))
    ensures Invariant(cfg, CommitOne(cfg, db, m, links))
  {
    var after := CommitOne(cfg, db, m, links);
    var n := |db.mentions|;
    CommitOneKeepsAligned(cfg, db, m, links);
    forall l | l in after.links
      ensures exists i: nat, j: nat :: PointsBack(after, l, i, j)
    {
      if l in db.links {
        LinksPointBackStill(db, after, l);
      } else {
        LargestIsExact(cfg.topN, links, LinkScore);
        var j :| 0 <= j < n && IdsOf(db.mentions)[j] == l.right;
        assert PointsBack(after, l, n, j);
      }
    }
    forall i: nat | i < n + 1
      ensures IsFounder(after, i) || exists j: nat, l :: JoinWitness(cfg, after, i, j, l)
    {
      if i == n {
        if !IsFounder(after, n) {
          JoinHasWitness(cfg, db, m, links);
        }
      } else {
        assert after.clusters[i] == db.clusters[i];
        if !IsFounder(db, i) {
          WitnessIsKept(cfg, db, after, i);
        }
      }
    }
  }

  lemma {:induction false} CommitAllKeepsInvariant(cfg: Config, db: Database, ms: seq<Mention>, links: seq<seq<Link>>)
    requires cfg.Valid() && Invariant(cfg, db) && Fresh(db, ms) && LinksTouch(ms, links) && AllLinkBack(db, ms, links)
    ensures Invariant(cfg, CommitAll(cfg, db, ms, links))
  {
    hide Invariant, CommitOne;
    if ms != [] {
      var n := |ms| - 1;
      var before := CommitAll(cfg, db, ms[..n], links[..n]);
      FreshPrefix(db, ms, n);
      LinkBackPrefix(db, ms, links, n);
      CommitAllKeepsInvariant(cfg, db, ms[..n], links[..n]);
      StoredAfter(cfg.entityFields, db, ms[..n], before, ms[n].id);
      LinksIntoStoreInTurn(cfg.entityFields, db, ms, links, n, before);
      CommitOneKeepsInvariant(cfg, before, ms[n], links[n]);
    }
  }

  /** One bite keeps the invariant, whatever the linker scores and in whatever order it lists the rows. */
  lemma BiteKeepsInvariant(cfg: Config, db: Database, bite: seq<Mention>, table: LinkTable)
    requires cfg.Valid() && Invariant(cfg, db) && Fresh(db, bite)
    requires ScoresBite(table, bite, Space(cfg, db, bite))
    ensures Invariant(cfg, ResolveBite(cfg, db, bite, table))
  {
    EarlierLinksLinkBack(cfg, db, bite, table);
    CommitAllKeepsInvariant(cfg, db, bite, BiteLinks(bite, Rows(table)));
  }

  /** A run of bites in which the linker may rescore (be retrained) and reorder between any two bites. */
  function ResolveBites(cfg: Config, db: Database, bites: seq<seq<Mention>>, tables: seq<LinkTable>): Database
    requires |tables| == |bites|
    decreases |bites|
  {
    if bites == [] then db
    else ResolveBites(cfg, ResolveBite(cfg, db, bites[0], tables[0]), bites[1..], tables[1..])
  }

  ghost predicate ProperRun(cfg: Config, db: Database, bites: seq<seq<Mention>>, tables: seq<LinkTable>)
    decreases |bites|
  {
    && |tables| == |bites|
    && (bites != [] ==>
          && Fresh(db, bites[0])
          && ScoresBite(tables[0], bites[0], Space(cfg, db, bites[0]))
          && ProperRun(cfg, ResolveBite(cfg, db, bites[0], tables[0]), bites[1..], tables[1..]))
  }

  /** Every state reachable from the empty tables satisfies the invariant. */
  lemma {:induction false} RunKeepsInvariant(cfg: Config, db: Database, bites: seq<seq<Mention>>,
                                             tables: seq<LinkTable>)
    decreases |bites|
    requires cfg.Valid() && Invariant(cfg, db) && ProperRun(cfg, db, bites, tables)
    ensures Invariant(cfg, ResolveBites(cfg, db, bites, tables))
    ensures Extends(db, ResolveBites(cfg, db, bites, tables))
  {
    if bites != [] {
      BiteKeepsInvariant(cfg, db, bites[0], tables[0]);
      RunKeepsInvariant(cfg, ResolveBite(cfg, db, bites[0], tables[0]), bites[1..], tables[1..]);
    }
  }

  ghost predicate Joins(cfg: Config, db: Database, i: nat, j: nat)
    requires |db.clusters| == |db.mentions|
  {
    exists l :: JoinWitness(cfg, db, i, j, l)
  }

  /** A descent over join witnesses from one mention to the founder of its cluster. */
  ghost predicate ChainToFounder(cfg: Config, db: Database, chain: seq<nat>)
    requires |db.clusters| == |db.mentions|
  {
    && chain != [] && chain[|chain| - 1] < |db.mentions| && IsFounder(db, chain[|chain| - 1])
    && forall k | 0 <= k < |chain| - 1 :: Joins(cfg, db, chain[k], chain[k + 1])
  }

  /**
   * Every mention is joined to the founder of its cluster by stored links at or above the threshold, each
   * to an earlier mention of the same cluster; so every cluster id names a stored member of that cluster.
   */
  lemma {:induction false} ClusterIsRootedAtFounder(cfg: Config, db: Database, i: nat) returns (chain: seq<nat>)
    requires Invariant(cfg, db) && i < |db.mentions|
    ensures ChainToFounder(cfg, db, chain) && chain[0] == i
    ensures var f := chain[|chain| - 1];
            db.clusters[f].cluster == db.clusters[i].cluster == FoundedBy(db.mentions[f].id)
  {
    if IsFounder(db, i) {
      chain := [i];
    } else {
      var j: nat, l :| JoinWitness(cfg, db, i, j, l);
      var rest := ClusterIsRootedAtFounder(cfg, db, j);
      chain := [i] + rest;
      forall k | 0 <= k < |chain| - 1
        ensures Joins(cfg, db, chain[k], chain[k + 1])
      {
        if k > 0 {
          assert Joins(cfg, db, rest[k - 1], rest[k]);
        }
      }
    }
  }

  /** Each cluster has one founder: the cluster id determines which mention it is. */
  lemma {:induction false} FounderIsUnique(cfg: Config, db: Database, i: nat, j: nat)
    requires Invariant(cfg, db) && i < |db.mentions| && j < |db.mentions|
    requires IsFounder(db, i) && IsFounder(db, j) && db.clusters[i].cluster == db.clusters[j].cluster
    ensures i == j
  {
    var ids := IdsOf(db.mentions);
    assert ids[i] == MentionId(db.clusters[i].cluster.value) && ids[j] == MentionId(db.clusters[j].cluster.value);
  }
}
