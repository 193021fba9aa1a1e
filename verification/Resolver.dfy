/** The resolution algorithm on values: what one mention, and one bite of mentions, adds to the tables. */
module Resolver {
  import opened Domain
  import opened Ordering
  import opened Placement
  import opened Ranking
  import opened Tables

  predicate ArrivesAfter(bite: seq<Mention>, i: nat, id: MentionId) {
    exists j | i < j < |bite| :: bite[j].id == id
  }

  predicate KeepsRow(bite: seq<Mention>, i: nat, row: Link)
    requires i < |bite|
  {
    row.left == bite[i].id && row.left != row.right && !ArrivesAfter(bite, i, row.right)
  }

  /** The rows of the i-th mention of a bite that lead to stored mentions or to earlier ones of the bite. */
  function EarlierLinks(bite: seq<Mention>, i: nat, rows: seq<Link>): (links: seq<Link>)
    requires i < |bite|
    ensures forall l | l in links :: l in rows && KeepsRow(bite, i, l)
  {
    if rows == [] then []
    else
      EarlierLinks(bite, i, rows[..|rows| - 1])
      + (if KeepsRow(bite, i, rows[|rows| - 1]) then [rows[|rows| - 1]] else [])
  }

  function BiteLinks(bite: seq<Mention>, rows: seq<Link>): (links: seq<seq<Link>>)
    ensures LinksTouch(bite, links)
    ensures forall i | 0 <= i < |bite| :: links[i] == EarlierLinks(bite, i, rows)
  {
    seq(|bite|, i requires 0 <= i < |bite| => EarlierLinks(bite, i, rows))
  }

  /** One list of links per mention, each link with its mention on one side. */
  ghost predicate LinksTouch(ms: seq<Mention>, links: seq<seq<Link>>) {
    && |links| == |ms|
    && forall i | 0 <= i < |ms| :: AllTouch(links[i], ms[i].id)
  }

  /** The best match has a cluster and reaches the threshold. */
  predicate JoinsBest(cfg: Config, id: MentionId, links: seq<Link>, clusters: map<MentionId, ClusterId>)
    requires AllTouch(links, id)
  {
    links != []
    && FirstMax(links, LinkScore).Other(id) in clusters
    && FirstMax(links, LinkScore).score >= cfg.threshold
  }

  /** Greedy assignment: the cluster of the best match if it reaches the threshold, else a new one. */
  function AssignCluster(cfg: Config, id: MentionId, links: seq<Link>, clusters: map<MentionId, ClusterId>): ClusterId
    requires AllTouch(links, id)
  {
    if JoinsBest(cfg, id, links, clusters) then clusters[FirstMax(links, LinkScore).Other(id)] else FoundedBy(id)
  }

  /** The `top_n` highest-scoring links. */
  function BestLinks(cfg: Config, links: seq<Link>): (kept: seq<Link>)
    ensures forall l | l in kept :: l in links
  {
    LargestIsPrefix(cfg.topN, links, LinkScore);
    Largest(cfg.topN, links, LinkScore)
  }

  /** The tables after one more mention with these links. */
  function CommitOne(cfg: Config, db: Database, m: Mention, links: seq<Link>): Database
    requires AllTouch(links, m.id)
  {
    Database(
      db.mentions + [Stored(cfg.entityFields, m)],
      db.links + BestLinks(cfg, links),
      db.clusters + [Membership(m.id, AssignCluster(cfg, m.id, links, ClusterMap(db.clusters)))])
  }

  lemma BestLinksAreTop(cfg: Config, links: seq<Link>)
    ensures AreTop(BestLinks(cfg, links), links, cfg.topN, LinkScore)
  {
    LargestAreTop(cfg.topN, links, LinkScore);
  }

  /**
   * A mention's stored links are its `top_n` highest-scoring ones, or all if there are fewer: best first, of
   * equals the earlier ones, and none that is left out scores above one that is kept.
   */
  lemma TopLinksAreStored(cfg: Config, db: Database, m: Mention, links: seq<Link>)
    requires AllTouch(links, m.id)
    ensures db.links <= CommitOne(cfg, db, m, links).links
    ensures var kept := CommitOne(cfg, db, m, links).links[|db.links|..];
            && AreTop(kept, links, cfg.topN, LinkScore)
            && |kept| == (if cfg.topN < |links| then cfg.topN else |links|)
            && multiset(kept) <= multiset(links) && Descending(kept, LinkScore)
            && (forall l, k | l in multiset(links) - multiset(kept) && k in kept :: l.score <= k.score)
  {
    hide Largest, AreTop;
    BestLinksAreTop(cfg, links);
    LargestIsPrefix(cfg.topN, links, LinkScore);
    TopIsBest(BestLinks(cfg, links), links, cfg.topN, LinkScore);
    var kept := CommitOne(cfg, db, m, links).links[|db.links|..];
    assert kept == BestLinks(cfg, links);
    forall l, k | l in multiset(links) - multiset(kept) && k in kept
      ensures l.score <= k.score
    {
      assert LinkScore(l) <= LinkScore(k);
    }
  }

  /** The candidates of one more mention with these links. */
  function RankOne(cfg: Config, db: Database, m: Mention, links: seq<Link>): seq<Candidate>
    requires AllTouch(links, m.id)
  {
    var clusters := ClusterMap(db.clusters);
    RankCandidates(cfg.topN, m.id, AssignCluster(cfg, m.id, links, clusters), links, clusters)
  }

  /** Mentions with their links, committed one after the other. */
  function CommitAll(cfg: Config, db: Database, ms: seq<Mention>, links: seq<seq<Link>>): (after: Database)
    requires LinksTouch(ms, links)
    ensures after.mentions == db.mentions + StoredAll(cfg.entityFields, ms)
    ensures Extends(db, after)
    ensures |after.clusters| == |db.clusters| + |ms|
    ensures forall i | 0 <= i < |ms| :: after.clusters[|db.clusters| + i].mention == ms[i].id
  {
    if ms == [] then db
    else
      var n := |ms| - 1;
      CommitOne(cfg, CommitAll(cfg, db, ms[..n], links[..n]), ms[n], links[n])
  }

  lemma {:induction false} CommitAllStep(cfg: Config, db: Database, ms: seq<Mention>, links: seq<seq<Link>>, k: nat)
    requires LinksTouch(ms, links) && k < |ms|
    ensures CommitAll(cfg, db, ms[..k + 1], links[..k + 1])
            == CommitOne(cfg, CommitAll(cfg, db, ms[..k], links[..k]), ms[k], links[k])
  {
    assert ms[..k + 1][..k] == ms[..k] && links[..k + 1][..k] == links[..k];
  }

  /** The candidates of each mention, ranked when its turn comes. */
  function RankAll(cfg: Config, db: Database, ms: seq<Mention>, links: seq<seq<Link>>): (results: seq<seq<Candidate>>)
    requires LinksTouch(ms, links)
    ensures |results| == |ms|
  {
    seq(|ms|, k requires 0 <= k < |ms| => RankOne(cfg, CommitAll(cfg, db, ms[..k], links[..k]), ms[k], links[k]))
  }

  /** The search space of a bite: everything stored, then the bite itself. */
  function Space(cfg: Config, db: Database, bite: seq<Mention>): seq<Mention> {
    db.mentions + StoredAll(cfg.entityFields, bite)
  }

  lemma SpaceHoldsBite(cfg: Config, db: Database, bite: seq<Mention>)
    ensures forall i | 0 <= i < |bite| :: bite[i].id in IdsOf(Space(cfg, db, bite))
  {
    forall i | 0 <= i < |bite|
      ensures bite[i].id in IdsOf(Space(cfg, db, bite))
    {
      assert IdsOf(Space(cfg, db, bite))[|db.mentions| + i] == bite[i].id;
    }
  }

  function ResolveBite(cfg: Config, db: Database, bite: seq<Mention>, table: LinkTable): Database {
    CommitAll(cfg, db, bite, BiteLinks(bite, Rows(table)))
  }

  function BiteResults(cfg: Config, db: Database, bite: seq<Mention>, table: LinkTable): (results: seq<seq<Candidate>>)
    ensures |results| == |bite|
  {
    RankAll(cfg, db, bite, BiteLinks(bite, Rows(table)))
  }

  /** New mentions: pairwise different ids, none of them stored. */
  ghost predicate Fresh(db: Database, ms: seq<Mention>) {
    && Distinct(IdsOf(ms))
    && forall i | 0 <= i < |ms| :: !Stores(db, ms[i].id)
  }

  /** The linker's port: rows lead from a mention of the bite into the search space, with a probability. */
  ghost predicate ScoresBite(table: LinkTable, bite: seq<Mention>, space: seq<Mention>) {
    forall row | row in Rows(table) ::
      row.left in IdsOf(bite) && row.right in IdsOf(space) && 0.0 <= row.score <= 1.0
  }

  /** Whatever bite is scored against a search space that holds it, the rows respect the linker's port. */
  ghost predicate ObeysPort(linker: Linker) {
    forall bite: seq<Mention>, space: seq<Mention> | (forall i | 0 <= i < |bite| :: bite[i].id in IdsOf(space)) ::
      ScoresBite(linker(bite, space), bite, space)
  }

  predicate ArrivedBefore(ms: seq<Mention>, k: nat, id: MentionId)
    requires k <= |ms|
  {
    exists j | 0 <= j < k :: ms[j].id == id
  }

  /** A link of a new mention into what is stored. */
  predicate LinksIntoStore(db: Database, id: MentionId, l: Link) {
    l.left == id && l.right != id && Stores(db, l.right) && 0.0 <= l.score <= 1.0
  }

  /** A link of the k-th of several new mentions into what is stored or to an earlier one of them. */
  predicate LinksBack(db: Database, ms: seq<Mention>, k: nat, l: Link)
    requires k < |ms|
  {
    && l.left == ms[k].id && l.right != ms[k].id && 0.0 <= l.score <= 1.0
    && (Stores(db, l.right) || ArrivedBefore(ms, k, l.right))
  }

  ghost predicate AllLinkBack(db: Database, ms: seq<Mention>, links: seq<seq<Link>>) {
    && |links| == |ms|
    && forall k: nat, l | k < |ms| && l in links[k] :: LinksBack(db, ms, k, l)
  }

  /** After committing mentions, exactly they and what was stored before are stored. */
  lemma {:induction false} StoredAfter(fields: set<string>, db: Database, ms: seq<Mention>, after: Database,
                                       id: MentionId)
    requires after.mentions == db.mentions + StoredAll(fields, ms)
    ensures Stores(after, id) <==> Stores(db, id) || ArrivedBefore(ms, |ms|, id)
  {
    var ids, idsBefore := IdsOf(after.mentions), IdsOf(db.mentions);
    assert forall i | 0 <= i < |db.mentions| :: ids[i] == idsBefore[i];
    assert forall j | 0 <= j < |ms| :: ids[|db.mentions| + j] == ms[j].id;
    if Stores(after, id) {
      var i :| 0 <= i < |ids| && ids[i] == id;
      if i >= |db.mentions| {
        assert ms[i - |db.mentions|].id == id;
      }
    }
  }

  /** Whatever order a linker lists its rows in, only links to stored or earlier mentions are kept. */
  lemma {:induction false} EarlierLinksLinkBack(cfg: Config, db: Database, bite: seq<Mention>, table: LinkTable)
    requires ScoresBite(table, bite, Space(cfg, db, bite))
    ensures AllLinkBack(db, bite, BiteLinks(bite, Rows(table)))
  {
    forall k: nat, l | k < |bite| && l in EarlierLinks(bite, k, Rows(table))
      ensures LinksBack(db, bite, k, l)
    {
      StoredAfter(cfg.entityFields, db, bite, Database(Space(cfg, db, bite), [], []), l.right);
      if !Stores(db, l.right) {
        var j :| 0 <= j < |bite| && bite[j].id == l.right;
        assert !ArrivesAfter(bite, k, l.right);
        assert j <= k;
      }
    }
  }

  lemma {:induction false} FreshPrefix(db: Database, ms: seq<Mention>, n: nat)
    requires Fresh(db, ms) && n <= |ms|
    ensures Fresh(db, ms[..n])
    ensures n < |ms| ==> !ArrivedBefore(ms[..n], n, ms[n].id)
  {
    assert IdsOf(ms[..n]) == IdsOf(ms)[..n];
    assert forall i | 0 <= i < |ms| :: IdsOf(ms)[i] == ms[i].id;
  }

  lemma {:induction false} LinkBackPrefix(db: Database, ms: seq<Mention>, links: seq<seq<Link>>, n: nat)
    requires AllLinkBack(db, ms, links) && n <= |ms|
    ensures AllLinkBack(db, ms[..n], links[..n])
  {
    forall k: nat, l | k < n && l in links[..n][k]
      ensures LinksBack(db, ms[..n], k, l)
    {
      assert LinksBack(db, ms, k, l);
    }
  }

  /** When its turn comes, every link of a mention leads into what is stored by then. */
  lemma {:induction false} LinksIntoStoreInTurn(fields: set<string>, db: Database, ms: seq<Mention>,
                                                links: seq<seq<Link>>, n: nat, now: Database)
    requires AllLinkBack(db, ms, links) && n < |ms|
    requires now.mentions == db.mentions + StoredAll(fields, ms[..n])
    ensures forall l | l in links[n] :: LinksIntoStore(now, ms[n].id, l)
  {
    forall l | l in links[n]
      ensures LinksIntoStore(now, ms[n].id, l)
    {
      assert LinksBack(db, ms, n, l);
      StoredAfter(fields, db, ms[..n], now, l.right);
      if ArrivedBefore(ms, n, l.right) {
        var j :| 0 <= j < n && ms[j].id == l.right;
        assert ms[..n][j].id == l.right;
      }
    }
  }

  lemma CommitOneKeepsAligned(cfg: Config, db: Database, m: Mention, links: seq<Link>)
    requires Aligned(db) && !Stores(db, m.id) && AllTouch(links, m.id)
    ensures Aligned(CommitOne(cfg, db, m, links))
  {
    var after := CommitOne(cfg, db, m, links);
    assert IdsOf(after.mentions) == IdsOf(db.mentions) + [m.id];
  }
}
