/** The resolver as it runs: it fills dictionaries and lists in loops and writes the shared tables. */
module EntityResolver {
  import opened Domain
  import opened Ordering
  import opened Ranking
  import opened Tables
  import opened Resolver
  import opened Forest
  import opened Storage
  import opened Time
  import opened Tracing
  import opened Lifecycle
  import opened TrainingTrigger

  /** The ids a bite links to. */
  function RightIds(grouped: map<MentionId, seq<Link>>): set<MentionId> {
    set id, l | id in grouped && l in grouped[id] :: l.right
  }

  function BiteIds(mentions: seq<Mention>): set<MentionId> {
    set i | 0 <= i < |mentions| :: mentions[i].id
  }

  /** `_rank_candidates`: fills the score table link by link. */
  method RankInLoop(topN: nat, id: MentionId, own: ClusterId, links: seq<Link>, clusters: map<MentionId, ClusterId>)
    returns (ranked: seq<Candidate>)
    requires AllTouch(links, id)
    ensures ranked == RankCandidates(topN, id, own, links, clusters)
  {
    var scores := Scores([], map[]);
    for i := 0 to |links|
      invariant scores == LinkedScores(links[..i], id, clusters)
    {
      var other := links[i].Other(id);
      assert links[..i + 1][..i] == links[..i];
      if other in clusters {
        scores := scores.Raise(clusters[other], links[i].score);
      }
    }
    assert links[..|links|] == links;
    scores := scores.SetDefault(own);
    ranked := Largest(topN, scores.Items(), CandidateScore);
  }

  /** `_links_to_earlier`: groups the rows by new mention, skipping links to itself and to later arrivals. */
  method LinksToEarlier(mentions: seq<Mention>, rows: seq<Link>) returns (grouped: map<MentionId, seq<Link>>)
    requires Distinct(IdsOf(mentions))
    requires forall row | row in rows :: row.left in IdsOf(mentions)
    ensures Groups(grouped, mentions, rows)
  {
    var arrival;
    arrival, grouped := Arrivals(mentions);
    for r := 0 to |rows|
      invariant Groups(grouped, mentions, rows[..r])
    {
      var row := rows[r];
      ghost var p := PositionOf(mentions, row.left);
      SkipsExactly(mentions, arrival, p, row.right);
      GroupsOneMore(grouped, mentions, rows[..r], row, p);
      assert rows[..r + 1] == rows[..r] + [row];
      if row.left != row.right && !(row.right in arrival && arrival[row.right] > arrival[row.left]) {
        grouped := grouped[row.left := grouped[row.left] + [row]];
      }
    }
    assert rows[..|rows|] == rows;
  }

  lemma PositionOf(mentions: seq<Mention>, id: MentionId) returns (p: nat)
    requires id in IdsOf(mentions)
    ensures p < |mentions| && mentions[p].id == id
  {
    p :| p < |mentions| && IdsOf(mentions)[p] == id;
  }

  /** The arrival position of each mention, and an empty list of links for each. */
  method Arrivals(mentions: seq<Mention>) returns (arrival: map<MentionId, int>, grouped: map<MentionId, seq<Link>>)
    requires Distinct(IdsOf(mentions))
    ensures arrival.Keys == BiteIds(mentions)
    ensures forall k | 0 <= k < |mentions| :: mentions[k].id in arrival && arrival[mentions[k].id] == k
    ensures Groups(grouped, mentions, [])
  {
    assert forall k | 0 <= k < |mentions| :: IdsOf(mentions)[k] == mentions[k].id;
    arrival := map i | 0 <= i < |mentions| :: mentions[i].id := i;
    grouped := map i | 0 <= i < |mentions| :: mentions[i].id := [];
  }

  ghost predicate Groups(grouped: map<MentionId, seq<Link>>, mentions: seq<Mention>, rows: seq<Link>) {
    && grouped.Keys == BiteIds(mentions)
    && forall i | 0 <= i < |mentions| :: grouped[mentions[i].id] == EarlierLinks(mentions, i, rows)
  }

  lemma {:induction false} GroupsOneMore(grouped: map<MentionId, seq<Link>>, mentions: seq<Mention>, rows: seq<Link>,
                                         row: Link, p: nat)
    requires Groups(grouped, mentions, rows) && Distinct(IdsOf(mentions)) && p < |mentions|
             && row.left == mentions[p].id
    ensures Groups(if KeepsRow(mentions, p, row) then grouped[row.left := grouped[row.left] + [row]] else grouped,
                   mentions, rows + [row])
  {
    assert (rows + [row])[..|rows|] == rows;
    forall i | 0 <= i < |mentions|
      ensures EarlierLinks(mentions, i, rows + [row])
              == EarlierLinks(mentions, i, rows) + (if i == p && KeepsRow(mentions, p, row) then [row] else [])
    {
      assert IdsOf(mentions)[i] == mentions[i].id && IdsOf(mentions)[p] == mentions[p].id;
    }
    assert forall i | 0 <= i < |mentions| :: IdsOf(mentions)[i] == mentions[i].id;
  }

  /** Arriving later in the bite is having a higher position in the arrival dictionary. */
  lemma {:induction false} SkipsExactly(mentions: seq<Mention>, arrival: map<MentionId, int>, p: nat, right: MentionId)
    requires p < |mentions| && arrival.Keys == BiteIds(mentions)
    requires forall k | 0 <= k < |mentions| :: mentions[k].id in arrival && arrival[mentions[k].id] == k
    ensures ArrivesAfter(mentions, p, right) <==> right in arrival && arrival[right] > p
  {
    if right in arrival {
      var k :| 0 <= k < |mentions| && mentions[k].id == right;
      assert arrival[right] == k;
    }
  }

  /** The two stages a turn records, in this order. */
  datatype TurnStages = TurnStages(scored: DeferredStage, clustered: DeferredStage) {
    predicate Records(trace: MentionTrace, events: (Event, Event), from: real, to: real) {
      && scored.trace == clustered.trace == trace
      && (scored.event, clustered.event) == events
      && from <= scored.at <= clustered.at <= to
    }
  }

  /** The stages recorded so far, turn by turn. */
  ghost predicate RecordsTurns(stages: seq<TurnStages>, traces: seq<MentionTrace>, events: seq<(Event, Event)>,
                               from: real, to: real) {
    && |stages| <= |traces| && |stages| <= |events|
    && forall i | 0 <= i < |stages| :: stages[i].Records(traces[i], events[i], from, to)
  }

  lemma {:induction false} RecordsOneMore(stages: seq<TurnStages>, stage: TurnStages, traces: seq<MentionTrace>,
                                          events: seq<(Event, Event)>, from: real, mid: real, to: real)
    requires |stages| < |traces| && |stages| < |events| && from <= mid <= to
    requires RecordsTurns(stages, traces, events, from, mid)
    requires stage.Records(traces[|stages|], events[|stages|], mid, to)
    ensures RecordsTurns(stages + [stage], traces, events, from, to)
  {
    var more := stages + [stage];
    forall i | 0 <= i < |more|
      ensures more[i].Records(traces[i], events[i], from, to)
    {
      if i < |stages| {
        assert stages[i].Records(traces[i], events[i], from, mid);
      }
    }
  }

  /** The dictionary the loop carries knows, of the linked ids, exactly what the tables would say by then. */
  ghost predicate KnowsClusters(known: map<MentionId, ClusterId>, ids: set<MentionId>, rows: seq<Membership>) {
    forall id | id in ids ::
      (id in known <==> id in ClusterMap(rows)) && (id in known ==> known[id] == ClusterMap(rows)[id])
  }

  lemma {:induction false} KnowsClustersOfLinks(known: map<MentionId, ClusterId>, ids: set<MentionId>, cfg: Config,
                                                db: Database, m: Mention, links: seq<Link>)
    requires KnowsClusters(known, ids, db.clusters) && AllTouch(links, m.id)
    requires forall l | l in links :: l.left == m.id && l.right != m.id && l.right in ids
    ensures JoinsBest(cfg, m.id, links, known) == JoinsBest(cfg, m.id, links, ClusterMap(db.clusters))
    ensures AssignCluster(cfg, m.id, links, known) == AssignCluster(cfg, m.id, links, ClusterMap(db.clusters))
    ensures forall own :: RankCandidates(cfg.topN, m.id, own, links, known[m.id := own])
                          == RankCandidates(cfg.topN, m.id, own, links, ClusterMap(db.clusters))
  {
    forall own
      ensures RankCandidates(cfg.topN, m.id, own, links, known[m.id := own])
              == RankCandidates(cfg.topN, m.id, own, links, ClusterMap(db.clusters))
    {
      LinkedScoresDependOnLinkedClusters(links, m.id, known[m.id := own], ClusterMap(db.clusters));
    }
  }

  lemma {:induction false} KnowsOneMore(known: map<MentionId, ClusterId>, ids: set<MentionId>, rows: seq<Membership>,
                                        row: Membership)
    requires KnowsClusters(known, ids, rows)
    ensures KnowsClusters(known[row.mention := row.cluster], ids, rows + [row])
  {
    ClusterMapSnoc(rows, row);
  }

  function MembershipRows(ms: seq<Mention>, clusters: map<MentionId, ClusterId>): (rows: seq<Membership>)
    requires forall i | 0 <= i < |ms| :: ms[i].id in clusters
    ensures |rows| == |ms|
  {
    seq(|ms|, i requires 0 <= i < |ms| => Membership(ms[i].id, clusters[ms[i].id]))
  }

  lemma {:induction false} OneMoreMembershipRow(ms: seq<Mention>, n: nat, clusters: map<MentionId, ClusterId>,
                                                cluster: ClusterId)
    requires n < |ms| && Distinct(IdsOf(ms)) && forall k | 0 <= k < n :: ms[k].id in clusters
    ensures var more := clusters[ms[n].id := cluster];
            && (forall k | 0 <= k < n + 1 :: ms[k].id in more)
            && MembershipRows(ms[..n + 1], more) == MembershipRows(ms[..n], clusters) + [Membership(ms[n].id, cluster)]
  {
    assert forall k | 0 <= k < |ms| :: IdsOf(ms)[k] == ms[k].id;
  }

  /** What a bite adds so far: the kept links and the clusters by mention. */
  ghost predicate Adds(db: Database, after: Database, ms: seq<Mention>, kept: seq<Link>,
                       biteClusters: map<MentionId, ClusterId>) {
    && after.links == db.links + kept
    && (forall k | 0 <= k < |ms| :: ms[k].id in biteClusters)
    && after.clusters == db.clusters + MembershipRows(ms, biteClusters)
  }

  lemma {:induction false} AddsOneMore(cfg: Config, db: Database, now: Database, ms: seq<Mention>, n: nat,
                                       kept: seq<Link>, biteClusters: map<MentionId, ClusterId>, links: seq<Link>)
    requires n < |ms| && Distinct(IdsOf(ms)) && AllTouch(links, ms[n].id)
    requires Adds(db, now, ms[..n], kept, biteClusters)
    ensures var cluster := AssignCluster(cfg, ms[n].id, links, ClusterMap(now.clusters));
            Adds(db, CommitOne(cfg, now, ms[n], links), ms[..n + 1], kept + BestLinks(cfg, links),
                 biteClusters[ms[n].id := cluster])
  {
    var cluster := AssignCluster(cfg, ms[n].id, links, ClusterMap(now.clusters));
    assert forall k | 0 <= k < n :: ms[..n][k] == ms[k];
    OneMoreMembershipRow(ms, n, biteClusters, cluster);
  }

  /** Results and additions after `n` turns are those of committing the mentions in order. */
  ghost predicate Decides(cfg: Config, db: Database, bite: seq<Mention>, links: seq<seq<Link>>, n: nat,
                          results: seq<seq<Candidate>>, kept: seq<Link>, biteClusters: map<MentionId, ClusterId>)
    requires LinksTouch(bite, links) && n <= |bite|
  {
    && results == RankAll(cfg, db, bite, links)[..n]
    && Adds(db, CommitAll(cfg, db, bite[..n], links[..n]), bite[..n], kept, biteClusters)
  }

  lemma DecidesNothing(cfg: Config, db: Database, bite: seq<Mention>, links: seq<seq<Link>>)
    requires LinksTouch(bite, links)
    ensures Decides(cfg, db, bite, links, 0, [], [], map[])
    ensures CommitAll(cfg, db, bite[..0], links[..0]) == db
  {
  }

  lemma TakeOneMore<T>(xs: seq<T>, n: nat)
    requires n < |xs|
    ensures xs[..n + 1] == xs[..n] + [xs[n]]
  {
  }

  lemma {:induction false} DecidesOneMore(cfg: Config, db: Database, bite: seq<Mention>, links: seq<seq<Link>>,
                                          n: nat, results: seq<seq<Candidate>>, kept: seq<Link>,
                                          biteClusters: map<MentionId, ClusterId>, cluster: ClusterId,
                                          ranked: seq<Candidate>)
    requires LinksTouch(bite, links) && n < |bite| && Distinct(IdsOf(bite))
    requires Decides(cfg, db, bite, links, n, results, kept, biteClusters)
    requires var now := CommitAll(cfg, db, bite[..n], links[..n]);
             && cluster == AssignCluster(cfg, bite[n].id, links[n], ClusterMap(now.clusters))
             && ranked == RankOne(cfg, now, bite[n], links[n])
    ensures Decides(cfg, db, bite, links, n + 1, results + [ranked], kept + BestLinks(cfg, links[n]),
                    biteClusters[bite[n].id := cluster])
  {
    CommitAllStep(cfg, db, bite, links, n);
    AddsOneMore(cfg, db, CommitAll(cfg, db, bite[..n], links[..n]), bite, n, kept, biteClusters, links[n]);
    TakeOneMore(RankAll(cfg, db, bite, links), n);
  }

  class Engine {
    const cfg: Config
    const con: Connection
    const mentions: MentionRepository
    const similarities: SimilarityRepository
    const clusters: ClusterRepository
    const clock: Clock
    /** The linker's current scoring; training may replace it between bites. */
    var linker: Linker
    /** How many background training threads have been started. */
    var trainingsStarted: nat

    constructor (cfg: Config, con: Connection, clock: Clock, linker: Linker)
      requires cfg.Valid() && ObeysPort(linker) && con.before == None && Invariant(cfg, con.db)
      ensures Valid() && trainingsStarted == 0
      ensures this.cfg == cfg && this.con == con && this.clock == clock && this.linker == linker
    {
      this.cfg, this.con, this.clock, this.linker := cfg, con, clock, linker;
      mentions := new MentionRepository(con, cfg.entityFields);
      similarities := new SimilarityRepository(con);
      clusters := new ClusterRepository(con);
      trainingsStarted := 0;
    }

    ghost predicate Wired()
      reads this`linker
    {
      && cfg.Valid() && ObeysPort(linker)
      && mentions.con == similarities.con == clusters.con == con
      && mentions.entityFields == cfg.entityFields
    }

    ghost predicate Valid()
      reads this`linker, con
    {
      Wired() && con.before == None && Invariant(cfg, con.db)
    }

    function Table(db: Database, bite: seq<Mention>): LinkTable
      reads this`linker
    {
      linker(bite, Space(cfg, db, bite))
    }

    /** Runs the assignments and rankings of a bite in arrival order, recording the stages for later. */
    method AssignBite(bite: seq<Mention>, traces: seq<MentionTrace>, grouped: map<MentionId, seq<Link>>,
                      linkedClusters: map<MentionId, ClusterId>, ghost db: Database, ghost rows: seq<Link>)
      returns (results: seq<seq<Candidate>>, kept: seq<Link>, biteClusters: map<MentionId, ClusterId>,
               stages: seq<TurnStages>)
      requires |traces| == |bite| && Fresh(db, bite) && Groups(grouped, bite, rows)
      requires KnowsClusters(linkedClusters, RightIds(grouped), db.clusters)
      modifies clock
      ensures Decides(cfg, db, bite, BiteLinks(bite, rows), |bite|, results, kept, biteClusters)
      ensures forall i | 0 <= i < |bite| :: bite[i].id in biteClusters
      ensures |stages| == |bite|
      ensures RecordsTurns(stages, traces, LinkEvents(cfg, db, bite, BiteLinks(bite, rows)), old(clock.now), clock.now)
      ensures clock.now >= old(clock.now)
    {
      hide CommitAll, Decides, KnowsClusters, RankCandidates;
      ghost var links := BiteLinks(bite, rows);
      ghost var events := LinkEvents(cfg, db, bite, links);
      results, kept, biteClusters, stages := [], [], map[], [];
      var known := linkedClusters;
      DecidesNothing(cfg, db, bite, links);
      for i := 0 to |bite|
        invariant clock.now >= old(clock.now)
        invariant Decides(cfg, db, bite, links, i, results, kept, biteClusters)
        invariant KnowsClusters(known, RightIds(grouped), CommitAll(cfg, db, bite[..i], links[..i]).clusters)
        invariant |stages| == i && RecordsTurns(stages, traces, events, old(clock.now), clock.now)
      {
        var m := bite[i];
        ghost var now := CommitAll(cfg, db, bite[..i], links[..i]);
        var mine := grouped[m.id];
        KnowsClustersOfLinks(known, RightIds(grouped), cfg, now, m, mine);
        ghost var mid := clock.now;
        var cluster, turn := Assign(m, mine, known, traces[i]);
        assert events[i] == TurnEvents(cfg, db, bite, links, i);
        RecordsOneMore(stages, turn, traces, events, old(clock.now), mid, clock.now);
        stages := stages + [turn];
        var ranked := RankInLoop(cfg.topN, m.id, cluster, mine, known[m.id := cluster]);
        DecidesOneMore(cfg, db, bite, links, i, results, kept, biteClusters, cluster, ranked);
        KnowsOneMore(known, RightIds(grouped), now.clusters, Membership(m.id, cluster));
        CommitAllStep(cfg, db, bite, links, i);
        biteClusters := biteClusters[m.id := cluster];
        known := known[m.id := cluster];
        results := results + [ranked];
        kept := kept + BestLinks(cfg, mine);
      }
      DecidesAll(cfg, db, bite, links, results, kept, biteClusters);
    }

    /** `_assign_cluster`. */
    method Assign(m: Mention, links: seq<Link>, linkedClusters: map<MentionId, ClusterId>, trace: MentionTrace)
      returns (cluster: ClusterId, turn: TurnStages)
      requires AllTouch(links, m.id)
      modifies clock
      ensures cluster == AssignCluster(cfg, m.id, links, linkedClusters)
      ensures turn.Records(trace, (ScoredEvent(links), Clustered(JoinsBest(cfg, m.id, links, linkedClusters), cluster)),
                           old(clock.now), clock.now)
    {
      var t := clock.Read();
      var scored := DeferredStage(trace, ScoredEvent(links), t);
      var joined := false;
      cluster := FoundedBy(m.id);
      if links != [] {
        var best := FirstMax(links, LinkScore);
        if best.Other(m.id) in linkedClusters && best.score >= cfg.threshold {
          cluster, joined := linkedClusters[best.Other(m.id)], true;
        }
      }
      t := clock.Read();
      turn := TurnStages(scored, DeferredStage(trace, Clustered(joined, cluster), t));
    }

    /** The tables a bite adds to, once its mentions are stored. */
    method StoreMentions(bite: seq<Mention>) returns (fault: Option<Fault>)
      requires Wired()
      modifies con`db, con`faults
      ensures fault == None ==> con.db == old(con.db).(mentions := Space(cfg, old(con.db), bite))
      ensures Struck(old(con.faults), con.faults, AsList(fault))
    {
      hide Struck;
      fault := None;
      NothingStruck(con.faults);
      for i := 0 to |bite|
        invariant fault == None
        invariant con.db == old(con.db).(mentions := old(con.db.mentions) + StoredAll(cfg.entityFields, bite[..i]))
        invariant Struck(old(con.faults), con.faults, [])
      {
        ghost var before := con.faults;
        fault := mentions.Save(bite[i]);
        StruckNext(old(con.faults), before, con.faults, AsList(fault));
        if fault != None {
          return;
        }
        assert StoredAll(cfg.entityFields, bite[..i + 1])
               == StoredAll(cfg.entityFields, bite[..i]) + [Stored(cfg.entityFields, bite[i])];
      }
      assert bite[..|bite|] == bite;
    }

    method StoreClusters(bite: seq<Mention>, biteClusters: map<MentionId, ClusterId>) returns (fault: Option<Fault>)
      requires Wired()
      requires forall i | 0 <= i < |bite| :: bite[i].id in biteClusters
      modifies con`db, con`faults
      ensures fault == None ==>
                con.db == old(con.db).(clusters := old(con.db.clusters) + MembershipRows(bite, biteClusters))
      ensures Struck(old(con.faults), con.faults, AsList(fault))
    {
      hide Struck;
      fault := None;
      NothingStruck(con.faults);
      for i := 0 to |bite|
        invariant fault == None
        invariant con.db == old(con.db).(clusters := old(con.db.clusters) + MembershipRows(bite[..i], biteClusters))
        invariant Struck(old(con.faults), con.faults, [])
      {
        ghost var before := con.faults;
        fault := clusters.Save(Membership(bite[i].id, biteClusters[bite[i].id]));
        StruckNext(old(con.faults), before, con.faults, AsList(fault));
        if fault != None {
          return;
        }
        assert MembershipRows(bite[..i + 1], biteClusters)
               == MembershipRows(bite[..i], biteClusters) + [Membership(bite[i].id, biteClusters[bite[i].id])];
      }
      assert bite[..|bite|] == bite;
    }

    /** The links kept of a bite and its cluster assignments. */
    method StoreResults(bite: seq<Mention>, kept: seq<Link>, biteClusters: map<MentionId, ClusterId>)
      returns (fault: Option<Fault>)
      requires Wired()
      requires forall i | 0 <= i < |bite| :: bite[i].id in biteClusters
      modifies con`db, con`faults
      ensures fault == None ==>
                con.db == Database(old(con.db).mentions, old(con.db).links + kept,
                                   old(con.db).clusters + MembershipRows(bite, biteClusters))
      ensures Struck(old(con.faults), con.faults, AsList(fault))
    {
      hide Struck;
      TableRoundTrip(kept);
      fault := similarities.SaveTable(ToLinkTable(kept));
      if fault != None {
        return;
      }
      ghost var at := con.faults;
      fault := StoreClusters(bite, biteClusters);
      StruckNext(old(con.faults), at, con.faults, AsList(fault));
    }

    /** One linker call for the bite, whose mentions are stored by now. */
    method FindMatches(bite: seq<Mention>) returns (fault: Option<Fault>, table: LinkTable)
      modifies con`faults
      ensures table == linker(bite, con.db.mentions)
      ensures Struck(old(con.faults), con.faults, AsList(fault))
    {
      fault := con.Statement();
      table := linker(bite, con.db.mentions);
    }

    /** `_resolve_bite`, inside the transaction. A fault leaves it half done, for the rollback to undo. */
    method ResolveBite(bite: seq<Mention>, traces: seq<MentionTrace>)
      returns (fault: Option<Fault>, results: seq<seq<Candidate>>, stages: seq<TurnStages>)
      requires Wired() && Aligned(con.db) && Fresh(con.db, bite) && |traces| == |bite|
      modifies con`db, con`faults, clock
      ensures Struck(old(con.faults), con.faults, AsList(fault))
      ensures fault == None ==>
                && con.db == Resolver.ResolveBite(cfg, old(con.db), bite, Table(old(con.db), bite))
                && results == BiteResults(cfg, old(con.db), bite, Table(old(con.db), bite))
                && |stages| == |bite|
                && RecordsTurns(stages, traces, TurnsOf(old(con.db), bite), old(clock.now), clock.now)
      ensures clock.now >= old(clock.now)
    {
      hide CommitAll, Decides, RecordsTurns, EarlierLinks, Struck;
      ghost var db := con.db;
      results, stages := [], [];
      fault := StoreMentions(bite);
      if fault != None {
        return;
      }
      var table;
      ghost var at := con.faults;
      fault, table := FindMatches(bite);
      StruckNext(old(con.faults), at, con.faults, AsList(fault));
      if fault != None {
        return;
      }
      SpaceHoldsBite(cfg, db, bite);
      assert ScoresBite(table, bite, Space(cfg, db, bite));
      var rows := Rows(table);
      var grouped := LinksToEarlier(bite, rows);
      var ids := RightIds(grouped) - BiteIds(bite);
      var linkedClusters;
      at := con.faults;
      fault, linkedClusters := clusters.ClustersOf(ids);
      StruckNext(old(con.faults), at, con.faults, AsList(fault));
      if fault != None {
        return;
      }
      KnowsStoredClusters(db, bite, RightIds(grouped));
      var kept, biteClusters;
      results, kept, biteClusters, stages := AssignBite(bite, traces, grouped, linkedClusters, db, rows);
      at := con.faults;
      fault := StoreResults(bite, kept, biteClusters);
      StruckNext(old(con.faults), at, con.faults, AsList(fault));
      if fault != None {
        return;
      }
      DecidesAll(cfg, db, bite, BiteLinks(bite, rows), results, kept, biteClusters);
    }

    /** `resolve_batch`: one bite of new mentions, all or nothing; stages are emitted only after the commit. */
    method ResolveBatch(bite: seq<Mention>, traces: seq<MentionTrace>)
      returns (fault: Option<Fault>, results: seq<seq<Candidate>>)
      requires Valid() && Fresh(con.db, bite)
      requires |traces| == |bite| && Distinct(traces) && UpToDate(traces, clock)
      modifies con, clock, traces, this`trainingsStarted
      ensures Valid() && UpToDate(traces, clock) && clock.now >= old(clock.now)
      ensures Struck(old(con.faults), con.faults, AsList(fault))
      ensures fault == None ==>
                && con.db == Resolver.ResolveBite(cfg, old(con.db), bite, Table(old(con.db), bite))
                && results == BiteResults(cfg, old(con.db), bite, Table(old(con.db), bite))
      ensures fault == None ==>
                forall i | 0 <= i < |bite| ::
                  Logs(old(traces[i].log), traces[i].log, CommitEvents(TurnsOf(old(con.db), bite)[i]))
      ensures fault == None ==>
                trainingsStarted == old(trainingsStarted)
                  + if Crosses(cfg.autoTrainThreshold, |old(con.db.mentions)|, |con.db.mentions|) then 1 else 0
      ensures fault != None ==>
                && con.db == old(con.db) && trainingsStarted == old(trainingsStarted)
                && forall i | 0 <= i < |bite| :: traces[i].log == old(traces[i].log)
    {
      hide CommitAll, RecordsTurns, Logs, Struck, BiteResults, BiteEvents, Fresh, Invariant, CommitEvents, Wired;
      fault, results := None, [];
      if bite == [] {
        NothingStruck(con.faults);
        NothingToResolve(cfg, con.db, Table(con.db, bite));
        return;
      }
      fault := con.Statement();
      if fault != None {
        return;
      }
      var storedBefore := |con.db.mentions|;
      ghost var db := con.db;
      ghost var start := clock.now;
      ghost var events := TurnsOf(db, bite);
      var stages;
      ghost var at := con.faults;
      fault, results, stages := Transact(bite, traces);
      StruckNext(old(con.faults), at, con.faults, AsList(fault));
      if fault != None {
        return;
      }
      EmitStages(stages, traces, clock, events, start);
      MaybeStartTraining(storedBefore, storedBefore + |bite|);
    }

    /** The two events of each turn of a bite. */
    function TurnsOf(db: Database, bite: seq<Mention>): (events: seq<(Event, Event)>)
      reads this`linker
      ensures |events| == |bite|
    {
      BiteEvents(cfg, db, bite, Table(db, bite))
    }

    /** The unit of work around one bite: committed as a whole, or the tables as they were. */
    method Transact(bite: seq<Mention>, traces: seq<MentionTrace>)
      returns (fault: Option<Fault>, results: seq<seq<Candidate>>, stages: seq<TurnStages>)
      requires Valid() && Fresh(con.db, bite) && |traces| == |bite|
      modifies con, clock
      ensures Valid() && clock.now >= old(clock.now)
      ensures Struck(old(con.faults), con.faults, AsList(fault))
      ensures fault == None ==>
                && con.db == Resolver.ResolveBite(cfg, old(con.db), bite, Table(old(con.db), bite))
                && results == BiteResults(cfg, old(con.db), bite, Table(old(con.db), bite))
                && |stages| == |bite|
                && RecordsTurns(stages, traces, TurnsOf(old(con.db), bite), old(clock.now), clock.now)
      ensures fault != None ==> con.db == old(con.db)
    {
      hide CommitAll, RecordsTurns, Struck;
      results, stages := [], [];
      ghost var db := con.db;
      fault := con.Begin();
      if fault != None {
        return;
      }
      ghost var at := con.faults;
      fault, results, stages := ResolveBite(bite, traces);
      StruckNext(old(con.faults), at, con.faults, AsList(fault));
      if fault != None {
        con.Rollback();
        return;
      }
      at := con.faults;
      fault := con.Commit();
      StruckNext(old(con.faults), at, con.faults, AsList(fault));
      if fault != None {
        return;
      }
      SpaceHoldsBite(cfg, db, bite);
      BiteKeepsInvariant(cfg, db, bite, Table(db, bite));
    }

    method MaybeStartTraining(storedBefore: nat, storedAfter: nat)
      modifies this`trainingsStarted
      ensures trainingsStarted
              == old(trainingsStarted) + if Crosses(cfg.autoTrainThreshold, storedBefore, storedAfter) then 1 else 0
    {
      if cfg.autoTrainThreshold <= 0 || !(storedBefore < cfg.autoTrainThreshold <= storedAfter) {
        return;
      }
      trainingsStarted := trainingsStarted + 1;
    }
  }

  /** No trace is ahead of the clock. */
  ghost predicate UpToDate(traces: seq<MentionTrace>, clock: Clock)
    reads traces, clock
  {
    forall i | 0 <= i < |traces| :: traces[i].last <= clock.now
  }

  /** Emits the recorded stages, turn by turn, and then closes every trace as persisted. */
  method EmitStages(stages: seq<TurnStages>, traces: seq<MentionTrace>, clock: Clock,
                    ghost events: seq<(Event, Event)>, ghost from: real)
    requires |stages| == |traces| == |events| && Distinct(traces)
    requires RecordsTurns(stages, traces, events, from, clock.now)
    requires forall i | 0 <= i < |traces| :: traces[i].last <= from
    modifies traces, clock
    ensures UpToDate(traces, clock) && clock.now >= old(clock.now)
    ensures forall i | 0 <= i < |traces| :: Logs(old(traces[i].log), traces[i].log, CommitEvents(events[i]))
  {
    hide Logs;
    EmitTurns(stages, traces, clock, events, from);
    label Emitted:
    MarkPersisted(traces, clock);
    forall i | 0 <= i < |traces|
      ensures Logs(old(traces[i].log), traces[i].log, CommitEvents(events[i]))
    {
      var turn := [events[i].0, events[i].1];
      LogsCompose(old(traces[i].log), old@Emitted(traces[i].log), traces[i].log, turn, [Persisted]);
      assert turn + [Persisted] == CommitEvents(events[i]);
    }
  }

  method EmitTurns(stages: seq<TurnStages>, traces: seq<MentionTrace>, clock: Clock,
                   ghost events: seq<(Event, Event)>, ghost from: real)
    requires |stages| == |traces| == |events| && Distinct(traces)
    requires RecordsTurns(stages, traces, events, from, clock.now)
    requires forall i | 0 <= i < |traces| :: traces[i].last <= from
    modifies traces
    ensures UpToDate(traces, clock)
    ensures forall i | 0 <= i < |traces| :: Logs(old(traces[i].log), traces[i].log, [events[i].0, events[i].1])
  {
    hide Logs;
    for i := 0 to |stages|
      invariant forall k | 0 <= k < i ::
                  && Logs(old(traces[k].log), traces[k].log, [events[k].0, events[k].1])
                  && traces[k].last <= clock.now
      invariant forall k | i <= k < |traces| ::
                  traces[k].log == old(traces[k].log) && traces[k].last == old(traces[k].last)
    {
      assert stages[i].Records(traces[i], events[i], from, clock.now);
      EmitTurn(stages[i]);
    }
  }

  method MarkPersisted(traces: seq<MentionTrace>, clock: Clock)
    requires Distinct(traces) && UpToDate(traces, clock)
    modifies traces, clock
    ensures UpToDate(traces, clock) && clock.now >= old(clock.now)
    ensures forall i | 0 <= i < |traces| :: Logs(old(traces[i].log), traces[i].log, [Persisted])
  {
    hide Logs;
    for i := 0 to |traces|
      invariant clock.now >= old(clock.now)
      invariant forall k | 0 <= k < i ::
                  Logs(old(traces[k].log), traces[k].log, [Persisted]) && traces[k].last <= clock.now
      invariant forall k | i <= k < |traces| ::
                  traces[k].log == old(traces[k].log) && traces[k].last == old(traces[k].last)
    {
      traces[i].StageNow(Persisted, clock);
    }
  }

  method EmitTurn(turn: TurnStages)
    requires turn.scored.trace == turn.clustered.trace
    requires turn.scored.trace.last <= turn.scored.at <= turn.clustered.at
    modifies turn.scored.trace
    ensures turn.scored.trace.last == turn.clustered.at
    ensures Logs(old(turn.scored.trace.log), turn.scored.trace.log, [turn.scored.event, turn.clustered.event])
  {
    ghost var before := turn.scored.trace.log;
    turn.scored.trace.StageAt(turn.scored.event, turn.scored.at);
    ghost var between := turn.scored.trace.log;
    turn.clustered.trace.StageAt(turn.clustered.event, turn.clustered.at);
    LogsCompose(before, between, turn.scored.trace.log, [turn.scored.event], [turn.clustered.event]);
  }

  lemma NothingToResolve(cfg: Config, db: Database, table: LinkTable)
    ensures Resolver.ResolveBite(cfg, db, [], table) == db && BiteResults(cfg, db, [], table) == []
  {
  }

  /** No mention of a fresh bite has a cluster yet, so leaving the bite out of the query loses nothing. */
  lemma {:induction false} KnowsStoredClusters(db: Database, bite: seq<Mention>, ids: set<MentionId>)
    requires Aligned(db) && Fresh(db, bite)
    ensures KnowsClusters(ClustersFor(db.clusters, ids - BiteIds(bite)), ids, db.clusters)
  {
    AlignedLookups(db);
  }

  lemma {:induction false} DecidesAll(cfg: Config, db: Database, bite: seq<Mention>, links: seq<seq<Link>>,
                                      results: seq<seq<Candidate>>, kept: seq<Link>,
                                      biteClusters: map<MentionId, ClusterId>)
    requires LinksTouch(bite, links) && Decides(cfg, db, bite, links, |bite|, results, kept, biteClusters)
    ensures results == RankAll(cfg, db, bite, links)
    ensures forall i | 0 <= i < |bite| :: bite[i].id in biteClusters
    ensures CommitAll(cfg, db, bite, links)
            == Database(Space(cfg, db, bite), db.links + kept, db.clusters + MembershipRows(bite, biteClusters))
  {
    assert bite[..|bite|] == bite;
    assert links[..|bite|] == links;
  }
}
