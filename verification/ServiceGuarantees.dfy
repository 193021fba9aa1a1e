/** What a batch guarantees whatever fails inside its units of work. */
module ServiceGuarantees {
  import opened Domain
  import opened Tables
  import opened Resolver
  import opened Forest
  import opened Requery
  import opened Storage
  import opened Tracing
  import opened Lifecycle
  import opened Service

  lemma {:induction false} GuardsStep(cfg: Config, db: Database, requests: seq<Request>, i: nat)
    requires i < |requests|
    ensures Guards(cfg, db, requests[..i + 1])
            == Guards(cfg, db, requests[..i])
               + [Guard(cfg, db, requests[i], FirstSeen(Guards(cfg, db, requests[..i])))]
  {
    assert requests[..i + 1][..i] == requests[..i];
  }

  /** The outcome of a request depends only on the requests before it. */
  lemma {:induction false} GuardsPrefix(cfg: Config, db: Database, requests: seq<Request>, i: nat)
    requires i <= |requests|
    ensures Guards(cfg, db, requests)[..i] == Guards(cfg, db, requests[..i])
    decreases |requests| - i
  {
    if i < |requests| {
      GuardsPrefix(cfg, db, requests, i + 1);
      GuardsStep(cfg, db, requests, i);
      assert Guards(cfg, db, requests)[..i] == Guards(cfg, db, requests)[..i + 1][..i];
    } else {
      assert requests[..i] == requests;
    }
  }

  lemma {:induction false} GuardAt(cfg: Config, db: Database, requests: seq<Request>, i: nat)
    requires i < |requests|
    ensures Guards(cfg, db, requests)[i]
            == Guard(cfg, db, requests[i], FirstSeen(Guards(cfg, db, requests[..i])))
  {
    GuardsPrefix(cfg, db, requests, i + 1);
    GuardsStep(cfg, db, requests, i);
    assert Guards(cfg, db, requests)[i] == Guards(cfg, db, requests)[..i + 1][i];
  }

  lemma {:induction false} PendingMentionsSnoc(outcomes: seq<Outcome>, o: Outcome)
    ensures PendingMentions(outcomes + [o]) == PendingMentions(outcomes) + (if o.Pending? then [o.mention] else [])
    ensures !o.Pending? ==> PendingMentions(outcomes + [o]) == PendingMentions(outcomes)
    ensures FirstSeen(outcomes + [o])
            == if o.Pending? then FirstSeen(outcomes)[o.mention.id := o.mention] else FirstSeen(outcomes)
  {
    assert (outcomes + [o])[..|outcomes|] == outcomes;
  }

  /** The dictionary of first mentions holds exactly the pending ones. */
  ghost predicate Records(firstSeen: map<MentionId, Mention>, ms: seq<Mention>) {
    && (forall id | id in firstSeen :: id in IdsOf(ms))
    && (forall k | 0 <= k < |ms| :: ms[k].id in firstSeen && firstSeen[ms[k].id] == ms[k])
  }

  lemma RecordsOneMore(firstSeen: map<MentionId, Mention>, ms: seq<Mention>, m: Mention)
    requires Records(firstSeen, ms) && m.id !in firstSeen
    ensures Records(firstSeen[m.id := m], ms + [m])
    ensures forall k | 0 <= k < |ms| :: ms[k].id != m.id
  {
    assert IdsOf(ms + [m]) == IdsOf(ms) + IdsOf([m]);
    assert IdsOf([m])[0] == m.id;
  }

  /** The mentions left to resolve are new: of pairwise different ids, and none of them stored. */
  lemma {:induction false} PendingIsFresh(cfg: Config, db: Database, requests: seq<Request>)
    requires Aligned(db)
    ensures Fresh(db, PendingMentions(Guards(cfg, db, requests)))
    ensures Records(FirstSeen(Guards(cfg, db, requests)), PendingMentions(Guards(cfg, db, requests)))
  {
    if requests != [] {
      var n := |requests| - 1;
      var before := Guards(cfg, db, requests[..n]);
      PendingIsFresh(cfg, db, requests[..n]);
      var o := Guard(cfg, db, requests[n], FirstSeen(before));
      PendingMentionsSnoc(before, o);
      if o.Pending? {
        LookupsAgree(db, o.mention.id);
        RecordsOneMore(FirstSeen(before), PendingMentions(before), o.mention);
        FreshOneMore(db, PendingMentions(before), o.mention);
      }
    }
  }

  lemma {:induction false} FreshOneMore(db: Database, ms: seq<Mention>, m: Mention)
    requires Fresh(db, ms) && !Stores(db, m.id)
    requires forall k | 0 <= k < |ms| :: ms[k].id != m.id
    ensures Fresh(db, ms + [m])
  {
    var ids := IdsOf(ms + [m]);
    forall i, j | 0 <= i < j < |ids|
      ensures ids[i] != ids[j]
    {
      assert i < |ms| && ids[i] == ms[i].id;
      if j < |ms| {
        assert IdsOf(ms)[i] != IdsOf(ms)[j];
      }
    }
  }

  /** The pending mentions whose attempt was committed, in order. */
  function CommittedOf(ms: seq<Mention>, attempts: seq<Attempt>): seq<Mention>
    requires |attempts| == |ms|
  {
    if ms == [] then []
    else
      var n := |ms| - 1;
      CommittedOf(ms[..n], attempts[..n]) + (if attempts[n].Committed? then [ms[n]] else [])
  }

  function CommittedMentions(ms: seq<Mention>, fate: Fate): seq<Mention>
    requires Possible(fate, |ms|)
  {
    match fate
    case Whole => ms
    case Apart(attempts) => CommittedOf(ms, attempts)
  }

  lemma {:induction false} CommittedOfMembers(ms: seq<Mention>, attempts: seq<Attempt>, id: MentionId)
    requires |attempts| == |ms|
    ensures ArrivedBefore(CommittedOf(ms, attempts), |CommittedOf(ms, attempts)|, id) <==>
              exists k | 0 <= k < |ms| :: ms[k].id == id && attempts[k].Committed?
  {
    if ms != [] {
      var n := |ms| - 1;
      CommittedOfMembers(ms[..n], attempts[..n], id);
      var before, all := CommittedOf(ms[..n], attempts[..n]), CommittedOf(ms, attempts);
      if attempts[n].Committed? {
        assert all == before + [ms[n]];
        if ArrivedBefore(all, |all|, id) && ms[n].id != id {
          assert ArrivedBefore(before, |before|, id);
        }
        if k :| 0 <= k < |ms| && ms[k].id == id && attempts[k].Committed? {
          if k < n {
            assert ms[..n][k].id == id && attempts[..n][k].Committed?;
            var j :| 0 <= j < |before| && before[j].id == id;
            assert all[j].id == id;
          } else {
            assert all[|before|].id == id;
          }
        }
      } else {
        assert all == before;
        assert forall k | 0 <= k < n :: ms[..n][k] == ms[k] && attempts[..n][k] == attempts[k];
      }
    }
  }

  /** Each attempt stores its own mention or nothing, and every state on the way is a proper one. */
  lemma {:induction false} AttemptsStoreTheCommitted(cfg: Config, linker: Linker, db: Database, ms: seq<Mention>,
                                                     attempts: seq<Attempt>)
    requires cfg.Valid() && ObeysPort(linker) && Invariant(cfg, db) && Fresh(db, ms) && |attempts| == |ms|
    ensures var after := AfterApart(cfg, linker, db, ms, attempts);
            && Invariant(cfg, after) && Extends(db, after)
            && after.mentions == db.mentions + StoredAll(cfg.entityFields, CommittedOf(ms, attempts))
  {
    hide Invariant;
    if ms != [] {
      var n := |ms| - 1;
      var before := AfterApart(cfg, linker, db, ms[..n], attempts[..n]);
      FreshPrefix(db, ms, n);
      AttemptsStoreTheCommitted(cfg, linker, db, ms[..n], attempts[..n]);
      if attempts[n].Committed? {
        NotYetStored(cfg, db, ms, attempts, n, before);
        SingleIsFresh(before, ms[n]);
        SpaceHoldsBite(cfg, before, [ms[n]]);
        BiteKeepsInvariant(cfg, before, [ms[n]], TableFor(cfg, linker, before, [ms[n]]));
        assert StoredAll(cfg.entityFields, CommittedOf(ms, attempts))
               == StoredAll(cfg.entityFields, CommittedOf(ms[..n], attempts[..n]))
                   + StoredAll(cfg.entityFields, [ms[n]]);
      }
    }
  }

  lemma SingleIsFresh(db: Database, m: Mention)
    requires !Stores(db, m.id)
    ensures Fresh(db, [m])
  {
  }

  lemma {:induction false} NotYetStored(cfg: Config, db: Database, ms: seq<Mention>, attempts: seq<Attempt>, n: nat,
                                        before: Database)
    requires Fresh(db, ms) && n < |ms| && |attempts| == |ms|
    requires before.mentions == db.mentions + StoredAll(cfg.entityFields, CommittedOf(ms[..n], attempts[..n]))
    ensures !Stores(before, ms[n].id)
  {
    var committed := CommittedOf(ms[..n], attempts[..n]);
    StoredAfter(cfg.entityFields, db, committed, before, ms[n].id);
    CommittedOfMembers(ms[..n], attempts[..n], ms[n].id);
    FreshPrefix(db, ms, n);
    assert forall k | 0 <= k < n :: ms[..n][k].id != ms[n].id;
  }

  /** The tables after a batch: a proper state that adds exactly the committed new mentions, once each. */
  lemma {:induction false} BatchStoresTheCommitted(cfg: Config, linker: Linker, db: Database, requests: seq<Request>,
                                                   fate: Fate)
    requires cfg.Valid() && ObeysPort(linker) && Invariant(cfg, db)
    requires Possible(fate, |PendingPositions(Guards(cfg, db, requests))|)
    ensures var after := BatchDatabase(cfg, linker, db, requests, fate);
            var pending := PendingMentions(Guards(cfg, db, requests));
            && Invariant(cfg, after) && Extends(db, after)
            && after.mentions == db.mentions + StoredAll(cfg.entityFields, CommittedMentions(pending, fate))
  {
    hide Guards, PendingPositions, PendingMentions, CommittedOf, AfterApart, Aligned, Stores;
    var pending := PendingMentions(Guards(cfg, db, requests));
    PendingIsFresh(cfg, db, requests);
    match fate
    case Whole =>
      SpaceHoldsBite(cfg, db, pending);
      BiteKeepsInvariant(cfg, db, pending, TableFor(cfg, linker, db, pending));
    case Apart(attempts) =>
      AttemptsStoreTheCommitted(cfg, linker, db, pending, attempts);
  }

  /** After a batch the k-th pending mention is stored if and only if it was committed. */
  lemma {:induction false} StoredExactlyIfCommitted(cfg: Config, linker: Linker, db: Database, requests: seq<Request>,
                                                    fate: Fate, k: nat)
    requires cfg.Valid() && ObeysPort(linker) && Invariant(cfg, db)
    requires Possible(fate, |PendingPositions(Guards(cfg, db, requests))|)
    requires k < |PendingPositions(Guards(cfg, db, requests))|
    ensures Stores(BatchDatabase(cfg, linker, db, requests, fate), PendingMentions(Guards(cfg, db, requests))[k].id)
            <==> IsCommitted(fate, k)
  {
    hide Guards, PendingPositions, PendingMentions, BatchDatabase, ObeysPort, CommittedOf, Stores, Aligned;
    var pending := PendingMentions(Guards(cfg, db, requests));
    var committed := CommittedMentions(pending, fate);
    var id := pending[k].id;
    PendingIsFresh(cfg, db, requests);
    BatchStoresTheCommitted(cfg, linker, db, requests, fate);
    StoredAfter(cfg.entityFields, db, committed, BatchDatabase(cfg, linker, db, requests, fate), id);
    match fate
    case Whole =>
      assert committed[k].id == id;
    case Apart(attempts) =>
      CommittedOfMembers(pending, attempts, id);
      assert forall j | 0 <= j < |pending| :: IdsOf(pending)[j] == pending[j].id;
      assert forall j | 0 <= j < |pending| && pending[j].id == id :: j == k;
  }

  /** An id that is not stored occurs in none of the tables. */
  lemma {:induction false} UnstoredLeavesNoRows(cfg: Config, db: Database, id: MentionId)
    requires Invariant(cfg, db) && !Stores(db, id)
    ensures FindById(db.mentions, id) == None && ClusterOf(db.clusters, id) == None && FindFor(db.links, id) == []
  {
    FindByIdIsFirst(db.mentions, id);
    LookupsAgree(db, id);
    StoredLinksAreProbabilities(cfg, db, id);
    FindForNone(db.links, id);
  }

  /** Exactly one stored mention has this id, and it has a cluster. */
  ghost predicate StoredOnceAt(db: Database, id: MentionId, p: nat) {
    && p < |db.mentions|
    && (forall j | 0 <= j < |db.mentions| :: db.mentions[j].id == id <==> j == p)
    && ClusterOf(db.clusters, id).Some?
  }

  lemma {:induction false} StoredOnce(db: Database, id: MentionId)
    requires Aligned(db) && Stores(db, id)
    ensures exists p: nat :: StoredOnceAt(db, id, p)
  {
    var p :| 0 <= p < |db.mentions| && IdsOf(db.mentions)[p] == id;
    LookupsAgree(db, id);
    assert forall j | 0 <= j < |db.mentions| :: IdsOf(db.mentions)[j] == db.mentions[j].id;
    assert StoredOnceAt(db, id, p);
  }

  /** A pending request is answered with a resolution exactly if its mention was committed. */
  lemma {:induction false} PendingAnswer(cfg: Config, linker: Linker, db: Database, requests: seq<Request>,
                                         fate: Fate, i: nat)
    requires Possible(fate, |PendingPositions(Guards(cfg, db, requests))|)
    requires i < |requests| && Guards(cfg, db, requests)[i].Pending?
    ensures PendingRank(Guards(cfg, db, requests), i) < |PendingPositions(Guards(cfg, db, requests))|
    ensures PendingMentions(Guards(cfg, db, requests))[PendingRank(Guards(cfg, db, requests), i)]
            == Guards(cfg, db, requests)[i].mention
    ensures BatchResponse(cfg, linker, db, requests, fate, i).Resolution?
            <==> IsCommitted(fate, PendingRank(Guards(cfg, db, requests), i))
  {
    PendingRankIsPlace(Guards(cfg, db, requests), i);
  }

  /**
   * Whatever fails inside the units of work: a request whose mention is to be resolved is answered with a
   * resolution if and only if its mention was committed; then the mention is stored once, with one cluster;
   * otherwise the answer is an error and the mention occurs in no table.
   */
  lemma {:induction false} PendingIsAllOrNothing(cfg: Config, linker: Linker, db: Database, requests: seq<Request>,
                                                 fate: Fate, i: nat)
    requires cfg.Valid() && ObeysPort(linker) && Invariant(cfg, db)
    requires Possible(fate, |PendingPositions(Guards(cfg, db, requests))|)
    requires i < |requests| && Guards(cfg, db, requests)[i].Pending?
    ensures var after := BatchDatabase(cfg, linker, db, requests, fate);
            var response := BatchResponse(cfg, linker, db, requests, fate, i);
            var id := Guards(cfg, db, requests)[i].mention.id;
            && !Stores(db, id)
            && (response.Resolution? ==> exists p: nat :: StoredOnceAt(after, id, p))
            && (response.Failure? ==> FindById(after.mentions, id) == None && ClusterOf(after.clusters, id) == None
                                      && FindFor(after.links, id) == [])
  {
    hide BatchDatabase, BatchResponse, Guards, PendingMentions, PendingPositions, CommittedMentions, FindFor;
    var outcomes := Guards(cfg, db, requests);
    var after := BatchDatabase(cfg, linker, db, requests, fate);
    PendingAnswer(cfg, linker, db, requests, fate, i);
    PendingIsFresh(cfg, db, requests);
    StoredExactlyIfCommitted(cfg, linker, db, requests, fate, PendingRank(outcomes, i));
    BatchStoresTheCommitted(cfg, linker, db, requests, fate);
    var id := outcomes[i].mention.id;
    if Stores(after, id) {
      StoredOnce(after, id);
    } else {
      UnstoredLeavesNoRows(cfg, after, id);
    }
  }

  function FailedPositions(attempts: seq<Attempt>): set<nat> {
    set k | 0 <= k < |attempts| && attempts[k].Failed?
  }

  lemma {:induction false} OneFaultPerFailure(attempts: seq<Attempt>)
    ensures |FaultsOf(attempts)| == |FailedPositions(attempts)|
  {
    if attempts != [] {
      var n := |attempts| - 1;
      OneFaultPerFailure(attempts[..n]);
      assert FailedPositions(attempts) == FailedPositions(attempts[..n]) + (if attempts[n].Failed? then {n} else {});
    }
  }

  /**
   * Failures stay isolated: a bite is committed if and only if nothing strikes; otherwise the first fault is the
   * bite's, and each later one fails exactly one mention, in order. A single fault fails no mention but a lone one.
   */
  lemma FailuresAreIsolated(fate: Fate, pending: nat, before: seq<Option<Fault>>, after: seq<Option<Fault>>,
                            struck: seq<Fault>)
    requires Possible(fate, pending) && Suffers(fate, before, after) && Struck(before, after, struck)
    ensures fate == Whole <==> struck == []
    ensures pending != 1 && fate.Apart? ==>
              FaultsOf(fate.attempts) == struck[1..] && |FailedPositions(fate.attempts)| == |struck| - 1
    ensures pending != 1 && |struck| <= 1 ==> forall k: nat | k < pending :: IsCommitted(fate, k)
    ensures pending == 1 && fate.Apart? ==> |struck| == 1 && !IsCommitted(fate, 0)
  {
    if fate.Apart? {
      OneFaultPerFailure(fate.attempts);
      assert pending != 1 && |struck| == 1 ==> FailedPositions(fate.attempts) == {};
      assert forall k: nat | k < |fate.attempts| && fate.attempts[k].Failed? :: k in FailedPositions(fate.attempts);
    }
  }

  /** Of two or more new mentions in a batch, a single fault fails none: every one is answered with its resolution. */
  lemma {:induction false} OneFaultFailsNoRequest(
      cfg: Config, linker: Linker, db: Database, requests: seq<Request>, fate: Fate, before: seq<Option<Fault>>,
      after: seq<Option<Fault>>, struck: seq<Fault>, i: nat)
    requires Possible(fate, |PendingPositions(Guards(cfg, db, requests))|)
    requires Suffers(fate, before, after) && Struck(before, after, struck) && |struck| <= 1
    requires |PendingPositions(Guards(cfg, db, requests))| >= 2
    requires i < |requests| && Guards(cfg, db, requests)[i].Pending?
    ensures BatchResponse(cfg, linker, db, requests, fate, i).Resolution?
  {
    hide Guards, PendingPositions, PendingMentions, BatchResponse, Suffers, Struck;
    FailuresAreIsolated(fate, |PendingPositions(Guards(cfg, db, requests))|, before, after, struck);
    PendingAnswer(cfg, linker, db, requests, fate, i);
  }

  lemma {:induction false} RepeatHasFirst(cfg: Config, db: Database, requests: seq<Request>, i: nat) returns (k: nat)
    requires Aligned(db) && i < |requests| && Guards(cfg, db, requests)[i].Repeat?
    ensures k < |PendingPositions(Guards(cfg, db, requests))| && PendingPositions(Guards(cfg, db, requests))[k] < i
    ensures PendingMentions(Guards(cfg, db, requests))[k] == Guards(cfg, db, requests)[i].mention
  {
    var outcomes := Guards(cfg, db, requests);
    var before := Guards(cfg, db, requests[..i]);
    GuardAt(cfg, db, requests, i);
    PendingIsFresh(cfg, db, requests[..i]);
    k :| k < |PendingMentions(before)| && IdsOf(PendingMentions(before))[k] == outcomes[i].mention.id;
    GuardsPrefix(cfg, db, requests, i);
    PendingPrefix(outcomes, i);
    var first := PendingMentions(before)[k];
    assert first.id == outcomes[i].mention.id && first.attributes == outcomes[i].mention.attributes;
  }

  /**
   * An in-bite repeat follows a pending request for the same mention, and is answered with a resolution if
   * and only if that one was committed; otherwise with an internal error.
   */
  lemma {:induction false} RepeatFollowsItsFirst(cfg: Config, linker: Linker, db: Database, requests: seq<Request>,
                                                 fate: Fate, i: nat)
    returns (k: nat)
    requires cfg.Valid() && ObeysPort(linker) && Invariant(cfg, db)
    requires Possible(fate, |PendingPositions(Guards(cfg, db, requests))|)
    requires i < |requests| && Guards(cfg, db, requests)[i].Repeat?
    ensures k < |PendingPositions(Guards(cfg, db, requests))| && PendingPositions(Guards(cfg, db, requests))[k] < i
    ensures PendingMentions(Guards(cfg, db, requests))[k] == Guards(cfg, db, requests)[i].mention
    ensures var response := BatchResponse(cfg, linker, db, requests, fate, i);
            if IsCommitted(fate, k) then response.Resolution?
            else response == Failure(requests[i].requestId, InternalError)
  {
    hide BatchDatabase, Guards, PendingMentions, PendingPositions, CommittedMentions;
    k := RepeatHasFirst(cfg, db, requests, i);
    StoredExactlyIfCommitted(cfg, linker, db, requests, fate, k);
    BatchStoresTheCommitted(cfg, linker, db, requests, fate);
    LookupsAgree(BatchDatabase(cfg, linker, db, requests, fate), Guards(cfg, db, requests)[i].mention.id);
  }

  lemma {:induction false} PendingPrefix(outcomes: seq<Outcome>, i: nat)
    requires i <= |outcomes|
    ensures PendingPositions(outcomes[..i]) <= PendingPositions(outcomes)
    ensures PendingMentions(outcomes[..i]) <= PendingMentions(outcomes)
    decreases |outcomes| - i
  {
    if i < |outcomes| {
      PendingPrefix(outcomes, i + 1);
      assert outcomes[..i + 1][..i] == outcomes[..i];
      assert PendingPositions(outcomes[..i]) <= PendingPositions(outcomes[..i + 1]);
    } else {
      assert outcomes[..i] == outcomes;
    }
  }

  /** One answer per request, in request order: the i-th answer carries the i-th request's id. */
  lemma {:induction false} AnswersCarryTheirRequest(cfg: Config, linker: Linker, db: Database, requests: seq<Request>,
                                                    fate: Fate, i: nat)
    requires Possible(fate, |PendingPositions(Guards(cfg, db, requests))|) && i < |requests|
    ensures BatchResponse(cfg, linker, db, requests, fate, i).requestId == requests[i].requestId
  {
    GuardAt(cfg, db, requests, i);
    PendingRankIsPlace(Guards(cfg, db, requests), i);
  }

  function StagesOf(events: seq<Event>): (stages: seq<nat>)
    ensures |stages| == |events|
  {
    seq(|events|, i requires 0 <= i < |events| => Stage(events[i]))
  }

  /**
   * Lifecycle events are exact across the fallback: a request's trace shows scored, clustered and persisted
   * once each, in this order, if its mention was committed and not at all otherwise - however many attempts
   * were rolled back - and from the queue to the response its events follow the declared order of stages.
   */
  lemma {:induction false} EventsAreExact(cfg: Config, linker: Linker, db: Database, requests: seq<Request>,
                                          fate: Fate, i: nat)
    requires Possible(fate, |PendingPositions(Guards(cfg, db, requests))|) && i < |requests|
    ensures var events := BatchEvents(cfg, linker, db, requests, fate, i);
            var mapped := requests[i].Resolve? && requests[i].mapping.Mapped?;
            var committed := Guards(cfg, db, requests)[i].Pending?
                             && BatchResponse(cfg, linker, db, requests, fate, i).Resolution?;
            && StagesOf(events) == (if mapped then [1, 2] else []) + (if committed then [3, 4, 5] else [])
            && InStageOrder([Dequeued] + events + [Responded])
  {
    hide Guards, PendingMentions, PendingPositions, AfterApart, BiteEvents, BiteResults, FindClusterFor;
    GuardAt(cfg, db, requests, i);
    if Guards(cfg, db, requests)[i].Pending? {
      PendingAnswer(cfg, linker, db, requests, fate, i);
      PendingStages(cfg, linker, db, PendingMentions(Guards(cfg, db, requests)), fate,
                    PendingRank(Guards(cfg, db, requests), i));
    }
    var events := BatchEvents(cfg, linker, db, requests, fate, i);
    var guard := GuardEvents(cfg, db, requests[i]);
    assert StagesOf(guard) == if requests[i].Resolve? && requests[i].mapping.Mapped? then [1, 2] else [];
    assert StagesOf(events) == StagesOf(guard) + StagesOf(events[|guard|..]);
    OrderedByStages(events, requests[i].Resolve? && requests[i].mapping.Mapped?, StagesOf(events[|guard|..]) != []);
  }

  lemma {:induction false} PendingStages(cfg: Config, linker: Linker, db: Database, ms: seq<Mention>, fate: Fate,
                                         k: nat)
    requires Possible(fate, |ms|) && k < |ms|
    ensures StagesOf(PendingEvents(cfg, linker, db, ms, fate, k)) == if IsCommitted(fate, k) then [3, 4, 5] else []
  {
  }

  lemma {:induction false} OrderedByStages(events: seq<Event>, mapped: bool, committed: bool)
    requires StagesOf(events) == (if mapped then [1, 2] else []) + (if committed then [3, 4, 5] else [])
    ensures InStageOrder([Dequeued] + events + [Responded])
  {
    var all := [Dequeued] + events + [Responded];
    var stages := [0] + StagesOf(events) + [6];
    assert forall i | 0 <= i < |all| :: Stage(all[i]) == stages[i];
    assert forall i, j | 0 <= i < j < |stages| :: stages[i] < stages[j];
  }

  /**
   * Why nothing may fail after the commit: the fallback would resolve a mention that is already stored,
   * and store it twice.
   */
  lemma LateFailureStoresTwice(cfg: Config, db: Database, m: Mention, table: LinkTable, again: LinkTable)
    ensures var once := ResolveBite(cfg, db, [m], table);
            var twice := ResolveBite(cfg, once, [m], again);
            !Distinct(IdsOf(twice.mentions)) && !Invariant(cfg, twice)
  {
    var once := ResolveBite(cfg, db, [m], table);
    var ids := IdsOf(ResolveBite(cfg, once, [m], again).mentions);
    assert ids[|db.mentions|] == m.id == ids[|db.mentions| + 1];
  }
}
