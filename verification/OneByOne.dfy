/** Without failures, one batch of requests against the same requests one batch each. */
module OneByOne {
  import opened Domain
  import opened Tables
  import opened Resolver
  import opened Requery
  import opened Batching
  import opened RowOrder
  import opened Service
  import opened ServiceGuarantees

  /** For every bite of different mentions the linker scores as the similarity does, in search-space order. */
  ghost predicate ListsAsScored(linker: Linker, score: Similarity) {
    forall bite: seq<Mention>, space: seq<Mention> | Distinct(IdsOf(bite)) ::
      ListsInOrder(score, linker(bite, space), bite, space)
  }

  function LinksOfEach(score: Similarity, bite: seq<Mention>, space: seq<Mention>): (lists: seq<seq<Link>>)
    ensures |lists| == |bite| && forall i | 0 <= i < |bite| :: lists[i] == SpaceLinks(score, bite[i], space)
  {
    seq(|bite|, i requires 0 <= i < |bite| => SpaceLinks(score, bite[i], space))
  }

  /** A linker that scores every pair, mention by mention, in search-space order. */
  function ScoreAll(score: Similarity): Linker {
    (bite: seq<Mention>, space: seq<Mention>) => ToLinkTable(Flatten(LinksOfEach(score, bite, space)))
  }

  lemma {:induction false} FlattenMembers<T>(parts: seq<seq<T>>, x: T)
    requires x in Flatten(parts)
    ensures exists i :: 0 <= i < |parts| && x in parts[i]
  {
    if x !in parts[0] {
      FlattenMembers(parts[1..], x);
      var i :| 0 <= i < |parts[1..]| && x in parts[1..][i];
      assert x in parts[i + 1];
    }
  }

  lemma {:induction false} ScoreAllRespectsPort(score: Similarity, bite: seq<Mention>, space: seq<Mention>)
    requires IsProbability(score)
    ensures ScoresBite(ScoreAll(score)(bite, space), bite, space)
  {
    hide SpaceLinks, Flatten, RowsOf;
    var lists := LinksOfEach(score, bite, space);
    TableRoundTrip(Flatten(lists));
    forall row: Link | row in Flatten(lists)
      ensures row.left in IdsOf(bite) && row.right in IdsOf(space) && 0.0 <= row.score <= 1.0
    {
      FlattenMembers(lists, row);
      var i :| 0 <= i < |lists| && row in lists[i];
      SpaceLinksLeadIntoSpace(score, bite[i], space);
      assert IdsOf(bite)[i] == row.left;
    }
  }

  lemma {:induction false} ScoreAllListsInOrder(score: Similarity, bite: seq<Mention>, space: seq<Mention>)
    requires Distinct(IdsOf(bite))
    ensures ListsInOrder(score, ScoreAll(score)(bite, space), bite, space)
  {
    hide SpaceLinks, Flatten, RowsOf;
    var lists := LinksOfEach(score, bite, space);
    TableRoundTrip(Flatten(lists));
    forall i | 0 <= i < |bite|
      ensures RowsOf(Flatten(lists), bite[i].id) == SpaceLinks(score, bite[i], space)
    {
      assert IdsOf(bite)[i] == bite[i].id;
      RowsOfFlatten(IdsOf(bite), lists, bite[i].id);
    }
  }

  /** Such a linker respects the port and lists rows as the theorems ask. */
  lemma ScoreAllListsAsScored(score: Similarity)
    requires IsProbability(score)
    ensures ObeysPort(ScoreAll(score)) && ListsAsScored(ScoreAll(score), score)
  {
    hide ScoreAll, ListsInOrder, ScoresBite;
    forall bite: seq<Mention>, space: seq<Mention>
      ensures Distinct(IdsOf(bite)) ==> ListsInOrder(score, ScoreAll(score)(bite, space), bite, space)
      ensures ScoresBite(ScoreAll(score)(bite, space), bite, space)
    {
      ScoreAllRespectsPort(score, bite, space);
      if Distinct(IdsOf(bite)) {
        ScoreAllListsInOrder(score, bite, space);
      }
    }
  }

  /** The tables after the requests in batches of one, none of which fails. */
  function SingleDatabase(cfg: Config, linker: Linker, db: Database, requests: seq<Request>): Database {
    if requests == [] then db
    else
      var before := SingleDatabase(cfg, linker, db, requests[..|requests| - 1]);
      BatchDatabase(cfg, linker, before, [requests[|requests| - 1]], Whole)
  }

  /** The answer to the i-th request when each is a batch of its own. */
  function SingleResponse(cfg: Config, linker: Linker, db: Database, requests: seq<Request>, i: nat): Response
    requires i < |requests|
  {
    BatchResponse(cfg, linker, SingleDatabase(cfg, linker, db, requests[..i]), [requests[i]], Whole, 0)
  }

  datatype Kind = Resolved | Errored(error: ErrorType)

  function KindOf(response: Response): Kind {
    match response
    case Resolution(_, _) => Resolved
    case Failure(_, error) => Errored(error)
  }

  /** Comparing a request with the first mention of its id as given agrees with comparing it as stored. */
  predicate ComparesAlike(cfg: Config, request: Request, firstSeen: map<MentionId, Mention>) {
    request.Resolve? && request.mapping.Mapped? && request.mapping.mention.id in firstSeen ==>
      var m, first := request.mapping.mention, firstSeen[request.mapping.mention.id];
      first.attributes == m.attributes <==> Stored(cfg.entityFields, first).attributes == m.attributes
  }

  /** Mentions with exactly the configured fields are stored as they are. */
  predicate HasConfiguredFields(cfg: Config, request: Request) {
    request.Resolve? && request.mapping.Mapped? ==> request.mapping.mention.attributes.Keys == cfg.entityFields
  }

  lemma StoredAsGiven(fields: set<string>, m: Mention)
    requires m.attributes.Keys == fields
    ensures Stored(fields, m) == m
  {
  }

  lemma {:induction false} AloneIsGuarded(cfg: Config, linker: Linker, db: Database, request: Request)
    ensures Guards(cfg, db, [request]) == [Guard(cfg, db, request, map[])]
    ensures var o := Guard(cfg, db, request, map[]);
            && !o.Repeat?
            && (o.Answered? ==>
                  && BatchDatabase(cfg, linker, db, [request], Whole) == db
                  && BatchResponse(cfg, linker, db, [request], Whole, 0) == o.response)
  {
    assert [request][..0] == [];
    assert Guards(cfg, db, []) == [];
    var o := Guard(cfg, db, request, map[]);
    assert [o][..0] == [];
    if o.Answered? {
      assert PendingPositions([o]) == [];
      assert BiteLinks([], Rows(TableFor(cfg, linker, db, []))) == [];
    }
  }

  lemma {:induction false} LonePending(o: Outcome)
    requires o.Pending?
    ensures PendingPositions([o]) == [0] && PendingMentions([o]) == [o.mention] && PendingRank([o], 0) == 0
  {
    assert [o][..0] == [];
    assert PendingPositions([o]) == [0];
  }

  lemma NothingBefore(cfg: Config, score: Similarity, db: Database, m: Mention)
    ensures [m][..0] == [] && [m][..1] == [m] && OneAtATime(cfg, score, db, []) == db
    ensures ResultOneAtATime(cfg, score, db, [m], 0) == TurnResult(cfg, score, db, m)
  {
  }

  /** A lone pending request gets what resolving its mention on its own gives. */
  lemma {:induction false} AloneIsOneAtATime(cfg: Config, score: Similarity, linker: Linker, db: Database,
                                             request: Request)
    requires ListsAsScored(linker, score) && Aligned(db)
    requires Guard(cfg, db, request, map[]).Pending?
    ensures var m := Guard(cfg, db, request, map[]).mention;
            && BatchDatabase(cfg, linker, db, [request], Whole)
               == CommitOne(cfg, db, m, SpaceLinks(score, m, db.mentions))
            && BatchResponse(cfg, linker, db, [request], Whole, 0)
               == Resolution(request.requestId, TurnResult(cfg, score, db, m))
  {
    hide PendingPositions, PendingMentions, PendingRank, Guards, Guard, ListsInOrder, TurnResult, BiteResults,
         ResolveBite, SpaceLinks, CommitOne, OneAtATime, ResultOneAtATime, Aligned;
    var o := Guard(cfg, db, request, map[]);
    var m := o.mention;
    AloneIsGuarded(cfg, linker, db, request);
    LonePending(o);
    PendingIsFresh(cfg, db, [request]);
    BiteIsOneAtATime(cfg, score, db, [m], TableFor(cfg, linker, db, [m]));
    OneAtATimeStep(cfg, score, db, [m], 0);
    NothingBefore(cfg, score, db, m);
  }

  /** What looking an id up finds once the pending mentions are stored. */
  lemma {:induction false} LookupsAfterStoring(cfg: Config, db: Database, now: Database,
                                               firstSeen: map<MentionId, Mention>, pending: seq<Mention>,
                                               id: MentionId)
    requires Aligned(db) && Aligned(now) && Extends(db, now)
    requires now.mentions == db.mentions + StoredAll(cfg.entityFields, pending)
    requires Records(firstSeen, pending) && Fresh(db, pending)
    ensures Stores(db, id) ==> id !in firstSeen && FindById(now.mentions, id) == FindById(db.mentions, id)
    ensures !Stores(db, id) ==> FindById(db.mentions, id) == None
    ensures !Stores(db, id) ==>
              FindById(now.mentions, id)
              == if id in firstSeen then Some(Stored(cfg.entityFields, firstSeen[id])) else None
    ensures FindClusterFor(cfg, db, id).Some? <==> Stores(db, id)
    ensures FindClusterFor(cfg, now, id).Some? <==> Stores(db, id) || id in firstSeen
  {
    hide GenCand, FindById, ClusterOf, ClusterMap, Extends;
    LookupsAgree(db, id);
    LookupsAgree(now, id);
    FindByIdIsFirst(db.mentions, id);
    StoredAfter(cfg.entityFields, db, pending, now, id);
    if Stores(db, id) {
      FindByIdIsKept(db, now, id);
      assert id !in firstSeen by {
        assert forall k | 0 <= k < |pending| :: IdsOf(pending)[k] == pending[k].id;
      }
    } else if id in firstSeen {
      var k :| 0 <= k < |pending| && IdsOf(pending)[k] == id;
      FindByIdIsUnique(now.mentions, |db.mentions| + k);
      assert FindById(now.mentions, id) == Some(Stored(cfg.entityFields, pending[k]));
    } else {
      assert forall k | 0 <= k < |pending| :: pending[k].id != id;
      FindByIdIsFirst(now.mentions, id);
    }
  }

  /** How a guard that has seen earlier pending mentions relates to one that finds them stored. */
  lemma {:induction false} GuardAfterStoring(cfg: Config, db: Database, now: Database, request: Request,
                                             firstSeen: map<MentionId, Mention>, pending: seq<Mention>)
    requires Aligned(db) && Aligned(now) && Extends(db, now)
    requires now.mentions == db.mentions + StoredAll(cfg.entityFields, pending)
    requires Records(firstSeen, pending) && Fresh(db, pending)
    ensures var batched, alone := Guard(cfg, db, request, firstSeen), Guard(cfg, now, request, map[]);
            && !alone.Repeat?
            && (batched.Pending? ==> alone == batched)
            && (batched.Repeat? ==> alone.Answered?)
            && (batched.Answered? ==> alone.Answered?)
            && (alone.Answered? ==>
                  (KindOf(alone.response) == (if batched.Answered? then KindOf(batched.response) else Resolved)
                   <==> ComparesAlike(cfg, request, firstSeen)))
  {
    hide Aligned, Extends, Records, Fresh, FindById, FindClusterFor, Stores, StoredAll, Stored;
    if request.Resolve? && request.mapping.Mapped? {
      LookupsAfterStoring(cfg, db, now, firstSeen, pending, request.mapping.mention.id);
    }
  }

  lemma {:induction false} FindByIdIsKept(db: Database, now: Database, id: MentionId)
    requires Aligned(db) && Aligned(now) && Extends(db, now) && Stores(db, id)
    ensures FindById(now.mentions, id) == FindById(db.mentions, id) != None
  {
    var i :| 0 <= i < |db.mentions| && IdsOf(db.mentions)[i] == id;
    FindByIdIsUnique(db.mentions, i);
    FindByIdIsUnique(now.mentions, i);
  }

  /** Requests one by one leave the tables of resolving the batch's new mentions one at a time. */
  ghost predicate SinglesKeepUp(cfg: Config, score: Similarity, linker: Linker, db: Database, requests: seq<Request>) {
    var now := SingleDatabase(cfg, linker, db, requests);
    var pending := PendingMentions(Guards(cfg, db, requests));
    && now == OneAtATime(cfg, score, db, pending)
    && Aligned(now) && Extends(db, now) && now.mentions == Space(cfg, db, pending)
  }

  lemma {:induction false} SinglesKeepUpStep(cfg: Config, score: Similarity, linker: Linker, db: Database,
                                             requests: seq<Request>, request: Request)
    requires ListsAsScored(linker, score) && Aligned(db) && SinglesKeepUp(cfg, score, linker, db, requests)
    ensures SinglesKeepUp(cfg, score, linker, db, requests + [request])
  {
    hide TurnResult, BatchDatabase, BatchResponse, Guard, Guards, SingleDatabase, OneAtATime, ListsAsScored,
         SpaceLinks, PendingMentions, FirstSeen, FindById, ClusterOf;
    var now, before := SingleDatabase(cfg, linker, db, requests), Guards(cfg, db, requests);
    var pending := PendingMentions(before);
    var o := Guard(cfg, db, request, FirstSeen(before));
    SingleSnoc(cfg, linker, db, requests, request);
    PendingMentionsSnoc(before, o);
    PendingIsFresh(cfg, db, requests);
    PendingIsFresh(cfg, db, requests + [request]);
    GuardAfterStoring(cfg, db, now, request, FirstSeen(before), pending);
    AloneIsGuarded(cfg, linker, now, request);
    if o.Pending? {
      AloneIsOneAtATime(cfg, score, linker, now, request);
      NewestIsNotStored(cfg, db, pending, o.mention, now);
      CommitOneKeepsAligned(cfg, now, o.mention, SpaceLinks(score, o.mention, now.mentions));
      OneAtATimeSnoc(cfg, score, db, pending, o.mention);
      assert StoredAll(cfg.entityFields, pending + [o.mention])
             == StoredAll(cfg.entityFields, pending) + [Stored(cfg.entityFields, o.mention)];
    }
  }

  lemma {:induction false} SingleSnoc(cfg: Config, linker: Linker, db: Database, requests: seq<Request>,
                                      request: Request)
    ensures Guards(cfg, db, requests + [request])
            == Guards(cfg, db, requests) + [Guard(cfg, db, request, FirstSeen(Guards(cfg, db, requests)))]
    ensures SingleDatabase(cfg, linker, db, requests + [request])
            == BatchDatabase(cfg, linker, SingleDatabase(cfg, linker, db, requests), [request], Whole)
  {
    assert (requests + [request])[..|requests|] == requests;
  }

  lemma {:induction false} NewestIsNotStored(cfg: Config, db: Database, pending: seq<Mention>, m: Mention,
                                             now: Database)
    requires Fresh(db, pending + [m]) && now.mentions == Space(cfg, db, pending)
    ensures !Stores(now, m.id)
  {
    FreshPrefix(db, pending + [m], |pending|);
    assert (pending + [m])[|pending|] == m && (pending + [m])[..|pending|] == pending;
    StoredAfter(cfg.entityFields, db, pending, now, m.id);
  }

  lemma NothingToKeepUp(cfg: Config, score: Similarity, linker: Linker, db: Database)
    requires Aligned(db)
    ensures SinglesKeepUp(cfg, score, linker, db, [])
  {
    assert StoredAll(cfg.entityFields, PendingMentions(Guards(cfg, db, []))) == [];
  }

  lemma {:induction false} SinglesAlwaysKeepUp(cfg: Config, score: Similarity, linker: Linker, db: Database,
                                               requests: seq<Request>)
    requires ListsAsScored(linker, score) && Aligned(db)
    ensures SinglesKeepUp(cfg, score, linker, db, requests)
  {
    hide SinglesKeepUp, ListsAsScored, Aligned;
    if requests == [] {
      NothingToKeepUp(cfg, score, linker, db);
    } else {
      var n := |requests| - 1;
      SinglesAlwaysKeepUp(cfg, score, linker, db, requests[..n]);
      SinglesKeepUpStep(cfg, score, linker, db, requests[..n], requests[n]);
      assert requests == requests[..n] + [requests[n]];
    }
  }

  /** Without failures a batch leaves the same tables as its requests one by one. */
  lemma {:induction false} BatchStoresLikeSingles(cfg: Config, score: Similarity, linker: Linker, db: Database,
                                                  requests: seq<Request>)
    requires ListsAsScored(linker, score) && Aligned(db)
    ensures BatchDatabase(cfg, linker, db, requests, Whole) == SingleDatabase(cfg, linker, db, requests)
  {
    var pending := PendingMentions(Guards(cfg, db, requests));
    SinglesAlwaysKeepUp(cfg, score, linker, db, requests);
    PendingIsFresh(cfg, db, requests);
    BiteIsOneAtATime(cfg, score, db, pending, TableFor(cfg, linker, db, pending));
  }

  lemma {:induction false} SinglesAppend(cfg: Config, linker: Linker, db: Database, a: seq<Request>, b: seq<Request>)
    ensures SingleDatabase(cfg, linker, db, a + b) == SingleDatabase(cfg, linker, SingleDatabase(cfg, linker, db, a), b)
  {
    hide BatchDatabase;
    if b == [] {
      assert a + b == a;
    } else {
      var n := |b| - 1;
      SinglesAppend(cfg, linker, db, a, b[..n]);
      assert (a + b)[..|a + b| - 1] == a + b[..n];
    }
  }

  /** The tables after batches of requests, none of which fails. */
  function BatchesDatabase(cfg: Config, linker: Linker, db: Database, batches: seq<seq<Request>>): Database
    decreases |batches|
  {
    if batches == [] then db
    else BatchesDatabase(cfg, linker, BatchDatabase(cfg, linker, db, batches[0], Whole), batches[1..])
  }

  /**
   * Without failures no division of a stream of requests into batches - repeats and errors included - changes a
   * table.
   */
  lemma {:induction false} BatchingDoesNotMatter(cfg: Config, score: Similarity, linker: Linker, db: Database,
                                                 batches: seq<seq<Request>>)
    requires ListsAsScored(linker, score) && Aligned(db)
    ensures BatchesDatabase(cfg, linker, db, batches) == SingleDatabase(cfg, linker, db, Flatten(batches))
    decreases |batches|
  {
    hide ListsAsScored, BatchDatabase, SingleDatabase, Aligned, OneAtATime;
    if batches == [] {
      NoRequests(cfg, linker, db);
    } else {
      var after := SingleDatabase(cfg, linker, db, batches[0]);
      BatchStoresLikeSingles(cfg, score, linker, db, batches[0]);
      SinglesAlwaysKeepUp(cfg, score, linker, db, batches[0]);
      BatchingDoesNotMatter(cfg, score, linker, after, batches[1..]);
      SinglesAppend(cfg, linker, db, batches[0], Flatten(batches[1..]));
    }
  }

  lemma NoRequests(cfg: Config, linker: Linker, db: Database)
    ensures SingleDatabase(cfg, linker, db, []) == db
  {
  }

  /** The turn of a pending request: its mention, against the tables left by those before it. */
  lemma {:induction false} PendingTurn(cfg: Config, score: Similarity, linker: Linker, db: Database,
                                       requests: seq<Request>, i: nat)
    requires i < |requests| && Guards(cfg, db, requests)[i].Pending?
    requires SinglesKeepUp(cfg, score, linker, db, requests[..i])
    ensures var pending := PendingMentions(Guards(cfg, db, requests));
            var k := PendingRank(Guards(cfg, db, requests), i);
            && k < |pending|
            && ResultOneAtATime(cfg, score, db, pending, k)
               == TurnResult(cfg, score, SingleDatabase(cfg, linker, db, requests[..i]),
                             Guards(cfg, db, requests)[i].mention)
  {
    hide TurnResult, OneAtATime, SingleDatabase, Guards;
    var outcomes, before := Guards(cfg, db, requests), Guards(cfg, db, requests[..i]);
    PendingRankIsPlace(outcomes, i);
    GuardsPrefix(cfg, db, requests, i);
    PendingPrefix(outcomes, i);
    assert PendingMentions(before) == PendingMentions(outcomes)[..PendingRank(outcomes, i)];
  }

  /** Without failures a new mention gets the same candidates in a batch as on its own. */
  lemma {:induction false} BatchResolvesLikeSingles(cfg: Config, score: Similarity, linker: Linker, db: Database,
                                                    requests: seq<Request>, i: nat)
    requires ListsAsScored(linker, score) && Aligned(db) && i < |requests| && Guards(cfg, db, requests)[i].Pending?
    ensures BatchResponse(cfg, linker, db, requests, Whole, i) == SingleResponse(cfg, linker, db, requests, i)
  {
    SinglesAlwaysKeepUp(cfg, score, linker, db, requests[..i]);
    PendingTurn(cfg, score, linker, db, requests, i);
    SingleTurn(cfg, score, linker, db, requests, i);
    BatchTurn(cfg, score, linker, db, requests, i);
  }

  lemma {:induction false} SingleTurn(cfg: Config, score: Similarity, linker: Linker, db: Database,
                                      requests: seq<Request>, i: nat)
    requires ListsAsScored(linker, score) && Aligned(db) && i < |requests| && Guards(cfg, db, requests)[i].Pending?
    requires SinglesKeepUp(cfg, score, linker, db, requests[..i])
    ensures SingleResponse(cfg, linker, db, requests, i)
            == Resolution(requests[i].requestId,
                          TurnResult(cfg, score, SingleDatabase(cfg, linker, db, requests[..i]),
                                     Guards(cfg, db, requests)[i].mention))
  {
    hide Guard, Guards, ListsAsScored, TurnResult, BatchResponse, SingleDatabase, OneAtATime, PendingMentions,
         FirstSeen;
    var before := Guards(cfg, db, requests[..i]);
    var now := SingleDatabase(cfg, linker, db, requests[..i]);
    GuardAt(cfg, db, requests, i);
    PendingIsFresh(cfg, db, requests[..i]);
    GuardAfterStoring(cfg, db, now, requests[i], FirstSeen(before), PendingMentions(before));
    AloneIsOneAtATime(cfg, score, linker, now, requests[i]);
  }

  lemma {:induction false} BatchTurn(cfg: Config, score: Similarity, linker: Linker, db: Database,
                                     requests: seq<Request>, i: nat)
    requires ListsAsScored(linker, score) && Aligned(db) && i < |requests| && Guards(cfg, db, requests)[i].Pending?
    requires PendingRank(Guards(cfg, db, requests), i) < |PendingMentions(Guards(cfg, db, requests))|
    ensures BatchResponse(cfg, linker, db, requests, Whole, i)
            == Resolution(requests[i].requestId,
                          ResultOneAtATime(cfg, score, db, PendingMentions(Guards(cfg, db, requests)),
                                           PendingRank(Guards(cfg, db, requests), i)))
  {
    hide Guards, TurnResult, PendingMentions, OneAtATime, PendingRank, BiteResults;
    var pending := PendingMentions(Guards(cfg, db, requests));
    PendingIsFresh(cfg, db, requests);
    BiteIsOneAtATime(cfg, score, db, pending, TableFor(cfg, linker, db, pending));
  }

  /**
   * Without failures the i-th request gets the same kind of answer in a batch as on its own, if and only if
   * comparing it with the first mention of its id as given agrees with comparing it as stored.
   */
  lemma {:induction false} BatchAnswersLikeSingles(cfg: Config, score: Similarity, linker: Linker, db: Database,
                                                   requests: seq<Request>, i: nat)
    requires ListsAsScored(linker, score) && Aligned(db) && i < |requests|
    ensures KindOf(BatchResponse(cfg, linker, db, requests, Whole, i))
            == KindOf(SingleResponse(cfg, linker, db, requests, i))
            <==> ComparesAlike(cfg, requests[i], FirstSeen(Guards(cfg, db, requests[..i])))
  {
    hide ListsAsScored, TurnResult, BatchDatabase, FindClusterFor;
    var outcomes, before := Guards(cfg, db, requests), Guards(cfg, db, requests[..i]);
    var now := SingleDatabase(cfg, linker, db, requests[..i]);
    SinglesAlwaysKeepUp(cfg, score, linker, db, requests[..i]);
    GuardAt(cfg, db, requests, i);
    PendingIsFresh(cfg, db, requests[..i]);
    GuardAfterStoring(cfg, db, now, requests[i], FirstSeen(before), PendingMentions(before));
    AloneIsGuarded(cfg, linker, now, requests[i]);
    if outcomes[i].Pending? {
      BatchResolvesLikeSingles(cfg, score, linker, db, requests, i);
      PendingComparesAlike(cfg, db, requests[i], FirstSeen(before));
    } else if outcomes[i].Repeat? {
      RepeatIsResolved(cfg, score, linker, db, requests, i);
    }
  }

  lemma PendingComparesAlike(cfg: Config, db: Database, request: Request, firstSeen: map<MentionId, Mention>)
    requires Guard(cfg, db, request, firstSeen).Pending?
    ensures ComparesAlike(cfg, request, firstSeen)
  {
  }

  lemma {:induction false} RepeatIsResolved(cfg: Config, score: Similarity, linker: Linker, db: Database,
                                            requests: seq<Request>, i: nat)
    requires ListsAsScored(linker, score) && Aligned(db) && i < |requests| && Guards(cfg, db, requests)[i].Repeat?
    ensures BatchResponse(cfg, linker, db, requests, Whole, i).Resolution?
  {
    hide Guards, PendingMentions, PendingPositions, BatchDatabase;
    var pending := PendingMentions(Guards(cfg, db, requests));
    var after := BatchDatabase(cfg, linker, db, requests, Whole);
    var m := Guards(cfg, db, requests)[i].mention;
    var k := RepeatHasFirst(cfg, db, requests, i);
    SinglesAlwaysKeepUp(cfg, score, linker, db, requests);
    BatchStoresLikeSingles(cfg, score, linker, db, requests);
    assert pending[k] == m;
    StoredAfter(cfg.entityFields, db, pending, after, m.id);
    LookupsAgree(after, m.id);
  }

  /** With exactly the configured fields in every mention, batching changes no table and no kind of answer. */
  lemma {:induction false} ConfiguredFieldsSuffice(cfg: Config, score: Similarity, linker: Linker, db: Database,
                                                   requests: seq<Request>, i: nat)
    requires ListsAsScored(linker, score) && Aligned(db) && i < |requests|
    requires forall j | 0 <= j < |requests| :: HasConfiguredFields(cfg, requests[j])
    ensures KindOf(BatchResponse(cfg, linker, db, requests, Whole, i))
            == KindOf(SingleResponse(cfg, linker, db, requests, i))
  {
    BatchAnswersLikeSingles(cfg, score, linker, db, requests, i);
    SeenHasConfiguredFields(cfg, db, requests[..i]);
  }

  lemma {:induction false} SeenHasConfiguredFields(cfg: Config, db: Database, requests: seq<Request>)
    requires forall j | 0 <= j < |requests| :: HasConfiguredFields(cfg, requests[j])
    ensures forall id | id in FirstSeen(Guards(cfg, db, requests)) ::
              FirstSeen(Guards(cfg, db, requests))[id].attributes.Keys == cfg.entityFields
  {
    if requests != [] {
      var n := |requests| - 1;
      SeenHasConfiguredFields(cfg, db, requests[..n]);
      var before := Guards(cfg, db, requests[..n]);
      var o := Guard(cfg, db, requests[n], FirstSeen(before));
      PendingMentionsSnoc(before, o);
      assert HasConfiguredFields(cfg, requests[n]);
    }
  }

  /** How the batch guards one mention sent twice to an empty store. */
  lemma {:induction false} TwiceIsRepeated(cfg: Config, m: Mention, a: string, b: string)
    ensures var requests := [Resolve(a, Mapped(m)), Resolve(b, Mapped(m))];
            && Guards(cfg, EMPTY_DATABASE, requests[..1]) == [Pending(m)] && FirstSeen([Pending(m)]) == map[m.id := m]
            && Guards(cfg, EMPTY_DATABASE, requests)[1] == Repeat(m)
  {
    var requests := [Resolve(a, Mapped(m)), Resolve(b, Mapped(m))];
    assert requests[..1] == [requests[0]] && [requests[0]][..0] == [] && Guards(cfg, EMPTY_DATABASE, []) == [];
    assert [Outcome.Pending(m)][..0] == [] && FirstSeen([]) == map[];
    LookupsAgree(EMPTY_DATABASE, m.id);
    assert Guard(cfg, EMPTY_DATABASE, requests[0], map[]) == Pending(m);
    GuardAt(cfg, EMPTY_DATABASE, requests, 1);
  }

  /** A request on its own is resolved, refused as a conflict, or ends for a reason of its own. */
  lemma {:induction false} AloneKinds(cfg: Config, linker: Linker, db: Database, requestId: string, m: Mention)
    requires Guard(cfg, db, Resolve(requestId, Mapped(m)), map[]).Answered?
    ensures var kind := KindOf(BatchResponse(cfg, linker, db, [Resolve(requestId, Mapped(m))], Whole, 0));
            kind == Resolved || kind == Errored(Conflict)
  {
    hide FindClusterFor, BatchResponse;
    AloneIsGuarded(cfg, linker, db, Resolve(requestId, Mapped(m)));
  }

  /**
   * One mention sent twice to an empty store: the second request is answered from the first one's resolution
   * in a batch, but on its own it is refused as a conflict if and only if the mention's fields are not
   * exactly the configured ones.
   */
  lemma {:induction false} SameMentionTwice(cfg: Config, score: Similarity, linker: Linker, m: Mention, a: string,
                                            b: string)
    requires ListsAsScored(linker, score)
    ensures var requests := [Resolve(a, Mapped(m)), Resolve(b, Mapped(m))];
            && KindOf(BatchResponse(cfg, linker, EMPTY_DATABASE, requests, Whole, 1)) == Resolved
            && (KindOf(SingleResponse(cfg, linker, EMPTY_DATABASE, requests, 1)) == Errored(Conflict)
                <==> m.attributes.Keys != cfg.entityFields)
  {
    var first, second := Resolve(a, Mapped(m)), Resolve(b, Mapped(m));
    var requests := [first, second];
    hide Guards, Guard, ListsAsScored, BatchResponse, SingleDatabase, FirstSeen;
    var now := SingleDatabase(cfg, linker, EMPTY_DATABASE, requests[..1]);
    TwiceIsRepeated(cfg, m, a, b);
    RepeatIsResolved(cfg, score, linker, EMPTY_DATABASE, requests, 1);
    BatchAnswersLikeSingles(cfg, score, linker, EMPTY_DATABASE, requests, 1);
    SinglesAlwaysKeepUp(cfg, score, linker, EMPTY_DATABASE, requests[..1]);
    PendingIsFresh(cfg, EMPTY_DATABASE, requests[..1]);
    GuardAt(cfg, EMPTY_DATABASE, requests, 1);
    GuardAfterStoring(cfg, EMPTY_DATABASE, now, second, map[m.id := m], PendingMentions([Pending(m)]));
    AloneKinds(cfg, linker, now, b, m);
    if m.attributes.Keys == cfg.entityFields {
      StoredAsGiven(cfg.entityFields, m);
    }
  }
}
