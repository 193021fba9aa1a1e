/** What every request of a batch is answered, by the requests before it and by what is stored. */
module BatchAnswers {
  import opened Domain
  import opened Ordering
  import opened Placement
  import opened Ranking
  import opened Tables
  import opened Resolver
  import opened Forest
  import opened Candidates
  import opened Requery
  import opened Batching
  import opened Storage
  import opened Tracing
  import opened Lifecycle
  import opened Service
  import opened ServiceGuarantees
  import opened OneByOne

  predicate Asks(request: Request, id: MentionId) {
    IsMapped(request) && request.mapping.mention.id == id
  }

  /** The first request for a mention. */
  ghost predicate FirstAsk(requests: seq<Request>, j: nat, id: MentionId) {
    && j < |requests| && Asks(requests[j], id)
    && forall k | 0 <= k < j :: !Asks(requests[k], id)
  }

  predicate AskedBefore(requests: seq<Request>, i: nat, id: MentionId)
    requires i <= |requests|
  {
    exists j | 0 <= j < i :: Asks(requests[j], id)
  }

  /** The mention of a request if it is not stored and no earlier request asks for it. */
  function NewMention(db: Database, requests: seq<Request>, i: nat): Option<Mention>
    requires i < |requests|
  {
    if IsMapped(requests[i]) && !Stores(db, requests[i].mapping.mention.id)
       && !AskedBefore(requests, i, requests[i].mapping.mention.id)
    then Some(requests[i].mapping.mention)
    else None
  }

  /** The new mentions of a batch, in order. */
  function NewMentions(db: Database, requests: seq<Request>): seq<Mention> {
    if requests == [] then []
    else
      var n := |requests| - 1;
      NewMentions(db, requests[..n])
      + match NewMention(db, requests, n)
        case Some(m) => [m]
        case None => []
  }

  /** How the guard decides, by what is stored and by the mentions it has recorded. */
  lemma GuardDecides(cfg: Config, db: Database, request: Request, firstSeen: map<MentionId, Mention>)
    requires Aligned(db) && IsMapped(request)
    requires request.mapping.mention.id in firstSeen ==> !Stores(db, request.mapping.mention.id)
    ensures var m, id, o := request.mapping.mention, request.requestId, Guard(cfg, db, request, firstSeen);
            if Stores(db, m.id) then
              && ClusterOf(db.clusters, m.id).Some? && FindById(db.mentions, m.id).Some?
              && o == Answered(if FindById(db.mentions, m.id).value.attributes == m.attributes
                               then Resolution(id, GenCand(cfg, db, m.id)) else Failure(id, Conflict))
            else if m.id in firstSeen then
              o == if firstSeen[m.id].attributes == m.attributes then Repeat(m) else Answered(Failure(id, Conflict))
            else o == Pending(m)
  {
    hide GenCand, FindById, ClusterOf;
    LookupsAgree(db, request.mapping.mention.id);
    FindByIdIsFirst(db.mentions, request.mapping.mention.id);
  }

  /** What the guards have recorded of a mention: its first request, if it is not stored. */
  ghost predicate RecordsFirst(db: Database, requests: seq<Request>, firstSeen: map<MentionId, Mention>,
                               id: MentionId) {
    && (id in firstSeen <==> !Stores(db, id) && AskedBefore(requests, |requests|, id))
    && (id in firstSeen ==>
          exists j: nat :: FirstAsk(requests, j, id) && firstSeen[id] == requests[j].mapping.mention)
  }

  lemma {:induction false} GuardsRecordFirst(cfg: Config, db: Database, requests: seq<Request>, id: MentionId)
    requires Aligned(db)
    ensures RecordsFirst(db, requests, FirstSeen(Guards(cfg, db, requests)), id)
  {
    hide Guard, Aligned, Stores, FirstSeen, RecordsFirst;
    if requests == [] {
      NothingRecorded(db, id);
    } else {
      var n := |requests| - 1;
      var init := requests[..n];
      var before := Guards(cfg, db, init);
      var firstSeen := FirstSeen(before);
      var o := Guard(cfg, db, requests[n], firstSeen);
      GuardsRecordFirst(cfg, db, init, id);
      PendingMentionsSnoc(before, o);
      if IsMapped(requests[n]) {
        GuardsRecordFirst(cfg, db, init, requests[n].mapping.mention.id);
        OneMoreRecorded(cfg, db, init, requests[n], firstSeen, id);
      } else {
        NotAsked(db, init, requests[n], firstSeen, id);
        assert !o.Pending? by { NotPending(cfg, db, requests[n], firstSeen); }
      }
      assert requests == init + [requests[n]];
    }
  }

  lemma NotPending(cfg: Config, db: Database, request: Request, firstSeen: map<MentionId, Mention>)
    requires !IsMapped(request)
    ensures Guard(cfg, db, request, firstSeen).Answered?
  {
  }

  lemma NothingRecorded(db: Database, id: MentionId)
    ensures RecordsFirst(db, [], FirstSeen([]), id)
  {
  }

  lemma NotAsked(db: Database, init: seq<Request>, request: Request, firstSeen: map<MentionId, Mention>,
                 id: MentionId)
    requires RecordsFirst(db, init, firstSeen, id) && !Asks(request, id)
    ensures RecordsFirst(db, init + [request], firstSeen, id)
  {
    var requests := init + [request];
    if AskedBefore(requests, |requests|, id) {
      var j :| 0 <= j < |requests| && Asks(requests[j], id);
      assert Asks(init[j], id);
    }
    if AskedBefore(init, |init|, id) {
      var j :| 0 <= j < |init| && Asks(init[j], id);
      assert Asks(requests[j], id);
    }
    if id in firstSeen {
      var j: nat :| FirstAsk(init, j, id) && firstSeen[id] == init[j].mapping.mention;
      assert FirstAsk(requests, j, id);
    }
  }

  lemma OneMoreRecorded(cfg: Config, db: Database, init: seq<Request>, request: Request,
                        firstSeen: map<MentionId, Mention>, id: MentionId)
    requires Aligned(db) && IsMapped(request) && RecordsFirst(db, init, firstSeen, id)
    requires RecordsFirst(db, init, firstSeen, request.mapping.mention.id)
    ensures var o := Guard(cfg, db, request, firstSeen);
            RecordsFirst(db, init + [request],
                         if o.Pending? then firstSeen[o.mention.id := o.mention] else firstSeen, id)
  {
    hide Aligned, Guard, Stores;
    var m := request.mapping.mention;
    GuardDecides(cfg, db, request, firstSeen);
    if m.id != id {
      NotAsked(db, init, request, firstSeen, id);
    } else {
      var requests := init + [request];
      assert Asks(requests[|init|], id);
      if id in firstSeen {
        var j: nat :| FirstAsk(init, j, id) && firstSeen[id] == init[j].mapping.mention;
        assert FirstAsk(requests, j, id);
      } else if !Stores(db, id) {
        assert forall k | 0 <= k < |init| :: requests[k] == init[k];
        assert FirstAsk(requests, |init|, id);
      }
    }
  }

  /** What is recorded when a request is guarded, by the earlier requests for a mention. */
  lemma {:induction false} SeenIs(cfg: Config, db: Database, requests: seq<Request>, i: nat, id: MentionId)
    requires Aligned(db) && i < |requests|
    ensures var firstSeen := FirstSeen(Guards(cfg, db, requests[..i]));
            && (id in firstSeen <==> !Stores(db, id) && AskedBefore(requests, i, id))
            && (forall j: nat | j < i && id in firstSeen && FirstAsk(requests, j, id) ::
                  firstSeen[id] == requests[j].mapping.mention)
  {
    hide Guards, Aligned, Stores, FirstSeen;
    var firstSeen := FirstSeen(Guards(cfg, db, requests[..i]));
    GuardsRecordFirst(cfg, db, requests[..i], id);
    assert AskedBefore(requests[..i], i, id) <==> AskedBefore(requests, i, id) by {
      assert forall k | 0 <= k < i :: requests[..i][k] == requests[k];
    }
    forall j: nat | j < i && id in firstSeen && FirstAsk(requests, j, id)
      ensures firstSeen[id] == requests[j].mapping.mention
    {
      var k: nat :| FirstAsk(requests[..i], k, id) && firstSeen[id] == requests[..i][k].mapping.mention;
      FirstAskIsUnique(requests, i, id, k, j);
    }
  }

  lemma FirstAskIsUnique(requests: seq<Request>, i: nat, id: MentionId, k: nat, j: nat)
    requires j < i <= |requests| && FirstAsk(requests[..i], k, id) && FirstAsk(requests, j, id)
    ensures k == j
  {
    assert requests[..i][k] == requests[k] && requests[..i][j] == requests[j];
  }

  /** The outcome of guarding a request, by what is stored and by the earlier requests for its mention. */
  lemma {:induction false} OutcomeIs(cfg: Config, db: Database, requests: seq<Request>, i: nat)
    requires Aligned(db) && i < |requests| && IsMapped(requests[i])
    ensures var m, id, o := requests[i].mapping.mention, requests[i].requestId, Guards(cfg, db, requests)[i];
            && (Stores(db, m.id) ==>
                  && ClusterOf(db.clusters, m.id).Some? && FindById(db.mentions, m.id).Some?
                  && o == Answered(if FindById(db.mentions, m.id).value.attributes == m.attributes
                                   then Resolution(id, GenCand(cfg, db, m.id)) else Failure(id, Conflict)))
            && (forall j: nat | j < i && !Stores(db, m.id) && FirstAsk(requests, j, m.id) ::
                  o == if requests[j].mapping.mention.attributes == m.attributes then Repeat(m)
                       else Answered(Failure(id, Conflict)))
            && (!Stores(db, m.id) && !AskedBefore(requests, i, m.id) ==> o == Pending(m))
  {
    hide Guard, Guards, Aligned, Stores, FirstSeen, GenCand, FindById, ClusterOf;
    GuardAt(cfg, db, requests, i);
    SeenIs(cfg, db, requests, i, requests[i].mapping.mention.id);
    GuardDecides(cfg, db, requests[i], FirstSeen(Guards(cfg, db, requests[..i])));
  }

  lemma {:induction false} FirstOf(requests: seq<Request>, i: nat, id: MentionId) returns (j: nat)
    requires i <= |requests| && AskedBefore(requests, i, id)
    ensures j < i && FirstAsk(requests, j, id)
  {
    j :| j < i && Asks(requests[j], id);
    if AskedBefore(requests, j, id) {
      j := FirstOf(requests, j, id);
    }
  }

  /** A request is left to resolve if and only if its mention is new. */
  lemma {:induction false} PendingExactlyIfNew(cfg: Config, db: Database, requests: seq<Request>, i: nat)
    requires Aligned(db) && i < |requests|
    ensures var o := Guards(cfg, db, requests)[i];
            NewMention(db, requests, i) == if o.Pending? then Some(o.mention) else None
  {
    hide Guard, Guards, Aligned, Stores, FirstSeen, GenCand, FindById, ClusterOf;
    if IsMapped(requests[i]) {
      var id := requests[i].mapping.mention.id;
      OutcomeIs(cfg, db, requests, i);
      if AskedBefore(requests, i, id) {
        var j := FirstOf(requests, i, id);
      }
    } else {
      GuardAt(cfg, db, requests, i);
      NotPending(cfg, db, requests[i], FirstSeen(Guards(cfg, db, requests[..i])));
    }
  }

  /** The mentions left to resolve are the new ones. */
  lemma {:induction false} PendingAreNew(cfg: Config, db: Database, requests: seq<Request>)
    requires Aligned(db)
    ensures PendingMentions(Guards(cfg, db, requests)) == NewMentions(db, requests)
    ensures |PendingPositions(Guards(cfg, db, requests))| == |NewMentions(db, requests)|
  {
    hide Guard, Aligned, Stores, FirstSeen, PendingPositions, PendingMentions, NewMention;
    if requests == [] {
      NonePending();
    } else {
      var n := |requests| - 1;
      var before := Guards(cfg, db, requests[..n]);
      PendingAreNew(cfg, db, requests[..n]);
      GuardAt(cfg, db, requests, n);
      PendingExactlyIfNew(cfg, db, requests, n);
      PendingMentionsSnoc(before, Guard(cfg, db, requests[n], FirstSeen(before)));
    }
  }

  lemma NonePending()
    ensures PendingMentions([]) == []
  {
  }

  /** Requests without a mention are refused, each kind with its own error. */
  lemma RefusedAreAnswered(cfg: Config, linker: Linker, db: Database, requests: seq<Request>, fate: Fate, i: nat)
    requires Possible(fate, |PendingPositions(Guards(cfg, db, requests))|) && i < |requests|
    requires !IsMapped(requests[i])
    ensures BatchResponse(cfg, linker, db, requests, fate, i)
            == Failure(requests[i].requestId,
                       if requests[i].Unsupported? then UnsupportedRequestType
                       else if requests[i].mapping.Malformed? then ValueError else InternalError)
  {
    GuardAt(cfg, db, requests, i);
  }

  /**
   * A request for a stored mention, whatever else is in the batch and whatever fails: with the stored attributes
   * it is answered with the ranking of what is stored; with others it is a conflict.
   */
  lemma {:induction false} StoredAreAnswered(cfg: Config, linker: Linker, db: Database, requests: seq<Request>,
                                             fate: Fate, i: nat, p: nat)
    requires cfg.Valid() && Invariant(cfg, db)
    requires Possible(fate, |PendingPositions(Guards(cfg, db, requests))|)
    requires i < |requests| && p < |db.mentions| && Asks(requests[i], db.mentions[p].id)
    ensures var response := BatchResponse(cfg, linker, db, requests, fate, i);
            if requests[i].mapping.mention.attributes == db.mentions[p].attributes then
              && response.Resolution? && response.requestId == requests[i].requestId
              && RanksStored(cfg, db, db.mentions[p].id, response.candidates)
            else response == Failure(requests[i].requestId, Conflict)
  {
    hide Guards, PendingPositions, GenCand, RanksStored;
    OutcomeIs(cfg, db, requests, i);
    FindByIdIsUnique(db.mentions, p);
    assert IdsOf(db.mentions)[p] == db.mentions[p].id;
    RequeryRanksStored(cfg, db, db.mentions[p].id);
  }

  /**
   * A repeat within the batch, its mention not stored before: with other attributes than the first request for
   * the mention it is a conflict; else it is answered with the ranking of what the batch leaves, if that first
   * request was resolved, and with an internal error if not.
   */
  lemma {:induction false} RepeatsAreAnswered(cfg: Config, linker: Linker, db: Database, requests: seq<Request>,
                                              fate: Fate, i: nat, j: nat)
    requires cfg.Valid() && ObeysPort(linker) && Invariant(cfg, db)
    requires Possible(fate, |PendingPositions(Guards(cfg, db, requests))|)
    requires j < i < |requests| && IsMapped(requests[i]) && !Stores(db, requests[i].mapping.mention.id)
    requires FirstAsk(requests, j, requests[i].mapping.mention.id)
    ensures var m := requests[i].mapping.mention;
            var after := BatchDatabase(cfg, linker, db, requests, fate);
            var response := BatchResponse(cfg, linker, db, requests, fate, i);
            && (BatchResponse(cfg, linker, db, requests, fate, j).Resolution? <==> Stores(after, m.id))
            && if requests[j].mapping.mention.attributes != m.attributes then
                 response == Failure(requests[i].requestId, Conflict)
               else if Stores(after, m.id) then
                 && response.Resolution? && response.requestId == requests[i].requestId
                 && RanksStored(cfg, after, m.id, response.candidates)
               else response == Failure(requests[i].requestId, InternalError)
  {
    hide Guards, PendingPositions, PendingMentions, GenCand, RanksStored, BatchDatabase, PendingResponse, ObeysPort,
         CommittedMentions;
    var m, after := requests[i].mapping.mention, BatchDatabase(cfg, linker, db, requests, fate);
    OutcomeIs(cfg, db, requests, i);
    OutcomeIs(cfg, db, requests, j);
    BatchStoresTheCommitted(cfg, linker, db, requests, fate);
    PendingAnswer(cfg, linker, db, requests, fate, j);
    StoredExactlyIfCommitted(cfg, linker, db, requests, fate, PendingRank(Guards(cfg, db, requests), j));
    LookupsAgree(after, m.id);
    if Stores(after, m.id) {
      RequeryRanksStored(cfg, after, m.id);
    }
  }

  /** A new mention is the next one to resolve. */
  lemma {:induction false} NewIsPending(cfg: Config, db: Database, requests: seq<Request>, i: nat)
    requires Aligned(db) && i < |requests| && NewMention(db, requests, i).Some?
    ensures Guards(cfg, db, requests)[i] == Pending(NewMention(db, requests, i).value)
    ensures PendingRank(Guards(cfg, db, requests), i) == |NewMentions(db, requests[..i])|
    ensures |NewMentions(db, requests[..i])| < |NewMentions(db, requests)|
    ensures NewMentions(db, requests)[|NewMentions(db, requests[..i])|] == NewMention(db, requests, i).value
  {
    hide Guards, PendingPositions, PendingMentions, Aligned, Stores, NewMentions, NewMention;
    PendingExactlyIfNew(cfg, db, requests, i);
    PendingRankIsPlace(Guards(cfg, db, requests), i);
    GuardsPrefix(cfg, db, requests, i);
    PendingAreNew(cfg, db, requests[..i]);
    PendingAreNew(cfg, db, requests);
    PendingMentionAt(Guards(cfg, db, requests), i);
  }

  lemma PendingMentionAt(outcomes: seq<Outcome>, i: nat)
    requires i < |outcomes| && outcomes[i].Pending?
    ensures PendingRank(outcomes, i) < |PendingMentions(outcomes)|
    ensures PendingMentions(outcomes)[PendingRank(outcomes, i)] == outcomes[i].mention
  {
    PendingRankIsPlace(outcomes, i);
  }

  lemma {:induction false} OneAtATimeStores(cfg: Config, score: Similarity, db: Database, ms: seq<Mention>)
    ensures OneAtATime(cfg, score, db, ms).mentions == db.mentions + StoredAll(cfg.entityFields, ms)
  {
    WholeSequenceIsCommitAll(cfg, score, db, ms);
  }

  lemma {:induction false} SingleIsOneAtATime(cfg: Config, score: Similarity, linker: Linker, before: Database,
                                              m: Mention)
    requires ListsAsScored(linker, score) && !Stores(before, m.id)
    ensures ResolveBite(cfg, before, [m], TableFor(cfg, linker, before, [m])) == OneAtATime(cfg, score, before, [m])
    ensures BiteResults(cfg, before, [m], TableFor(cfg, linker, before, [m]))[0] == TurnResult(cfg, score, before, m)
  {
    hide ListsInOrder, TurnResult, BiteResults, ResolveBite, OneAtATime, ResultOneAtATime, Space;
    SingleIsFresh(before, m);
    BiteIsOneAtATime(cfg, score, before, [m], TableFor(cfg, linker, before, [m]));
    NothingBefore(cfg, score, before, m);
  }

  /** The fallback leaves the tables of resolving the committed mentions, and no others, one at a time. */
  lemma {:induction false} FallbackIsOneAtATime(cfg: Config, score: Similarity, linker: Linker, db: Database,
                                                ms: seq<Mention>, attempts: seq<Attempt>)
    requires ListsAsScored(linker, score) && Fresh(db, ms) && |attempts| == |ms|
    ensures AfterApart(cfg, linker, db, ms, attempts) == OneAtATime(cfg, score, db, CommittedOf(ms, attempts))
  {
    hide ListsAsScored, OneAtATime, ResolveBite, TableFor, Fresh;
    if ms == [] {
      assert OneAtATime(cfg, score, db, []) == db by { NothingResolved(cfg, score, db); }
    } else {
      var n := |ms| - 1;
      var committed := CommittedOf(ms[..n], attempts[..n]);
      var before := AfterApart(cfg, linker, db, ms[..n], attempts[..n]);
      FreshPrefix(db, ms, n);
      FallbackIsOneAtATime(cfg, score, linker, db, ms[..n], attempts[..n]);
      if attempts[n].Committed? {
        OneAtATimeStores(cfg, score, db, committed);
        NotYetStored(cfg, db, ms, attempts, n, before);
        SingleIsOneAtATime(cfg, score, linker, before, ms[n]);
        OneAtATimeAppend(cfg, score, db, committed, [ms[n]]);
      } else {
        assert CommittedOf(ms, attempts) == committed;
      }
    }
  }

  lemma NothingResolved(cfg: Config, score: Similarity, db: Database)
    ensures OneAtATime(cfg, score, db, []) == db
  {
  }

  /** The answer of an attempt is that of resolving its mention after the committed ones before it. */
  lemma {:induction false} AttemptIsOneAtATime(cfg: Config, score: Similarity, linker: Linker, db: Database,
                                               requestId: string, ms: seq<Mention>, attempts: seq<Attempt>, k: nat)
    requires ListsAsScored(linker, score) && Fresh(db, ms) && |attempts| == |ms| && k < |ms|
    ensures AttemptResponse(cfg, linker, AfterApart(cfg, linker, db, ms[..k], attempts[..k]), requestId, ms[k],
                            attempts[k])
            == match attempts[k]
               case Committed =>
                 Resolution(requestId,
                            TurnResult(cfg, score,
                                       OneAtATime(cfg, score, db, CommittedOf(ms[..k], attempts[..k])), ms[k]))
               case Failed(ValueFault) => Failure(requestId, ValueError)
               case Failed(OtherFault) => Failure(requestId, InternalError)
  {
    hide ListsAsScored, OneAtATime, TurnResult, BiteResults, TableFor, AfterApart, CommittedOf, Fresh;
    var before := AfterApart(cfg, linker, db, ms[..k], attempts[..k]);
    FreshPrefix(db, ms, k);
    FallbackIsOneAtATime(cfg, score, linker, db, ms[..k], attempts[..k]);
    OneAtATimeStores(cfg, score, db, CommittedOf(ms[..k], attempts[..k]));
    NotYetStored(cfg, db, ms, attempts, k, before);
    SingleIsOneAtATime(cfg, score, linker, before, ms[k]);
  }

  /**
   * A new mention, whatever fails: resolved with the candidates of resolving it after the mentions committed
   * before it, one at a time; or refused with the error of the fault that struck its own attempt.
   */
  lemma {:induction false} NewAreAnswered(cfg: Config, score: Similarity, linker: Linker, db: Database,
                                          requests: seq<Request>, fate: Fate, i: nat)
    requires ListsAsScored(linker, score) && Aligned(db)
    requires Possible(fate, |PendingPositions(Guards(cfg, db, requests))|)
    requires i < |requests| && NewMention(db, requests, i).Some?
    ensures var ms, k, id := NewMentions(db, requests), |NewMentions(db, requests[..i])|, requests[i].requestId;
            && k < |ms| && (fate.Apart? ==> |fate.attempts| == |ms|)
            && ms[k] == requests[i].mapping.mention
            && BatchResponse(cfg, linker, db, requests, fate, i)
               == match fate
                  case Whole => Resolution(id, TurnResult(cfg, score, OneAtATime(cfg, score, db, ms[..k]), ms[k]))
                  case Apart(attempts) =>
                    match attempts[k]
                    case Committed =>
                      var before := OneAtATime(cfg, score, db, CommittedOf(ms[..k], attempts[..k]));
                      Resolution(id, TurnResult(cfg, score, before, ms[k]))
                    case Failed(ValueFault) => Failure(id, ValueError)
                    case Failed(OtherFault) => Failure(id, InternalError)
  {
    hide Guards, PendingPositions, PendingMentions, NewMentions, OneAtATime, TurnResult, ListsAsScored, AfterApart,
         CommittedOf, AttemptResponse, PendingRank, BiteResults, Aligned, Stores;
    NewIsPending(cfg, db, requests, i);
    PendingAreNew(cfg, db, requests);
    PendingIsFresh(cfg, db, requests);
    match fate
    case Whole =>
      BatchTurn(cfg, score, linker, db, requests, i);
    case Apart(attempts) =>
      AttemptIsOneAtATime(cfg, score, linker, db, requests[i].requestId, NewMentions(db, requests), attempts,
                          |NewMentions(db, requests[..i])|);
  }

  /** The tables after a batch: those of resolving the committed new mentions one at a time. */
  lemma {:induction false} BatchStoresOneAtATime(cfg: Config, score: Similarity, linker: Linker, db: Database,
                                                 requests: seq<Request>, fate: Fate)
    requires ListsAsScored(linker, score) && Aligned(db)
    requires Possible(fate, |PendingPositions(Guards(cfg, db, requests))|)
    ensures fate.Apart? ==> |fate.attempts| == |NewMentions(db, requests)|
    ensures BatchDatabase(cfg, linker, db, requests, fate)
            == OneAtATime(cfg, score, db, CommittedMentions(NewMentions(db, requests), fate))
  {
    hide Guards, PendingPositions, PendingMentions, NewMentions, OneAtATime, AfterApart, CommittedOf, ResolveBite,
         BiteResults, Aligned;
    var ms := NewMentions(db, requests);
    PendingAreNew(cfg, db, requests);
    PendingIsFresh(cfg, db, requests);
    match fate
    case Whole =>
      BiteIsOneAtATime(cfg, score, db, ms, TableFor(cfg, linker, db, ms));
    case Apart(attempts) =>
      FallbackIsOneAtATime(cfg, score, linker, db, ms, attempts);
  }

  /** The tables the k-th new mention is resolved against when its turn comes. */
  function BeforeTurn(cfg: Config, linker: Linker, db: Database, ms: seq<Mention>, fate: Fate, k: nat): Database
    requires Possible(fate, |ms|) && k < |ms|
  {
    match fate
    case Whole => CommitAll(cfg, db, ms[..k], BiteLinks(ms, Rows(TableFor(cfg, linker, db, ms)))[..k])
    case Apart(attempts) => AfterApart(cfg, linker, db, ms[..k], attempts[..k])
  }

  /** Its links: the rows scored for it, in a bite without those to later mentions. */
  function TurnLinks(cfg: Config, linker: Linker, db: Database, ms: seq<Mention>, fate: Fate, k: nat): seq<Link>
    requires Possible(fate, |ms|) && k < |ms|
  {
    match fate
    case Whole => DropLater(ms, k, RowsOf(Rows(TableFor(cfg, linker, db, ms)), ms[k].id))
    case Apart(_) =>
      RowsOf(Rows(TableFor(cfg, linker, BeforeTurn(cfg, linker, db, ms, fate, k), [ms[k]])), ms[k].id)
  }

  lemma {:induction false} LoneLinks(m: Mention, rows: seq<Link>)
    ensures BiteLinks([m], rows) == [RowsOf(rows, m.id)]
  {
    EarlierLinksDropLater([m], 0, rows);
    DropLaterKeeps([m], 0, RowsOf(rows, m.id));
  }

  lemma {:induction false} BiteTurnArrives(cfg: Config, db: Database, ms: seq<Mention>, table: LinkTable, k: nat)
    requires cfg.Valid() && Invariant(cfg, db) && Fresh(db, ms) && k < |ms|
    requires ScoresBite(table, ms, Space(cfg, db, ms))
    ensures var links := BiteLinks(ms, Rows(table));
            Arrives(cfg, CommitAll(cfg, db, ms[..k], links[..k]), ms[k], links[k])
  {
    hide Invariant, EarlierLinks, CommitAll;
    var links := BiteLinks(ms, Rows(table));
    var before := CommitAll(cfg, db, ms[..k], links[..k]);
    EarlierLinksLinkBack(cfg, db, ms, table);
    FreshPrefix(db, ms, k);
    LinkBackPrefix(db, ms, links, k);
    CommitAllKeepsInvariant(cfg, db, ms[..k], links[..k]);
    StoredAfter(cfg.entityFields, db, ms[..k], before, ms[k].id);
    LinksIntoStoreInTurn(cfg.entityFields, db, ms, links, k, before);
    StoredLinksAreScored(links[k], ms[k].id, before);
  }

  /** When its turn comes a mention is new to a reachable state, and its links lead into what is stored. */
  lemma {:induction false} TurnArrives(cfg: Config, linker: Linker, db: Database, ms: seq<Mention>, fate: Fate, k: nat)
    requires cfg.Valid() && ObeysPort(linker) && Invariant(cfg, db) && Fresh(db, ms)
    requires Possible(fate, |ms|) && k < |ms|
    ensures Arrives(cfg, BeforeTurn(cfg, linker, db, ms, fate, k), ms[k], TurnLinks(cfg, linker, db, ms, fate, k))
  {
    hide Invariant, EarlierLinks, CommitAll, AfterApart, CommittedOf, RowsOf, DropLater, Arrives, Fresh;
    match fate
    case Whole =>
      SpaceHoldsBite(cfg, db, ms);
      EarlierLinksDropLater(ms, k, Rows(TableFor(cfg, linker, db, ms)));
      BiteTurnArrives(cfg, db, ms, TableFor(cfg, linker, db, ms), k);
    case Apart(attempts) =>
      var before := AfterApart(cfg, linker, db, ms[..k], attempts[..k]);
      FreshPrefix(db, ms, k);
      AttemptsStoreTheCommitted(cfg, linker, db, ms[..k], attempts[..k]);
      NotYetStored(cfg, db, ms, attempts, k, before);
      SingleIsFresh(before, ms[k]);
      SpaceHoldsBite(cfg, before, [ms[k]]);
      LoneLinks(ms[k], Rows(TableFor(cfg, linker, before, [ms[k]])));
      BiteTurnArrives(cfg, before, [ms[k]], TableFor(cfg, linker, before, [ms[k]]), 0);
      NothingCommitted(cfg, before, ms[k], RowsOf(Rows(TableFor(cfg, linker, before, [ms[k]])), ms[k].id));
  }

  lemma NothingCommitted(cfg: Config, db: Database, m: Mention, links: seq<Link>)
    requires AllTouch(links, m.id)
    ensures [m][..0] == [] && [links][..0] == [] && CommitAll(cfg, db, [], []) == db
  {
  }

  /** The candidates are the top of the score table over these links, ties included. */
  ghost predicate RanksLinks(cfg: Config, before: Database, m: Mention, links: seq<Link>, candidates: seq<Candidate>)
    requires AllTouch(links, m.id)
  {
    candidates != []
    && exists s: Scores | IsTable(s, links, m.id, Assigned(cfg, before, m, links), ClusterMap(before.clusters))
                          && s.Valid() ::
         AreTop(candidates, s.Items(), cfg.topN, CandidateScore) && RanksTable(candidates, s.best, cfg.topN)
  }

  lemma {:induction false} FirstAnswerRanksLinks(cfg: Config, before: Database, m: Mention, links: seq<Link>)
    requires Arrives(cfg, before, m, links)
    ensures RanksLinks(cfg, before, m, links, RankOne(cfg, before, m, links))
  {
    hide LinkedScores, ClusterMap, AreTop, IsTable, RanksTable, CandidateScores, AssignCluster, Invariant, Stores;
    var own, clusters := Assigned(cfg, before, m, links), ClusterMap(before.clusters);
    RankingIsTop(cfg.topN, m.id, own, links, clusters);
    RankingIsExact(cfg.topN, m.id, own, links, clusters);
    assert IsTable(CandidateScores(links, m.id, own, clusters), links, m.id, own, clusters);
  }

  /** The highest score of the links, none without links. */
  ghost predicate IsBestScore(links: seq<Link>, best: Option<real>) {
    match best
    case None => links == []
    case Some(score) => (exists l | l in links :: l.score == score) && forall l | l in links :: l.score <= score
  }

  /** A committed turn tells how many links it has, their best score, whether and what it joins, and the commit. */
  ghost predicate TellsTurn(cfg: Config, before: Database, m: Mention, links: seq<Link>, events: seq<Event>)
    requires AllTouch(links, m.id)
  {
    && |events| == 3
    && events[0].Scored? && events[0].links == |links| && IsBestScore(links, events[0].bestScore)
    && events[1] == Clustered(exists l | l in links :: l.score >= cfg.threshold, Assigned(cfg, before, m, links))
    && events[2] == Persisted
  }

  lemma {:induction false} TurnIsTold(cfg: Config, before: Database, m: Mention, links: seq<Link>)
    requires Arrives(cfg, before, m, links)
    ensures TellsTurn(cfg, before, m, links, CommitEvents((ScoredEvent(links), ClusteredEvent(cfg, before, m, links))))
  {
    hide FirstMax, ClusterMap;
    if links != [] {
      var i := FirstMaxIsFirst(links, LinkScore);
      forall l | l in links
        ensures l.score <= links[i].score
      {
        var j :| 0 <= j < |links| && links[j] == l;
        assert LinkScore(links[j]) <= LinkScore(links[i]);
      }
      assert links[i] in links && LinksIntoStore(before, m.id, links[i]);
      AlignedLookups(before);
    }
  }

  lemma {:induction false} CommitAllGrows(cfg: Config, db: Database, ms: seq<Mention>, links: seq<seq<Link>>, k: nat)
    requires LinksTouch(ms, links) && k <= |ms|
    ensures Extends(CommitAll(cfg, db, ms[..k], links[..k]), CommitAll(cfg, db, ms, links))
    decreases |ms| - k
  {
    hide CommitAll, BestLinks, AssignCluster;
    if k == |ms| {
      assert ms[..k] == ms && links[..k] == links;
    } else {
      CommitAllStep(cfg, db, ms, links, k);
      CommitAllGrows(cfg, db, ms, links, k + 1);
    }
  }

  lemma {:induction false} FallbackGrows(cfg: Config, linker: Linker, db: Database, ms: seq<Mention>,
                                         attempts: seq<Attempt>, k: nat)
    requires |attempts| == |ms| && k <= |ms|
    ensures Extends(AfterApart(cfg, linker, db, ms[..k], attempts[..k]), AfterApart(cfg, linker, db, ms, attempts))
    decreases |ms| - k
  {
    hide CommitAll;
    if k == |ms| {
      assert ms[..k] == ms && attempts[..k] == attempts;
    } else {
      assert ms[..k + 1][..k] == ms[..k] && attempts[..k + 1][..k] == attempts[..k];
      FallbackGrows(cfg, linker, db, ms, attempts, k + 1);
    }
  }

  /** What a committed turn adds stays. */
  lemma {:induction false} TurnIsStored(cfg: Config, linker: Linker, db: Database, ms: seq<Mention>, fate: Fate, k: nat)
    requires Possible(fate, |ms|) && k < |ms| && IsCommitted(fate, k)
    requires AllTouch(TurnLinks(cfg, linker, db, ms, fate, k), ms[k].id)
    ensures Extends(CommitOne(cfg, BeforeTurn(cfg, linker, db, ms, fate, k), ms[k],
                              TurnLinks(cfg, linker, db, ms, fate, k)),
                    AfterPending(cfg, linker, db, ms, fate))
  {
    hide CommitAll, CommitOne, AfterApart, RowsOf, DropLater, EarlierLinks;
    match fate
    case Whole =>
      var links := BiteLinks(ms, Rows(TableFor(cfg, linker, db, ms)));
      EarlierLinksDropLater(ms, k, Rows(TableFor(cfg, linker, db, ms)));
      CommitAllStep(cfg, db, ms, links, k);
      CommitAllGrows(cfg, db, ms, links, k + 1);
    case Apart(attempts) =>
      var before := AfterApart(cfg, linker, db, ms[..k], attempts[..k]);
      var links := RowsOf(Rows(TableFor(cfg, linker, before, [ms[k]])), ms[k].id);
      LoneLinks(ms[k], Rows(TableFor(cfg, linker, before, [ms[k]])));
      LoneCommit(cfg, before, ms[k], links);
      FallbackStep(cfg, linker, db, ms, attempts, k);
      FallbackGrows(cfg, linker, db, ms, attempts, k + 1);
  }

  lemma LoneCommit(cfg: Config, db: Database, m: Mention, links: seq<Link>)
    requires AllTouch(links, m.id)
    ensures CommitAll(cfg, db, [m], [links]) == CommitOne(cfg, db, m, links)
  {
    NothingCommitted(cfg, db, m, links);
  }

  lemma FallbackStep(cfg: Config, linker: Linker, db: Database, ms: seq<Mention>, attempts: seq<Attempt>, k: nat)
    requires |attempts| == |ms| && k < |ms| && attempts[k].Committed?
    ensures var before := AfterApart(cfg, linker, db, ms[..k], attempts[..k]);
            AfterApart(cfg, linker, db, ms[..k + 1], attempts[..k + 1])
            == ResolveBite(cfg, before, [ms[k]], TableFor(cfg, linker, before, [ms[k]]))
  {
    assert ms[..k + 1][..k] == ms[..k] && attempts[..k + 1][..k] == attempts[..k];
  }

  /**
   * Whatever the linker scores and whatever fails, a committed new mention is answered with the top of its score
   * table, its row, links and cluster stay stored, and its trace tells the links and the cluster of that turn; a
   * failed one is answered with the error of its fault, and its trace tells nothing.
   */
  lemma {:induction false} TurnIsAnswered(cfg: Config, linker: Linker, db: Database, requestId: string,
                                          ms: seq<Mention>, fate: Fate, k: nat)
    requires cfg.Valid() && ObeysPort(linker) && Invariant(cfg, db) && Fresh(db, ms)
    requires Possible(fate, |ms|) && k < |ms|
    ensures var before, links := BeforeTurn(cfg, linker, db, ms, fate, k), TurnLinks(cfg, linker, db, ms, fate, k);
            var response := PendingResponse(cfg, linker, db, requestId, ms, fate, k);
            var events := PendingEvents(cfg, linker, db, ms, fate, k);
            && Arrives(cfg, before, ms[k], links)
            && if IsCommitted(fate, k) then
                 && response.Resolution? && response.requestId == requestId
                 && RanksLinks(cfg, before, ms[k], links, response.candidates)
                 && Extends(CommitOne(cfg, before, ms[k], links), AfterPending(cfg, linker, db, ms, fate))
                 && TellsTurn(cfg, before, ms[k], links, events)
               else
                 && response == Failure(requestId, if fate.attempts[k].fault == ValueFault then ValueError
                                                   else InternalError)
                 && events == []
  {
    hide Invariant, EarlierLinks, AfterApart, RowsOf, DropLater, Arrives, Fresh, RankOne, RanksLinks, TellsTurn,
         ScoredEvent, ClusteredEvent, ObeysPort, CommitAll, CommitOne, AfterPending;
    var before, links := BeforeTurn(cfg, linker, db, ms, fate, k), TurnLinks(cfg, linker, db, ms, fate, k);
    TurnArrives(cfg, linker, db, ms, fate, k);
    assert AllTouch(links, ms[k].id) by { Touches(cfg, before, ms[k], links); }
    FirstAnswerRanksLinks(cfg, before, ms[k], links);
    TurnIsTold(cfg, before, ms[k], links);
    if IsCommitted(fate, k) {
      TurnIsStored(cfg, linker, db, ms, fate, k);
    }
    match fate
    case Whole =>
      EarlierLinksDropLater(ms, k, Rows(TableFor(cfg, linker, db, ms)));
    case Apart(attempts) =>
      LoneLinks(ms[k], Rows(TableFor(cfg, linker, before, [ms[k]])));
      NothingCommitted(cfg, before, ms[k], links);
  }

  lemma Touches(cfg: Config, db: Database, m: Mention, links: seq<Link>)
    requires Arrives(cfg, db, m, links)
    ensures AllTouch(links, m.id)
  {
  }

  /** What guarding a request shows: how its mention compares with what is stored. */
  function GuardTold(db: Database, request: Request): seq<Event> {
    if !IsMapped(request) then []
    else
      var m := request.mapping.mention;
      [Parsed(m.id),
       Guarded(if !Stores(db, m.id) then New else if m in db.mentions then Idempotent else ConflictFound)]
  }

  lemma GuardIsTold(cfg: Config, db: Database, request: Request)
    requires Aligned(db)
    ensures GuardEvents(cfg, db, request) == GuardTold(db, request)
  {
    hide GenCand, FindById, ClusterOf;
    if IsMapped(request) {
      var m := request.mapping.mention;
      LookupsAgree(db, m.id);
      FindByIdIsFirst(db.mentions, m.id);
      if p :| 0 <= p < |db.mentions| && db.mentions[p].id == m.id {
        FindByIdIsUnique(db.mentions, p);
      }
      if m in db.mentions {
        var p :| 0 <= p < |db.mentions| && db.mentions[p] == m;
        FindByIdIsUnique(db.mentions, p);
      }
    }
  }

  /** Answer and trace of a new mention are those of its turn. */
  lemma {:induction false} NewIsItsTurn(cfg: Config, linker: Linker, db: Database, requests: seq<Request>, fate: Fate,
                                        i: nat)
    requires Aligned(db) && Possible(fate, |PendingPositions(Guards(cfg, db, requests))|)
    requires i < |requests| && NewMention(db, requests, i).Some?
    ensures var ms, k := NewMentions(db, requests), |NewMentions(db, requests[..i])|;
            && Possible(fate, |ms|) && k < |ms| && ms[k] == requests[i].mapping.mention
            && BatchResponse(cfg, linker, db, requests, fate, i)
               == PendingResponse(cfg, linker, db, requests[i].requestId, ms, fate, k)
            && BatchEvents(cfg, linker, db, requests, fate, i)
               == GuardEvents(cfg, db, requests[i]) + PendingEvents(cfg, linker, db, ms, fate, k)
  {
    hide Guards, PendingPositions, PendingMentions, NewMentions, PendingResponse, PendingEvents, PendingRank,
         GuardEvents, Aligned, Stores;
    NewIsPending(cfg, db, requests, i);
    PendingAreNew(cfg, db, requests);
  }

  /**
   * Whatever the linker scores and whatever fails: a new mention is answered with the top of the score table of its
   * turn, what that turn adds stays stored, and its trace tells it after the guard; or it is answered with an
   * error, and its trace tells the guard alone.
   */
  lemma {:induction false} NewAreTold(cfg: Config, linker: Linker, db: Database, requests: seq<Request>, fate: Fate,
                                      i: nat)
    returns (turn: seq<Event>)
    requires cfg.Valid() && ObeysPort(linker) && Invariant(cfg, db)
    requires Possible(fate, |PendingPositions(Guards(cfg, db, requests))|)
    requires i < |requests| && NewMention(db, requests, i).Some?
    ensures BatchEvents(cfg, linker, db, requests, fate, i) == GuardTold(db, requests[i]) + turn
    ensures var ms, k := NewMentions(db, requests), |NewMentions(db, requests[..i])|;
            && Possible(fate, |ms|) && k < |ms| && ms[k] == requests[i].mapping.mention
            && var before, links := BeforeTurn(cfg, linker, db, ms, fate, k), TurnLinks(cfg, linker, db, ms, fate, k);
               var response := BatchResponse(cfg, linker, db, requests, fate, i);
               && Arrives(cfg, before, ms[k], links) && response.requestId == requests[i].requestId
               && if response.Resolution? then
                    && RanksLinks(cfg, before, ms[k], links, response.candidates)
                    && Extends(CommitOne(cfg, before, ms[k], links), BatchDatabase(cfg, linker, db, requests, fate))
                    && TellsTurn(cfg, before, ms[k], links, turn)
                  else turn == []
  {
    hide Guards, PendingPositions, PendingMentions, NewMentions, PendingResponse, PendingEvents, BatchResponse,
         BatchEvents, GuardEvents, GuardTold, Stores, BeforeTurn, TurnLinks, RanksLinks, TellsTurn, Arrives, NewMention,
         ObeysPort, Invariant, Fresh, AfterPending, CommitOne;
    assert Aligned(db) by { InvariantIsAligned(cfg, db); }
    var ms, k := NewMentions(db, requests), |NewMentions(db, requests[..i])|;
    PendingAreNew(cfg, db, requests);
    PendingIsFresh(cfg, db, requests);
    GuardIsTold(cfg, db, requests[i]);
    NewIsItsTurn(cfg, linker, db, requests, fate, i);
    TurnIsAnswered(cfg, linker, db, requests[i].requestId, ms, fate, k);
    turn := PendingEvents(cfg, linker, db, ms, fate, k);
  }

  lemma InvariantIsAligned(cfg: Config, db: Database)
    requires Invariant(cfg, db)
    ensures Aligned(db)
  {
  }

  /** The trace of any other request tells the guard alone. */
  lemma {:induction false} OthersAreTold(cfg: Config, linker: Linker, db: Database, requests: seq<Request>, fate: Fate,
                                         i: nat)
    requires Aligned(db) && Possible(fate, |PendingPositions(Guards(cfg, db, requests))|)
    requires i < |requests| && NewMention(db, requests, i).None?
    ensures BatchEvents(cfg, linker, db, requests, fate, i) == GuardTold(db, requests[i])
  {
    hide Guards, Aligned, NewMention, GuardEvents, GuardTold, PendingPositions;
    GuardIsTold(cfg, db, requests[i]);
    PendingExactlyIfNew(cfg, db, requests, i);
  }
}
