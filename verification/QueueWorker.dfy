/** The queue worker: takes bites, answers every request by position, and sends the answers in request order. */
module QueueWorker {
  import opened Domain
  import opened Tracing
  import opened Storage
  import opened Tables
  import opened Resolver
  import opened Forest
  import opened Service
  import opened ServiceGuarantees
  import opened Batching
  import opened OneByOne
  import opened BatchAnswers
  import opened TrainingTrigger
  import opened EntityResolver
  import opened ResolutionService
  import opened RequestQueue
  import opened BiteSizer

  /** Reading and writing messages. Parsing and dumping can fail; peeking at a request id tolerates any input. */
  datatype Codec = Codec(parse: Payload -> Option<Request>, peek: Payload -> string, dump: Response -> Option<Payload>)

  datatype Incoming = Incoming(position: nat, request: Request)

  /** The messages of a bite that parse, with their positions. */
  function Readable(codec: Codec, bite: seq<Payload>): (incoming: seq<Incoming>)
    ensures forall k | 0 <= k < |incoming| ::
              incoming[k].position < |bite| && codec.parse(bite[incoming[k].position]) == Some(incoming[k].request)
    ensures forall j, k | 0 <= j < k < |incoming| :: incoming[j].position < incoming[k].position
  {
    if bite == [] then []
    else
      var n := |bite| - 1;
      Readable(codec, bite[..n])
      + match codec.parse(bite[n])
        case Some(request) => [Incoming(n, request)]
        case None => []
  }

  function RequestsOf(incoming: seq<Incoming>): (requests: seq<Request>)
    ensures |requests| == |incoming|
  {
    seq(|incoming|, k requires 0 <= k < |incoming| => incoming[k].request)
  }

  /** How many messages before this one parse: its place among them if it parses itself. */
  function ReadableRank(codec: Codec, bite: seq<Payload>, i: nat): nat
    requires i <= |bite|
  {
    |Readable(codec, bite[..i])|
  }

  lemma {:induction false} ReadableRankIsPlace(codec: Codec, bite: seq<Payload>, i: nat)
    requires i < |bite|
    ensures codec.parse(bite[i]).Some? ==>
              && ReadableRank(codec, bite, i) < |Readable(codec, bite)|
              && Readable(codec, bite)[ReadableRank(codec, bite, i)] == Incoming(i, codec.parse(bite[i]).value)
  {
    var n := |bite| - 1;
    if i < n {
      ReadableRankIsPlace(codec, bite[..n], i);
      assert bite[..n][..i] == bite[..i];
    }
  }

  /** The requests of a stream of messages. */
  function RequestStream(codec: Codec, messages: seq<Payload>): seq<Request> {
    RequestsOf(Readable(codec, messages))
  }

  lemma {:induction false} RequestStreamSnoc(codec: Codec, messages: seq<Payload>, raw: Payload)
    ensures RequestStream(codec, messages + [raw])
            == RequestStream(codec, messages) + match codec.parse(raw) case Some(request) => [request] case None => []
  {
    assert (messages + [raw])[..|messages|] == messages;
  }

  lemma {:induction false} RequestStreamAppend(codec: Codec, a: seq<Payload>, b: seq<Payload>)
    ensures RequestStream(codec, a + b) == RequestStream(codec, a) + RequestStream(codec, b)
  {
    hide RequestStream;
    if b == [] {
      assert a + b == a && RequestStream(codec, b) == [] by { NoStream(codec); }
    } else {
      var init, last := b[..|b| - 1], b[|b| - 1];
      RequestStreamAppend(codec, a, init);
      RequestStreamSnoc(codec, a + init, last);
      RequestStreamSnoc(codec, init, last);
      assert a + b == (a + init) + [last] && b == init + [last];
    }
  }

  lemma NoStream(codec: Codec)
    ensures RequestStream(codec, []) == []
  {
  }

  /** No two requests are for the same mention. */
  ghost predicate NoRepeats(requests: seq<Request>) {
    forall i, j | 0 <= i < j < |requests| && IsMapped(requests[i]) && IsMapped(requests[j]) ::
      requests[i].mapping.mention.id != requests[j].mapping.mention.id
  }

  /** An in-bite repeat asks for the mention of an earlier request. */
  lemma {:induction false} RepeatNamesTwo(cfg: Config, db: Database, requests: seq<Request>, i: nat) returns (j: nat)
    requires Aligned(db) && i < |requests| && Guards(cfg, db, requests)[i].Repeat?
    ensures j < i && IsMapped(requests[j]) && IsMapped(requests[i])
    ensures requests[j].mapping.mention == requests[i].mapping.mention
  {
    hide Guards, PendingPositions;
    var k := RepeatHasFirst(cfg, db, requests, i);
    j := PendingPositions(Guards(cfg, db, requests))[k];
    GuardAt(cfg, db, requests, i);
    GuardAt(cfg, db, requests, j);
  }

  lemma {:induction false} NoRepeatJobs(cfg: Config, db: Database, requests: seq<Request>)
    requires Aligned(db) && NoRepeats(requests)
    ensures RepeatJobs(Guards(cfg, db, requests)) == []
    ensures forall after, left :: !RaisesOn(cfg, db, after, requests, left)
  {
    hide Guards, RepeatJobs;
    var outcomes := Guards(cfg, db, requests);
    RepeatJobsAreExact(outcomes);
    if RepeatJobs(outcomes) != [] {
      var j := RepeatNamesTwo(cfg, db, requests, RepeatJobs(outcomes)[0].position);
    }
  }

  lemma NoRepeatsSplits(a: seq<Request>, b: seq<Request>)
    requires NoRepeats(a + b)
    ensures NoRepeats(a) && NoRepeats(b)
  {
    forall i, j | 0 <= i < j < |b| && IsMapped(b[i]) && IsMapped(b[j])
      ensures b[i].mapping.mention.id != b[j].mapping.mention.id
    {
      assert (a + b)[|a| + i] == b[i] && (a + b)[|a| + j] == b[j];
    }
    assert forall i | 0 <= i < |a| :: (a + b)[i] == a[i];
  }

  ghost predicate Fits(codec: Codec, cfg: Config, db: Database, bite: seq<Payload>, fate: Fate) {
    Possible(fate, |PendingPositions(Guards(cfg, db, RequestStream(codec, bite)))|)
  }

  /** The answer to the i-th message of a bite. `raised`: the service raised instead of answering. */
  ghost function BiteResponse(codec: Codec, cfg: Config, linker: Linker, db: Database, bite: seq<Payload>, fate: Fate,
                              raised: bool, i: nat): Response
    requires i < |bite| && Fits(codec, cfg, db, bite, fate)
  {
    if codec.parse(bite[i]) == None || raised then Failure(codec.peek(bite[i]), ProcessingError)
    else
      ReadableRankIsPlace(codec, bite, i);
      BatchResponse(cfg, linker, db, RequestStream(codec, bite), fate, ReadableRank(codec, bite, i))
  }

  ghost function BiteResponses(codec: Codec, cfg: Config, linker: Linker, db: Database, bite: seq<Payload>,
                               fate: Fate, raised: bool): (responses: seq<Response>)
    requires Fits(codec, cfg, db, bite, fate)
    ensures |responses| == |bite|
  {
    seq(|bite|, i requires 0 <= i < |bite| => BiteResponse(codec, cfg, linker, db, bite, fate, raised, i))
  }

  /** The whole lifecycle of the i-th message of a bite. */
  ghost function LifecycleEvents(codec: Codec, cfg: Config, linker: Linker, db: Database, bite: seq<Payload>,
                                 fate: Fate, i: nat): seq<Event>
    requires i < |bite| && Fits(codec, cfg, db, bite, fate)
  {
    [Dequeued] + ServiceEvents(codec, cfg, linker, db, bite, fate, i) + [Responded]
  }

  /** What the service adds to the trace of the i-th message: nothing if it does not parse. */
  ghost function ServiceEvents(codec: Codec, cfg: Config, linker: Linker, db: Database, bite: seq<Payload>,
                               fate: Fate, i: nat): seq<Event>
    requires i < |bite| && Fits(codec, cfg, db, bite, fate)
  {
    if codec.parse(bite[i]) == None then []
    else
      ReadableRankIsPlace(codec, bite, i);
      BatchEvents(cfg, linker, db, RequestStream(codec, bite), fate, ReadableRank(codec, bite, i))
  }

  /** The response belongs to the message: the service's answer to its request, or an error under its peeked id. */
  ghost predicate Answers(codec: Codec, raw: Payload, response: Response) {
    || response == Failure(codec.peek(raw), ProcessingError)
    || (codec.parse(raw).Some? && response.requestId == codec.parse(raw).value.requestId)
  }

  /** As `Answers`, with every message that parses answered by the service. */
  ghost predicate Serves(codec: Codec, raw: Payload, response: Response) {
    match codec.parse(raw)
    case None => response == Failure(codec.peek(raw), ProcessingError)
    case Some(request) => response.requestId == request.requestId
  }

  ghost predicate AllServed(codec: Codec, taken: seq<Payload>, answered: seq<Response>, start: nat) {
    && |answered| == |taken|
    && forall i | start <= i < |taken| :: Serves(codec, taken[i], answered[i])
  }

  ghost predicate AllAnswered(codec: Codec, taken: seq<Payload>, answered: seq<Response>) {
    && |answered| == |taken|
    && forall i | 0 <= i < |taken| :: Answers(codec, taken[i], answered[i])
  }

  /** Every message that does not parse is answered with a processing error under its peeked id. */
  ghost predicate UnreadableFail(codec: Codec, taken: seq<Payload>, answered: seq<Response>) {
    && |answered| == |taken|
    && forall i | 0 <= i < |taken| && codec.parse(taken[i]) == None ::
         answered[i] == Failure(codec.peek(taken[i]), ProcessingError)
  }

  /** From some message on, every one is answered so. */
  ghost predicate AllFail(codec: Codec, taken: seq<Payload>, answered: seq<Response>, start: nat) {
    && |answered| == |taken|
    && forall i | start <= i < |taken| :: answered[i] == Failure(codec.peek(taken[i]), ProcessingError)
  }

  lemma UnreadableAreAnswered(codec: Codec, taken: seq<Payload>, answered: seq<Response>)
    requires AllAnswered(codec, taken, answered)
    ensures UnreadableFail(codec, taken, answered)
  {
    forall i | 0 <= i < |taken| && codec.parse(taken[i]) == None
      ensures answered[i] == Failure(codec.peek(taken[i]), ProcessingError)
    {
      assert Answers(codec, taken[i], answered[i]);
    }
  }

  /** Every message of a bite gets an answer that belongs to it. */
  lemma ResponsesBelong(codec: Codec, cfg: Config, linker: Linker, db: Database, bite: seq<Payload>, fate: Fate,
                        raised: bool, i: nat)
    requires i < |bite| && Fits(codec, cfg, db, bite, fate)
    ensures Answers(codec, bite[i], BiteResponse(codec, cfg, linker, db, bite, fate, raised, i))
    ensures !raised ==> Serves(codec, bite[i], BiteResponse(codec, cfg, linker, db, bite, fate, raised, i))
    ensures raised ==>
              BiteResponse(codec, cfg, linker, db, bite, fate, raised, i)
              == Failure(codec.peek(bite[i]), ProcessingError)
  {
    hide Guards, PendingPositions, BatchResponse;
    if codec.parse(bite[i]).Some? {
      ReadableRankIsPlace(codec, bite, i);
      AnswersCarryTheirRequest(cfg, linker, db, RequestStream(codec, bite), fate, ReadableRank(codec, bite, i));
    }
  }

  lemma BiteIsAnswered(codec: Codec, cfg: Config, linker: Linker, db: Database, bite: seq<Payload>, fate: Fate,
                       raised: bool, taken: seq<Payload>, answered: seq<Response>)
    requires Fits(codec, cfg, db, bite, fate) && AllAnswered(codec, taken, answered)
    ensures AllAnswered(codec, taken + bite, answered + BiteResponses(codec, cfg, linker, db, bite, fate, raised))
    ensures !raised ==>
              AllServed(codec, taken + bite, answered + BiteResponses(codec, cfg, linker, db, bite, fate, raised),
                        |answered|)
    ensures raised ==>
              AllFail(codec, taken + bite, answered + BiteResponses(codec, cfg, linker, db, bite, fate, raised),
                      |answered|)
  {
    hide BiteResponse, Answers, Serves;
    forall i: nat | i < |bite|
      ensures Answers(codec, bite[i], BiteResponses(codec, cfg, linker, db, bite, fate, raised)[i])
      ensures !raised ==> Serves(codec, bite[i], BiteResponses(codec, cfg, linker, db, bite, fate, raised)[i])
      ensures raised ==>
                BiteResponses(codec, cfg, linker, db, bite, fate, raised)[i]
                == Failure(codec.peek(bite[i]), ProcessingError)
    {
      ResponsesBelong(codec, cfg, linker, db, bite, fate, raised, i);
    }
  }

  /** From the queue to the response, the events of every message follow the declared order of stages. */
  lemma LifecycleFollowsStages(codec: Codec, cfg: Config, linker: Linker, db: Database, bite: seq<Payload>,
                               fate: Fate, i: nat)
    requires i < |bite| && Fits(codec, cfg, db, bite, fate)
    ensures InStageOrder(LifecycleEvents(codec, cfg, linker, db, bite, fate, i))
  {
    hide Guards, PendingPositions, BatchEvents, BatchResponse;
    if codec.parse(bite[i]).Some? {
      ReadableRankIsPlace(codec, bite, i);
      EventsAreExact(cfg, linker, db, RequestStream(codec, bite), fate, ReadableRank(codec, bite, i));
    }
  }

  /**
   * Which stages every message shows: dequeued and responded always, parsed and guarded if it asks for a mention,
   * and scored, clustered and persisted if that mention is new and answered with its resolution.
   */
  lemma LifecycleIsExact(codec: Codec, cfg: Config, linker: Linker, db: Database, bite: seq<Payload>, fate: Fate,
                         i: nat)
    requires Aligned(db) && i < |bite| && Fits(codec, cfg, db, bite, fate)
    ensures var events := LifecycleEvents(codec, cfg, linker, db, bite, fate, i);
            if codec.parse(bite[i]).None? then events == [Dequeued, Responded]
            else
              var requests, k := RequestStream(codec, bite), ReadableRank(codec, bite, i);
              && k < |requests| && requests[k] == codec.parse(bite[i]).value
              && StagesOf(events)
                 == [0] + (if IsMapped(requests[k]) then [1, 2] else [])
                    + (if NewMention(db, requests, k).Some?
                          && BatchResponse(cfg, linker, db, requests, fate, k).Resolution? then [3, 4, 5] else [])
                    + [6]
  {
    hide Guards, PendingPositions, BatchEvents, BatchResponse, NewMention, Readable, Aligned;
    if codec.parse(bite[i]).Some? {
      var requests, k := RequestStream(codec, bite), ReadableRank(codec, bite, i);
      ReadableRankIsPlace(codec, bite, i);
      EventsAreExact(cfg, linker, db, requests, fate, k);
      PendingExactlyIfNew(cfg, db, requests, k);
      var events := BatchEvents(cfg, linker, db, requests, fate, k);
      assert StagesOf([Dequeued] + events + [Responded]) == [0] + StagesOf(events) + [6];
    }
  }

  /** The payloads of a list of responses: those that fail to serialise are dropped. */
  function Dumps(codec: Codec, responses: seq<Response>): seq<Payload> {
    if responses == [] then []
    else
      Dumps(codec, responses[..|responses| - 1])
      + match codec.dump(responses[|responses| - 1])
        case Some(payload) => [payload]
        case None => []
  }

  lemma {:induction false} DumpsAppend(codec: Codec, first: seq<Response>, second: seq<Response>)
    ensures Dumps(codec, first + second) == Dumps(codec, first) + Dumps(codec, second)
  {
    if second == [] {
      assert first + second == first;
    } else {
      var init := second[..|second| - 1];
      DumpsAppend(codec, first, init);
      assert (first + second)[..|first + second| - 1] == first + init;
    }
  }

  ghost predicate Serialisable(codec: Codec, responses: seq<Response>) {
    forall i | 0 <= i < |responses| :: codec.dump(responses[i]).Some?
  }

  /** The stream is the one-for-one image of the responses exactly when all of them serialise. */
  lemma {:induction false} StreamIsOneForOne(codec: Codec, responses: seq<Response>)
    ensures |Dumps(codec, responses)| <= |responses|
    ensures |Dumps(codec, responses)| == |responses| <==> Serialisable(codec, responses)
    ensures Serialisable(codec, responses) ==>
              forall i | 0 <= i < |responses| :: codec.dump(responses[i]) == Some(Dumps(codec, responses)[i])
  {
    if responses != [] {
      var n := |responses| - 1;
      var init := responses[..n];
      StreamIsOneForOne(codec, init);
      assert forall i | 0 <= i < n :: init[i] == responses[i];
      if codec.dump(responses[n]).Some? && Serialisable(codec, init) {
        assert Serialisable(codec, responses);
      } else if codec.dump(responses[n]).Some? {
        assert !Serialisable(codec, responses);
      }
    }
  }

  /** The parse loop's slots after the first `n` messages: an error for each that does not parse. */
  ghost predicate ErrorsFilled(codec: Codec, bite: seq<Payload>, n: nat, slots: seq<Option<Response>>) {
    && |slots| == |bite|
    && forall i | 0 <= i < |bite| ::
         slots[i] == if i < n && codec.parse(bite[i]) == None
                     then Some(Failure(codec.peek(bite[i]), ProcessingError)) else None
  }

  /** After the service answered the first `n` readable messages. */
  ghost predicate AnswersFilled(codec: Codec, bite: seq<Payload>, results: seq<Response>, n: nat,
                                slots: seq<Option<Response>>)
    requires n <= |results| == |Readable(codec, bite)|
  {
    && |slots| == |bite|
    && (forall i | 0 <= i < |bite| && codec.parse(bite[i]) == None ::
          slots[i] == Some(Failure(codec.peek(bite[i]), ProcessingError)))
    && forall k | 0 <= k < n :: slots[Readable(codec, bite)[k].position] == Some(results[k])
  }

  lemma ErrorsAreAnswers(codec: Codec, bite: seq<Payload>, slots: seq<Option<Response>>)
    requires ErrorsFilled(codec, bite, |bite|, slots)
    ensures forall results | |results| == |Readable(codec, bite)| :: AnswersFilled(codec, bite, results, 0, slots)
  {
  }

  lemma OneMoreAnswer(codec: Codec, bite: seq<Payload>, results: seq<Response>, n: nat, slots: seq<Option<Response>>)
    requires n < |results| == |Readable(codec, bite)| && AnswersFilled(codec, bite, results, n, slots)
    ensures AnswersFilled(codec, bite, results, n + 1, slots[Readable(codec, bite)[n].position := Some(results[n])])
  {
  }

  lemma EmptyBatch(cfg: Config, linker: Linker, db: Database)
    ensures Possible(Whole, |PendingPositions(Guards(cfg, db, []))|) && BatchDatabase(cfg, linker, db, [], Whole) == db
  {
    SettlesNothing(cfg, linker, db);
    assert PendingMentions(Guards(cfg, db, [])) == [];
  }

  lemma NothingRaises(cfg: Config, db: Database, left: seq<Option<Fault>>)
    ensures Suffers(Whole, left, left) && !RaisesOn(cfg, db, db, [], left)
  {
    SuffersNothing(left);
  }

  lemma NothingReadable(codec: Codec, cfg: Config, linker: Linker, db: Database, bite: seq<Payload>,
                        slots: seq<Option<Response>>)
    requires Readable(codec, bite) == [] && ErrorsFilled(codec, bite, |bite|, slots)
             && Fits(codec, cfg, db, bite, Whole)
    ensures forall i | 0 <= i < |bite| ::
              && slots[i] == Some(BiteResponse(codec, cfg, linker, db, bite, Whole, false, i))
              && ServiceEvents(codec, cfg, linker, db, bite, Whole, i) == []
  {
    forall i: nat | i < |bite|
      ensures codec.parse(bite[i]) == None
    {
      ReadableRankIsPlace(codec, bite, i);
    }
  }

  lemma EveryMessageIsAnswered(codec: Codec, cfg: Config, linker: Linker, db: Database, bite: seq<Payload>,
                               fate: Fate, raised: bool, results: seq<Response>, slots: seq<Option<Response>>)
    requires Fits(codec, cfg, db, bite, fate) && |results| == |Readable(codec, bite)|
    requires AnswersFilled(codec, bite, results, |results|, slots)
    requires forall k | 0 <= k < |results| ::
               results[k] == if raised
                             then Failure(codec.peek(bite[Readable(codec, bite)[k].position]), ProcessingError)
                             else BatchResponse(cfg, linker, db, RequestStream(codec, bite), fate, k)
    ensures forall i | 0 <= i < |bite| ::
              slots[i] == Some(BiteResponse(codec, cfg, linker, db, bite, fate, raised, i))
  {
    hide Guards, PendingPositions, BatchResponse, Readable;
    forall i: nat | i < |bite|
      ensures slots[i] == Some(BiteResponse(codec, cfg, linker, db, bite, fate, raised, i))
    {
      ReadableRankIsPlace(codec, bite, i);
    }
  }

  /** How many trainings are started while the stored count goes from one value to the other. */
  function Starts(cfg: Config, before: nat, after: nat): nat {
    if Crosses(cfg.autoTrainThreshold, before, after) then 1 else 0
  }

  lemma StartsAddUp(cfg: Config, a: nat, b: nat, c: nat)
    requires a <= b <= c
    ensures Starts(cfg, a, b) + Starts(cfg, b, c) == Starts(cfg, a, c)
  {
  }

  /** What a run changes, between two bites. */
  datatype Snapshot = Snapshot(
    db: Database, pushed: seq<Payload>, taken: seq<Payload>, answered: seq<Response>, trainings: nat, faultless: bool)

  ghost predicate Grows(cfg: Config, a: Snapshot, b: Snapshot) {
    && a.pushed <= b.pushed && a.taken <= b.taken && a.answered <= b.answered && Extends(a.db, b.db)
    && b.trainings == a.trainings + Starts(cfg, |a.db.mentions|, |b.db.mentions|)
  }

  /**
   * One bite: without faults it is committed as a whole; without faults, or without in-bite repeats whatever
   * fails, the service answers every readable message.
   */
  ghost predicate StepsTo(codec: Codec, cfg: Config, linker: Linker, a: Snapshot, b: Snapshot) {
    && Grows(cfg, a, b)
    && var requests := RequestStream(codec, b.taken[|a.taken|..]);
       && (a.faultless || RepeatJobs(Guards(cfg, a.db, requests)) == [] ==>
             AllServed(codec, b.taken, b.answered, |a.answered|))
       && (a.faultless ==> b.faultless && b.db == BatchDatabase(cfg, linker, a.db, requests, Whole))
  }

  /**
   * Any number of bites: without faults, or without two requests for one mention whatever fails, the service
   * answers every readable message; without faults and with rows in search-space order, the store is that of
   * the consumed requests one by one, however they were divided into bites.
   */
  ghost predicate RunsTo(codec: Codec, cfg: Config, linker: Linker, score: Similarity, a: Snapshot, b: Snapshot) {
    && Grows(cfg, a, b)
    && var requests := RequestStream(codec, b.taken[|a.taken|..]);
       && (a.faultless || NoRepeats(requests) ==> AllServed(codec, b.taken, b.answered, |a.answered|))
       && (a.faultless ==>
             b.faultless && (ListsAsScored(linker, score) ==> b.db == SingleDatabase(cfg, linker, a.db, requests)))
  }

  lemma StaysPut(codec: Codec, cfg: Config, linker: Linker, score: Similarity, a: Snapshot)
    requires |a.answered| == |a.taken|
    ensures RunsTo(codec, cfg, linker, score, a, a)
  {
    assert RequestStream(codec, a.taken[|a.taken|..]) == [];
  }

  lemma StepRuns(codec: Codec, cfg: Config, linker: Linker, score: Similarity, a: Snapshot, b: Snapshot)
    requires StepsTo(codec, cfg, linker, a, b) && Aligned(a.db)
    ensures RunsTo(codec, cfg, linker, score, a, b)
  {
    hide BatchDatabase, SingleDatabase, ListsAsScored, RequestStream, AllServed, Starts, Aligned, NoRepeats,
         RepeatJobs, Guards;
    var requests := RequestStream(codec, b.taken[|a.taken|..]);
    if a.faultless && ListsAsScored(linker, score) {
      BatchStoresLikeSingles(cfg, score, linker, a.db, requests);
    }
    if NoRepeats(requests) {
      NoRepeatJobs(cfg, a.db, requests);
    }
  }

  lemma RunsOn(codec: Codec, cfg: Config, linker: Linker, score: Similarity, a: Snapshot, b: Snapshot, c: Snapshot)
    requires RunsTo(codec, cfg, linker, score, a, b) && RunsTo(codec, cfg, linker, score, b, c)
    ensures RunsTo(codec, cfg, linker, score, a, c)
  {
    hide SingleDatabase, ListsAsScored, RequestStream, Starts, NoRepeats, Serves;
    StartsAddUp(cfg, |a.db.mentions|, |b.db.mentions|, |c.db.mentions|);
    var first, second := b.taken[|a.taken|..], c.taken[|b.taken|..];
    RequestStreamAppend(codec, first, second);
    SinglesAppend(cfg, linker, a.db, RequestStream(codec, first), RequestStream(codec, second));
    assert c.taken[|a.taken|..] == first + second;
    if NoRepeats(RequestStream(codec, first + second)) {
      NoRepeatsSplits(RequestStream(codec, first), RequestStream(codec, second));
    }
  }

  ghost predicate Chooses(codec: Codec, bite: seq<Payload>, traces: seq<MentionTrace>, chosen: seq<MentionTrace>) {
    && |traces| == |bite| && |chosen| == |Readable(codec, bite)|
    && forall k | 0 <= k < |chosen| :: chosen[k] == traces[Readable(codec, bite)[k].position]
  }

  lemma {:induction false} OthersAreNotChosen(codec: Codec, bite: seq<Payload>, traces: seq<MentionTrace>,
                                              chosen: seq<MentionTrace>)
    requires Chooses(codec, bite, traces, chosen) && Distinct(traces)
    ensures forall i | 0 <= i < |bite| && codec.parse(bite[i]) == None :: traces[i] !in chosen
  {
    hide Readable;
  }

  lemma {:induction false} ReadableAreChosen(codec: Codec, bite: seq<Payload>, traces: seq<MentionTrace>,
                                             chosen: seq<MentionTrace>)
    requires Chooses(codec, bite, traces, chosen)
    ensures forall i: nat | i < |bite| && codec.parse(bite[i]).Some? ::
              ReadableRank(codec, bite, i) < |chosen| && chosen[ReadableRank(codec, bite, i)] == traces[i]
  {
    hide Readable, ReadableRank;
    forall i: nat | i < |bite| && codec.parse(bite[i]).Some?
      ensures ReadableRank(codec, bite, i) < |chosen| && chosen[ReadableRank(codec, bite, i)] == traces[i]
    {
      ReadableRankIsPlace(codec, bite, i);
    }
  }

  /** A readable message's trace shows what the service adds for its request, any other stays as it was. */
  lemma {:induction false} EveryMessageShows(codec: Codec, cfg: Config, linker: Linker, db: Database,
                                             bite: seq<Payload>, fate: Fate, start: seq<seq<Entry>>,
                                             last: seq<seq<Entry>>)
    requires |start| == |last| == |bite| && Fits(codec, cfg, db, bite, fate)
    requires forall i | 0 <= i < |bite| && codec.parse(bite[i]) == None :: last[i] == start[i]
    requires forall i: nat | i < |bite| && codec.parse(bite[i]).Some? ::
               ReadableRank(codec, bite, i) < |Readable(codec, bite)|
               && Logs(start[i], last[i],
                       BatchEvents(cfg, linker, db, RequestStream(codec, bite), fate, ReadableRank(codec, bite, i)))
    ensures forall i: nat | i < |bite| ::
              Logs(start[i], last[i], ServiceEvents(codec, cfg, linker, db, bite, fate, i))
  {
    hide Readable, ReadableRank, Logs, BatchEvents, Guards, PendingPositions, Possible;
    forall i: nat | i < |bite|
      ensures Logs(start[i], last[i], ServiceEvents(codec, cfg, linker, db, bite, fate, i))
    {
      LogsNothing(start[i]);
    }
  }

  class RedisQueueWorker {
    const queue: RedisRequestQueue
    const service: EntityResolutionService
    const sizer: Sizer
    const codec: Codec
    /** Every response built so far, in the order of the requests. */
    ghost var answered: seq<Response>

    constructor (queue: RedisRequestQueue, service: EntityResolutionService, settings: Settings, codec: Codec)
      requires settings.Valid() && service.engine.Valid()
      requires queue.server.requests == queue.server.responses == [] && queue.server.pushed == queue.server.taken == []
      ensures this.queue == queue && this.service == service && this.codec == codec && answered == []
      ensures Valid() && fresh(sizer)
    {
      this.queue, this.service, this.codec := queue, service, codec;
      sizer := new Sizer(settings);
      answered := [];
    }

    function Server(): RedisServer {
      queue.server
    }

    function Engine(): Engine {
      service.engine
    }

    /** Between two bites: nothing lost, every consumed request answered, every answer sent, all in order. */
    ghost predicate Valid()
      reads this, Server(), Engine(), Engine().con, sizer
    {
      && Engine().Valid() && sizer.Averages() && sizer.settings.Valid()
      && Server().Conserves()
      && AllAnswered(codec, Server().taken, answered)
      && Server().ResponseStream() == Dumps(codec, answered)
    }

    ghost function Now(): Snapshot
      reads this, Server(), Engine(), Engine().con
    {
      Snapshot(Engine().con.db, Server().pushed, Server().taken, answered, Engine().trainingsStarted,
               Engine().con.NoFaults())
    }

    /** A trace for every message of a bite, showing when it was dequeued. */
    method Dequeue(bite: seq<Payload>) returns (traces: seq<MentionTrace>)
      modifies Engine().clock
      ensures |traces| == |bite| && Distinct(traces) && fresh(traces)
      ensures UpToDate(traces, Engine().clock) && Engine().clock.now >= old(Engine().clock.now)
      ensures forall i | 0 <= i < |traces| ::
                traces[i].started >= old(Engine().clock.now) && Logs([], traces[i].log, [Dequeued])
    {
      hide Logs;
      traces := [];
      for n := 0 to |bite|
        invariant |traces| == n && Distinct(traces) && fresh(traces)
        invariant UpToDate(traces, Engine().clock) && Engine().clock.now >= old(Engine().clock.now)
        invariant forall i | 0 <= i < n ::
                    traces[i].started >= old(Engine().clock.now) && Logs([], traces[i].log, [Dequeued])
      {
        var start := Engine().clock.Read();
        var trace := new MentionTrace(start);
        trace.StageNow(Dequeued, Engine().clock);
        traces := traces + [trace];
      }
    }

    method Parse(bite: seq<Payload>) returns (incoming: seq<Incoming>, slots: seq<Option<Response>>)
      ensures incoming == Readable(codec, bite) && ErrorsFilled(codec, bite, |bite|, slots)
    {
      incoming, slots := [], seq(|bite|, i => None);
      for position := 0 to |bite|
        invariant incoming == Readable(codec, bite[..position]) && ErrorsFilled(codec, bite, position, slots)
      {
        assert bite[..position + 1][..position] == bite[..position];
        match codec.parse(bite[position]) {
          case Some(request) =>
            incoming := incoming + [Incoming(position, request)];
          case None =>
            slots := slots[position := Some(Failure(codec.peek(bite[position]), ProcessingError))];
        }
      }
      assert bite[..|bite|] == bite;
    }

    /** The call itself, with the traces of the readable messages. */
    method CallService(bite: seq<Payload>, incoming: seq<Incoming>, chosen: seq<MentionTrace>)
      returns (results: seq<Response>, ghost fate: Fate, ghost raised: bool, ghost left: seq<Option<Fault>>)
      requires Engine().Valid() && |chosen| == |incoming| && Distinct(chosen) && UpToDate(chosen, Engine().clock)
      requires forall k | 0 <= k < |incoming| :: incoming[k].position < |bite|
      modifies Engine().con, Engine().clock, chosen, Engine()`trainingsStarted
      ensures Engine().Valid() && UpToDate(chosen, Engine().clock) && Engine().clock.now >= old(Engine().clock.now)
      ensures Possible(fate, |PendingPositions(Guards(Engine().cfg, old(Engine().con.db), RequestsOf(incoming)))|)
      ensures Engine().con.db
              == BatchDatabase(Engine().cfg, Engine().linker, old(Engine().con.db), RequestsOf(incoming), fate)
      ensures Suffers(fate, old(Engine().con.faults), left)
      ensures raised <==> RaisesOn(Engine().cfg, old(Engine().con.db), Engine().con.db, RequestsOf(incoming), left)
      ensures old(Engine().con.NoFaults()) ==> !raised && fate == Whole && Engine().con.NoFaults()
      ensures Engine().trainingsStarted
              == old(Engine().trainingsStarted)
                 + Starts(Engine().cfg, |old(Engine().con.db.mentions)|, |Engine().con.db.mentions|)
      ensures |results| == |incoming|
      ensures forall k | 0 <= k < |results| ::
                results[k] == if raised then Failure(codec.peek(bite[incoming[k].position]), ProcessingError)
                              else BatchResponse(Engine().cfg, Engine().linker, old(Engine().con.db),
                                                 RequestsOf(incoming), fate, k)
      ensures forall k | 0 <= k < |incoming| ::
                Logs(old(chosen[k].log), chosen[k].log,
                     BatchEvents(Engine().cfg, Engine().linker, old(Engine().con.db), RequestsOf(incoming), fate, k))
    {
      hide Logs, Guards, PendingPositions, BatchResponse, BatchEvents, BatchDatabase, Invariant, ObeysPort, Possible,
           Suffers, RaisesOn;
      var failed;
      failed, results, fate, left := service.ProcessBatch(RequestsOf(incoming), chosen);
      raised := failed;
      if failed {
        results := seq(|incoming|, k requires 0 <= k < |incoming| =>
          Failure(codec.peek(bite[incoming[k].position]), ProcessingError));
      }
    }

    /** One call of the service for all readable messages; if it raises, each of them gets an error. */
    method AskService(bite: seq<Payload>, incoming: seq<Incoming>, traces: seq<MentionTrace>)
      returns (results: seq<Response>, ghost fate: Fate, ghost raised: bool, ghost left: seq<Option<Fault>>)
      requires Engine().Valid() && |traces| == |bite| && Distinct(traces) && UpToDate(traces, Engine().clock)
      requires incoming == Readable(codec, bite)
      modifies Engine().con, Engine().clock, traces, Engine()`trainingsStarted
      ensures Engine().Valid() && UpToDate(traces, Engine().clock) && Engine().clock.now >= old(Engine().clock.now)
      ensures Fits(codec, Engine().cfg, old(Engine().con.db), bite, fate)
      ensures Engine().con.db
              == BatchDatabase(Engine().cfg, Engine().linker, old(Engine().con.db), RequestsOf(incoming), fate)
      ensures Suffers(fate, old(Engine().con.faults), left)
      ensures raised <==> RaisesOn(Engine().cfg, old(Engine().con.db), Engine().con.db, RequestsOf(incoming), left)
      ensures old(Engine().con.NoFaults()) ==> !raised && fate == Whole && Engine().con.NoFaults()
      ensures Engine().trainingsStarted
              == old(Engine().trainingsStarted)
                 + Starts(Engine().cfg, |old(Engine().con.db.mentions)|, |Engine().con.db.mentions|)
      ensures |results| == |incoming|
      ensures forall k | 0 <= k < |results| ::
                results[k] == if raised then Failure(codec.peek(bite[incoming[k].position]), ProcessingError)
                              else BatchResponse(Engine().cfg, Engine().linker, old(Engine().con.db),
                                                 RequestsOf(incoming), fate, k)
      ensures forall i | 0 <= i < |bite| ::
                Logs(old(traces[i].log), traces[i].log,
                     ServiceEvents(codec, Engine().cfg, Engine().linker, old(Engine().con.db), bite, fate, i))
    {
      hide Logs, Readable, Guards, PendingPositions, BatchResponse, BatchEvents, BatchDatabase, Invariant, ObeysPort,
           Possible, Suffers, RaisesOn, Starts;
      ghost var cfg, linker, db := Engine().cfg, Engine().linker, Engine().con.db;
      var chosen := seq(|incoming|, k requires 0 <= k < |incoming| => traces[incoming[k].position]);
      OthersAreNotChosen(codec, bite, traces, chosen);
      ReadableAreChosen(codec, bite, traces, chosen);
      results, fate, raised, left := CallService(bite, incoming, chosen);
      forall i | 0 <= i < |bite|
        ensures traces[i].last <= Engine().clock.now
        ensures codec.parse(bite[i]) == None ==> traces[i].log == old(traces[i].log)
      {
      }
      EveryMessageShows(codec, cfg, linker, db, bite, fate, old(LogsOf(traces)), LogsOf(traces));
      assert forall i | 0 <= i < |traces| ::
          LogsOf(traces)[i] == traces[i].log && old(LogsOf(traces))[i] == old(traces[i].log);
    }

    /** `_resolve`: the service's answers go to the positions of their requests. */
    method Resolve(bite: seq<Payload>, incoming: seq<Incoming>, traces: seq<MentionTrace>, slots: seq<Option<Response>>)
      returns (filled: seq<Option<Response>>, ghost fate: Fate, ghost raised: bool, ghost left: seq<Option<Fault>>)
      requires Engine().Valid() && |traces| == |bite| && Distinct(traces) && UpToDate(traces, Engine().clock)
      requires incoming == Readable(codec, bite) && ErrorsFilled(codec, bite, |bite|, slots)
      modifies Engine().con, Engine().clock, traces, Engine()`trainingsStarted
      ensures Engine().Valid() && UpToDate(traces, Engine().clock) && Engine().clock.now >= old(Engine().clock.now)
      ensures Fits(codec, Engine().cfg, old(Engine().con.db), bite, fate)
      ensures Engine().con.db
              == BatchDatabase(Engine().cfg, Engine().linker, old(Engine().con.db), RequestsOf(incoming), fate)
      ensures Suffers(fate, old(Engine().con.faults), left)
      ensures raised <==> RaisesOn(Engine().cfg, old(Engine().con.db), Engine().con.db, RequestsOf(incoming), left)
      ensures old(Engine().con.NoFaults()) ==> !raised && fate == Whole && Engine().con.NoFaults()
      ensures Engine().trainingsStarted
              == old(Engine().trainingsStarted)
                 + Starts(Engine().cfg, |old(Engine().con.db.mentions)|, |Engine().con.db.mentions|)
      ensures |filled| == |bite| && forall i | 0 <= i < |bite| ::
                filled[i] == Some(BiteResponse(codec, Engine().cfg, Engine().linker, old(Engine().con.db), bite,
                                               fate, raised, i))
      ensures forall i | 0 <= i < |bite| ::
                Logs(old(traces[i].log), traces[i].log,
                     ServiceEvents(codec, Engine().cfg, Engine().linker, old(Engine().con.db), bite, fate, i))
    {
      hide Logs, Readable, Guards, PendingPositions, BatchResponse, BatchEvents, BatchDatabase, Invariant, ObeysPort,
           BiteResponse, AnswersFilled, ServiceEvents;
      ghost var cfg, linker, db := Engine().cfg, Engine().linker, Engine().con.db;
      filled, fate, raised, left := slots, Whole, false, Engine().con.faults;
      if incoming == [] {
        EmptyBatch(cfg, linker, db);
        NothingRaises(cfg, db, left);
        NothingReadable(codec, cfg, linker, db, bite, filled);
        forall i | 0 <= i < |bite|
          ensures Logs(old(traces[i].log), traces[i].log, [])
        {
          LogsNothing(traces[i].log);
        }
        return;
      }
      ErrorsAreAnswers(codec, bite, slots);
      var results;
      results, fate, raised, left := AskService(bite, incoming, traces);
      for k := 0 to |incoming|
        modifies {}
        invariant |filled| == |bite| && AnswersFilled(codec, bite, results, k, filled)
      {
        OneMoreAnswer(codec, bite, results, k, filled);
        filled := filled[incoming[k].position := Some(results[k])];
      }
      EveryMessageIsAnswered(codec, cfg, linker, db, bite, fate, raised, results, filled);
    }

    /** `_send_responses`: serialises in request order, dropping what fails, and pushes in one pipeline. */
    method SendResponses(responses: seq<Response>)
      modifies Server()`responses, Server()`requests, Server()`pushed
      ensures Server().ResponseStream() == old(Server().ResponseStream()) + Dumps(codec, responses)
      ensures old(Server().Conserves()) ==> Server().Conserves()
      ensures old(Server().pushed) <= Server().pushed
    {
      var payloads := [];
      for n := 0 to |responses|
        modifies {}
        invariant payloads == Dumps(codec, responses[..n])
      {
        assert responses[..n + 1][..n] == responses[..n];
        match codec.dump(responses[n]) {
          case Some(payload) =>
            payloads := payloads + [payload];
          case None =>
        }
      }
      assert responses[..|responses|] == responses;
      Server().PushResponses(payloads);
    }

    /** Closes the last stage of every trace. */
    method CloseTraces(traces: seq<MentionTrace>)
      requires Distinct(traces) && UpToDate(traces, Engine().clock)
      modifies traces, Engine().clock
      ensures forall i | 0 <= i < |traces| ::
                traces[i].last <= Engine().clock.now && Logs(old(traces[i].log), traces[i].log, [Responded])
      ensures Engine().clock.now >= old(Engine().clock.now)
    {
      hide Logs;
      for n := 0 to |traces|
        invariant Engine().clock.now >= old(Engine().clock.now)
        invariant forall i | n <= i < |traces| ::
                    traces[i].log == old(traces[i].log) && traces[i].last == old(traces[i].last)
        invariant forall i | 0 <= i < n ::
                    traces[i].last <= Engine().clock.now && Logs(old(traces[i].log), traces[i].log, [Responded])
      {
        traces[n].StageNow(Responded, Engine().clock);
      }
    }

    /** The first half of `_process`: a trace and an answer for every message. */
    method AnswerMessages(bite: seq<Payload>)
      returns (responses: seq<Response>, traces: seq<MentionTrace>, ghost fate: Fate, ghost raised: bool,
               ghost left: seq<Option<Fault>>)
      requires Engine().Valid()
      modifies Engine().con, Engine().clock, Engine()`trainingsStarted
      ensures Engine().Valid() && Engine().clock.now >= old(Engine().clock.now)
      ensures Fits(codec, Engine().cfg, old(Engine().con.db), bite, fate)
      ensures Engine().con.db
              == BatchDatabase(Engine().cfg, Engine().linker, old(Engine().con.db), RequestStream(codec, bite), fate)
      ensures Suffers(fate, old(Engine().con.faults), left)
      ensures raised <==>
                RaisesOn(Engine().cfg, old(Engine().con.db), Engine().con.db, RequestStream(codec, bite), left)
      ensures old(Engine().con.NoFaults()) ==> !raised && fate == Whole && Engine().con.NoFaults()
      ensures Engine().trainingsStarted
              == old(Engine().trainingsStarted)
                 + Starts(Engine().cfg, |old(Engine().con.db.mentions)|, |Engine().con.db.mentions|)
      ensures responses == BiteResponses(codec, Engine().cfg, Engine().linker, old(Engine().con.db), bite, fate, raised)
      ensures |traces| == |bite| && fresh(traces) && Distinct(traces) && UpToDate(traces, Engine().clock)
      ensures forall i | 0 <= i < |bite| :: traces[i].started >= old(Engine().clock.now)
      ensures forall i | 0 <= i < |bite| ::
                Logs([], traces[i].log,
                     [Dequeued] + ServiceEvents(codec, Engine().cfg, Engine().linker, old(Engine().con.db), bite,
                                                fate, i))
    {
      hide Logs, Readable, Fits, BatchDatabase, Invariant, ObeysPort, BiteResponse, ServiceEvents, ErrorsFilled;
      ghost var cfg, linker, db := Engine().cfg, Engine().linker, Engine().con.db;
      traces := Dequeue(bite);
      var incoming, slots := Parse(bite);
      label Dequeued:
      var filled;
      filled, fate, raised, left := Resolve(bite, incoming, traces, slots);
      responses := seq(|bite|, i requires 0 <= i < |bite| => filled[i].value);
      forall i: nat | i < |bite|
        ensures Logs([], traces[i].log, [Event.Dequeued] + ServiceEvents(codec, cfg, linker, db, bite, fate, i))
      {
        LogsCompose([], old@Dequeued(traces[i].log), traces[i].log, [Event.Dequeued],
                    ServiceEvents(codec, cfg, linker, db, bite, fate, i));
      }
    }

    /** `_process`: every message of a bite is answered, in order, and shows its whole lifecycle. */
    method Process(bite: seq<Payload>)
      returns (processed: nat, ghost fate: Fate, ghost raised: bool, ghost left: seq<Option<Fault>>,
               ghost traces: seq<MentionTrace>, ghost seconds: real)
      requires Engine().Valid() && sizer.Averages() && Server().Conserves()
      requires Server().ResponseStream() == Dumps(codec, answered)
      modifies Server()`responses, Server()`requests, Server()`pushed, Engine().con, Engine().clock,
               Engine()`trainingsStarted,
               sizer, this`answered
      ensures processed == |bite|
      ensures Engine().Valid() && sizer.Averages() && Server().Conserves() && old(Server().pushed) <= Server().pushed
      ensures Fits(codec, Engine().cfg, old(Engine().con.db), bite, fate)
      ensures Engine().con.db
              == BatchDatabase(Engine().cfg, Engine().linker, old(Engine().con.db), RequestStream(codec, bite), fate)
      ensures Suffers(fate, old(Engine().con.faults), left)
      ensures raised <==>
                RaisesOn(Engine().cfg, old(Engine().con.db), Engine().con.db, RequestStream(codec, bite), left)
      ensures old(Engine().con.NoFaults()) ==> !raised && fate == Whole && Engine().con.NoFaults()
      ensures Engine().trainingsStarted
              == old(Engine().trainingsStarted)
                 + Starts(Engine().cfg, |old(Engine().con.db.mentions)|, |Engine().con.db.mentions|)
      ensures answered
              == old(answered)
                 + BiteResponses(codec, Engine().cfg, Engine().linker, old(Engine().con.db), bite, fate, raised)
      ensures Server().ResponseStream() == Dumps(codec, answered)
      ensures |traces| == |bite| && fresh(traces) && forall i | 0 <= i < |bite| ::
                Logs([], traces[i].log,
                     LifecycleEvents(codec, Engine().cfg, Engine().linker, old(Engine().con.db), bite, fate, i))
      ensures 0.0 <= seconds <= Engine().clock.now - old(Engine().clock.now)
      ensures forall i | 0 <= i < |bite| :: traces[i].last - traces[i].started <= seconds
      ensures sizer.observed
              == old(sizer.observed) + (if bite != [] && seconds > 0.0 then [|bite| as real / seconds] else [])
    {
      hide Logs, Readable, Fits, BatchDatabase, Invariant, ObeysPort, BiteResponses, ServiceEvents, LifecycleEvents,
           Dumps, Suffers, RaisesOn, Starts, UpToDate, RequestStream, RedisServer.Conserves,
           RedisServer.ResponseStream, RedisServer.Waiting;
      ghost var cfg, linker, db := Engine().cfg, Engine().linker, Engine().con.db;
      processed, fate, raised, left, traces, seconds := |bite|, Whole, false, Engine().con.faults, [], 0.0;
      if bite == [] {
        NoMessages(codec, cfg, linker, db);
        NothingRaises(cfg, db, left);
        return;
      }
      var started := Engine().clock.Read();
      var responses, running;
      responses, running, fate, raised, left := AnswerMessages(bite);
      traces := running;
      SendResponses(responses);
      DumpsAppend(codec, answered, responses);
      answered := answered + responses;
      ghost var sent := LogsOf(traces);
      CloseTraces(running);
      LifecycleEnds(codec, cfg, linker, db, bite, fate, sent, LogsOf(traces));
      var ended := Engine().clock.Read();
      sizer.Observe(|bite|, ended - started);
      seconds := ended - started;
    }

    /** `process_bite`: takes a bite sized by recent speed, answers it and sends all answers before returning. */
    method ProcessBite() returns (processed: nat, ghost raised: bool)
      requires Valid()
      modifies Server(), queue.timer, Engine().con, Engine().clock, Engine()`trainingsStarted, sizer, this`answered
      ensures Valid() && old(Server().pushed) <= Server().pushed
      ensures StepsTo(codec, Engine().cfg, Engine().linker, old(Now()), Now())
      ensures processed == |answered| - |old(answered)|
      ensures processed <= old(Limit(sizer.settings, sizer.rate)) <= sizer.settings.maxMentions
      ensures old(Server().Waiting()) != [] ==> processed > 0
      ensures UnreadableFail(codec, Server().taken, answered)
      ensures raised ==> AllFail(codec, Server().taken, answered, |old(answered)|)
      ensures !raised ==> AllServed(codec, Server().taken, answered, |old(answered)|)
    {
      hide Dumps, RedisServer.Conserves, RedisServer.ResponseStream, RedisServer.Waiting, Limit, AllServed, Fits,
           AllFail, UnreadableFail, BiteResponses, Invariant, ObeysPort, BatchDatabase, Logs, LifecycleEvents,
           Readable, TotalBytes, Suffers, Extends, Starts, RequestStream, Sizer.Averages;
      LimitIsPositive(sizer.settings, sizer.rate);
      var limit := sizer.CurrentLimit();
      var bite := queue.Take(limit);
      ghost var db := Engine().con.db;
      ghost var fate, left, traces, seconds;
      processed, fate, raised, left, traces, seconds := Process(bite);
      BiteIsAnswered(codec, Engine().cfg, Engine().linker, db, bite, fate, raised, old(Server().taken), old(answered));
      BiteExtends(codec, Engine().cfg, Engine().linker, db, bite, fate);
      UnreadableAreAnswered(codec, Server().taken, answered);
    }

    /** Any number of bites, with producers pushing at every step. */
    method Run(bites: nat, ghost score: Similarity)
      requires Valid()
      modifies Server(), queue.timer, Engine().con, Engine().clock, Engine()`trainingsStarted, sizer, this`answered
      ensures Valid() && old(Server().pushed) <= Server().pushed
      ensures RunsTo(codec, Engine().cfg, Engine().linker, score, old(Now()), Now())
      ensures Server().taken + Server().Waiting() == Server().pushed
      ensures bites >= |old(Server().Waiting())| ==> old(Server().pushed) <= Server().taken
      ensures UnreadableFail(codec, Server().taken, answered)
      ensures Serialisable(codec, answered) ==>
                && |Server().ResponseStream()| == |Server().taken|
                && forall i | 0 <= i < |Server().taken| ::
                     codec.dump(answered[i]) == Some(Server().ResponseStream()[i])
                     && Answers(codec, Server().taken[i], answered[i])
    {
      hide RunsTo, StepsTo, Dumps, Answers, UnreadableFail, AllFail, AllServed, RedisServer.ResponseStream,
           RedisServer.Waiting, ObeysPort;
      StaysPut(codec, Engine().cfg, Engine().linker, score, Now());
      for n := 0 to bites
        invariant Valid() && RunsTo(codec, Engine().cfg, Engine().linker, score, old(Now()), Now())
        invariant old(Server().pushed) <= Server().pushed
        invariant |Server().taken| >= |old(Server().taken)| + n || |Server().taken| >= |old(Server().pushed)|
      {
        ghost var before := Now();
        assert Server().taken + Server().Waiting() == Server().pushed;
        var processed, raised := ProcessBite();
        StepRuns(codec, Engine().cfg, Engine().linker, score, before, Now());
        RunsOn(codec, Engine().cfg, Engine().linker, score, old(Now()), before, Now());
      }
      assert old(Server().taken + Server().Waiting() == Server().pushed);
      assert Server().taken + Server().Waiting() == Server().pushed;
      StreamIsOneForOne(codec, answered);
      UnreadableAreAnswered(codec, Server().taken, answered);
    }
  }

  lemma LifecycleEnds(codec: Codec, cfg: Config, linker: Linker, db: Database, bite: seq<Payload>, fate: Fate,
                      before: seq<seq<Entry>>, after: seq<seq<Entry>>)
    requires Fits(codec, cfg, db, bite, fate) && |before| == |after| == |bite|
    requires forall i | 0 <= i < |bite| ::
               Logs([], before[i], [Dequeued] + ServiceEvents(codec, cfg, linker, db, bite, fate, i))
    requires forall i | 0 <= i < |bite| :: Logs(before[i], after[i], [Responded])
    ensures forall i | 0 <= i < |bite| ::
              Logs([], after[i], LifecycleEvents(codec, cfg, linker, db, bite, fate, i))
  {
    hide Logs, ServiceEvents, Fits;
    forall i: nat | i < |bite|
      ensures Logs([], after[i], LifecycleEvents(codec, cfg, linker, db, bite, fate, i))
    {
      LogsCompose([], before[i], after[i], [Dequeued] + ServiceEvents(codec, cfg, linker, db, bite, fate, i),
                  [Responded]);
    }
  }

  lemma NoMessages(codec: Codec, cfg: Config, linker: Linker, db: Database)
    ensures Fits(codec, cfg, db, [], Whole)
    ensures BatchDatabase(cfg, linker, db, RequestStream(codec, []), Whole) == db
    ensures BiteResponses(codec, cfg, linker, db, [], Whole, false) == []
    ensures RequestStream(codec, []) == [] && Starts(cfg, |db.mentions|, |db.mentions|) == 0
  {
    EmptyBatch(cfg, linker, db);
    assert RequestStream(codec, []) == [];
  }

  lemma BiteExtends(codec: Codec, cfg: Config, linker: Linker, db: Database, bite: seq<Payload>, fate: Fate)
    requires cfg.Valid() && ObeysPort(linker) && Forest.Invariant(cfg, db) && Fits(codec, cfg, db, bite, fate)
    ensures Extends(db, BatchDatabase(cfg, linker, db, RequestStream(codec, bite), fate))
  {
    BatchStoresTheCommitted(cfg, linker, db, RequestStream(codec, bite), fate);
  }

  lemma LimitIsPositive(settings: Settings, rate: Option<real>)
    requires settings.Valid()
    ensures 1 <= Limit(settings, rate) <= settings.maxMentions
  {
    if rate.Some? {
      LimitIsClampedAndMonotone(settings, rate.value, rate.value);
    }
  }
}
