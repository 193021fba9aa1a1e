/** What a batch of requests is answered with, and what it stores, on values. */
module Service {
  import opened Domain
  import opened Tables
  import opened Resolver
  import opened Requery
  import opened Storage
  import opened Tracing
  import opened Lifecycle

  /** What mapping a request's content to a mention gives; `Crashes` is any other exception while guarding it. */
  datatype Mapping = Mapped(mention: Mention) | Malformed | Crashes

  datatype Request = Unsupported(requestId: string) | Resolve(requestId: string, mapping: Mapping)

  predicate IsMapped(request: Request) {
    request.Resolve? && request.mapping.Mapped?
  }

  datatype ErrorType = UnsupportedRequestType | ValueError | Conflict | InternalError | ProcessingError

  datatype Response =
    | Resolution(requestId: string, candidates: seq<Candidate>)
    | Failure(requestId: string, error: ErrorType)

  /** What guarding leaves to do: nothing, an in-bite repeat to answer at the end, or a new mention to resolve. */
  datatype Outcome = Answered(response: Response) | Repeat(mention: Mention) | Pending(mention: Mention)

  /** `check_conflict`: stored with different attributes. */
  predicate ConflictsWithStored(db: Database, m: Mention) {
    FindById(db.mentions, m.id).Some? && FindById(db.mentions, m.id).value.attributes != m.attributes
  }

  function Guard(cfg: Config, db: Database, request: Request, firstSeen: map<MentionId, Mention>): Outcome {
    match request
    case Unsupported(id) => Answered(Failure(id, UnsupportedRequestType))
    case Resolve(id, Malformed) => Answered(Failure(id, ValueError))
    case Resolve(id, Crashes) => Answered(Failure(id, InternalError))
    case Resolve(id, Mapped(m)) =>
      if ConflictsWithStored(db, m) then Answered(Failure(id, Conflict))
      else
        var cached := FindClusterFor(cfg, db, m.id);
        if m.id in firstSeen && firstSeen[m.id].attributes != m.attributes then Answered(Failure(id, Conflict))
        else if cached.Some? then Answered(Resolution(id, cached.value))
        else if m.id in firstSeen then Repeat(m)
        else Pending(m)
  }

  /** The trace events of guarding one request. */
  function GuardEvents(cfg: Config, db: Database, request: Request): seq<Event> {
    match request
    case Unsupported(_) => []
    case Resolve(_, Malformed) => []
    case Resolve(_, Crashes) => []
    case Resolve(_, Mapped(m)) =>
      [Parsed(m.id),
       Guarded(if ConflictsWithStored(db, m) then ConflictFound
               else if FindClusterFor(cfg, db, m.id).Some? then Idempotent
               else New)]
  }

  /** The new mentions met so far, by id. */
  function FirstSeen(outcomes: seq<Outcome>): map<MentionId, Mention> {
    if outcomes == [] then map[]
    else
      var rest, last := FirstSeen(outcomes[..|outcomes| - 1]), outcomes[|outcomes| - 1];
      if last.Pending? then rest[last.mention.id := last.mention] else rest
  }

  /** All requests are guarded, in order, before anything is resolved. */
  function Guards(cfg: Config, db: Database, requests: seq<Request>): (outcomes: seq<Outcome>)
    ensures |outcomes| == |requests|
  {
    if requests == [] then []
    else
      var rest := Guards(cfg, db, requests[..|requests| - 1]);
      rest + [Guard(cfg, db, requests[|requests| - 1], FirstSeen(rest))]
  }

  /** The positions of the requests whose mention is to be resolved, in order. */
  function PendingPositions(outcomes: seq<Outcome>): (positions: seq<nat>)
    ensures forall k | 0 <= k < |positions| :: positions[k] < |outcomes| && outcomes[positions[k]].Pending?
    ensures forall j, k | 0 <= j < k < |positions| :: positions[j] < positions[k]
  {
    if outcomes == [] then []
    else
      var n := |outcomes| - 1;
      PendingPositions(outcomes[..n]) + (if outcomes[n].Pending? then [n] else [])
  }

  function PendingMentions(outcomes: seq<Outcome>): (ms: seq<Mention>)
    ensures |ms| == |PendingPositions(outcomes)|
  {
    var positions := PendingPositions(outcomes);
    seq(|positions|, k requires 0 <= k < |positions| => outcomes[positions[k]].mention)
  }

  /** How resolving one mention on its own ended. */
  datatype Attempt = Committed | Failed(fault: Fault)

  /** How resolving the pending mentions ended: in one bite, or - the bite failed - each on its own. */
  datatype Fate = Whole | Apart(attempts: seq<Attempt>)

  /** A single pending mention gets no second attempt, and every failure of it counts as unexpected. */
  predicate Possible(fate: Fate, pending: nat) {
    fate.Apart? ==> |fate.attempts| == pending && (pending == 1 ==> fate.attempts[0] == Failed(OtherFault))
  }

  predicate IsCommitted(fate: Fate, k: nat)
    requires fate.Apart? ==> k < |fate.attempts|
  {
    fate.Whole? || fate.attempts[k].Committed?
  }

  function AttemptFaults(attempt: Attempt): seq<Fault> {
    match attempt
    case Committed => []
    case Failed(fault) => [fault]
  }

  /** The faults of the failed attempts, in order. */
  function FaultsOf(attempts: seq<Attempt>): seq<Fault> {
    if attempts == [] then []
    else FaultsOf(attempts[..|attempts| - 1]) + AttemptFaults(attempts[|attempts| - 1])
  }

  /**
   * What strikes between two schedules accounts for the fate: nothing if the bite was committed; otherwise one
   * fault for the bite and then, unless it had a single mention, one for each failed attempt, of its kind.
   */
  ghost predicate Suffers(fate: Fate, before: seq<Option<Fault>>, after: seq<Option<Fault>>) {
    match fate
    case Whole => Struck(before, after, [])
    case Apart(attempts) =>
      exists first :: Struck(before, after, [first] + if |attempts| == 1 then [] else FaultsOf(attempts))
  }

  /** One of the next `n` statements fails. */
  predicate FailsWithin(schedule: seq<Option<Fault>>, n: nat) {
    exists k :: 0 <= k < n && k < |schedule| && schedule[k] != None
  }

  function TableFor(cfg: Config, linker: Linker, db: Database, bite: seq<Mention>): LinkTable {
    linker(bite, Space(cfg, db, bite))
  }

  /** The tables after attempts on single mentions, of which the failed ones leave nothing. */
  function AfterApart(cfg: Config, linker: Linker, db: Database, ms: seq<Mention>, attempts: seq<Attempt>): Database
    requires |attempts| == |ms|
  {
    if ms == [] then db
    else
      var n := |ms| - 1;
      var before := AfterApart(cfg, linker, db, ms[..n], attempts[..n]);
      if attempts[n].Committed? then ResolveBite(cfg, before, [ms[n]], TableFor(cfg, linker, before, [ms[n]]))
      else before
  }

  function AfterPending(cfg: Config, linker: Linker, db: Database, ms: seq<Mention>, fate: Fate): Database
    requires Possible(fate, |ms|)
  {
    match fate
    case Whole => ResolveBite(cfg, db, ms, TableFor(cfg, linker, db, ms))
    case Apart(attempts) => AfterApart(cfg, linker, db, ms, attempts)
  }

  function ErrorFor(fault: Fault): ErrorType {
    match fault
    case ValueFault => ValueError
    case OtherFault => InternalError
  }

  /** The answer of an attempt on a single mention. */
  function AttemptResponse(cfg: Config, linker: Linker, before: Database, requestId: string, m: Mention,
                           attempt: Attempt): Response {
    match attempt
    case Committed => Resolution(requestId, BiteResults(cfg, before, [m], TableFor(cfg, linker, before, [m]))[0])
    case Failed(fault) => Failure(requestId, ErrorFor(fault))
  }

  /** What an attempt on a single mention shows in its trace: nothing if it was rolled back. */
  function AttemptEvents(cfg: Config, linker: Linker, before: Database, m: Mention, attempt: Attempt): seq<Event> {
    match attempt
    case Committed => CommitEvents(BiteEvents(cfg, before, [m], TableFor(cfg, linker, before, [m]))[0])
    case Failed(_) => []
  }

  /** The answer for the k-th pending mention. */
  function PendingResponse(cfg: Config, linker: Linker, db: Database, requestId: string, ms: seq<Mention>, fate: Fate,
                           k: nat): Response
    requires Possible(fate, |ms|) && k < |ms|
  {
    match fate
    case Whole => Resolution(requestId, BiteResults(cfg, db, ms, TableFor(cfg, linker, db, ms))[k])
    case Apart(attempts) =>
      AttemptResponse(cfg, linker, AfterApart(cfg, linker, db, ms[..k], attempts[..k]), requestId, ms[k], attempts[k])
  }

  /** `_respond_cached`. */
  function CachedResponse(cfg: Config, db: Database, requestId: string, id: MentionId): Response {
    match FindClusterFor(cfg, db, id)
    case Some(candidates) => Resolution(requestId, candidates)
    case None => Failure(requestId, InternalError)
  }

  /** The tables after a batch of requests. */
  function BatchDatabase(cfg: Config, linker: Linker, db: Database, requests: seq<Request>, fate: Fate): Database
    requires Possible(fate, |PendingPositions(Guards(cfg, db, requests))|)
  {
    AfterPending(cfg, linker, db, PendingMentions(Guards(cfg, db, requests)), fate)
  }

  /** How many of the requests before this one are pending: its place among them if it is pending itself. */
  function PendingRank(outcomes: seq<Outcome>, i: nat): nat
    requires i <= |outcomes|
  {
    |PendingPositions(outcomes[..i])|
  }

  lemma {:induction false} PendingRankIsPlace(outcomes: seq<Outcome>, i: nat)
    requires i < |outcomes|
    ensures PendingRank(outcomes, i) <= |PendingPositions(outcomes)|
    ensures outcomes[i].Pending? ==>
              PendingRank(outcomes, i) < |PendingPositions(outcomes)|
                && PendingPositions(outcomes)[PendingRank(outcomes, i)] == i
  {
    var n := |outcomes| - 1;
    if i < n {
      PendingRankIsPlace(outcomes[..n], i);
      assert outcomes[..n][..i] == outcomes[..i];
    }
  }

  /** The answer to the i-th request of a batch. */
  function BatchResponse(cfg: Config, linker: Linker, db: Database, requests: seq<Request>, fate: Fate, i: nat)
    : Response
    requires Possible(fate, |PendingPositions(Guards(cfg, db, requests))|) && i < |requests|
  {
    var outcomes := Guards(cfg, db, requests);
    match outcomes[i]
    case Answered(response) => response
    case Repeat(m) => CachedResponse(cfg, BatchDatabase(cfg, linker, db, requests, fate), requests[i].requestId, m.id)
    case Pending(m) =>
      PendingRankIsPlace(outcomes, i);
      PendingResponse(cfg, linker, db, requests[i].requestId, PendingMentions(outcomes), fate, PendingRank(outcomes, i))
  }

  /** What its trace shows of the turn of the k-th pending mention; nothing if it was rolled back. */
  function PendingEvents(cfg: Config, linker: Linker, db: Database, ms: seq<Mention>, fate: Fate, k: nat): seq<Event>
    requires Possible(fate, |ms|) && k < |ms|
  {
    match fate
    case Whole => CommitEvents(BiteEvents(cfg, db, ms, TableFor(cfg, linker, db, ms))[k])
    case Apart(attempts) =>
      AttemptEvents(cfg, linker, AfterApart(cfg, linker, db, ms[..k], attempts[..k]), ms[k], attempts[k])
  }

  /** What the batch adds to the trace of its i-th request. */
  function BatchEvents(cfg: Config, linker: Linker, db: Database, requests: seq<Request>, fate: Fate, i: nat)
    : seq<Event>
    requires Possible(fate, |PendingPositions(Guards(cfg, db, requests))|) && i < |requests|
  {
    var outcomes := Guards(cfg, db, requests);
    GuardEvents(cfg, db, requests[i])
    + match outcomes[i]
      case Answered(_) => []
      case Repeat(_) => []
      case Pending(_) =>
        PendingRankIsPlace(outcomes, i);
        PendingEvents(cfg, linker, db, PendingMentions(outcomes), fate, PendingRank(outcomes, i))
  }
}
