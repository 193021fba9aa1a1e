/** The service as it runs: guards in a loop, one bite for the new mentions, the fallback, then the repeats. */
module ResolutionService {
  import opened Domain
  import opened Ordering
  import opened Ranking
  import opened Tables
  import opened Resolver
  import opened Forest
  import opened Requery
  import opened Storage
  import opened Tracing
  import opened Lifecycle
  import opened TrainingTrigger
  import opened Service
  import opened ServiceGuarantees
  import opened EntityResolver

  datatype Job = Job(position: nat, mention: Mention)

  /** The jobs the guards leave, in request order. */
  function PendingJobs(outcomes: seq<Outcome>): seq<Job> {
    if outcomes == [] then []
    else
      var n := |outcomes| - 1;
      PendingJobs(outcomes[..n]) + (if outcomes[n].Pending? then [Job(n, outcomes[n].mention)] else [])
  }

  function RepeatJobs(outcomes: seq<Outcome>): seq<Job> {
    if outcomes == [] then []
    else
      var n := |outcomes| - 1;
      RepeatJobs(outcomes[..n]) + (if outcomes[n].Repeat? then [Job(n, outcomes[n].mention)] else [])
  }

  lemma {:induction false} RepeatJobsAreExact(outcomes: seq<Outcome>)
    ensures forall k | 0 <= k < |RepeatJobs(outcomes)| ::
              RepeatJobs(outcomes)[k].position < |outcomes|
              && outcomes[RepeatJobs(outcomes)[k].position] == Repeat(RepeatJobs(outcomes)[k].mention)
    ensures forall i | 0 <= i < |outcomes| && outcomes[i].Repeat? :: Job(i, outcomes[i].mention) in RepeatJobs(outcomes)
  {
    if outcomes != [] {
      var n := |outcomes| - 1;
      RepeatJobsAreExact(outcomes[..n]);
      assert forall i | 0 <= i < n :: outcomes[..n][i] == outcomes[i];
    }
  }

  lemma {:induction false} PendingJobsArePositions(outcomes: seq<Outcome>)
    ensures |PendingJobs(outcomes)| == |PendingPositions(outcomes)|
    ensures forall k | 0 <= k < |PendingJobs(outcomes)| ::
              PendingJobs(outcomes)[k] == Job(PendingPositions(outcomes)[k], PendingMentions(outcomes)[k])
  {
    if outcomes != [] {
      var n := |outcomes| - 1;
      PendingJobsArePositions(outcomes[..n]);
      PendingMentionsSnoc(outcomes[..n], outcomes[n]);
      assert outcomes == outcomes[..n] + [outcomes[n]];
    }
  }

  function MentionsOf(jobs: seq<Job>): (ms: seq<Mention>)
    ensures |ms| == |jobs| && forall k | 0 <= k < |jobs| :: ms[k] == jobs[k].mention
  {
    seq(|jobs|, k requires 0 <= k < |jobs| => jobs[k].mention)
  }

  /** Jobs of different requests, in request order. */
  ghost predicate InOrder(jobs: seq<Job>, n: nat) {
    && (forall k | 0 <= k < |jobs| :: jobs[k].position < n)
    && forall j, k | 0 <= j < k < |jobs| :: jobs[j].position < jobs[k].position
  }

  ghost predicate HasJob(jobs: seq<Job>, i: nat) {
    exists k | 0 <= k < |jobs| :: jobs[k].position == i
  }

  /** The first jobs are answered at their positions, and nothing else is changed. */
  ghost predicate Fills(filled: seq<Option<Response>>, responses: seq<Option<Response>>, jobs: seq<Job>,
                        answers: seq<Response>) {
    && |filled| == |responses| && |answers| <= |jobs| && InOrder(jobs, |responses|)
    && (forall k | 0 <= k < |answers| :: filled[jobs[k].position] == Some(answers[k]))
    && (forall i | 0 <= i < |responses| && !HasJob(jobs[..|answers|], i) :: filled[i] == responses[i])
  }

  lemma FillsNothing(responses: seq<Option<Response>>, jobs: seq<Job>)
    requires InOrder(jobs, |responses|)
    ensures Fills(responses, responses, jobs, [])
  {
  }

  lemma {:induction false} FillsOneMore(filled: seq<Option<Response>>, responses: seq<Option<Response>>,
                                        jobs: seq<Job>, answers: seq<Response>, answer: Response)
    requires Fills(filled, responses, jobs, answers) && |answers| < |jobs|
    ensures jobs[|answers|].position < |filled| == |responses|
    ensures Fills(filled[jobs[|answers|].position := Some(answer)], responses, jobs, answers + [answer])
  {
    var n := |answers|;
    assert jobs[..n + 1] == jobs[..n] + [jobs[n]];
    forall i | 0 <= i < |responses| && !HasJob(jobs[..n + 1], i)
      ensures !HasJob(jobs[..n], i) && i != jobs[n].position
    {
      assert jobs[..n + 1][n] == jobs[n];
      assert forall k | 0 <= k < n :: jobs[..n + 1][k] == jobs[..n][k];
    }
  }

  /** Answers filled in so far: those of the guards, and none for what is left to do. */
  ghost predicate HoldsAnswers(responses: seq<Option<Response>>, outcomes: seq<Outcome>) {
    && |outcomes| <= |responses|
    && forall i | 0 <= i < |responses| ::
         responses[i] == if i < |outcomes| && outcomes[i].Answered? then Some(outcomes[i].response) else None
  }

  /** What the guard loop has filled in after these outcomes. */
  ghost predicate Collects(outcomes: seq<Outcome>, responses: seq<Option<Response>>, pending: seq<Job>,
                           repeats: seq<Job>, firstSeen: map<MentionId, Mention>) {
    && HoldsAnswers(responses, outcomes)
    && pending == PendingJobs(outcomes) && repeats == RepeatJobs(outcomes) && firstSeen == FirstSeen(outcomes)
  }

  lemma {:induction false} CollectsOneMore(outcomes: seq<Outcome>, responses: seq<Option<Response>>,
                                           pending: seq<Job>, repeats: seq<Job>, firstSeen: map<MentionId, Mention>,
                                           o: Outcome)
    requires Collects(outcomes, responses, pending, repeats, firstSeen) && |outcomes| < |responses|
    ensures var i := |outcomes|;
            Collects(outcomes + [o],
                     if o.Answered? then responses[i := Some(o.response)] else responses,
                     if o.Pending? then pending + [Job(i, o.mention)] else pending,
                     if o.Repeat? then repeats + [Job(i, o.mention)] else repeats,
                     if o.Pending? then firstSeen[o.mention.id := o.mention] else firstSeen)
  {
    assert (outcomes + [o])[..|outcomes|] == outcomes;
  }

  lemma CollectsFirstSeen(outcomes: seq<Outcome>, responses: seq<Option<Response>>, pending: seq<Job>,
                          repeats: seq<Job>, firstSeen: map<MentionId, Mention>)
    requires Collects(outcomes, responses, pending, repeats, firstSeen)
    ensures HoldsAnswers(responses, outcomes)
    ensures pending == PendingJobs(outcomes) && repeats == RepeatJobs(outcomes) && firstSeen == FirstSeen(outcomes)
  {
  }

  lemma CollectsNothing(responses: seq<Option<Response>>, cfg: Config, db: Database)
    requires forall i | 0 <= i < |responses| :: responses[i] == None
    ensures Guards(cfg, db, []) == [] && Collects([], responses, [], [], map[])
  {
  }

  lemma NoFaultsYet(schedule: seq<Option<Fault>>)
    ensures Struck(schedule, schedule, FaultsOf([]))
  {
    NothingStruck(schedule);
  }

  lemma FaultsOfOneMore(a: seq<Option<Fault>>, b: seq<Option<Fault>>, c: seq<Option<Fault>>, attempts: seq<Attempt>,
                        attempt: Attempt)
    requires Struck(a, b, FaultsOf(attempts)) && Struck(b, c, AttemptFaults(attempt))
    ensures Struck(a, c, FaultsOf(attempts + [attempt]))
  {
    StruckThen(a, b, c, FaultsOf(attempts), AttemptFaults(attempt));
    assert (attempts + [attempt])[..|attempts|] == attempts;
  }

  lemma SuffersNothing(schedule: seq<Option<Fault>>)
    ensures Suffers(Whole, schedule, schedule)
  {
    NothingStruck(schedule);
  }

  lemma SuffersBite(before: seq<Option<Fault>>, after: seq<Option<Fault>>, fault: Option<Fault>)
    requires Struck(before, after, AsList(fault))
    ensures fault == None ==> Suffers(Whole, before, after)
    ensures fault != None ==> Suffers(Apart([Failed(OtherFault)]), before, after)
  {
    if fault != None {
      assert [fault.value] + [] == AsList(fault);
    }
  }

  lemma SuffersAttempts(a: seq<Option<Fault>>, b: seq<Option<Fault>>, c: seq<Option<Fault>>, fault: Fault,
                        attempts: seq<Attempt>)
    requires Struck(a, b, AsList(Some(fault))) && Struck(b, c, FaultsOf(attempts)) && |attempts| != 1
    ensures Suffers(Apart(attempts), a, c)
  {
    StruckThen(a, b, c, [fault], FaultsOf(attempts));
  }

  /** How many queries `find_cluster_for` executes; the bulk lookup of no mentions is none. */
  function Queries(db: Database, id: MentionId): nat {
    if ClusterOf(db.clusters, id) == None then 1 else if FindFor(db.links, id) == [] then 3 else 4
  }

  function QueriesFor(db: Database, repeats: seq<Job>): nat {
    if repeats == [] then 0
    else QueriesFor(db, repeats[..|repeats| - 1]) + Queries(db, repeats[|repeats| - 1].mention.id)
  }

  lemma NoneFailed(schedule: seq<Option<Fault>>)
    ensures Skip(schedule, 0) == schedule && !FailsWithin(schedule, 0)
  {
  }

  /** After statements that succeeded the next one fails as the schedule says. */
  lemma OneMoreStatement(schedule: seq<Option<Fault>>, n: nat)
    requires !FailsWithin(schedule, n)
    ensures FailsWithin(schedule, n + 1) <==> Next(Skip(schedule, n)) != None
    ensures Skip(Skip(schedule, n), 1) == Skip(schedule, n + 1)
  {
    if n < |schedule| && schedule[n] != None {
      assert n < n + 1;
    }
  }

  lemma EarlierFails(schedule: seq<Option<Fault>>, n: nat, m: nat)
    requires FailsWithin(schedule, n) && n <= m
    ensures FailsWithin(schedule, m)
  {
    var k :| 0 <= k < n && k < |schedule| && schedule[k] != None;
  }

  lemma FailsThen(schedule: seq<Option<Fault>>, n: nat, m: nat)
    ensures FailsWithin(schedule, n + m) <==> FailsWithin(schedule, n) || FailsWithin(Skip(schedule, n), m)
    ensures Skip(Skip(schedule, n), m) == Skip(schedule, n + m)
  {
    var rest := Skip(schedule, n);
    assert forall k | 0 <= k < |rest| :: rest[k] == schedule[n + k];
    if k :| 0 <= k < n + m && k < |schedule| && schedule[k] != None {
      if k >= n {
        assert rest[k - n] != None;
      }
    }
    if k :| 0 <= k < m && k < |rest| && rest[k] != None {
      assert schedule[n + k] != None;
    }
  }

  lemma NoQueries(db: Database, schedule: seq<Option<Fault>>)
    ensures Skip(schedule, QueriesFor(db, [])) == schedule && !FailsWithin(schedule, QueriesFor(db, []))
  {
  }

  lemma QueriesOneMore(db: Database, repeats: seq<Job>, n: nat, schedule: seq<Option<Fault>>)
    requires n < |repeats|
    requires !FailsWithin(schedule, QueriesFor(db, repeats[..n]))
    ensures var before, more := QueriesFor(db, repeats[..n]), Queries(db, repeats[n].mention.id);
            && QueriesFor(db, repeats[..n + 1]) == before + more
            && (FailsWithin(schedule, before + more) <==> FailsWithin(Skip(schedule, before), more))
            && Skip(Skip(schedule, before), more) == Skip(schedule, before + more)
    ensures FailsWithin(schedule, QueriesFor(db, repeats[..n + 1])) ==> FailsWithin(schedule, QueriesFor(db, repeats))
  {
    hide FailsWithin, Skip, Queries;
    assert repeats[..n + 1][..n] == repeats[..n];
    FailsThen(schedule, QueriesFor(db, repeats[..n]), Queries(db, repeats[n].mention.id));
    if FailsWithin(schedule, QueriesFor(db, repeats[..n + 1])) {
      QueriesGrow(db, repeats, n + 1);
      EarlierFails(schedule, QueriesFor(db, repeats[..n + 1]), QueriesFor(db, repeats));
    }
  }

  lemma {:induction false} QueriesGrow(db: Database, repeats: seq<Job>, n: nat)
    requires n <= |repeats|
    ensures QueriesFor(db, repeats[..n]) <= QueriesFor(db, repeats)
  {
    if n < |repeats| {
      var init := repeats[..|repeats| - 1];
      QueriesGrow(db, init, n);
      assert init[..n] == repeats[..n];
    } else {
      assert repeats[..n] == repeats;
    }
  }

  lemma SameRanking(topN: nat, id: MentionId, own: ClusterId, links: seq<Link>, a: map<MentionId, ClusterId>,
                    b: map<MentionId, ClusterId>)
    requires AllTouch(links, id) && LinkedScores(links, id, a) == LinkedScores(links, id, b)
    ensures RankCandidates(topN, id, own, links, a) == RankCandidates(topN, id, own, links, b)
  {
    hide LinkedScores, Largest;
  }

  class EntityResolutionService {
    const engine: Engine

    constructor (engine: Engine)
      ensures this.engine == engine
    {
      this.engine := engine;
    }

    /** `_guard`, with `prepare_mention`. */
    method GuardOne(request: Request, trace: MentionTrace, firstSeen: map<MentionId, Mention>)
      returns (outcome: Outcome)
      requires trace.last <= engine.clock.now
      modifies trace, engine.clock
      ensures outcome == Guard(engine.cfg, engine.con.db, request, firstSeen)
      ensures trace.last <= engine.clock.now && engine.clock.now >= old(engine.clock.now)
      ensures Logs(old(trace.log), trace.log, GuardEvents(engine.cfg, engine.con.db, request))
    {
      match request {
        case Unsupported(id) =>
          outcome := Answered(Failure(id, UnsupportedRequestType));
        case Resolve(id, Malformed) =>
          outcome := Answered(Failure(id, ValueError));
        case Resolve(id, Crashes) =>
          outcome := Answered(Failure(id, InternalError));
        case Resolve(id, Mapped(m)) =>
          ghost var start := trace.log;
          trace.StageNow(Parsed(m.id), engine.clock);
          ghost var parsed := trace.log;
          var existing := FindById(engine.con.db.mentions, m.id);
          if existing.Some? && existing.value.attributes != m.attributes {
            trace.StageNow(Guarded(ConflictFound), engine.clock);
            LogsCompose(start, parsed, trace.log, [Parsed(m.id)], [Guarded(ConflictFound)]);
            return Answered(Failure(id, Conflict));
          }
          var cached := FindClusterFor(engine.cfg, engine.con.db, m.id);
          var event := Guarded(if cached.Some? then Idempotent else New);
          trace.StageNow(event, engine.clock);
          LogsCompose(start, parsed, trace.log, [Parsed(m.id)], [event]);
          if m.id in firstSeen && firstSeen[m.id].attributes != m.attributes {
            outcome := Answered(Failure(id, Conflict));
          } else if cached.Some? {
            outcome := Answered(Resolution(id, cached.value));
          } else if m.id in firstSeen {
            outcome := Repeat(m);
          } else {
            outcome := Pending(m);
          }
      }
    }

    /** The first loop of `process_batch`. */
    method GuardAll(requests: seq<Request>, traces: seq<MentionTrace>)
      returns (responses: seq<Option<Response>>, pending: seq<Job>, repeats: seq<Job>)
      requires |traces| == |requests| && Distinct(traces) && UpToDate(traces, engine.clock)
      modifies traces, engine.clock
      ensures |responses| == |requests| && HoldsAnswers(responses, Guards(engine.cfg, engine.con.db, requests))
      ensures pending == PendingJobs(Guards(engine.cfg, engine.con.db, requests))
      ensures repeats == RepeatJobs(Guards(engine.cfg, engine.con.db, requests))
      ensures UpToDate(traces, engine.clock) && engine.clock.now >= old(engine.clock.now)
      ensures forall i | 0 <= i < |traces| ::
                Logs(old(traces[i].log), traces[i].log, GuardEvents(engine.cfg, engine.con.db, requests[i]))
    {
      hide Guard, GuardEvents, Logs, Guards, Collects;
      responses := seq(|requests|, i => None);
      pending, repeats := [], [];
      var firstSeen: map<MentionId, Mention> := map[];
      ghost var outcomes: seq<Outcome> := [];
      CollectsNothing(responses, engine.cfg, engine.con.db);
      for i := 0 to |requests|
        invariant |responses| == |requests| && |outcomes| == i
        invariant outcomes == Guards(engine.cfg, engine.con.db, requests[..i])
        invariant Collects(outcomes, responses, pending, repeats, firstSeen)
        invariant UpToDate(traces, engine.clock) && engine.clock.now >= old(engine.clock.now)
        invariant forall k | 0 <= k < i ::
                    Logs(old(traces[k].log), traces[k].log, GuardEvents(engine.cfg, engine.con.db, requests[k]))
        invariant forall k | i <= k < |traces| :: traces[k].log == old(traces[k].log)
      {
        assert forall k | 0 <= k < |traces| && k != i :: traces[k] != traces[i];
        var outcome := GuardOne(requests[i], traces[i], firstSeen);
        GuardsStep(engine.cfg, engine.con.db, requests, i);
        CollectsOneMore(outcomes, responses, pending, repeats, firstSeen, outcome);
        assert firstSeen == FirstSeen(outcomes) by {
          CollectsFirstSeen(outcomes, responses, pending, repeats, firstSeen);
        }
        outcomes := outcomes + [outcome];
        match outcome {
          case Answered(response) =>
            responses := responses[i := Some(response)];
          case Repeat(m) =>
            repeats := repeats + [Job(i, m)];
          case Pending(m) =>
            pending := pending + [Job(i, m)];
            firstSeen := firstSeen[m.id := m];
        }
      }
      assert requests[..|requests|] == requests;
      CollectsFirstSeen(outcomes, responses, pending, repeats, firstSeen);
    }

    /** `_resolve_alone`: a bite of one, whose failure stays its own. */
    method ResolveAlone(requestId: string, m: Mention, trace: MentionTrace) returns (attempt: Attempt,
                        response: Response)
      requires engine.Valid() && !Stores(engine.con.db, m.id) && trace.last <= engine.clock.now
      modifies engine.con, engine.clock, trace, engine`trainingsStarted
      ensures engine.Valid() && trace.last <= engine.clock.now
      ensures engine.clock.now >= old(engine.clock.now)
      ensures var db := old(engine.con.db);
              && engine.con.db == (if attempt.Committed?
                                   then Resolver.ResolveBite(engine.cfg, db, [m],
                                                             TableFor(engine.cfg, engine.linker, db, [m]))
                                   else db)
              && response == AttemptResponse(engine.cfg, engine.linker, db, requestId, m, attempt)
              && Logs(old(trace.log), trace.log, AttemptEvents(engine.cfg, engine.linker, db, m, attempt))
      ensures |engine.con.db.mentions| >= |old(engine.con.db.mentions)|
      ensures Struck(old(engine.con.faults), engine.con.faults, AttemptFaults(attempt))
      ensures engine.trainingsStarted
              == old(engine.trainingsStarted)
                 + if Crosses(engine.cfg.autoTrainThreshold, |old(engine.con.db.mentions)|, |engine.con.db.mentions|)
                   then 1 else 0
    {
      hide Logs, Struck;
      SingleIsFresh(engine.con.db, m);
      var traces := [trace];
      assert traces[0] == trace;
      var fault, results := engine.ResolveBatch([m], traces);
      if fault == None {
        attempt, response := Committed, Resolution(requestId, results[0]);
      } else {
        attempt, response := Failed(fault.value), Failure(requestId, ErrorFor(fault.value));
        LogsNothing(trace.log);
      }
      assert traces[0].last <= engine.clock.now;
    }

    /** The fallback: every pending mention on its own, in order; `traces` are those of the pending requests. */
    method ResolveApart(requests: seq<Request>, traces: seq<MentionTrace>, pending: seq<Job>,
                        responses: seq<Option<Response>>)
      returns (filled: seq<Option<Response>>, ghost attempts: seq<Attempt>, ghost answers: seq<Response>,
               ghost events: seq<seq<Event>>)
      requires engine.Valid() && |requests| == |responses| && InOrder(pending, |requests|)
      requires |traces| == |pending| && Distinct(traces) && UpToDate(traces, engine.clock)
      requires Fresh(engine.con.db, MentionsOf(pending))
      modifies engine.con, engine.clock, traces, engine`trainingsStarted
      ensures engine.Valid() && UpToDate(traces, engine.clock) && engine.clock.now >= old(engine.clock.now)
      ensures |attempts| == |events| == |pending| && |filled| == |responses|
              && Fills(filled, responses, pending, answers)
      ensures Tells(engine.cfg, engine.linker, old(engine.con.db), MentionsOf(pending), IdsOfJobs(requests, pending),
                    attempts, answers, events)
      ensures engine.con.db == AfterApart(engine.cfg, engine.linker, old(engine.con.db), MentionsOf(pending), attempts)
      ensures forall k | 0 <= k < |pending| :: Logs(old(traces[k].log), traces[k].log, events[k])
      ensures Struck(old(engine.con.faults), engine.con.faults, FaultsOf(attempts))
      ensures engine.trainingsStarted
              == old(engine.trainingsStarted)
                 + if Crosses(engine.cfg.autoTrainThreshold, |old(engine.con.db.mentions)|, |engine.con.db.mentions|)
                   then 1 else 0
    {
      hide Struck, FaultsOf, Logs, AfterApart, AttemptResponse, AttemptEvents, CommitAll, Fills, Tells, Invariant,
           TableFor, ObeysPort, Fresh, Resolver.ResolveBite, Aligned, Stores;
      ghost var db, ms, ids := engine.con.db, MentionsOf(pending), IdsOfJobs(requests, pending);
      filled, attempts, answers, events := responses, [], [], [];
      TellsNothing(engine.cfg, engine.linker, db, ms, ids);
      FillsNothing(responses, pending);
      NoFaultsYet(engine.con.faults);
      for n := 0 to |pending|
        invariant engine.Valid() && UpToDate(traces, engine.clock) && engine.clock.now >= old(engine.clock.now)
        invariant |attempts| == |answers| == |events| == n && |filled| == |responses|
        invariant engine.con.db == AfterApart(engine.cfg, engine.linker, db, ms[..n], attempts)
        invariant Fills(filled, responses, pending, answers)
        invariant Tells(engine.cfg, engine.linker, db, ms, ids, attempts, answers, events)
        invariant forall k | 0 <= k < n :: Logs(old(traces[k].log), traces[k].log, events[k])
        invariant forall k | n <= k < |pending| :: traces[k].log == old(traces[k].log)
        invariant engine.trainingsStarted
                  == old(engine.trainingsStarted)
                     + if Crosses(engine.cfg.autoTrainThreshold, |db.mentions|, |engine.con.db.mentions|) then 1 else 0
        invariant |engine.con.db.mentions| >= |db.mentions|
        invariant Struck(old(engine.con.faults), engine.con.faults, FaultsOf(attempts))
      {
        var job := pending[n];
        ghost var before, at := engine.con.db, engine.con.faults;
        assert forall k | 0 <= k < |traces| && k != n :: traces[k] != traces[n];
        NextIsNotStored(engine.cfg, engine.linker, db, ms, attempts, n);
        var attempt, response := ResolveAlone(requests[job.position].requestId, job.mention, traces[n]);
        ghost var shown := AttemptEvents(engine.cfg, engine.linker, before, job.mention, attempt);
        FillsOneMore(filled, responses, pending, answers, response);
        TellsOneMore(engine.cfg, engine.linker, db, ms, ids, attempts, answers, events, attempt, response, shown);
        AfterOneMoreAttempt(engine.cfg, engine.linker, db, ms, attempts, attempt);
        FaultsOfOneMore(old(engine.con.faults), at, engine.con.faults, attempts, attempt);
        filled := filled[job.position := Some(response)];
        attempts, answers, events := attempts + [attempt], answers + [response], events + [shown];
      }
      assert ms[..|pending|] == ms;
    }

    /** `_resolve_pending`: one bite for all new mentions; if it fails, each on its own unless there is just one. */
    method ResolvePending(requests: seq<Request>, traces: seq<MentionTrace>, pending: seq<Job>,
                          responses: seq<Option<Response>>)
      returns (filled: seq<Option<Response>>, ghost fate: Fate, ghost answers: seq<Response>,
               ghost events: seq<seq<Event>>)
      requires engine.Valid() && |requests| == |responses| && InOrder(pending, |requests|)
      requires |traces| == |pending| && Distinct(traces) && UpToDate(traces, engine.clock)
      requires Fresh(engine.con.db, MentionsOf(pending))
      modifies engine.con, engine.clock, traces, engine`trainingsStarted
      ensures engine.Valid() && UpToDate(traces, engine.clock) && engine.clock.now >= old(engine.clock.now)
      ensures |filled| == |responses| && Fills(filled, responses, pending, answers)
      ensures Possible(fate, |pending|) && |events| == |pending|
      ensures Settles(engine.cfg, engine.linker, old(engine.con.db), MentionsOf(pending), IdsOfJobs(requests, pending),
                      fate, answers, events)
      ensures engine.con.db == AfterPending(engine.cfg, engine.linker, old(engine.con.db), MentionsOf(pending), fate)
      ensures forall k | 0 <= k < |pending| :: Logs(old(traces[k].log), traces[k].log, events[k])
      ensures Suffers(fate, old(engine.con.faults), engine.con.faults)
      ensures engine.trainingsStarted
              == old(engine.trainingsStarted)
                 + if Crosses(engine.cfg.autoTrainThreshold, |old(engine.con.db.mentions)|, |engine.con.db.mentions|)
                   then 1 else 0
    {
      hide Struck, FaultsOf, Suffers, Logs, AfterApart, CommitAll, Fills, BiteResults, Invariant,
           Resolver.ResolveBite, BiteEvents, Fresh, Tells, PendingResponse, PendingEvents, ObeysPort, Settles,
           AfterPending;
      ghost var db, ms, ids := engine.con.db, MentionsOf(pending), IdsOfJobs(requests, pending);
      filled, answers, events, fate := responses, [], [], Whole;
      if pending == [] {
        SettlesNothing(engine.cfg, engine.linker, db);
        FillsNothing(responses, pending);
        SuffersNothing(engine.con.faults);
        return;
      }
      var fault, results := engine.ResolveBatch(MentionsOf(pending), traces);
      ghost var at := engine.con.faults;
      SuffersBite(old(engine.con.faults), at, fault);
      if fault == None {
        filled, answers := FillResults(requests, pending, responses, results);
        events := SettlesWhole(engine.cfg, engine.linker, db, ms, ids, answers);
      } else if |pending| == 1 {
        filled, answers := FillError(requests, pending, responses);
        fate, events := Apart([Failed(OtherFault)]), [[]];
        SettlesSingle(engine.cfg, engine.linker, db, ms, ids);
        LogsNothing(traces[0].log);
      } else {
        ghost var attempts;
        filled, attempts, answers, events := ResolveApart(requests, traces, pending, responses);
        fate := Apart(attempts);
        SuffersAttempts(old(engine.con.faults), at, engine.con.faults, fault.value, attempts);
        SettlesApart(engine.cfg, engine.linker, db, ms, ids, attempts, answers, events);
      }
    }

    /** The only pending request is answered as an unexpected error. */
    method FillError(requests: seq<Request>, pending: seq<Job>, responses: seq<Option<Response>>)
      returns (filled: seq<Option<Response>>, ghost answers: seq<Response>)
      requires |requests| == |responses| && InOrder(pending, |requests|) && |pending| == 1
      ensures answers == [Failure(IdsOfJobs(requests, pending)[0], InternalError)]
      ensures |filled| == |responses| && Fills(filled, responses, pending, answers)
    {
      var answer := Failure(requests[pending[0].position].requestId, InternalError);
      answers := [answer];
      FillsNothing(responses, pending);
      FillsOneMore(responses, responses, pending, [], answer);
      assert [] + [answer] == [answer];
      filled := responses[pending[0].position := Some(answer)];
    }

    method FillResults(requests: seq<Request>, pending: seq<Job>, responses: seq<Option<Response>>,
                       results: seq<seq<Candidate>>)
      returns (filled: seq<Option<Response>>, ghost answers: seq<Response>)
      requires |requests| == |responses| && InOrder(pending, |requests|) && |results| == |pending|
      ensures |answers| == |pending| && |filled| == |responses| && Fills(filled, responses, pending, answers)
      ensures forall k | 0 <= k < |pending| :: answers[k] == Resolution(IdsOfJobs(requests, pending)[k], results[k])
    {
      filled, answers := responses, [];
      FillsNothing(responses, pending);
      for k := 0 to |pending|
        invariant |answers| == k && Fills(filled, responses, pending, answers)
        invariant forall j | 0 <= j < k :: answers[j] == Resolution(IdsOfJobs(requests, pending)[j], results[j])
      {
        var answer := Resolution(requests[pending[k].position].requestId, results[k]);
        FillsOneMore(filled, responses, pending, answers, answer);
        filled := filled[pending[k].position := Some(answer)];
        answers := answers + [answer];
      }
    }

    /** `find_cluster_for`, query by query; a failing one is raised. */
    method FindCached(id: MentionId) returns (raised: bool, cached: Option<seq<Candidate>>)
      requires engine.Wired()
      modifies engine.con`faults
      ensures !raised ==> cached == FindClusterFor(engine.cfg, engine.con.db, id)
      ensures raised <==> FailsWithin(old(engine.con.faults), Queries(engine.con.db, id))
      ensures !raised ==> engine.con.faults == Skip(old(engine.con.faults), Queries(engine.con.db, id))
    {
      hide LinkedScores, Largest, Struck, ClusterMap, FindFor, ClusterOf, RankCandidates, FailsWithin, Skip, Next;
      ghost var schedule := engine.con.faults;
      cached := None;
      NoneFailed(schedule);
      OneMoreStatement(schedule, 0);
      var fault := engine.con.Statement();
      if fault != None {
        EarlierFails(schedule, 1, Queries(engine.con.db, id));
        return true, cached;
      }
      var own := ClusterOf(engine.con.db.clusters, id);
      if own == None {
        return false, cached;
      }
      OneMoreStatement(schedule, 1);
      fault := engine.con.Statement();
      if fault != None {
        EarlierFails(schedule, 2, Queries(engine.con.db, id));
        return true, cached;
      }
      var links := FindFor(engine.con.db.links, id);
      var others := set l | l in links :: l.Other(id);
      assert links != [] ==> links[0].Other(id) in others;
      OneMoreStatement(schedule, 2);
      var linked;
      fault, linked := engine.clusters.ClustersOf(others);
      if fault != None {
        EarlierFails(schedule, 3, Queries(engine.con.db, id));
        return true, cached;
      }
      OneMoreStatement(schedule, if links == [] then 2 else 3);
      fault := engine.con.Statement();
      if fault != None {
        return true, cached;
      }
      var ranked := RankInLoop(engine.cfg.topN, id, own.value, links, linked);
      LinkedScoresDependOnLinkedClusters(links, id, linked, ClusterMap(engine.con.db.clusters));
      assert ranked == GenCand(engine.cfg, engine.con.db, id) by {
        SameRanking(engine.cfg.topN, id, own.value, links, linked, ClusterMap(engine.con.db.clusters));
      }
      return false, Some(ranked);
    }

    /** `_respond_cached`. Its reads are outside any unit of work: a fault here is raised to the caller. */
    method RespondCached(requestId: string, m: Mention) returns (raised: bool, response: Response)
      requires engine.Wired()
      modifies engine.con`faults
      ensures !raised ==> response == CachedResponse(engine.cfg, engine.con.db, requestId, m.id)
      ensures raised <==> FailsWithin(old(engine.con.faults), Queries(engine.con.db, m.id))
      ensures !raised ==> engine.con.faults == Skip(old(engine.con.faults), Queries(engine.con.db, m.id))
    {
      hide FindClusterFor, FailsWithin, Queries;
      var cached;
      raised, cached := FindCached(m.id);
      response := Failure(requestId, InternalError);
      if cached.Some? {
        response := Resolution(requestId, cached.value);
      }
    }

    /** The last loop of `process_batch`. */
    method RespondRepeats(requests: seq<Request>, repeats: seq<Job>, responses: seq<Option<Response>>)
      returns (raised: bool, filled: seq<Option<Response>>)
      requires |requests| == |responses| && forall k | 0 <= k < |repeats| :: repeats[k].position < |requests|
      requires engine.Wired()
      modifies engine.con`faults
      ensures raised <==> FailsWithin(old(engine.con.faults), QueriesFor(engine.con.db, repeats))
      ensures !raised ==> engine.con.faults == Skip(old(engine.con.faults), QueriesFor(engine.con.db, repeats))
      ensures !raised ==>
                |filled| == |responses| && RepeatsAnswered(engine.cfg, engine.con.db, requests, repeats, responses,
                                                           filled)
    {
      hide RepeatsAnswered, CachedResponse, FailsWithin, Skip, Queries, QueriesFor;
      NoQueries(engine.con.db, engine.con.faults);
      raised, filled := false, responses;
      NoRepeatsAnswered(engine.cfg, engine.con.db, requests, responses);
      for n := 0 to |repeats|
        invariant |filled| == |responses| && !raised
        invariant engine.con.faults == Skip(old(engine.con.faults), QueriesFor(engine.con.db, repeats[..n]))
        invariant !FailsWithin(old(engine.con.faults), QueriesFor(engine.con.db, repeats[..n]))
        invariant RepeatsAnswered(engine.cfg, engine.con.db, requests, repeats[..n], responses, filled)
      {
        var job, response := repeats[n], Failure("", InternalError);
        QueriesOneMore(engine.con.db, repeats, n, old(engine.con.faults));
        raised, response := RespondCached(requests[job.position].requestId, job.mention);
        if raised {
          return;
        }
        OneMoreRepeatAnswered(engine.cfg, engine.con.db, requests, repeats[..n], responses, filled, job);
        assert repeats[..n + 1] == repeats[..n] + [job];
        filled := filled[job.position := Some(response)];
      }
      assert repeats[..|repeats|] == repeats;
    }

    /** The pending mentions, with the traces of their requests; all other traces stay. */
    method ResolveChosen(requests: seq<Request>, traces: seq<MentionTrace>, pending: seq<Job>,
                         chosen: seq<MentionTrace>, responses: seq<Option<Response>>)
      returns (filled: seq<Option<Response>>, ghost fate: Fate, ghost answers: seq<Response>,
               ghost events: seq<seq<Event>>)
      requires engine.Valid() && |requests| == |responses| == |traces| && InOrder(pending, |requests|)
      requires Distinct(traces) && UpToDate(traces, engine.clock) && Fresh(engine.con.db, MentionsOf(pending))
      requires chosen == TracesOf(traces, pending)
      modifies engine.con, engine.clock, traces, engine`trainingsStarted
      ensures engine.Valid() && UpToDate(traces, engine.clock) && engine.clock.now >= old(engine.clock.now)
      ensures |filled| == |responses| && Fills(filled, responses, pending, answers)
      ensures Settles(engine.cfg, engine.linker, old(engine.con.db), MentionsOf(pending), IdsOfJobs(requests, pending),
                      fate, answers, events)
      ensures Possible(fate, |pending|) && |events| == |pending|
      ensures engine.con.db == AfterPending(engine.cfg, engine.linker, old(engine.con.db), MentionsOf(pending), fate)
      ensures forall i | 0 <= i < |traces| && !HasJob(pending, i) :: traces[i].log == old(traces[i].log)
      ensures forall k | 0 <= k < |pending| :: Logs(old(chosen[k].log), chosen[k].log, events[k])
      ensures Suffers(fate, old(engine.con.faults), engine.con.faults)
      ensures engine.trainingsStarted
              == old(engine.trainingsStarted)
                 + if Crosses(engine.cfg.autoTrainThreshold, |old(engine.con.db.mentions)|, |engine.con.db.mentions|)
                   then 1 else 0
    {
      hide Logs, AfterPending, Settles, Fills, Invariant, Fresh, ObeysPort, Suffers;
      filled, fate, answers, events := ResolvePending(requests, chosen, pending, responses);
      AnotherTrace(traces, pending);
      forall i | 0 <= i < |traces|
        ensures traces[i].last <= engine.clock.now
      {
        if HasJob(pending, i) {
          var k :| 0 <= k < |pending| && pending[k].position == i;
          assert chosen[k] == traces[i];
        }
      }
    }

    /** Guards all requests and resolves the new mentions: all of `process_batch` but the repeats. */
    method ResolveNew(requests: seq<Request>, traces: seq<MentionTrace>)
      returns (filled: seq<Option<Response>>, repeats: seq<Job>, ghost fate: Fate, ghost slots: seq<Option<Response>>,
               ghost answers: seq<Response>, ghost events: seq<seq<Event>>)
      requires engine.Valid() && |traces| == |requests| && Distinct(traces) && UpToDate(traces, engine.clock)
      modifies engine.con, engine.clock, traces, engine`trainingsStarted
      ensures engine.Valid() && UpToDate(traces, engine.clock) && engine.clock.now >= old(engine.clock.now)
      ensures Possible(fate, |PendingPositions(Guards(engine.cfg, old(engine.con.db), requests))|)
      ensures engine.con.db == BatchDatabase(engine.cfg, engine.linker, old(engine.con.db), requests, fate)
      ensures repeats == RepeatJobs(Guards(engine.cfg, old(engine.con.db), requests))
      ensures |slots| == |filled| == |requests|
      ensures Assembled(engine.cfg, engine.linker, old(engine.con.db), requests, fate, slots, filled, answers, events)
      ensures forall i | 0 <= i < |requests| ::
                Logs(old(traces[i].log), traces[i].log,
                     BatchEvents(engine.cfg, engine.linker, old(engine.con.db), requests, fate, i))
      ensures Suffers(fate, old(engine.con.faults), engine.con.faults)
      ensures engine.trainingsStarted
              == old(engine.trainingsStarted)
                 + if Crosses(engine.cfg.autoTrainThreshold, |old(engine.con.db.mentions)|, |engine.con.db.mentions|)
                   then 1 else 0
    {
      hide Logs, Guards, PendingJobs, RepeatJobs, PendingMentions, PendingPositions, AfterPending, Settles, Fills,
           BatchEvents, BatchResponse, HoldsAnswers, GuardEvents, Invariant, Fresh, ObeysPort, Suffers, Possible;
      ghost var db, outcomes := engine.con.db, Guards(engine.cfg, engine.con.db, requests);
      var pending, guarded;
      guarded, pending, repeats := GuardAll(requests, traces);
      slots := guarded;
      PendingJobsAreReady(engine.cfg, db, requests);
      PendingJobsArePositions(outcomes);
      var chosen := TracesOf(traces, pending);
      label Guarded:
      filled, fate, answers, events := ResolveChosen(requests, traces, pending, chosen, guarded);
      EveryTraceShows(engine.cfg, engine.linker, db, requests, fate, answers, events,
                      old(LogsOf(traces)), old@Guarded(LogsOf(traces)), LogsOf(traces));
      assert forall i | 0 <= i < |traces| ::
          LogsOf(traces)[i] == traces[i].log && old(LogsOf(traces))[i] == old(traces[i].log);
    }

    /**
     * `process_batch`: one answer per request, in request order. It raises if and only if a read for an in-bite
     * repeat fails; `left` is the schedule when the units of work are over.
     */
    method ProcessBatch(requests: seq<Request>, traces: seq<MentionTrace>)
      returns (raised: bool, responses: seq<Response>, ghost fate: Fate, ghost left: seq<Option<Fault>>)
      requires engine.Valid() && |traces| == |requests| && Distinct(traces) && UpToDate(traces, engine.clock)
      modifies engine.con, engine.clock, traces, engine`trainingsStarted
      ensures engine.Valid() && UpToDate(traces, engine.clock) && engine.clock.now >= old(engine.clock.now)
      ensures Possible(fate, |PendingPositions(Guards(engine.cfg, old(engine.con.db), requests))|)
      ensures Suffers(fate, old(engine.con.faults), left)
      ensures raised <==> RaisesOn(engine.cfg, old(engine.con.db), engine.con.db, requests, left)
      ensures engine.con.db == BatchDatabase(engine.cfg, engine.linker, old(engine.con.db), requests, fate)
      ensures !raised ==>
                && |responses| == |requests|
                && forall i | 0 <= i < |requests| ::
                     responses[i] == BatchResponse(engine.cfg, engine.linker, old(engine.con.db), requests, fate, i)
      ensures forall i | 0 <= i < |requests| ::
                Logs(old(traces[i].log), traces[i].log,
                     BatchEvents(engine.cfg, engine.linker, old(engine.con.db), requests, fate, i))
      ensures old(engine.con.NoFaults()) ==> !raised && fate == Whole && engine.con.NoFaults()
      ensures engine.trainingsStarted
              == old(engine.trainingsStarted)
                 + if Crosses(engine.cfg.autoTrainThreshold, |old(engine.con.db.mentions)|, |engine.con.db.mentions|)
                   then 1 else 0
    {
      hide Logs, Guards, RepeatJobs, PendingPositions, BatchDatabase, BatchEvents, BatchResponse, Assembled, Suffers,
           FailsWithin, RepeatsAnswered, Invariant, ObeysPort;
      ghost var db := engine.con.db;
      var filled, repeats;
      ghost var slots, answers, events;
      filled, repeats, fate, slots, answers, events := ResolveNew(requests, traces);
      left := engine.con.faults;
      PendingJobsAreReady(engine.cfg, db, requests);
      var last;
      raised, last := RespondRepeats(requests, repeats, filled);
      responses := [];
      if !raised {
        EveryAnswerIsFilled(engine.cfg, engine.linker, db, requests, fate, slots, filled, last, answers, events);
        responses := seq(|requests|, i requires 0 <= i < |requests| => last[i].value);
      }
      if old(engine.con.NoFaults()) {
        NothingAhead(fate, old(engine.con.faults), left, QueriesFor(engine.con.db, repeats));
      }
    }
  }

  /** A query for an in-bite repeat fails, in the tables the batch leaves: the only way a batch raises. */
  ghost predicate RaisesOn(cfg: Config, db: Database, after: Database, requests: seq<Request>,
                           left: seq<Option<Fault>>) {
    FailsWithin(left, QueriesFor(after, RepeatJobs(Guards(cfg, db, requests))))
  }

  lemma NothingAhead(fate: Fate, before: seq<Option<Fault>>, after: seq<Option<Fault>>, n: nat)
    requires Suffers(fate, before, after) && Faultless(before)
    ensures fate == Whole && !FailsWithin(after, n) && Faultless(Skip(after, n))
  {
    match fate
    case Whole =>
      NoneStrikes(before, after, []);
    case Apart(attempts) =>
      var first :| Struck(before, after, [first] + if |attempts| == 1 then [] else FaultsOf(attempts));
      NoneStrikes(before, after, [first] + if |attempts| == 1 then [] else FaultsOf(attempts));
      assert false;
  }

  /** The slots after the units of work: the guards' answers and those of the new mentions. */
  ghost predicate Assembled(cfg: Config, linker: Linker, db: Database, requests: seq<Request>, fate: Fate,
                            slots: seq<Option<Response>>, filled: seq<Option<Response>>, answers: seq<Response>,
                            events: seq<seq<Event>>)
    requires |slots| == |filled| == |requests|
  {
    var outcomes := Guards(cfg, db, requests);
    && HoldsAnswers(slots, outcomes)
    && InOrder(PendingJobs(outcomes), |requests|)
    && Fills(filled, slots, PendingJobs(outcomes), answers)
    && Settles(cfg, linker, db, PendingMentions(outcomes), IdsOfJobs(requests, PendingJobs(outcomes)), fate, answers,
               events)
  }

  /** Every trace shows its guard's events and then those of its turn, if it has one. */
  lemma {:induction false} EveryEventIsShown(cfg: Config, linker: Linker, db: Database, requests: seq<Request>,
                                             fate: Fate, answers: seq<Response>, events: seq<seq<Event>>, i: nat,
                                             start: seq<Entry>, guarded: seq<Entry>, last: seq<Entry>)
    requires i < |requests|
    requires var outcomes := Guards(cfg, db, requests);
             && InOrder(PendingJobs(outcomes), |requests|)
             && Settles(cfg, linker, db, PendingMentions(outcomes), IdsOfJobs(requests, PendingJobs(outcomes)), fate,
                        answers, events)
             && Logs(start, guarded, GuardEvents(cfg, db, requests[i]))
             && (!HasJob(PendingJobs(outcomes), i) ==> last == guarded)
             && (forall k | 0 <= k < |PendingJobs(outcomes)| && PendingJobs(outcomes)[k].position == i ::
                   k < |events| && Logs(guarded, last, events[k]))
    ensures Possible(fate, |PendingPositions(Guards(cfg, db, requests))|)
    ensures Logs(start, last, BatchEvents(cfg, linker, db, requests, fate, i))
  {
    hide Guards, PendingJobs, PendingMentions, PendingPositions, PendingRank, GuardEvents, PendingEvents,
         PendingResponse, Logs;
    var outcomes := Guards(cfg, db, requests);
    PendingJobsArePositions(outcomes);
    PendingRankIsPlace(outcomes, i);
    if outcomes[i].Pending? {
      var k := PendingRank(outcomes, i);
      assert PendingJobs(outcomes)[k].position == i;
      LogsCompose(start, guarded, last, GuardEvents(cfg, db, requests[i]), events[k]);
    } else {
      assert !HasJob(PendingJobs(outcomes), i);
      assert GuardEvents(cfg, db, requests[i]) + [] == GuardEvents(cfg, db, requests[i]);
    }
  }

  function LogsOf(traces: seq<MentionTrace>): (logs: seq<seq<Entry>>)
    reads traces
    ensures |logs| == |traces| && forall i | 0 <= i < |traces| :: logs[i] == traces[i].log
  {
    seq(|traces|, i requires 0 <= i < |traces| reads traces => traces[i].log)
  }

  lemma {:induction false} EveryTraceShows(
      cfg: Config, linker: Linker, db: Database, requests: seq<Request>, fate: Fate, answers: seq<Response>,
      events: seq<seq<Event>>, start: seq<seq<Entry>>, guarded: seq<seq<Entry>>, last: seq<seq<Entry>>)
    requires |start| == |guarded| == |last| == |requests|
    requires var outcomes := Guards(cfg, db, requests);
             var jobs := PendingJobs(outcomes);
             && InOrder(jobs, |requests|) && |events| == |jobs|
             && Settles(cfg, linker, db, PendingMentions(outcomes), IdsOfJobs(requests, jobs), fate, answers, events)
             && (forall i | 0 <= i < |requests| :: Logs(start[i], guarded[i], GuardEvents(cfg, db, requests[i])))
             && (forall i | 0 <= i < |requests| && !HasJob(jobs, i) :: last[i] == guarded[i])
             && (forall k | 0 <= k < |jobs| :: Logs(guarded[jobs[k].position], last[jobs[k].position], events[k]))
    ensures Possible(fate, |PendingPositions(Guards(cfg, db, requests))|)
    ensures forall i | 0 <= i < |requests| ::
              Logs(start[i], last[i], BatchEvents(cfg, linker, db, requests, fate, i))
  {
    hide Guards, PendingJobs, PendingMentions, PendingPositions, GuardEvents, Settles, Logs, BatchEvents;
    SettledIsPossible(cfg, linker, db, requests, fate, answers, events);
    forall i: nat | i < |requests|
      ensures Logs(start[i], last[i], BatchEvents(cfg, linker, db, requests, fate, i))
    {
      EveryEventIsShown(cfg, linker, db, requests, fate, answers, events, i, start[i], guarded[i], last[i]);
    }
  }

  lemma SettledIsPossible(cfg: Config, linker: Linker, db: Database, requests: seq<Request>, fate: Fate,
                          answers: seq<Response>, events: seq<seq<Event>>)
    requires var jobs := PendingJobs(Guards(cfg, db, requests));
             InOrder(jobs, |requests|)
             && Settles(cfg, linker, db, PendingMentions(Guards(cfg, db, requests)), IdsOfJobs(requests, jobs), fate,
                        answers, events)
    ensures Possible(fate, |PendingPositions(Guards(cfg, db, requests))|)
  {
    hide Guards, PendingJobs, PendingPositions, PendingResponse, PendingEvents;
  }

  /** The traces of the jobs' requests. */
  function TracesOf(traces: seq<MentionTrace>, jobs: seq<Job>): (chosen: seq<MentionTrace>)
    requires InOrder(jobs, |traces|)
    ensures |chosen| == |jobs| && forall k | 0 <= k < |jobs| :: chosen[k] == traces[jobs[k].position]
    ensures Distinct(traces) ==> Distinct(chosen)
  {
    seq(|jobs|, k requires 0 <= k < |jobs| => traces[jobs[k].position])
  }

  lemma {:induction false} AnotherTrace(traces: seq<MentionTrace>, jobs: seq<Job>)
    requires InOrder(jobs, |traces|) && Distinct(traces)
    ensures forall i | 0 <= i < |traces| && !HasJob(jobs, i) :: traces[i] !in TracesOf(traces, jobs)
  {
    forall i, k | 0 <= i < |traces| && !HasJob(jobs, i) && 0 <= k < |jobs|
      ensures TracesOf(traces, jobs)[k] != traces[i]
    {
      assert jobs[k].position != i;
    }
  }

  /** The jobs the guards leave are in request order, and their mentions are new. */
  lemma {:induction false} PendingJobsAreReady(cfg: Config, db: Database, requests: seq<Request>)
    requires Invariant(cfg, db)
    ensures InOrder(PendingJobs(Guards(cfg, db, requests)), |requests|)
    ensures MentionsOf(PendingJobs(Guards(cfg, db, requests))) == PendingMentions(Guards(cfg, db, requests))
    ensures Fresh(db, PendingMentions(Guards(cfg, db, requests)))
    ensures forall k | 0 <= k < |RepeatJobs(Guards(cfg, db, requests))| ::
              RepeatJobs(Guards(cfg, db, requests))[k].position < |requests|
  {
    hide Guards, PendingMentions, Fresh;
    PendingIsFresh(cfg, db, requests);
    PendingJobsArePositions(Guards(cfg, db, requests));
    RepeatJobsAreExact(Guards(cfg, db, requests));
  }

  /** Every outcome is answered where it should be: by the guard, by its job's fate, or as a repeat. */
  lemma {:induction false} AnswerIsFilled(
      cfg: Config, linker: Linker, db: Database, requests: seq<Request>, fate: Fate, slots: seq<Option<Response>>,
      filled: seq<Option<Response>>, last: seq<Option<Response>>, answers: seq<Response>, events: seq<seq<Event>>,
      i: nat)
    requires i < |requests| == |slots| == |filled| == |last|
    requires Assembled(cfg, linker, db, requests, fate, slots, filled, answers, events)
    requires Possible(fate, |PendingPositions(Guards(cfg, db, requests))|)
    requires RepeatsAnswered(cfg, BatchDatabase(cfg, linker, db, requests, fate), requests,
                             RepeatJobs(Guards(cfg, db, requests)), filled, last)
    ensures last[i] == Some(BatchResponse(cfg, linker, db, requests, fate, i))
  {
    hide Guards, PendingJobs, RepeatJobs, PendingMentions, PendingPositions, PendingRank, BatchDatabase,
         PendingResponse, PendingEvents, CachedResponse;
    var outcomes := Guards(cfg, db, requests);
    var jobs := PendingJobs(outcomes);
    PendingJobsArePositions(outcomes);
    RepeatJobsAreExact(outcomes);
    PendingRankIsPlace(outcomes, i);
    assert jobs[..|answers|] == jobs;
    if outcomes[i].Pending? {
      assert jobs[PendingRank(outcomes, i)].position == i;
    } else {
      assert !HasJob(jobs, i);
      if outcomes[i].Repeat? {
        var k :| 0 <= k < |RepeatJobs(outcomes)| && RepeatJobs(outcomes)[k] == Job(i, outcomes[i].mention);
        assert HasJob(RepeatJobs(outcomes), i);
      }
    }
  }

  lemma {:induction false} EveryAnswerIsFilled(
      cfg: Config, linker: Linker, db: Database, requests: seq<Request>, fate: Fate, slots: seq<Option<Response>>,
      filled: seq<Option<Response>>, last: seq<Option<Response>>, answers: seq<Response>, events: seq<seq<Event>>)
    requires |requests| == |slots| == |filled| == |last|
    requires Assembled(cfg, linker, db, requests, fate, slots, filled, answers, events)
    requires Possible(fate, |PendingPositions(Guards(cfg, db, requests))|)
    requires RepeatsAnswered(cfg, BatchDatabase(cfg, linker, db, requests, fate), requests,
                             RepeatJobs(Guards(cfg, db, requests)), filled, last)
    ensures forall i | 0 <= i < |requests| :: last[i] == Some(BatchResponse(cfg, linker, db, requests, fate, i))
  {
    hide Guards, RepeatJobs, PendingPositions, BatchDatabase, BatchResponse, Assembled, RepeatsAnswered;
    forall i: nat | i < |requests|
      ensures last[i] == Some(BatchResponse(cfg, linker, db, requests, fate, i))
    {
      AnswerIsFilled(cfg, linker, db, requests, fate, slots, filled, last, answers, events, i);
    }
  }

  /** Answers and events of all pending mentions are those their fate calls for. */
  ghost predicate Settles(cfg: Config, linker: Linker, db: Database, ms: seq<Mention>, ids: seq<string>, fate: Fate,
                          answers: seq<Response>, events: seq<seq<Event>>) {
    && Possible(fate, |ms|) && |answers| == |events| == |ms| == |ids|
    && (forall k | 0 <= k < |ms| :: answers[k] == PendingResponse(cfg, linker, db, ids[k], ms, fate, k))
    && (forall k | 0 <= k < |ms| :: events[k] == PendingEvents(cfg, linker, db, ms, fate, k))
  }

  lemma SettlesNothing(cfg: Config, linker: Linker, db: Database)
    ensures Settles(cfg, linker, db, [], [], Whole, [], []) && AfterPending(cfg, linker, db, [], Whole) == db
  {
    NothingToResolve(cfg, db, TableFor(cfg, linker, db, []));
  }

  lemma SettlesWhole(cfg: Config, linker: Linker, db: Database, ms: seq<Mention>, ids: seq<string>,
                     answers: seq<Response>)
    returns (events: seq<seq<Event>>)
    requires |answers| == |ms| == |ids|
    requires forall k | 0 <= k < |ms| ::
               answers[k] == Resolution(ids[k], BiteResults(cfg, db, ms, TableFor(cfg, linker, db, ms))[k])
    ensures Settles(cfg, linker, db, ms, ids, Whole, answers, events)
    ensures AfterPending(cfg, linker, db, ms, Whole) == Resolver.ResolveBite(cfg, db, ms, TableFor(cfg, linker, db, ms))
    ensures |events| == |ms|
    ensures forall k | 0 <= k < |ms| :: events[k] == CommitEvents(BiteEvents(cfg, db, ms,
                                                                             TableFor(cfg, linker, db, ms))[k])
  {
    hide BiteResults, BiteEvents;
    events := seq(|ms|, k requires 0 <= k < |ms| => CommitEvents(BiteEvents(cfg, db, ms,
                                                                            TableFor(cfg, linker, db, ms))[k]));
  }

  lemma {:induction false} SettlesSingle(cfg: Config, linker: Linker, db: Database, ms: seq<Mention>, ids: seq<string>)
    requires |ms| == |ids| == 1
    ensures Settles(cfg, linker, db, ms, ids, Apart([Failed(OtherFault)]), [Failure(ids[0], InternalError)], [[]])
    ensures AfterPending(cfg, linker, db, ms, Apart([Failed(OtherFault)])) == db
  {
    hide BiteResults, BiteEvents, Resolver.ResolveBite;
    assert ms[..0] == [];
  }

  lemma {:induction false} SettlesApart(cfg: Config, linker: Linker, db: Database, ms: seq<Mention>, ids: seq<string>,
                                        attempts: seq<Attempt>, answers: seq<Response>, events: seq<seq<Event>>)
    requires |ms| != 1 && |attempts| == |ms| && Tells(cfg, linker, db, ms, ids, attempts, answers, events)
    ensures Settles(cfg, linker, db, ms, ids, Apart(attempts), answers, events)
    ensures AfterPending(cfg, linker, db, ms, Apart(attempts)) == AfterApart(cfg, linker, db, ms, attempts)
  {
    hide AfterApart, AttemptResponse, AttemptEvents;
  }

  /** The repeats are answered from the tables, and nothing else is changed. */
  ghost predicate RepeatsAnswered(cfg: Config, db: Database, requests: seq<Request>, repeats: seq<Job>,
                                  responses: seq<Option<Response>>, filled: seq<Option<Response>>) {
    && |filled| == |responses| == |requests|
    && (forall i | 0 <= i < |responses| && !HasJob(repeats, i) :: filled[i] == responses[i])
    && (forall i | 0 <= i < |responses| && HasJob(repeats, i) ::
          exists k :: 0 <= k < |repeats| && repeats[k].position == i
            && filled[i] == Some(CachedResponse(cfg, db, requests[i].requestId, repeats[k].mention.id)))
  }

  lemma NoRepeatsAnswered(cfg: Config, db: Database, requests: seq<Request>, responses: seq<Option<Response>>)
    requires |requests| == |responses|
    ensures RepeatsAnswered(cfg, db, requests, [], responses, responses)
  {
  }

  lemma {:induction false} OneMoreRepeatAnswered(cfg: Config, db: Database, requests: seq<Request>, repeats: seq<Job>,
                                                 responses: seq<Option<Response>>, filled: seq<Option<Response>>,
                                                 job: Job)
    requires RepeatsAnswered(cfg, db, requests, repeats, responses, filled) && job.position < |requests|
    ensures RepeatsAnswered(cfg, db, requests, repeats + [job], responses,
                            filled[job.position := Some(CachedResponse(cfg, db, requests[job.position].requestId,
                                                                       job.mention.id))])
  {
    hide CachedResponse;
    var more := repeats + [job];
    var after := filled[job.position := Some(CachedResponse(cfg, db, requests[job.position].requestId,
                                                            job.mention.id))];
    assert more[|repeats|] == job && forall k | 0 <= k < |repeats| :: more[k] == repeats[k];
    forall i | 0 <= i < |responses|
      ensures HasJob(more, i) <==> HasJob(repeats, i) || i == job.position
    {
      if HasJob(repeats, i) {
        var k :| 0 <= k < |repeats| && repeats[k].position == i;
        assert more[k].position == i;
      }
    }
    forall i | 0 <= i < |responses| && HasJob(more, i)
      ensures exists k :: 0 <= k < |more| && more[k].position == i
                && after[i] == Some(CachedResponse(cfg, db, requests[i].requestId, more[k].mention.id))
    {
      if i != job.position {
        var k :| 0 <= k < |repeats| && repeats[k].position == i
                 && filled[i] == Some(CachedResponse(cfg, db, requests[i].requestId, repeats[k].mention.id));
        assert more[k] == repeats[k];
      }
    }
  }

  function IdsOfJobs(requests: seq<Request>, jobs: seq<Job>): (ids: seq<string>)
    requires InOrder(jobs, |requests|)
    ensures |ids| == |jobs| && forall k | 0 <= k < |jobs| :: ids[k] == requests[jobs[k].position].requestId
  {
    seq(|jobs|, k requires 0 <= k < |jobs| => requests[jobs[k].position].requestId)
  }

  /** What each attempt so far answered and showed, against the tables it started from. */
  ghost predicate Tells(cfg: Config, linker: Linker, db: Database, ms: seq<Mention>, ids: seq<string>,
                        attempts: seq<Attempt>, answers: seq<Response>, events: seq<seq<Event>>) {
    && |attempts| == |answers| == |events| <= |ms| == |ids|
    && (forall k | 0 <= k < |attempts| ::
          answers[k] == AttemptResponse(cfg, linker, AfterApart(cfg, linker, db, ms[..k], attempts[..k]),
                                        ids[k], ms[k], attempts[k]))
    && (forall k | 0 <= k < |attempts| ::
          events[k] == AttemptEvents(cfg, linker, AfterApart(cfg, linker, db, ms[..k], attempts[..k]), ms[k],
                                     attempts[k]))
  }

  lemma TellsNothing(cfg: Config, linker: Linker, db: Database, ms: seq<Mention>, ids: seq<string>)
    requires |ids| == |ms|
    ensures Tells(cfg, linker, db, ms, ids, [], [], [])
    ensures AfterApart(cfg, linker, db, ms[..0], []) == db
  {
  }

  lemma {:induction false} TellsOneMore(cfg: Config, linker: Linker, db: Database, ms: seq<Mention>, ids: seq<string>,
                                        attempts: seq<Attempt>, answers: seq<Response>, events: seq<seq<Event>>,
                                        attempt: Attempt, answer: Response, shown: seq<Event>)
    requires Tells(cfg, linker, db, ms, ids, attempts, answers, events) && |attempts| < |ms|
    requires var n := |attempts|;
             var before := AfterApart(cfg, linker, db, ms[..n], attempts);
             && answer == AttemptResponse(cfg, linker, before, ids[n], ms[n], attempt)
             && shown == AttemptEvents(cfg, linker, before, ms[n], attempt)
    ensures Tells(cfg, linker, db, ms, ids, attempts + [attempt], answers + [answer], events + [shown])
  {
    hide AfterApart, AttemptResponse, AttemptEvents;
    var n, more := |attempts|, attempts + [attempt];
    assert more[..n] == attempts;
    forall k | 0 <= k < n
      ensures more[..k] == attempts[..k]
    {
    }
  }

  lemma {:induction false} AfterOneMoreAttempt(cfg: Config, linker: Linker, db: Database, ms: seq<Mention>,
                                               attempts: seq<Attempt>, attempt: Attempt)
    requires |attempts| < |ms|
    ensures var n := |attempts|;
            var before := AfterApart(cfg, linker, db, ms[..n], attempts);
            AfterApart(cfg, linker, db, ms[..n + 1], attempts + [attempt])
            == if attempt.Committed? then Resolver.ResolveBite(cfg, before, [ms[n]],
                                                               TableFor(cfg, linker, before, [ms[n]]))
               else before
  {
    hide Resolver.ResolveBite, TableFor;
    var n, more := |attempts|, attempts + [attempt];
    assert more[..n] == attempts && ms[..n + 1][..n] == ms[..n];
  }

  lemma {:induction false} NextIsNotStored(cfg: Config, linker: Linker, db: Database, ms: seq<Mention>,
                                           attempts: seq<Attempt>, n: nat)
    requires cfg.Valid() && ObeysPort(linker) && Invariant(cfg, db) && Fresh(db, ms) && n < |ms| && |attempts| == n
    ensures !Stores(AfterApart(cfg, linker, db, ms[..n], attempts), ms[n].id)
  {
    var padded := attempts + seq(|ms| - n, i => Committed);
    assert padded[..n] == attempts;
    FreshPrefix(db, ms, n);
    AttemptsStoreTheCommitted(cfg, linker, db, ms[..n], attempts);
    NotYetStored(cfg, db, ms, padded, n, AfterApart(cfg, linker, db, ms[..n], attempts));
  }
}
