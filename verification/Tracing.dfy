/** Lifecycle traces: each stage is logged with the time since the previous stage of the same request. */
module Tracing {
  import opened Domain
  import opened Time

  datatype GuardOutcome = ConflictFound | Idempotent | New

  datatype Event =
    | Dequeued
    | Parsed(mention: MentionId)
    | Guarded(outcome: GuardOutcome)
    | Scored(links: nat, bestScore: Option<real>)
    | Clustered(joined: bool, cluster: ClusterId)
    | Persisted
    | Responded

  /** The declared order of the stages. */
  function Stage(e: Event): nat {
    match e
    case Dequeued => 0
    case Parsed(_) => 1
    case Guarded(_) => 2
    case Scored(_, _) => 3
    case Clustered(_, _) => 4
    case Persisted => 5
    case Responded => 6
  }

  predicate InStageOrder(events: seq<Event>) {
    forall i, j | 0 <= i < j < |events| :: Stage(events[i]) < Stage(events[j])
  }

  datatype Entry = Entry(event: Event, elapsedMs: real)

  function EventsOf(log: seq<Entry>): seq<Event> {
    seq(|log|, i requires 0 <= i < |log| => log[i].event)
  }

  /** `after` is `before` with these events logged, none of them with a negative duration. */
  ghost predicate Logs(before: seq<Entry>, after: seq<Entry>, events: seq<Event>) {
    && before <= after
    && EventsOf(after) == EventsOf(before) + events
    && forall i | |before| <= i < |after| :: after[i].elapsedMs >= 0.0
  }

  lemma LogsNothing(log: seq<Entry>)
    ensures Logs(log, log, [])
  {
  }

  lemma LogsCompose(a: seq<Entry>, b: seq<Entry>, c: seq<Entry>, first: seq<Event>, second: seq<Event>)
    requires Logs(a, b, first) && Logs(b, c, second)
    ensures Logs(a, c, first + second)
  {
  }

  class MentionTrace {
    const started: real
    var last: real
    var log: seq<Entry>

    constructor (start: real)
      ensures started == last == start && log == []
    {
      started, last, log := start, start, [];
    }

    /** Closes the current stage at a recorded time. */
    method StageAt(event: Event, at: real)
      modifies this
      ensures last == at && log == old(log) + [Entry(event, (at - old(last)) * MS_PER_SECOND)]
      ensures old(last) <= at ==> Logs(old(log), log, [event])
    {
      log := log + [Entry(event, (at - last) * MS_PER_SECOND)];
      last := at;
    }

    /** Closes the current stage now. */
    method StageNow(event: Event, clock: Clock)
      modifies this, clock
      ensures last == clock.now >= old(clock.now)
      ensures old(last) <= old(clock.now) ==> Logs(old(log), log, [event])
    {
      var t := clock.Read();
      StageAt(event, t);
    }
  }

  /** A stage whose end was recorded when it happened but which is emitted later, after the commit. */
  datatype DeferredStage = DeferredStage(trace: MentionTrace, event: Event, at: real)
}
