/** Which lifecycle events resolving a mention gives its trace. */
module Lifecycle {
  import opened Domain
  import opened Ordering
  import opened Ranking
  import opened Tables
  import opened Resolver
  import opened Tracing

  /** The two stages of a mention's turn. */
  function ScoredEvent(links: seq<Link>): Event {
    Scored(|links|, if links == [] then None else Some(FirstMax(links, LinkScore).score))
  }

  function ClusteredEvent(cfg: Config, db: Database, m: Mention, links: seq<Link>): Event
    requires AllTouch(links, m.id)
  {
    Clustered(JoinsBest(cfg, m.id, links, ClusterMap(db.clusters)),
              AssignCluster(cfg, m.id, links, ClusterMap(db.clusters)))
  }

  /** Which stages the `i`-th mention's turn records. */
  function TurnEvents(cfg: Config, db: Database, ms: seq<Mention>, links: seq<seq<Link>>, i: nat): (Event, Event)
    requires LinksTouch(ms, links) && i < |ms|
  {
    (ScoredEvent(links[i]), ClusteredEvent(cfg, CommitAll(cfg, db, ms[..i], links[..i]), ms[i], links[i]))
  }

  function LinkEvents(cfg: Config, db: Database, ms: seq<Mention>, links: seq<seq<Link>>): (events: seq<(Event, Event)>)
    requires LinksTouch(ms, links)
    ensures |events| == |ms|
  {
    seq(|ms|, i requires 0 <= i < |ms| => TurnEvents(cfg, db, ms, links, i))
  }

  /** The scored and clustered events of each mention of a bite. */
  function BiteEvents(cfg: Config, db: Database, bite: seq<Mention>, table: LinkTable): (events: seq<(Event, Event)>)
    ensures |events| == |bite|
  {
    LinkEvents(cfg, db, bite, BiteLinks(bite, Rows(table)))
  }

  /** What a committed mention's trace shows of its bite. */
  function CommitEvents(turn: (Event, Event)): seq<Event> {
    [turn.0, turn.1, Persisted]
  }
}
