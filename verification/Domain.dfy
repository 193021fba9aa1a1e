/** Values of the resolver's domain: mentions, links, clusters, candidates and its configuration. */
module Domain {

  datatype Option<+T> = None | Some(value: T)

  datatype MentionId = MentionId(value: string)

  /** Always derived from the id of the mention that founded the cluster. */
  datatype ClusterId = ClusterId(value: string)

  type Attributes = map<string, Option<string>>

  datatype Mention = Mention(id: MentionId, attributes: Attributes)

  datatype Link = Link(left: MentionId, right: MentionId, score: real) {
    predicate Touches(id: MentionId) {
      id == left || id == right
    }

    /** The mention on the other side; the source raises when `from` is on neither side. */
    function Other(from: MentionId): MentionId
      requires Touches(from)
    {
      if from == left then right else left
    }
  }

  /** Scored pairs in columns: one row per pair. */
  datatype Columns = Columns(leftIds: seq<MentionId>, rightIds: seq<MentionId>, scores: seq<real>) {
    predicate EqualLengths() {
      |leftIds| == |rightIds| == |scores|
    }
  }

  type LinkTable = t: Columns | t.EqualLengths() witness Columns([], [], [])

  function Rows(table: LinkTable): (rows: seq<Link>)
    ensures |rows| == |table.scores|
  {
    seq(|table.scores|, i requires 0 <= i < |table.scores| =>
      Link(table.leftIds[i], table.rightIds[i], table.scores[i]))
  }

  function ToLinkTable(links: seq<Link>): LinkTable {
    Columns(
      seq(|links|, i requires 0 <= i < |links| => links[i].left),
      seq(|links|, i requires 0 <= i < |links| => links[i].right),
      seq(|links|, i requires 0 <= i < |links| => links[i].score))
  }

  /** Writing links as columns and reading the rows back loses and reorders nothing. */
  lemma TableRoundTrip(links: seq<Link>)
    ensures Rows(ToLinkTable(links)) == links
  {
    forall i | 0 <= i < |links|
      ensures Rows(ToLinkTable(links))[i] == links[i]
    {
    }
  }

  datatype Membership = Membership(mention: MentionId, cluster: ClusterId)

  datatype Candidate = Candidate(cluster: ClusterId, score: real)

  datatype Config = Config(threshold: real, topN: nat, autoTrainThreshold: int, entityFields: set<string>) {
    /** A resolution result must not be empty, so at least one candidate is kept. */
    predicate Valid() {
      topN >= 1
    }
  }

  /** The three tables, each in insertion order. */
  datatype Database = Database(mentions: seq<Mention>, links: seq<Link>, clusters: seq<Membership>)

  const EMPTY_DATABASE := Database([], [], [])

  /** What the linker computes for a bite of new mentions over a search space. */
  type Linker = (seq<Mention>, seq<Mention>) -> LinkTable

  function LinkScore(link: Link): real {
    link.score
  }

  function CandidateScore(candidate: Candidate): real {
    candidate.score
  }

  function FoundedBy(id: MentionId): ClusterId {
    ClusterId(id.value)
  }

  function IdsOf(mentions: seq<Mention>): seq<MentionId> {
    seq(|mentions|, i requires 0 <= i < |mentions| => mentions[i].id)
  }

  ghost predicate Distinct<T>(xs: seq<T>) {
    forall i, j | 0 <= i < j < |xs| :: xs[i] != xs[j]
  }

  lemma AppendLast<T>(a: seq<T>, b: seq<T>)
    requires b != []
    ensures b == b[..|b| - 1] + [b[|b| - 1]]
    ensures a + b == (a + b[..|b| - 1]) + [b[|b| - 1]]
  {
  }
}
