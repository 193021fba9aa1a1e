/** When the linker lists rows in an arbitrary order, exactly diverging ties make the clusters depend on it. */
module RowOrder {
  import opened Domain
  import opened Ordering
  import opened Ranking
  import opened Tables
  import opened Resolver
  import opened Forest
  import opened Batching

  /** What the assignment decides when this link is taken as the best one. */
  function AssignVia(cfg: Config, id: MentionId, best: Link, clusters: map<MentionId, ClusterId>): ClusterId
    requires best.Touches(id)
  {
    if best.Other(id) in clusters && best.score >= cfg.threshold then clusters[best.Other(id)] else FoundedBy(id)
  }

  ghost predicate IsTop(links: seq<Link>, l: Link) {
    l in links && forall other | other in links :: other.score <= l.score
  }

  /** All links tied for best decide alike. */
  ghost predicate TiesAgree(cfg: Config, id: MentionId, links: seq<Link>, clusters: map<MentionId, ClusterId>)
    requires AllTouch(links, id)
  {
    forall a, b | IsTop(links, a) && IsTop(links, b) ::
      AssignVia(cfg, id, a, clusters) == AssignVia(cfg, id, b, clusters)
  }

  lemma FirstMaxIsTop(links: seq<Link>)
    requires links != []
    ensures IsTop(links, FirstMax(links, LinkScore))
  {
    var i := FirstMaxIsFirst(links, LinkScore);
    forall other | other in links
      ensures other.score <= links[i].score
    {
      var j :| 0 <= j < |links| && links[j] == other;
      assert LinkScore(links[j]) <= LinkScore(links[i]);
    }
  }

  lemma SameElements(xs: seq<Link>, ys: seq<Link>)
    requires multiset(xs) == multiset(ys)
    ensures forall l :: l in xs <==> l in ys
  {
    forall l
      ensures l in xs <==> l in ys
    {
      assert l in xs <==> l in multiset(xs);
      assert l in ys <==> l in multiset(ys);
    }
  }

  lemma AssignmentIgnoresOrder(cfg: Config, id: MentionId, xs: seq<Link>, ys: seq<Link>,
                               clusters: map<MentionId, ClusterId>)
    requires AllTouch(xs, id) && AllTouch(ys, id) && multiset(xs) == multiset(ys)
    requires TiesAgree(cfg, id, ys, clusters)
    ensures AssignCluster(cfg, id, xs, clusters) == AssignCluster(cfg, id, ys, clusters)
  {
    SameElements(xs, ys);
    if xs == [] {
      assert |multiset(ys)| == |multiset(xs)| == 0;
    } else {
      assert xs[0] in ys;
      FirstMaxIsTop(xs);
      FirstMaxIsTop(ys);
      assert IsTop(ys, FirstMax(xs, LinkScore));
    }
  }

  /** When its turn comes in the one-at-a-time run, all links tied for best of the k-th mention decide alike. */
  ghost predicate TurnIsHarmless(cfg: Config, score: Similarity, db: Database, ms: seq<Mention>, k: nat)
    requires k < |ms|
  {
    var before := OneAtATime(cfg, score, db, ms[..k]);
    TiesAgree(cfg, ms[k].id, SpaceLinks(score, ms[k], before.mentions), ClusterMap(before.clusters))
  }

  ghost predicate TiesHarmless(cfg: Config, score: Similarity, db: Database, ms: seq<Mention>) {
    forall k: nat | k < |ms| :: TurnIsHarmless(cfg, score, db, ms, k)
  }

  /** No two different links of any mention's turn are tied for best. */
  ghost predicate UniqueBest(cfg: Config, score: Similarity, db: Database, ms: seq<Mention>) {
    forall k: nat, a, b | k < |ms| ::
      var links := SpaceLinks(score, ms[k], OneAtATime(cfg, score, db, ms[..k]).mentions);
      IsTop(links, a) && IsTop(links, b) ==> a == b
  }

  lemma NoTiesAreHarmless(cfg: Config, score: Similarity, db: Database, ms: seq<Mention>)
    requires UniqueBest(cfg, score, db, ms)
    ensures TiesHarmless(cfg, score, db, ms)
  {
  }

  ghost predicate RunListsInAnyOrder(cfg: Config, score: Similarity, db: Database, bites: seq<seq<Mention>>,
                                     tables: seq<LinkTable>)
    decreases |bites|
  {
    && |tables| == |bites|
    && (bites != [] ==>
          && ListsInAnyOrder(score, tables[0], bites[0], Space(cfg, db, bites[0]))
          && RunListsInAnyOrder(cfg, score, ResolveBite(cfg, db, bites[0], tables[0]), bites[1..], tables[1..]))
  }

  /** Mentions and clusters, but perhaps not links, are the same. */
  predicate SameClusters(a: Database, b: Database) {
    a.mentions == b.mentions && a.clusters == b.clusters
  }

  lemma TurnIgnoresOrder(cfg: Config, db: Database, ref: Database, m: Mention, xs: seq<Link>, ys: seq<Link>)
    requires SameClusters(db, ref) && AllTouch(xs, m.id) && AllTouch(ys, m.id) && multiset(xs) == multiset(ys)
    requires TiesAgree(cfg, m.id, ys, ClusterMap(ref.clusters))
    ensures SameClusters(CommitOne(cfg, db, m, xs), CommitOne(cfg, ref, m, ys))
  {
    AssignmentIgnoresOrder(cfg, m.id, xs, ys, ClusterMap(ref.clusters));
  }

  lemma {:induction false} BitePrefixIgnoresOrder(cfg: Config, score: Similarity, db: Database, ref: Database,
                                                  bite: seq<Mention>, links: seq<seq<Link>>, k: nat)
    requires SameClusters(db, ref) && LinksTouch(bite, links) && k <= |bite|
    requires forall i | 0 <= i < |bite| ::
               multiset(links[i]) == multiset(SpaceLinks(score, bite[i], Space(cfg, ref, bite[..i])))
    requires TiesHarmless(cfg, score, ref, bite)
    ensures SameClusters(CommitAll(cfg, db, bite[..k], links[..k]), OneAtATime(cfg, score, ref, bite[..k]))
  {
    if k > 0 {
      var i := k - 1;
      BitePrefixIgnoresOrder(cfg, score, db, ref, bite, links, i);
      CommitAllStep(cfg, db, bite, links, i);
      OneAtATimeStep(cfg, score, ref, bite, i);
      OneAtATimeIsCommitAll(cfg, score, ref, bite, i);
      var before := OneAtATime(cfg, score, ref, bite[..i]);
      assert before.mentions == Space(cfg, ref, bite[..i]);
      assert TurnIsHarmless(cfg, score, ref, bite, i);
      TurnIgnoresOrder(cfg, CommitAll(cfg, db, bite[..i], links[..i]), before, bite[i], links[i],
                       SpaceLinks(score, bite[i], before.mentions));
    }
  }

  lemma {:induction false} BiteIgnoresOrder(cfg: Config, score: Similarity, db: Database, ref: Database,
                                            bite: seq<Mention>, table: LinkTable)
    requires SameClusters(db, ref) && Fresh(db, bite)
    requires ListsInAnyOrder(score, table, bite, Space(cfg, db, bite))
    requires TiesHarmless(cfg, score, ref, bite)
    ensures SameClusters(ResolveBite(cfg, db, bite, table), OneAtATime(cfg, score, ref, bite))
  {
    hide TiesHarmless, EarlierLinks, SpaceLinks, CommitAll, OneAtATime, RowsOf;
    var links := BiteLinks(bite, Rows(table));
    forall i | 0 <= i < |bite|
      ensures multiset(links[i]) == multiset(SpaceLinks(score, bite[i], Space(cfg, ref, bite[..i])))
    {
      BiteLinksAreLinksInTurn(cfg, score, db, bite, table, i);
    }
    BitePrefixIgnoresOrder(cfg, score, db, ref, bite, links, |bite|);
    assert bite[..|bite|] == bite && links[..|bite|] == links;
  }

  lemma {:induction false} TiesHarmlessSplits(cfg: Config, score: Similarity, db: Database, a: seq<Mention>,
                                              b: seq<Mention>)
    requires TiesHarmless(cfg, score, db, a + b)
    ensures TiesHarmless(cfg, score, db, a)
    ensures TiesHarmless(cfg, score, OneAtATime(cfg, score, db, a), b)
  {
    var mid := OneAtATime(cfg, score, db, a);
    forall k: nat | k < |a|
      ensures TurnIsHarmless(cfg, score, db, a, k)
    {
      assert TurnIsHarmless(cfg, score, db, a + b, k);
      assert (a + b)[..k] == a[..k] && (a + b)[k] == a[k];
    }
    forall k: nat | k < |b|
      ensures TurnIsHarmless(cfg, score, mid, b, k)
    {
      var i := |a| + k;
      assert TurnIsHarmless(cfg, score, db, a + b, i);
      assert (a + b)[..i] == a + b[..k] && (a + b)[i] == b[k];
      OneAtATimeAppend(cfg, score, db, a, b[..k]);
    }
  }

  /** With harmless ties, neither bite boundaries nor the order of rows changes any cluster. */
  lemma {:induction false} OrderDoesNotMatter(cfg: Config, score: Similarity, db: Database, ref: Database,
                                              bites: seq<seq<Mention>>, tables: seq<LinkTable>)
    requires SameClusters(db, ref) && Fresh(db, Flatten(bites))
    requires RunListsInAnyOrder(cfg, score, db, bites, tables)
    requires TiesHarmless(cfg, score, ref, Flatten(bites))
    ensures SameClusters(ResolveBites(cfg, db, bites, tables), OneAtATime(cfg, score, ref, Flatten(bites)))
    decreases |bites|
  {
    if bites != [] {
      var after, rest := ResolveBite(cfg, db, bites[0], tables[0]), Flatten(bites[1..]);
      FreshSplits(cfg.entityFields, db, bites[0], rest, after);
      TiesHarmlessSplits(cfg, score, ref, bites[0], rest);
      BiteIgnoresOrder(cfg, score, db, ref, bites[0], tables[0]);
      OrderDoesNotMatter(cfg, score, after, OneAtATime(cfg, score, ref, bites[0]), bites[1..], tables[1..]);
      OneAtATimeAppend(cfg, score, ref, bites[0], rest);
    }
  }

  lemma {:induction false} RowsOfAppend(xs: seq<Link>, ys: seq<Link>, id: MentionId)
    ensures RowsOf(xs + ys, id) == RowsOf(xs, id) + RowsOf(ys, id)
  {
    if ys == [] {
      assert xs + ys == xs;
    } else {
      RowsOfAppend(xs, ys[..|ys| - 1], id);
      assert (xs + ys)[..|xs + ys| - 1] == xs + ys[..|ys| - 1];
    }
  }

  lemma {:induction false} RowsOfOwn(rows: seq<Link>, id: MentionId)
    requires forall l | l in rows :: l.left == id && l.right != id
    ensures RowsOf(rows, id) == rows
  {
    if rows != [] {
      RowsOfOwn(rows[..|rows| - 1], id);
      assert rows == rows[..|rows| - 1] + [rows[|rows| - 1]];
    }
  }

  lemma {:induction false} RowsOfOthers(rows: seq<Link>, id: MentionId)
    requires forall l | l in rows :: l.left != id
    ensures RowsOf(rows, id) == []
  {
    if rows != [] {
      RowsOfOthers(rows[..|rows| - 1], id);
    }
  }

  /** The rows of different mentions can be listed one mention after the other. */
  lemma {:induction false} RowsOfFlatten(ids: seq<MentionId>, lists: seq<seq<Link>>, id: MentionId)
    requires |lists| == |ids| && Distinct(ids)
    requires forall i, l | 0 <= i < |ids| && l in lists[i] :: l.left == ids[i] && l.right != ids[i]
    ensures forall i | 0 <= i < |ids| && ids[i] == id :: RowsOf(Flatten(lists), id) == lists[i]
    ensures id !in ids ==> RowsOf(Flatten(lists), id) == []
  {
    if lists != [] {
      RowsOfFlatten(ids[1..], lists[1..], id);
      RowsOfAppend(lists[0], Flatten(lists[1..]), id);
      if ids[0] == id {
        RowsOfOwn(lists[0], id);
        assert id !in ids[1..];
      } else {
        RowsOfOthers(lists[0], id);
      }
    }
  }

  lemma FirstTopWins(links: seq<Link>)
    requires links != [] && IsTop(links, links[0])
    ensures FirstMax(links, LinkScore) == links[0]
  {
    var i := FirstMaxIsFirst(links, LinkScore);
    assert LinkScore(links[0]) >= LinkScore(links[i]);
  }

  lemma {:induction false} DropLaterHead(bite: seq<Mention>, i: nat, first: Link, rest: seq<Link>)
    requires !ArrivesAfter(bite, i, first.right)
    ensures DropLater(bite, i, [first] + rest) == [first] + DropLater(bite, i, rest)
  {
    if rest == [] {
      assert [first] + rest == [first];
      assert DropLater(bite, i, [first]) == DropLater(bite, i, []) + [first];
    } else {
      var init, last := rest[..|rest| - 1], rest[|rest| - 1];
      DropLaterHead(bite, i, first, init);
      DropLaterSnoc(bite, i, [first] + init, last);
      DropLaterSnoc(bite, i, init, last);
      assert [first] + rest == ([first] + init) + [last] && rest == init + [last];
    }
  }

  /** A list with one of its elements moved to the front. */
  lemma MoveToFront(links: seq<Link>, l: Link) returns (moved: seq<Link>, rest: seq<Link>)
    requires l in links
    ensures moved == [l] + rest && multiset(moved) == multiset(links)
  {
    var i :| 0 <= i < |links| && links[i] == l;
    rest := links[..i] + links[i + 1..];
    moved := [l] + rest;
    assert links == links[..i] + [l] + links[i + 1..];
  }

  /** A linker output for the bite that is in search-space order but lists one chosen link of one mention first. */
  lemma {:induction false} TableWithFirst(cfg: Config, score: Similarity, db: Database, ms: seq<Mention>, k: nat,
                                          first: Link)
    returns (table: LinkTable)
    requires Fresh(db, ms) && k < |ms|
    requires first in SpaceLinks(score, ms[k], Space(cfg, db, ms)) && !ArrivesAfter(ms, k, first.right)
    ensures ListsInAnyOrder(score, table, ms, Space(cfg, db, ms))
    ensures forall i | 0 <= i < |ms| && i != k ::
              RowsOf(Rows(table), ms[i].id) == SpaceLinks(score, ms[i], Space(cfg, db, ms))
    ensures var links := EarlierLinks(ms, k, Rows(table)); links != [] && links[0] == first
  {
    var space := Space(cfg, db, ms);
    var moved, rest := MoveToFront(SpaceLinks(score, ms[k], space), first);
    var lists := seq(|ms|, i requires 0 <= i < |ms| => if i == k then moved else SpaceLinks(score, ms[i], space));
    SameElements(moved, SpaceLinks(score, ms[k], space));
    table := ToLinkTable(Flatten(lists));
    TableRoundTrip(Flatten(lists));
    forall i | 0 <= i < |ms|
      ensures RowsOf(Rows(table), ms[i].id) == lists[i]
    {
      assert IdsOf(ms)[i] == ms[i].id;
      RowsOfFlatten(IdsOf(ms), lists, ms[i].id);
    }
    EarlierLinksDropLater(ms, k, Rows(table));
    DropLaterHead(ms, k, first, rest);
  }

  lemma {:induction false} PrefixesExtend(cfg: Config, db: Database, ms: seq<Mention>, links: seq<seq<Link>>, k: nat)
    requires LinksTouch(ms, links) && k <= |ms|
    ensures Extends(CommitAll(cfg, db, ms[..k], links[..k]), CommitAll(cfg, db, ms, links))
    decreases |ms| - k
  {
    if k < |ms| {
      PrefixesExtend(cfg, db, ms, links, k + 1);
      CommitAllStep(cfg, db, ms, links, k);
    } else {
      assert ms[..k] == ms && links[..k] == links;
    }
  }

  lemma DivergingLink(cfg: Config, id: MentionId, links: seq<Link>, clusters: map<MentionId, ClusterId>)
    returns (first: Link)
    requires AllTouch(links, id) && !TiesAgree(cfg, id, links, clusters)
    ensures IsTop(links, first) && AssignVia(cfg, id, first, clusters) != AssignCluster(cfg, id, links, clusters)
  {
    var a, b :| IsTop(links, a) && IsTop(links, b)
                && AssignVia(cfg, id, a, clusters) != AssignVia(cfg, id, b, clusters);
    first := if AssignVia(cfg, id, a, clusters) != AssignCluster(cfg, id, links, clusters) then a else b;
  }

  lemma FirstTopDecides(cfg: Config, id: MentionId, links: seq<Link>, usual: seq<Link>,
                        clusters: map<MentionId, ClusterId>)
    requires AllTouch(links, id) && multiset(links) == multiset(usual)
    requires links != [] && IsTop(usual, links[0])
    ensures AssignCluster(cfg, id, links, clusters) == AssignVia(cfg, id, links[0], clusters)
  {
    SameElements(links, usual);
    FirstTopWins(links);
  }

  lemma {:induction false} DropLaterKeepsOnly(bite: seq<Mention>, i: nat, links: seq<Link>)
    ensures forall l | l in DropLater(bite, i, links) :: l in links && !ArrivesAfter(bite, i, l.right)
  {
    if links != [] {
      DropLaterKeepsOnly(bite, i, links[..|links| - 1]);
    }
  }

  /** A link of the k-th mention's turn is a link to the whole space that is not to a later mention. */
  lemma {:induction false} TurnLinkIsSpaceLink(cfg: Config, score: Similarity, db: Database, ms: seq<Mention>, k: nat,
                                               l: Link)
    requires Fresh(db, ms) && k < |ms| && l in SpaceLinks(score, ms[k], Space(cfg, db, ms[..k]))
    ensures l in SpaceLinks(score, ms[k], Space(cfg, db, ms)) && !ArrivesAfter(ms, k, l.right)
  {
    var stored, rest := SpaceSplits(cfg, db, ms, k);
    DropLaterFromSpace(score, ms, k, stored, rest);
    DropLaterKeepsOnly(ms, k, SpaceLinks(score, ms[k], Space(cfg, db, ms)));
  }

  /** Where a tie diverges, some order of the linker's rows gives that mention another cluster. */
  lemma {:induction false} DivergingTieChangesCluster(cfg: Config, score: Similarity, db: Database, ms: seq<Mention>,
                                                      k: nat)
    returns (table: LinkTable)
    requires Fresh(db, ms) && k < |ms| && !TurnIsHarmless(cfg, score, db, ms, k)
    ensures ListsInAnyOrder(score, table, ms, Space(cfg, db, ms))
    ensures ResolveBite(cfg, db, ms, table).clusters != OneAtATime(cfg, score, db, ms).clusters
  {
    var inTurn := LinksInTurn(cfg, score, db, ms);
    OneAtATimeIsCommitAll(cfg, score, db, ms, k);
    var clusters := ClusterMap(CommitAll(cfg, db, ms[..k], inTurn[..k]).clusters);
    var first := DivergingLink(cfg, ms[k].id, inTurn[k], clusters);
    TurnLinkIsSpaceLink(cfg, score, db, ms, k, first);
    table := TableWithFirst(cfg, score, db, ms, k, first);
    var links := BiteLinks(ms, Rows(table));
    OtherRowsInTurn(cfg, score, db, ms, table, k);
    FirstTopDecides(cfg, ms[k].id, links[k], inTurn[k], clusters);
    OtherAssignmentStays(cfg, db, ms, links, inTurn, k);
    WholeSequenceIsCommitAll(cfg, score, db, ms);
  }

  lemma {:induction false} OtherRowsInTurn(cfg: Config, score: Similarity, db: Database, ms: seq<Mention>,
                                           table: LinkTable, k: nat)
    requires Fresh(db, ms) && k < |ms| && ListsInAnyOrder(score, table, ms, Space(cfg, db, ms))
    requires forall i | 0 <= i < k :: RowsOf(Rows(table), ms[i].id) == SpaceLinks(score, ms[i], Space(cfg, db, ms))
    ensures BiteLinks(ms, Rows(table))[..k] == LinksInTurn(cfg, score, db, ms)[..k]
    ensures multiset(BiteLinks(ms, Rows(table))[k]) == multiset(LinksInTurn(cfg, score, db, ms)[k])
  {
    forall i | 0 <= i < k
      ensures BiteLinks(ms, Rows(table))[i] == LinksInTurn(cfg, score, db, ms)[i]
    {
      BiteLinksAreLinksInTurn(cfg, score, db, ms, table, i);
    }
    BiteLinksAreLinksInTurn(cfg, score, db, ms, table, k);
  }

  lemma {:induction false} AssignedRowStays(cfg: Config, db: Database, ms: seq<Mention>, links: seq<seq<Link>>, k: nat)
    requires LinksTouch(ms, links) && k < |ms|
    ensures var before := CommitAll(cfg, db, ms[..k], links[..k]);
            var after := CommitAll(cfg, db, ms, links);
            && |before.clusters| == |db.clusters| + k < |after.clusters|
            && after.clusters[|db.clusters| + k].cluster
               == AssignCluster(cfg, ms[k].id, links[k], ClusterMap(before.clusters))
  {
    CommitAllStep(cfg, db, ms, links, k);
    PrefixesExtend(cfg, db, ms, links, k + 1);
  }

  /** Equal tables before a turn, different assignments in it: the cluster tables differ from then on. */
  lemma {:induction false} OtherAssignmentStays(cfg: Config, db: Database, ms: seq<Mention>, a: seq<seq<Link>>,
                                                b: seq<seq<Link>>, k: nat)
    requires LinksTouch(ms, a) && LinksTouch(ms, b) && k < |ms| && a[..k] == b[..k]
    requires var clusters := ClusterMap(CommitAll(cfg, db, ms[..k], a[..k]).clusters);
             AssignCluster(cfg, ms[k].id, a[k], clusters) != AssignCluster(cfg, ms[k].id, b[k], clusters)
    ensures CommitAll(cfg, db, ms, a).clusters != CommitAll(cfg, db, ms, b).clusters
  {
    AssignedRowStays(cfg, db, ms, a, k);
    AssignedRowStays(cfg, db, ms, b, k);
  }

  lemma {:induction false} OneBiteRun(cfg: Config, score: Similarity, db: Database, ms: seq<Mention>, table: LinkTable)
    requires ListsInAnyOrder(score, table, ms, Space(cfg, db, ms))
    ensures Flatten([ms]) == ms && RunListsInAnyOrder(cfg, score, db, [ms], [table])
    ensures ResolveBites(cfg, db, [ms], [table]) == ResolveBite(cfg, db, ms, table)
  {
    assert Flatten([ms]) == ms + Flatten([]) == ms;
    assert [ms][1..] == [] && [table][1..] == [];
  }

  /** Whatever the bites and whatever order the rows are listed in, the clusters are those of no batching. */
  ghost predicate OrderIsIrrelevant(cfg: Config, score: Similarity, db: Database, ms: seq<Mention>) {
    forall bites, tables | Flatten(bites) == ms && RunListsInAnyOrder(cfg, score, db, bites, tables) ::
      ResolveBites(cfg, db, bites, tables).clusters == OneAtATime(cfg, score, db, ms).clusters
  }

  lemma {:induction false} HarmlessTiesSuffice(cfg: Config, score: Similarity, db: Database, ms: seq<Mention>)
    requires Fresh(db, ms) && TiesHarmless(cfg, score, db, ms)
    ensures OrderIsIrrelevant(cfg, score, db, ms)
  {
    forall bites, tables | Flatten(bites) == ms && RunListsInAnyOrder(cfg, score, db, bites, tables)
      ensures ResolveBites(cfg, db, bites, tables).clusters == OneAtATime(cfg, score, db, ms).clusters
    {
      OrderDoesNotMatter(cfg, score, db, db, bites, tables);
    }
  }

  lemma {:induction false} OrderIsIrrelevantFor(cfg: Config, score: Similarity, db: Database, ms: seq<Mention>,
                                                bites: seq<seq<Mention>>, tables: seq<LinkTable>)
    requires OrderIsIrrelevant(cfg, score, db, ms)
    requires Flatten(bites) == ms && RunListsInAnyOrder(cfg, score, db, bites, tables)
    ensures ResolveBites(cfg, db, bites, tables).clusters == OneAtATime(cfg, score, db, ms).clusters
  {
  }

  lemma {:induction false} HarmlessTiesAreNeeded(cfg: Config, score: Similarity, db: Database, ms: seq<Mention>)
    requires Fresh(db, ms) && OrderIsIrrelevant(cfg, score, db, ms)
    ensures TiesHarmless(cfg, score, db, ms)
  {
    forall k: nat | k < |ms|
      ensures TurnIsHarmless(cfg, score, db, ms, k)
    {
      if !TurnIsHarmless(cfg, score, db, ms, k) {
        var table := DivergingTieChangesCluster(cfg, score, db, ms, k);
        OneBiteRun(cfg, score, db, ms, table);
        OrderIsIrrelevantFor(cfg, score, db, ms, [ms], [table]);
      }
    }
  }

  /**
   * Independent of bite boundaries and of the order in which the linker lists its rows, the clusters are
   * those of resolving one mention at a time - if and only if no tie for best diverges on the way.
   */
  lemma {:induction false} OrderMattersExactlyOnDivergingTies(cfg: Config, score: Similarity, db: Database,
                                                              ms: seq<Mention>)
    requires Fresh(db, ms)
    ensures OrderIsIrrelevant(cfg, score, db, ms) <==> TiesHarmless(cfg, score, db, ms)
  {
    if OrderIsIrrelevant(cfg, score, db, ms) {
      HarmlessTiesAreNeeded(cfg, score, db, ms);
    }
    if TiesHarmless(cfg, score, db, ms) {
      HarmlessTiesSuffice(cfg, score, db, ms);
    }
  }
}
