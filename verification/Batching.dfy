/** Where a sequence of arrivals is cut into bites does not matter. */
module Batching {
  import opened Domain
  import opened Placement
  import opened Tables
  import opened Resolver
  import opened Forest

  /** A fixed similarity of a new mention to a stored one; none below the linker's own cut-off. */
  type Similarity = (Mention, Mention) -> Option<real>

  ghost predicate IsProbability(score: Similarity) {
    forall m, other :: score(m, other).Some? ==> 0.0 <= score(m, other).value <= 1.0
  }

  /** The links of a mention to a search space, in search-space order. */
  function SpaceLinks(score: Similarity, m: Mention, space: seq<Mention>): (links: seq<Link>)
    ensures forall l | l in links :: l.left == m.id && l.right != m.id
  {
    if space == [] then []
    else
      var other := space[|space| - 1];
      SpaceLinks(score, m, space[..|space| - 1])
      + (if other.id != m.id && score(m, other).Some? then [Link(m.id, other.id, score(m, other).value)] else [])
  }

  /** The rows of one mention, without links to itself. */
  function RowsOf(rows: seq<Link>, id: MentionId): seq<Link> {
    if rows == [] then []
    else
      var last := rows[|rows| - 1];
      RowsOf(rows[..|rows| - 1], id) + (if last.left == id && last.left != last.right then [last] else [])
  }

  /** The linker scores every pair as the similarity does and lists links in search-space order. */
  ghost predicate ListsInOrder(score: Similarity, table: LinkTable, bite: seq<Mention>, space: seq<Mention>) {
    forall i | 0 <= i < |bite| :: RowsOf(Rows(table), bite[i].id) == SpaceLinks(score, bite[i], space)
  }

  /** The linker scores every pair as the similarity does and lists the links in any order. */
  ghost predicate ListsInAnyOrder(score: Similarity, table: LinkTable, bite: seq<Mention>, space: seq<Mention>) {
    forall i | 0 <= i < |bite| ::
      multiset(RowsOf(Rows(table), bite[i].id)) == multiset(SpaceLinks(score, bite[i], space))
  }

  /** The simple form: each mention on its own, against everything stored before it. */
  function OneAtATime(cfg: Config, score: Similarity, db: Database, ms: seq<Mention>): Database {
    if ms == [] then db
    else
      var before := OneAtATime(cfg, score, db, ms[..|ms| - 1]);
      CommitOne(cfg, before, ms[|ms| - 1], SpaceLinks(score, ms[|ms| - 1], before.mentions))
  }

  function ResultOneAtATime(cfg: Config, score: Similarity, db: Database, ms: seq<Mention>, k: nat): seq<Candidate>
    requires k < |ms|
  {
    TurnResult(cfg, score, OneAtATime(cfg, score, db, ms[..k]), ms[k])
  }

  function TurnResult(cfg: Config, score: Similarity, before: Database, m: Mention): seq<Candidate> {
    RankOne(cfg, before, m, SpaceLinks(score, m, before.mentions))
  }

  function ResultsOneAtATime(cfg: Config, score: Similarity, db: Database, ms: seq<Mention>): (rs: seq<seq<Candidate>>)
    ensures |rs| == |ms|
  {
    seq(|ms|, k requires 0 <= k < |ms| => ResultOneAtATime(cfg, score, db, ms, k))
  }

  /** The links each mention has when its turn comes. */
  function LinksInTurn(cfg: Config, score: Similarity, db: Database, ms: seq<Mention>): (links: seq<seq<Link>>)
    ensures LinksTouch(ms, links)
  {
    seq(|ms|, k requires 0 <= k < |ms| => SpaceLinks(score, ms[k], Space(cfg, db, ms[..k])))
  }

  lemma {:induction false} OneAtATimeIsCommitAll(cfg: Config, score: Similarity, db: Database, ms: seq<Mention>, k: nat)
    requires k <= |ms|
    ensures OneAtATime(cfg, score, db, ms[..k]) == CommitAll(cfg, db, ms[..k], LinksInTurn(cfg, score, db, ms)[..k])
  {
    if k > 0 {
      hide OneAtATime, CommitAll, CommitOne, SpaceLinks, LinksInTurn;
      var links := LinksInTurn(cfg, score, db, ms);
      OneAtATimeIsCommitAll(cfg, score, db, ms, k - 1);
      OneAtATimeStep(cfg, score, db, ms, k - 1);
      CommitAllStep(cfg, db, ms, links, k - 1);
      LinksInTurnAt(cfg, score, db, ms, k - 1);
    }
  }

  lemma LinksInTurnAt(cfg: Config, score: Similarity, db: Database, ms: seq<Mention>, k: nat)
    requires k < |ms|
    ensures LinksInTurn(cfg, score, db, ms)[k] == SpaceLinks(score, ms[k], Space(cfg, db, ms[..k]))
  {
  }

  lemma {:induction false} WholeSequenceIsCommitAll(cfg: Config, score: Similarity, db: Database, ms: seq<Mention>)
    ensures OneAtATime(cfg, score, db, ms) == CommitAll(cfg, db, ms, LinksInTurn(cfg, score, db, ms))
  {
    var links := LinksInTurn(cfg, score, db, ms);
    OneAtATimeIsCommitAll(cfg, score, db, ms, |ms|);
    assert ms[..|ms|] == ms;
    assert links[..|links|] == links;
  }

  lemma {:induction false} OneAtATimeStep(cfg: Config, score: Similarity, db: Database, ms: seq<Mention>, k: nat)
    requires k < |ms|
    ensures var before := OneAtATime(cfg, score, db, ms[..k]);
            OneAtATime(cfg, score, db, ms[..k + 1])
            == CommitOne(cfg, before, ms[k], SpaceLinks(score, ms[k], before.mentions))
  {
    assert ms[..k + 1][..k] == ms[..k];
  }

  /** What `EarlierLinks` drops from a mention's rows: links to later mentions of the bite. */
  function DropLater(bite: seq<Mention>, i: nat, links: seq<Link>): seq<Link> {
    if links == [] then []
    else
      DropLater(bite, i, links[..|links| - 1])
      + (if ArrivesAfter(bite, i, links[|links| - 1].right) then [] else [links[|links| - 1]])
  }

  lemma {:induction false} DropLaterSnoc(bite: seq<Mention>, i: nat, links: seq<Link>, l: Link)
    ensures DropLater(bite, i, links + [l])
            == DropLater(bite, i, links) + (if ArrivesAfter(bite, i, l.right) then [] else [l])
  {
    assert (links + [l])[..|links|] == links;
  }

  lemma {:induction false} EarlierLinksDropLater(bite: seq<Mention>, i: nat, rows: seq<Link>)
    requires i < |bite|
    ensures EarlierLinks(bite, i, rows) == DropLater(bite, i, RowsOf(rows, bite[i].id))
  {
    if rows != [] {
      hide EarlierLinks, DropLater, RowsOf;
      AppendLast([], rows);
      EarlierLinksDropLater(bite, i, rows[..|rows| - 1]);
      EarlierLinksDropLaterStep(bite, i, rows[..|rows| - 1], rows[|rows| - 1]);
    }
  }

  lemma {:induction false} EarlierLinksDropLaterStep(bite: seq<Mention>, i: nat, init: seq<Link>, last: Link)
    requires i < |bite|
    requires EarlierLinks(bite, i, init) == DropLater(bite, i, RowsOf(init, bite[i].id))
    ensures EarlierLinks(bite, i, init + [last]) == DropLater(bite, i, RowsOf(init + [last], bite[i].id))
  {
    assert (init + [last])[..|init|] == init;
    if last.left == bite[i].id && last.left != last.right {
      DropLaterSnoc(bite, i, RowsOf(init, bite[i].id), last);
    } else {
      assert RowsOf(init + [last], bite[i].id) == RowsOf(init, bite[i].id);
    }
  }

  lemma {:induction false} DropLaterKeeps(bite: seq<Mention>, i: nat, links: seq<Link>)
    requires forall l | l in links :: !ArrivesAfter(bite, i, l.right)
    ensures DropLater(bite, i, links) == links
  {
    if links != [] {
      DropLaterKeeps(bite, i, links[..|links| - 1]);
      AppendLast([], links);
    }
  }

  lemma {:induction false} SpaceLinksLeadIntoSpace(score: Similarity, m: Mention, space: seq<Mention>)
    requires IsProbability(score)
    ensures forall l | l in SpaceLinks(score, m, space) :: l.right in IdsOf(space) && 0.0 <= l.score <= 1.0
  {
    if space != [] {
      var init := space[..|space| - 1];
      SpaceLinksLeadIntoSpace(score, m, init);
      assert IdsOf(space) == IdsOf(init) + [space[|space| - 1].id];
    }
  }

  /** Of the links into the whole space, those to later mentions of the bite are exactly the ones dropped. */
  lemma {:induction false} DropLaterFromSpace(score: Similarity, bite: seq<Mention>, i: nat, stored: seq<Mention>,
                                              rest: seq<Mention>)
    requires i < |bite|
    requires forall k | 0 <= k < |stored| :: !ArrivesAfter(bite, i, stored[k].id)
    requires forall k | 0 <= k < |rest| :: rest[k].id == bite[i].id || ArrivesAfter(bite, i, rest[k].id)
    ensures DropLater(bite, i, SpaceLinks(score, bite[i], stored + rest)) == SpaceLinks(score, bite[i], stored)
  {
    if rest == [] {
      assert stored + rest == stored;
      KeepStored(score, bite, i, stored);
    } else {
      hide DropLater, SpaceLinks, ArrivesAfter;
      var n := |rest| - 1;
      DropLaterFromSpace(score, bite, i, stored, rest[..n]);
      DropLaterFromSpaceStep(score, bite, i, stored + rest[..n], rest[n]);
      AppendLast(stored, rest);
    }
  }

  lemma {:induction false} DropLaterFromSpaceStep(score: Similarity, bite: seq<Mention>, i: nat, space: seq<Mention>,
                                                  other: Mention)
    requires i < |bite| && (other.id == bite[i].id || ArrivesAfter(bite, i, other.id))
    ensures DropLater(bite, i, SpaceLinks(score, bite[i], space + [other]))
            == DropLater(bite, i, SpaceLinks(score, bite[i], space))
  {
    SpaceLinksSnoc(score, bite[i], space, other);
    if other.id != bite[i].id && score(bite[i], other).Some? {
      DropLaterSnoc(bite, i, SpaceLinks(score, bite[i], space),
                    Link(bite[i].id, other.id, score(bite[i], other).value));
    } else {
      assert SpaceLinks(score, bite[i], space + [other]) == SpaceLinks(score, bite[i], space);
    }
  }

  lemma {:induction false} SpaceLinksSnoc(score: Similarity, m: Mention, space: seq<Mention>, other: Mention)
    ensures SpaceLinks(score, m, space + [other])
            == SpaceLinks(score, m, space)
               + (if other.id != m.id && score(m, other).Some?
                  then [Link(m.id, other.id, score(m, other).value)] else [])
  {
    assert (space + [other])[..|space|] == space;
  }

  lemma {:induction false} KeepStored(score: Similarity, bite: seq<Mention>, i: nat, stored: seq<Mention>)
    requires i < |bite|
    requires forall k | 0 <= k < |stored| :: !ArrivesAfter(bite, i, stored[k].id)
    ensures DropLater(bite, i, SpaceLinks(score, bite[i], stored)) == SpaceLinks(score, bite[i], stored)
    ensures forall l | l in SpaceLinks(score, bite[i], stored) :: !ArrivesAfter(bite, i, l.right)
  {
    if stored != [] {
      KeepStored(score, bite, i, stored[..|stored| - 1]);
    }
    DropLaterKeeps(bite, i, SpaceLinks(score, bite[i], stored));
  }

  /** A fresh bite splits its search space at each of its mentions into what came before and what comes after. */
  lemma {:induction false} SpaceSplits(cfg: Config, db: Database, bite: seq<Mention>, i: nat)
    returns (stored: seq<Mention>, rest: seq<Mention>)
    requires Fresh(db, bite) && i < |bite|
    ensures stored == Space(cfg, db, bite[..i]) && stored + rest == Space(cfg, db, bite)
    ensures forall k | 0 <= k < |stored| :: !ArrivesAfter(bite, i, stored[k].id)
    ensures forall k | 0 <= k < |rest| :: rest[k].id == bite[i].id || ArrivesAfter(bite, i, rest[k].id)
  {
    stored, rest := Space(cfg, db, bite[..i]), StoredAll(cfg.entityFields, bite[i..]);
    var ids := IdsOf(bite);
    forall k | 0 <= k < |stored|
      ensures !ArrivesAfter(bite, i, stored[k].id)
    {
      forall j | i < j < |bite|
        ensures bite[j].id != stored[k].id
      {
        if k < |db.mentions| {
          assert IdsOf(db.mentions)[k] == stored[k].id;
        } else {
          assert ids[k - |db.mentions|] == stored[k].id && ids[j] == bite[j].id;
        }
      }
    }
    forall k | 0 <= k < |rest|
      ensures rest[k].id == bite[i].id || ArrivesAfter(bite, i, rest[k].id)
    {
      assert rest[k].id == bite[i + k].id;
    }
  }

  /** The batched form keeps, for each mention, the links it would have had on its own. */
  lemma {:induction false} BiteLinksAreLinksInTurn(cfg: Config, score: Similarity, db: Database, bite: seq<Mention>,
                                                   table: LinkTable, i: nat)
    requires Fresh(db, bite) && i < |bite|
    ensures RowsOf(Rows(table), bite[i].id) == SpaceLinks(score, bite[i], Space(cfg, db, bite)) ==>
              EarlierLinks(bite, i, Rows(table)) == LinksInTurn(cfg, score, db, bite)[i]
    ensures multiset(RowsOf(Rows(table), bite[i].id)) == multiset(SpaceLinks(score, bite[i], Space(cfg, db, bite))) ==>
              multiset(EarlierLinks(bite, i, Rows(table))) == multiset(LinksInTurn(cfg, score, db, bite)[i])
  {
    var stored, rest := SpaceSplits(cfg, db, bite, i);
    EarlierLinksDropLater(bite, i, Rows(table));
    DropLaterFromSpace(score, bite, i, stored, rest);
    if multiset(RowsOf(Rows(table), bite[i].id)) == multiset(SpaceLinks(score, bite[i], Space(cfg, db, bite))) {
      DropLaterOfPermutation(bite, i, RowsOf(Rows(table), bite[i].id),
                             SpaceLinks(score, bite[i], Space(cfg, db, bite)));
    }
  }

  lemma {:induction false} DropLaterCounts(bite: seq<Mention>, i: nat, links: seq<Link>, l: Link)
    ensures multiset(DropLater(bite, i, links))[l] == if ArrivesAfter(bite, i, l.right) then 0 else multiset(links)[l]
  {
    if links != [] {
      DropLaterCounts(bite, i, links[..|links| - 1], l);
      assert links == links[..|links| - 1] + [links[|links| - 1]];
    }
  }

  lemma DropLaterOfPermutation(bite: seq<Mention>, i: nat, xs: seq<Link>, ys: seq<Link>)
    requires multiset(xs) == multiset(ys)
    ensures multiset(DropLater(bite, i, xs)) == multiset(DropLater(bite, i, ys))
  {
    forall l
      ensures multiset(DropLater(bite, i, xs))[l] == multiset(DropLater(bite, i, ys))[l]
    {
      DropLaterCounts(bite, i, xs, l);
      DropLaterCounts(bite, i, ys, l);
    }
  }

  /** One linker call for a whole bite gives the tables and the results of resolving its mentions one at a time. */
  lemma {:induction false} BiteIsOneAtATime(cfg: Config, score: Similarity, db: Database, bite: seq<Mention>,
                                            table: LinkTable)
    requires Fresh(db, bite) && ListsInOrder(score, table, bite, Space(cfg, db, bite))
    ensures ResolveBite(cfg, db, bite, table) == OneAtATime(cfg, score, db, bite)
    ensures BiteResults(cfg, db, bite, table) == ResultsOneAtATime(cfg, score, db, bite)
  {
    var links := LinksInTurn(cfg, score, db, bite);
    assert BiteLinks(bite, Rows(table)) == links by {
      forall i | 0 <= i < |bite|
        ensures BiteLinks(bite, Rows(table))[i] == links[i]
      {
        BiteLinksAreLinksInTurn(cfg, score, db, bite, table, i);
      }
    }
    WholeSequenceIsCommitAll(cfg, score, db, bite);
    forall k | 0 <= k < |bite|
      ensures RankAll(cfg, db, bite, links)[k] == ResultOneAtATime(cfg, score, db, bite, k)
    {
      OneAtATimeIsCommitAll(cfg, score, db, bite, k);
    }
  }

  lemma {:induction false} OneAtATimeSnoc(cfg: Config, score: Similarity, db: Database, ms: seq<Mention>, m: Mention)
    ensures var before := OneAtATime(cfg, score, db, ms);
            OneAtATime(cfg, score, db, ms + [m]) == CommitOne(cfg, before, m, SpaceLinks(score, m, before.mentions))
  {
    assert (ms + [m])[..|ms|] == ms;
  }

  lemma {:induction false} OneAtATimeAppend(cfg: Config, score: Similarity, db: Database, a: seq<Mention>,
                                            b: seq<Mention>)
    ensures OneAtATime(cfg, score, db, a + b) == OneAtATime(cfg, score, OneAtATime(cfg, score, db, a), b)
  {
    if b == [] {
      assert a + b == a;
    } else {
      hide OneAtATime, CommitOne, SpaceLinks;
      var init, last := b[..|b| - 1], b[|b| - 1];
      OneAtATimeAppend(cfg, score, db, a, init);
      OneAtATimeSnoc(cfg, score, db, a + init, last);
      OneAtATimeSnoc(cfg, score, OneAtATime(cfg, score, db, a), init, last);
      AppendLast(a, b);
    }
  }

  lemma {:induction false} ResultsAppend(cfg: Config, score: Similarity, db: Database, a: seq<Mention>, b: seq<Mention>)
    ensures ResultsOneAtATime(cfg, score, db, a + b)
            == ResultsOneAtATime(cfg, score, db, a) + ResultsOneAtATime(cfg, score, OneAtATime(cfg, score, db, a), b)
  {
    hide OneAtATime, ResultOneAtATime;
    var mid := OneAtATime(cfg, score, db, a);
    var left, right := ResultsOneAtATime(cfg, score, db, a), ResultsOneAtATime(cfg, score, mid, b);
    var both := ResultsOneAtATime(cfg, score, db, a + b);
    forall k: nat | k < |both|
      ensures both[k] == (left + right)[k]
    {
      ResultAppend(cfg, score, db, a, b, k);
    }
  }

  lemma {:induction false} ResultAppend(cfg: Config, score: Similarity, db: Database, a: seq<Mention>,
                                        b: seq<Mention>, k: nat)
    requires k < |a| + |b|
    ensures ResultOneAtATime(cfg, score, db, a + b, k)
            == if k < |a| then ResultOneAtATime(cfg, score, db, a, k)
               else ResultOneAtATime(cfg, score, OneAtATime(cfg, score, db, a), b, k - |a|)
  {
    hide OneAtATime, TurnResult;
    if k < |a| {
      assert (a + b)[..k] == a[..k];
    } else {
      var mid, i := OneAtATime(cfg, score, db, a), k - |a|;
      assert OneAtATime(cfg, score, db, (a + b)[..k]) == OneAtATime(cfg, score, mid, b[..i]) by {
        OneAtATimeAppend(cfg, score, db, a, b[..i]);
        assert (a + b)[..k] == a + b[..i];
      }
      assert (a + b)[k] == b[i];
    }
  }

  function Flatten<T>(parts: seq<seq<T>>): seq<T> {
    if parts == [] then [] else parts[0] + Flatten(parts[1..])
  }

  /** The results of a run of bites, bite after bite. */
  function RunResults(cfg: Config, db: Database, bites: seq<seq<Mention>>, tables: seq<LinkTable>): seq<seq<Candidate>>
    requires |tables| == |bites|
    decreases |bites|
  {
    if bites == [] then []
    else
      BiteResults(cfg, db, bites[0], tables[0])
      + RunResults(cfg, ResolveBite(cfg, db, bites[0], tables[0]), bites[1..], tables[1..])
  }

  ghost predicate RunListsInOrder(cfg: Config, score: Similarity, db: Database, bites: seq<seq<Mention>>,
                                  tables: seq<LinkTable>)
    decreases |bites|
  {
    && |tables| == |bites|
    && (bites != [] ==>
          && ListsInOrder(score, tables[0], bites[0], Space(cfg, db, bites[0]))
          && RunListsInOrder(cfg, score, ResolveBite(cfg, db, bites[0], tables[0]), bites[1..], tables[1..]))
  }

  lemma {:induction false} FreshSplits(fields: set<string>, db: Database, a: seq<Mention>, b: seq<Mention>,
                                       after: Database)
    requires Fresh(db, a + b) && after.mentions == db.mentions + StoredAll(fields, a)
    ensures Fresh(db, a) && Fresh(after, b)
  {
    var ids := IdsOf(a + b);
    assert forall i | 0 <= i < |a| :: ids[i] == IdsOf(a)[i];
    assert forall j | 0 <= j < |b| :: ids[|a| + j] == IdsOf(b)[j];
    forall j | 0 <= j < |b|
      ensures !Stores(after, b[j].id)
    {
      assert (a + b)[|a| + j] == b[j];
      StoredAfter(fields, db, a, after, b[j].id);
      forall i | 0 <= i < |a|
        ensures a[i].id != b[j].id
      {
        assert ids[i] != ids[|a| + j];
      }
    }
    assert forall i | 0 <= i < |a| :: (a + b)[i] == a[i];
  }

  /**
   * Bite boundaries do not matter: with a fixed similarity and rows in search-space order, any division of
   * an arrival sequence into bites gives the same three tables and the same results as no bites at all.
   */
  lemma {:induction false} BoundariesDoNotMatter(cfg: Config, score: Similarity, db: Database,
                                                 bites: seq<seq<Mention>>, tables: seq<LinkTable>)
    requires Fresh(db, Flatten(bites)) && RunListsInOrder(cfg, score, db, bites, tables)
    ensures ResolveBites(cfg, db, bites, tables) == OneAtATime(cfg, score, db, Flatten(bites))
    ensures RunResults(cfg, db, bites, tables) == ResultsOneAtATime(cfg, score, db, Flatten(bites))
    decreases |bites|
  {
    if bites != [] {
      var after, rest := ResolveBite(cfg, db, bites[0], tables[0]), Flatten(bites[1..]);
      FreshSplits(cfg.entityFields, db, bites[0], rest, after);
      BiteIsOneAtATime(cfg, score, db, bites[0], tables[0]);
      BoundariesDoNotMatter(cfg, score, after, bites[1..], tables[1..]);
      OneAtATimeAppend(cfg, score, db, bites[0], rest);
      ResultsAppend(cfg, score, db, bites[0], rest);
    }
  }

  /** Two divisions of one arrival sequence agree on every table and every result. */
  lemma AnyTwoDivisionsAgree(cfg: Config, score: Similarity, db: Database, bites: seq<seq<Mention>>,
                             tables: seq<LinkTable>, bites': seq<seq<Mention>>, tables': seq<LinkTable>)
    requires Flatten(bites) == Flatten(bites') && Fresh(db, Flatten(bites))
    requires RunListsInOrder(cfg, score, db, bites, tables) && RunListsInOrder(cfg, score, db, bites', tables')
    ensures ResolveBites(cfg, db, bites, tables) == ResolveBites(cfg, db, bites', tables')
    ensures RunResults(cfg, db, bites, tables) == RunResults(cfg, db, bites', tables')
  {
    BoundariesDoNotMatter(cfg, score, db, bites, tables);
    BoundariesDoNotMatter(cfg, score, db, bites', tables');
  }

  lemma {:induction false} FlattenSnoc<T>(parts: seq<seq<T>>, last: seq<T>)
    ensures Flatten(parts + [last]) == Flatten(parts) + last
  {
    if parts == [] {
      assert [last][1..] == [];
    } else {
      FlattenSnoc(parts[1..], last);
      assert (parts + [last])[1..] == parts[1..] + [last];
    }
  }

  lemma {:induction false} CommitAllStoresTop(cfg: Config, db: Database, ms: seq<Mention>, links: seq<seq<Link>>)
    returns (kept: seq<seq<Link>>)
    requires LinksTouch(ms, links)
    ensures CommitAll(cfg, db, ms, links).links == db.links + Flatten(kept)
    ensures |kept| == |ms| && forall i | 0 <= i < |ms| :: AreTop(kept[i], links[i], cfg.topN, LinkScore)
  {
    hide BestLinks, AreTop;
    kept := [];
    if ms != [] {
      var n := |ms| - 1;
      var before := CommitAllStoresTop(cfg, db, ms[..n], links[..n]);
      BestLinksAreTop(cfg, links[n]);
      FlattenSnoc(before, BestLinks(cfg, links[n]));
      kept := before + [BestLinks(cfg, links[n])];
    }
  }

  /** A bite stores, mention by mention, the top links of its rows to what is stored or arrived before. */
  lemma BiteStoresTopLinks(cfg: Config, db: Database, bite: seq<Mention>, table: LinkTable)
    returns (kept: seq<seq<Link>>)
    ensures ResolveBite(cfg, db, bite, table).links == db.links + Flatten(kept)
    ensures |kept| == |bite| && forall i | 0 <= i < |bite| ::
              AreTop(kept[i], DropLater(bite, i, RowsOf(Rows(table), bite[i].id)), cfg.topN, LinkScore)
  {
    hide AreTop, DropLater, RowsOf, EarlierLinks, CommitAll;
    kept := CommitAllStoresTop(cfg, db, bite, BiteLinks(bite, Rows(table)));
    forall i | 0 <= i < |bite|
      ensures AreTop(kept[i], DropLater(bite, i, RowsOf(Rows(table), bite[i].id)), cfg.topN, LinkScore)
    {
      EarlierLinksDropLater(bite, i, Rows(table));
    }
  }
}
