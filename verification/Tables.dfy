/** The lookups of the three repositories over their tables, and what appending rows leaves unchanged. */
module Tables {
  import opened Domain

  /** What `save` stores: one column per configured field, empty where the mention has no such attribute. */
  function Stored(fields: set<string>, m: Mention): Mention {
    Mention(m.id, map f | f in fields :: if f in m.attributes then m.attributes[f] else None)
  }

  function StoredAll(fields: set<string>, ms: seq<Mention>): (stored: seq<Mention>)
    ensures |stored| == |ms|
    ensures forall i | 0 <= i < |ms| :: stored[i] == Stored(fields, ms[i])
  {
    seq(|ms|, i requires 0 <= i < |ms| => Stored(fields, ms[i]))
  }

  /** The first row with this id. */
  function FindById(mentions: seq<Mention>, id: MentionId): Option<Mention> {
    if mentions == [] then None
    else if mentions[0].id == id then Some(mentions[0])
    else FindById(mentions[1..], id)
  }

  /** All links with this mention on either side, in storage order. */
  function FindFor(links: seq<Link>, id: MentionId): (found: seq<Link>)
    ensures forall l | l in found :: l in links && l.Touches(id)
  {
    if links == [] then []
    else
      FindFor(links[..|links| - 1], id)
      + (if links[|links| - 1].Touches(id) then [links[|links| - 1]] else [])
  }

  /** The first membership row of this mention. */
  function ClusterOf(rows: seq<Membership>, id: MentionId): Option<ClusterId> {
    if rows == [] then None
    else if rows[0].mention == id then Some(rows[0].cluster)
    else ClusterOf(rows[1..], id)
  }

  /** The dictionary built from all membership rows; a later row for the same mention wins. */
  function ClusterMap(rows: seq<Membership>): map<MentionId, ClusterId> {
    if rows == [] then map[]
    else ClusterMap(rows[..|rows| - 1])[rows[|rows| - 1].mention := rows[|rows| - 1].cluster]
  }

  /** The dictionary restricted to the asked ids; unknown mentions are omitted. */
  function ClustersFor(rows: seq<Membership>, ids: set<MentionId>): map<MentionId, ClusterId> {
    map id | id in ClusterMap(rows).Keys && id in ids :: ClusterMap(rows)[id]
  }

  /** One membership row per stored mention, in the same order, and no mention stored twice. */
  ghost predicate Aligned(db: Database) {
    && |db.clusters| == |db.mentions|
    && (forall i | 0 <= i < |db.mentions| :: db.clusters[i].mention == db.mentions[i].id)
    && Distinct(IdsOf(db.mentions))
  }

  predicate Stores(db: Database, id: MentionId) {
    id in IdsOf(db.mentions)
  }

  /** `later` has every row of `earlier`, in the same place. */
  predicate Extends(earlier: Database, later: Database) {
    earlier.mentions <= later.mentions && earlier.links <= later.links && earlier.clusters <= later.clusters
  }

  lemma {:induction false} FindByIdIsFirst(mentions: seq<Mention>, id: MentionId)
    ensures FindById(mentions, id).None? <==> id !in IdsOf(mentions)
    ensures FindById(mentions, id).Some? ==>
              exists i :: 0 <= i < |mentions| && mentions[i] == FindById(mentions, id).value && mentions[i].id == id
  {
    if mentions != [] {
      FindByIdIsFirst(mentions[1..], id);
      assert IdsOf(mentions) == [mentions[0].id] + IdsOf(mentions[1..]);
      if mentions[0].id == id {
        assert mentions[0] == FindById(mentions, id).value;
      } else if FindById(mentions, id).Some? {
        var i :| 0 <= i < |mentions[1..]| && mentions[1..][i] == FindById(mentions[1..], id).value;
        assert mentions[i + 1] == FindById(mentions, id).value;
      }
    }
  }

  /** With distinct ids the row found is the only one, so appending rows does not change what is found. */
  lemma {:induction false} FindByIdIsUnique(mentions: seq<Mention>, i: nat)
    requires Distinct(IdsOf(mentions)) && i < |mentions|
    ensures FindById(mentions, mentions[i].id) == Some(mentions[i])
  {
    var id := mentions[i].id;
    FindByIdIsFirst(mentions, id);
    assert IdsOf(mentions)[i] == id;
    var j :| 0 <= j < |mentions| && mentions[j] == FindById(mentions, id).value && mentions[j].id == id;
    assert IdsOf(mentions)[j] == id;
  }

  lemma {:induction false} ClusterMapOfDistinct(rows: seq<Membership>)
    requires forall i, j | 0 <= i < j < |rows| :: rows[i].mention != rows[j].mention
    ensures forall i | 0 <= i < |rows| :: rows[i].mention in ClusterMap(rows)
    ensures forall i | 0 <= i < |rows| :: ClusterMap(rows)[rows[i].mention] == rows[i].cluster
    ensures forall id | id in ClusterMap(rows) :: exists i :: 0 <= i < |rows| && rows[i].mention == id
  {
    if rows != [] {
      var init := rows[..|rows| - 1];
      ClusterMapOfDistinct(init);
      forall id | id in ClusterMap(rows)
        ensures exists i :: 0 <= i < |rows| && rows[i].mention == id
      {
        if id in ClusterMap(init) {
          var i :| 0 <= i < |init| && init[i].mention == id;
          assert rows[i].mention == id;
        } else {
          assert rows[|rows| - 1].mention == id;
        }
      }
      forall i | 0 <= i < |rows|
        ensures rows[i].mention in ClusterMap(rows) && ClusterMap(rows)[rows[i].mention] == rows[i].cluster
      {
        if i < |rows| - 1 {
          assert init[i] == rows[i];
        }
      }
    }
  }

  lemma {:induction false} ClusterOfIsFirst(rows: seq<Membership>, id: MentionId)
    ensures ClusterOf(rows, id).None? <==> forall i | 0 <= i < |rows| :: rows[i].mention != id
    ensures ClusterOf(rows, id).Some? ==> exists i ::
              0 <= i < |rows| && rows[i] == Membership(id, ClusterOf(rows, id).value)
  {
    if rows != [] {
      var tail := rows[1..];
      ClusterOfIsFirst(tail, id);
      if rows[0].mention != id {
        if ClusterOf(rows, id).Some? {
          var i :| 0 <= i < |tail| && tail[i] == Membership(id, ClusterOf(tail, id).value);
          assert rows[i + 1] == tail[i];
        }
        assert forall i | 1 <= i < |rows| :: rows[i] == tail[i - 1];
      }
    }
  }

  lemma {:induction false} ClusterMapSnoc(rows: seq<Membership>, row: Membership)
    ensures ClusterMap(rows + [row]) == ClusterMap(rows)[row.mention := row.cluster]
  {
    assert (rows + [row])[..|rows|] == rows;
  }

  /** In an aligned database both cluster lookups answer exactly for the stored mentions, with the row's cluster. */
  lemma AlignedLookups(db: Database)
    requires Aligned(db)
    ensures forall i | 0 <= i < |db.mentions| ::
              && db.mentions[i].id in ClusterMap(db.clusters)
              && ClusterMap(db.clusters)[db.mentions[i].id] == db.clusters[i].cluster
    ensures forall id :: id in ClusterMap(db.clusters) <==> Stores(db, id)
  {
    var ids := IdsOf(db.mentions);
    forall i, j | 0 <= i < j < |db.clusters|
      ensures db.clusters[i].mention != db.clusters[j].mention
    {
      assert ids[i] != ids[j];
    }
    ClusterMapOfDistinct(db.clusters);
    forall id
      ensures id in ClusterMap(db.clusters) <==> Stores(db, id)
    {
      if Stores(db, id) {
        var i :| 0 <= i < |ids| && ids[i] == id;
        assert db.clusters[i].mention == id;
      }
      if id in ClusterMap(db.clusters) {
        var i :| 0 <= i < |db.clusters| && db.clusters[i].mention == id;
        assert ids[i] == id;
      }
    }
  }

  /** `find_cluster_of` (first row) and the bulk lookup (last row) agree on an aligned database. */
  lemma LookupsAgree(db: Database, id: MentionId)
    requires Aligned(db)
    ensures ClusterOf(db.clusters, id)
            == if id in ClusterMap(db.clusters) then Some(ClusterMap(db.clusters)[id]) else None
    ensures ClusterOf(db.clusters, id).Some? <==> Stores(db, id)
  {
    AlignedLookups(db);
    ClusterOfIsFirst(db.clusters, id);
    var ids := IdsOf(db.mentions);
    if Stores(db, id) {
      var i :| 0 <= i < |ids| && ids[i] == id;
      assert db.clusters[i].mention == id;
      var j :| 0 <= j < |db.clusters| && db.clusters[j] == Membership(id, ClusterOf(db.clusters, id).value);
      assert ids[j] == id;
    }
  }

  /** Appending rows changes neither which cluster a stored mention has nor which mention an id finds. */
  lemma LookupsAreStable(earlier: Database, later: Database)
    requires Aligned(earlier) && Aligned(later) && Extends(earlier, later)
    ensures forall id | Stores(earlier, id) ::
              && Stores(later, id)
              && id in ClusterMap(earlier.clusters) && id in ClusterMap(later.clusters)
              && ClusterMap(later.clusters)[id] == ClusterMap(earlier.clusters)[id]
  {
    AlignedLookups(earlier);
    AlignedLookups(later);
    forall id | Stores(earlier, id)
      ensures Stores(later, id) && ClusterMap(later.clusters)[id] == ClusterMap(earlier.clusters)[id]
    {
      var i :| 0 <= i < |earlier.mentions| && IdsOf(earlier.mentions)[i] == id;
      assert later.mentions[i] == earlier.mentions[i] && later.clusters[i] == earlier.clusters[i];
      assert IdsOf(later.mentions)[i] == id;
    }
  }

  lemma FindForSnoc(links: seq<Link>, last: Link, id: MentionId)
    ensures FindFor(links + [last], id) == FindFor(links, id) + (if last.Touches(id) then [last] else [])
  {
    assert (links + [last])[..|links|] == links;
  }

  lemma {:induction false} FindForAppend(xs: seq<Link>, ys: seq<Link>, id: MentionId)
    ensures FindFor(xs + ys, id) == FindFor(xs, id) + FindFor(ys, id)
  {
    if ys == [] {
      assert xs + ys == xs;
    } else {
      hide FindFor;
      var init, last := ys[..|ys| - 1], ys[|ys| - 1];
      FindForAppend(xs, init, id);
      FindForSnoc(xs + init, last, id);
      FindForSnoc(init, last, id);
      AppendLast(xs, ys);
    }
  }

  lemma {:induction false} FindForNone(links: seq<Link>, id: MentionId)
    requires forall l | l in links :: !l.Touches(id)
    ensures FindFor(links, id) == []
  {
    if links != [] {
      FindForNone(links[..|links| - 1], id);
    }
  }

  lemma {:induction false} FindForAll(links: seq<Link>, id: MentionId)
    requires forall l | l in links :: l.Touches(id)
    ensures FindFor(links, id) == links
  {
    if links != [] {
      FindForAll(links[..|links| - 1], id);
      assert links == links[..|links| - 1] + [links[|links| - 1]];
    }
  }
}
