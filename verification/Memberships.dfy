/** The membership map reported for a state: a partition of the stored mentions, one part per founder. */
module Memberships {
  import opened Domain
  import opened Tables
  import opened Forest

  /** `COUNT(DISTINCT cluster_id)` counts these. */
  function ClusterIds(rows: seq<Membership>): set<ClusterId> {
    set i | 0 <= i < |rows| :: rows[i].cluster
  }

  function Members(rows: seq<Membership>, c: ClusterId): seq<MentionId> {
    if rows == [] then []
    else
      var last := rows[|rows| - 1];
      Members(rows[..|rows| - 1], c) + (if last.cluster == c then [last.mention] else [])
  }

  /** `get_all_memberships`: the members of each cluster. */
  function AllMemberships(rows: seq<Membership>): map<ClusterId, seq<MentionId>> {
    map c | c in ClusterIds(rows) :: Members(rows, c)
  }

  lemma {:induction false} MembersAreExact(rows: seq<Membership>, c: ClusterId, id: MentionId)
    ensures id in Members(rows, c) <==> Membership(id, c) in rows
  {
    if rows != [] {
      var init, last := rows[..|rows| - 1], rows[|rows| - 1];
      MembersAreExact(init, c, id);
      assert rows == init + [last];
    }
  }

  /** Every stored mention is in the member list of exactly one key: its own cluster. */
  lemma {:induction false} ListsArePartition(db: Database, i: nat, c: ClusterId)
    requires Aligned(db) && i < |db.mentions| && c in AllMemberships(db.clusters)
    ensures db.mentions[i].id in AllMemberships(db.clusters)[c] <==> c == db.clusters[i].cluster
    ensures db.clusters[i].cluster in AllMemberships(db.clusters)
  {
    MembersAreExact(db.clusters, c, db.mentions[i].id);
    if j :| 0 <= j < |db.clusters| && db.clusters[j] == Membership(db.mentions[i].id, c) {
      assert IdsOf(db.mentions)[j] == IdsOf(db.mentions)[i];
    }
  }

  /** Conversely, every listed member is stored. */
  lemma {:induction false} MembersAreStored(db: Database, c: ClusterId, id: MentionId)
    requires Aligned(db) && id in Members(db.clusters, c)
    ensures Stores(db, id)
  {
    MembersAreExact(db.clusters, c, id);
    var j :| 0 <= j < |db.clusters| && db.clusters[j] == Membership(id, c);
    assert IdsOf(db.mentions)[j] == id;
  }

  ghost function TotalMembers(rows: seq<Membership>, keys: set<ClusterId>): nat {
    if keys == {} then 0
    else
      var c :| c in keys;
      |Members(rows, c)| + TotalMembers(rows, keys - {c})
  }

  lemma {:induction false} TakeOut(rows: seq<Membership>, keys: set<ClusterId>, c: ClusterId)
    requires c in keys
    ensures TotalMembers(rows, keys) == |Members(rows, c)| + TotalMembers(rows, keys - {c})
    decreases |keys|
  {
    var d :| d in keys && TotalMembers(rows, keys) == |Members(rows, d)| + TotalMembers(rows, keys - {d});
    if c != d {
      TakeOut(rows, keys - {d}, c);
      TakeOut(rows, keys - {c}, d);
      assert keys - {d} - {c} == keys - {c} - {d};
    }
  }

  lemma {:induction false} OneMoreMember(rows: seq<Membership>, row: Membership, keys: set<ClusterId>)
    ensures TotalMembers(rows + [row], keys) == TotalMembers(rows, keys) + if row.cluster in keys then 1 else 0
    decreases |keys|
  {
    assert (rows + [row])[..|rows|] == rows;
    if keys != {} {
      var c :| c in keys;
      TakeOut(rows, keys, c);
      TakeOut(rows + [row], keys, c);
      OneMoreMember(rows, row, keys - {c});
    }
  }

  lemma {:induction false} NoMembers(keys: set<ClusterId>)
    ensures TotalMembers([], keys) == 0
    decreases |keys|
  {
    if keys != {} {
      var c :| c in keys;
      TakeOut([], keys, c);
      NoMembers(keys - {c});
    }
  }

  lemma {:induction false} TotalOverAnyKeys(rows: seq<Membership>, keys: set<ClusterId>)
    requires ClusterIds(rows) <= keys
    ensures TotalMembers(rows, keys) == |rows|
  {
    if rows == [] {
      NoMembers(keys);
    } else {
      var init, last := rows[..|rows| - 1], rows[|rows| - 1];
      assert forall i | 0 <= i < |rows| :: rows[i].cluster in ClusterIds(rows);
      assert rows[|rows| - 1].cluster in ClusterIds(rows);
      TotalOverAnyKeys(init, keys);
      OneMoreMember(init, last, keys);
      assert rows == init + [last];
    }
  }

  /** The sizes of all member lists add up to the number of stored mentions. */
  lemma {:induction false} SizesSumToMentions(db: Database)
    requires Aligned(db)
    ensures TotalMembers(db.clusters, AllMemberships(db.clusters).Keys) == |db.mentions|
  {
    TotalOverAnyKeys(db.clusters, AllMemberships(db.clusters).Keys);
  }

  function Founders(rows: seq<Membership>): set<MentionId> {
    set i | 0 <= i < |rows| && rows[i].cluster == FoundedBy(rows[i].mention) :: rows[i].mention
  }

  lemma {:induction false} FoundedClusters(ids: set<MentionId>)
    ensures |set id | id in ids :: FoundedBy(id)| == |ids|
  {
    var clusters := set id | id in ids :: FoundedBy(id);
    if ids != {} {
      var id :| id in ids;
      FoundedClusters(ids - {id});
      assert forall other | other in ids && other != id :: MentionId(FoundedBy(other).value) == other;
      assert MentionId(FoundedBy(id).value) == id;
      assert clusters == (set other | other in ids - {id} :: FoundedBy(other)) + {FoundedBy(id)};
      assert FoundedBy(id) !in (set other | other in ids - {id} :: FoundedBy(other));
    }
  }

  /** There are as many clusters as mentions that founded one. */
  lemma {:induction false} OneClusterPerFounder(cfg: Config, db: Database)
    requires Invariant(cfg, db)
    ensures |AllMemberships(db.clusters)| == |ClusterIds(db.clusters)| == |Founders(db.clusters)|
  {
    var founders, ids := Founders(db.clusters), ClusterIds(db.clusters);
    assert AllMemberships(db.clusters).Keys == ids;
    forall c
      ensures c in ids <==> c in set id | id in founders :: FoundedBy(id)
    {
      if c in ids {
        var i :| 0 <= i < |db.clusters| && db.clusters[i].cluster == c;
        var chain := ClusterIsRootedAtFounder(cfg, db, i);
        var f := chain[|chain| - 1];
        assert db.clusters[f].mention in founders;
      }
      if id :| id in founders && FoundedBy(id) == c {
        var i :| 0 <= i < |db.clusters| && db.clusters[i].cluster == FoundedBy(db.clusters[i].mention)
                 && db.clusters[i].mention == id;
        assert db.clusters[i].cluster in ids;
      }
    }
    FoundedClusters(founders);
    assert ids == set id | id in founders :: FoundedBy(id);
  }
}
