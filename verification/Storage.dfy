/** The shared database connection, its transactions and the three repositories on it. */
module Storage {
  import opened Domain
  import opened Tables

  /** What a failing statement raises: a `ValueError`, or anything else. */
  datatype Fault = ValueFault | OtherFault

  function AsList(fault: Option<Fault>): seq<Fault> {
    match fault
    case None => []
    case Some(f) => [f]
  }

  /** The schedule after `n` more statements. */
  function Skip(schedule: seq<Option<Fault>>, n: nat): seq<Option<Fault>> {
    if n <= |schedule| then schedule[n..] else []
  }

  /** What the next statement raises, if it fails. */
  function Next(schedule: seq<Option<Fault>>): Option<Fault> {
    if schedule == [] then None else schedule[0]
  }

  /** The faults of a schedule, in order. */
  function FaultsIn(schedule: seq<Option<Fault>>): seq<Fault> {
    if schedule == [] then []
    else FaultsIn(schedule[..|schedule| - 1]) + AsList(schedule[|schedule| - 1])
  }

  /** From one schedule to a later one exactly these faults struck: they are those of the part that was used up. */
  ghost predicate Struck(before: seq<Option<Fault>>, after: seq<Option<Fault>>, faults: seq<Fault>) {
    && |after| <= |before| && before[|before| - |after|..] == after
    && FaultsIn(before[..|before| - |after|]) == faults
  }

  lemma NothingStruck(schedule: seq<Option<Fault>>)
    ensures Struck(schedule, schedule, [])
  {
  }

  lemma OneUsed(schedule: seq<Option<Fault>>)
    requires schedule != []
    ensures Struck(schedule, schedule[1..], AsList(schedule[0]))
  {
    assert schedule[..1][..0] == [];
  }

  lemma FaultsInSnoc(schedule: seq<Option<Fault>>, last: Option<Fault>)
    ensures FaultsIn(schedule + [last]) == FaultsIn(schedule) + AsList(last)
  {
    assert (schedule + [last])[..|schedule|] == schedule;
  }

  lemma {:induction false} FaultsInAppend(a: seq<Option<Fault>>, b: seq<Option<Fault>>)
    ensures FaultsIn(a + b) == FaultsIn(a) + FaultsIn(b)
  {
    if b == [] {
      assert a + b == a;
    } else {
      hide FaultsIn, AsList;
      var init, last := b[..|b| - 1], b[|b| - 1];
      FaultsInAppend(a, init);
      FaultsInSnoc(a + init, last);
      FaultsInSnoc(init, last);
      AppendLast(a, b);
    }
  }

  lemma StruckThen(a: seq<Option<Fault>>, b: seq<Option<Fault>>, c: seq<Option<Fault>>, first: seq<Fault>,
                   second: seq<Fault>)
    requires Struck(a, b, first) && Struck(b, c, second)
    ensures Struck(a, c, first + second)
  {
    hide FaultsIn;
    FaultsInAppend(a[..|a| - |b|], b[..|b| - |c|]);
    PartsJoin(a, b, c);
  }

  lemma PartsJoin<T>(a: seq<T>, b: seq<T>, c: seq<T>)
    requires |c| <= |b| <= |a| && a[|a| - |b|..] == b && b[|b| - |c|..] == c
    ensures a[..|a| - |c|] == a[..|a| - |b|] + b[..|b| - |c|] && a[|a| - |c|..] == c
  {
    assert forall i | 0 <= i < |b| :: b[i] == a[|a| - |b| + i];
    assert forall i | 0 <= i < |c| :: c[i] == b[|b| - |c| + i];
  }

  /** After statements that succeeded. */
  lemma StruckNext(a: seq<Option<Fault>>, b: seq<Option<Fault>>, c: seq<Option<Fault>>, faults: seq<Fault>)
    requires Struck(a, b, []) && Struck(b, c, faults)
    ensures Struck(a, c, faults)
  {
    StruckThen(a, b, c, [], faults);
    assert [] + faults == faults;
  }

  predicate Faultless(schedule: seq<Option<Fault>>) {
    forall i | 0 <= i < |schedule| :: schedule[i] == None
  }

  lemma {:induction false} FaultlessHasNone(schedule: seq<Option<Fault>>)
    requires Faultless(schedule)
    ensures FaultsIn(schedule) == []
  {
    if schedule != [] {
      FaultlessHasNone(schedule[..|schedule| - 1]);
    }
  }

  /** Without faults ahead none strikes, and none is ahead afterwards. */
  lemma NoneStrikes(before: seq<Option<Fault>>, after: seq<Option<Fault>>, faults: seq<Fault>)
    requires Struck(before, after, faults) && Faultless(before)
    ensures faults == [] && Faultless(after)
  {
    FaultlessHasNone(before[..|before| - |after|]);
    assert forall i | 0 <= i < |after| :: after[i] == before[|before| - |after| + i];
  }

  class Connection {
    var db: Database
    /** While a transaction is open, the tables to return to on a rollback. */
    var before: Option<Database>
    /** Which of the next statements fail; statements beyond the schedule succeed. */
    var faults: seq<Option<Fault>>

    constructor (faults: seq<Option<Fault>>)
      ensures db == EMPTY_DATABASE && before == None && this.faults == faults
    {
      db, before := EMPTY_DATABASE, None;
      this.faults := faults;
    }

    predicate NoFaults()
      reads this
    {
      Faultless(faults)
    }

    /** Whether the next statement fails. */
    method Statement() returns (fault: Option<Fault>)
      modifies this`faults
      ensures fault == Next(old(faults)) && faults == Skip(old(faults), 1)
      ensures Struck(old(faults), faults, AsList(fault))
    {
      fault := None;
      NothingStruck(faults);
      if faults != [] {
        OneUsed(faults);
        fault, faults := faults[0], faults[1..];
      }
    }

    method Begin() returns (fault: Option<Fault>)
      requires before == None
      modifies this`before, this`faults
      ensures before == if fault == None then Some(db) else None
      ensures Struck(old(faults), faults, AsList(fault))
    {
      fault := Statement();
      if fault == None {
        before := Some(db);
      }
    }

    /** A commit that fails leaves nothing of its transaction behind. */
    method Commit() returns (fault: Option<Fault>)
      requires before.Some?
      modifies this
      ensures before == None
      ensures db == if fault == None then old(db) else old(before).value
      ensures Struck(old(faults), faults, AsList(fault))
    {
      fault := Statement();
      if fault != None {
        db := before.value;
      }
      before := None;
    }

    method Rollback()
      requires before.Some?
      modifies this`db, this`before
      ensures before == None && db == old(before).value
    {
      db, before := before.value, None;
    }
  }

  class MentionRepository {
    const con: Connection
    const entityFields: set<string>

    constructor (con: Connection, entityFields: set<string>)
      ensures this.con == con && this.entityFields == entityFields
    {
      this.con, this.entityFields := con, entityFields;
    }

    method Save(m: Mention) returns (fault: Option<Fault>)
      modifies con`db, con`faults
      ensures con.db == if fault == None then old(con.db).(mentions := old(con.db.mentions) + [Stored(entityFields, m)])
                        else old(con.db)
      ensures fault == None ==>
                var row := con.db.mentions[|old(con.db.mentions)|];
                && row.id == m.id && row.attributes.Keys == entityFields
                && forall f | f in entityFields ::
                     row.attributes[f] == if f in m.attributes then m.attributes[f] else None
      ensures Struck(old(con.faults), con.faults, AsList(fault))
    {
      fault := con.Statement();
      if fault == None {
        con.db := con.db.(mentions := con.db.mentions + [Stored(entityFields, m)]);
      }
    }
  }

  class SimilarityRepository {
    const con: Connection

    constructor (con: Connection)
      ensures this.con == con
    {
      this.con := con;
    }

    /** Nothing is executed for an empty table. */
    method SaveTable(table: LinkTable) returns (fault: Option<Fault>)
      modifies con`db, con`faults
      ensures con.db == if fault == None then old(con.db).(links := old(con.db.links) + Rows(table)) else old(con.db)
      ensures |table.scores| == 0 ==> fault == None && con.faults == old(con.faults)
      ensures Struck(old(con.faults), con.faults, AsList(fault))
    {
      fault := None;
      if |table.scores| == 0 {
        NothingStruck(con.faults);
        assert con.db.links + Rows(table) == con.db.links;
        return;
      }
      fault := con.Statement();
      if fault == None {
        con.db := con.db.(links := con.db.links + Rows(table));
      }
    }
  }

  class ClusterRepository {
    const con: Connection

    constructor (con: Connection)
      ensures this.con == con
    {
      this.con := con;
    }

    method Save(row: Membership) returns (fault: Option<Fault>)
      modifies con`db, con`faults
      ensures con.db == if fault == None then old(con.db).(clusters := old(con.db.clusters) + [row]) else old(con.db)
      ensures Struck(old(con.faults), con.faults, AsList(fault))
    {
      fault := con.Statement();
      if fault == None {
        con.db := con.db.(clusters := con.db.clusters + [row]);
      }
    }

    /** One query; none for an empty set of ids. */
    method ClustersOf(ids: set<MentionId>) returns (fault: Option<Fault>, found: map<MentionId, ClusterId>)
      modifies con`faults
      ensures fault == None ==> found == ClustersFor(con.db.clusters, ids)
      ensures ids == {} ==> fault == None && con.faults == old(con.faults)
      ensures ids != {} ==> fault == Next(old(con.faults)) && con.faults == Skip(old(con.faults), 1)
      ensures Struck(old(con.faults), con.faults, AsList(fault))
    {
      fault, found := None, map[];
      NothingStruck(con.faults);
      if ids != {} {
        fault := con.Statement();
        if fault == None {
          found := ClustersFor(con.db.clusters, ids);
        }
      }
    }
  }
}
