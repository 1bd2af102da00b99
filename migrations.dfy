/**
 * The migration runner of utils/migrations.js: `init` reads the database version and
 * keeps the migrations that lead past it, `migrate` runs them in order, and
 * `migration1` rewrites the votes, closed and hidden collections. The database is an
 * object whose collections the migration replaces in place.
 */
module Migrations {
  import opened Wrappers
  import opened MigrationOne

  /** A migration: the version it leads to and the name of the method that performs it. */
  datatype Migration = Migration(to: int, fct: string)

  const Migration1Name := "migration1"

  /** `availableMigrations` (utils/migrations.js:15-17). */
  const AvailableMigrations := [Migration(1, Migration1Name)]

  /** The migrations leading past version v, in their original order (utils/migrations.js:22-23). */
  function Pending(ms: seq<Migration>, v: int): seq<Migration> {
    if |ms| == 0 then []
    else Pending(ms[..|ms| - 1], v) + (if ms[|ms| - 1].to > v then [ms[|ms| - 1]] else [])
  }

  /** The filter keeps exactly the migrations with `to > v`. */
  lemma {:induction false} PendingMembers(ms: seq<Migration>, v: int)
    ensures forall m :: m in Pending(ms, v) <==> m in ms && m.to > v
  {
    if |ms| > 0 {
      PendingMembers(ms[..|ms| - 1], v);
      assert ms == ms[..|ms| - 1] + [ms[|ms| - 1]];
    }
  }

  /** The filter keeps the original order: it distributes over concatenation. */
  lemma {:induction false} PendingConcat(xs: seq<Migration>, ys: seq<Migration>, v: int)
    ensures Pending(xs + ys, v) == Pending(xs, v) + Pending(ys, v)
  {
    if |ys| == 0 {
      assert xs + ys == xs;
    } else {
      PendingConcat(xs, ys[..|ys| - 1], v);
      assert (xs + ys)[..|xs + ys| - 1] == xs + ys[..|ys| - 1];
    }
  }

  /** The contents of the database that the migrations read and write. */
  datatype Snapshot = Snapshot(
    version: Option<int>,
    votes: seq<VoteDoc>,
    closed: seq<ClosedDoc>,
    hidden: seq<HiddenDoc>,
    closedReport: Option<seq<ClosedDoc>>)

  /** The hidden documents with their `team` unset (utils/migrations.js:179). */
  function Unset(hidden: seq<HiddenDoc>): (r: seq<HiddenDoc>)
    ensures |r| == |hidden|
    ensures forall i :: 0 <= i < |r| ==> r[i].team == None && r[i].others == hidden[i].others
  {
    if |hidden| == 0 then [] else Unset(hidden[..|hidden| - 1]) + [hidden[|hidden| - 1].(team := None)]
  }

  /**
   * The database after migration1 (utils/migrations.js:39-182): the merged vote
   * documents replace the old ones when there are any, the version becomes 1, the
   * re-keyed closed documents replace the old ones when there are any, the unresolved
   * ones are reported when there are any, and the hidden documents lose their team.
   */
  function Migration1Spec(s: Snapshot): Snapshot {
    var t := TallyOf(s.votes);
    var data := VoteData(t);
    var closedData := ClosedData(t.tableChannel, s.closed);
    var errors := ClosedErrors(t.tableChannel, s.closed);
    Snapshot(
      Some(1),
      if |data| > 0 then data else s.votes,
      if |closedData| > 0 then closedData else s.closed,
      Unset(s.hidden),
      if |errors| > 0 then Some(errors) else s.closedReport)
  }

  /** `this[m.fct]()`: migration1 is the only method a migration can name. */
  function Apply(s: Snapshot, m: Migration): Snapshot
    requires m in AvailableMigrations
  {
    Migration1Spec(s)
  }

  /** The database after the migrations ms, in list order. */
  function RunAll(s: Snapshot, ms: seq<Migration>): Snapshot
    requires forall m :: m in ms ==> m in AvailableMigrations
  {
    if |ms| == 0 then s else Apply(RunAll(s, ms[..|ms| - 1]), ms[|ms| - 1])
  }

  /** Some closed document can be re-keyed. */
  ghost predicate AnyResolved(tableChannel: map<string, map<string, seq<string>>>, closed: seq<ClosedDoc>) {
    exists i :: 0 <= i < |closed| && Resolved(tableChannel, Projected(closed[i]))
  }

  /** Some closed document cannot be re-keyed. */
  ghost predicate AnyUnresolved(tableChannel: map<string, map<string, seq<string>>>, closed: seq<ClosedDoc>) {
    exists i :: 0 <= i < |closed| && !Resolved(tableChannel, Projected(closed[i]))
  }

  /** There is re-keyed data iff some document resolves, and errors iff some does not. */
  lemma ClosedNonEmpty(tableChannel: map<string, map<string, seq<string>>>, closed: seq<ClosedDoc>)
    ensures |ClosedData(tableChannel, closed)| > 0 <==> AnyResolved(tableChannel, closed)
    ensures |ClosedErrors(tableChannel, closed)| > 0 <==> AnyUnresolved(tableChannel, closed)
  {
    ClosedPartition(tableChannel, closed);
    if AnyResolved(tableChannel, closed) {
      var i :| 0 <= i < |closed| && Resolved(tableChannel, Projected(closed[i]));
      assert Rekeyed(tableChannel, Projected(closed[i])) in ClosedData(tableChannel, closed);
    }
    if |ClosedData(tableChannel, closed)| > 0 {
      assert ClosedData(tableChannel, closed)[0] in ClosedData(tableChannel, closed);
    }
    if AnyUnresolved(tableChannel, closed) {
      var i :| 0 <= i < |closed| && !Resolved(tableChannel, Projected(closed[i]));
      assert Projected(closed[i]) in ClosedErrors(tableChannel, closed);
    }
    if |ClosedErrors(tableChannel, closed)| > 0 {
      assert ClosedErrors(tableChannel, closed)[0] in ClosedErrors(tableChannel, closed);
    }
  }

  /**
   * The votes and closed collections are replaced only when the new data is not empty,
   * and the report is written only when some closed document cannot be re-keyed
   * (utils/migrations.js:122-127, 165-175).
   */
  lemma Migration1Replaces(s: Snapshot)
    ensures var u := Migration1Spec(s);
      var t := TallyOf(s.votes);
      && u.version == Some(1)
      && u.votes == (if |s.votes| == 0 then s.votes else VoteData(t))
      && u.closed == (if AnyResolved(t.tableChannel, s.closed) then ClosedData(t.tableChannel, s.closed) else s.closed)
      && u.closedReport == (if AnyUnresolved(t.tableChannel, s.closed) then Some(ClosedErrors(t.tableChannel, s.closed)) else s.closedReport)
  {
    VotesMigrated(s.votes);
    ClosedNonEmpty(TallyOf(s.votes).tableChannel, s.closed);
  }

  /** After any non-empty run of migrations the database is at version 1, and nothing is pending. */
  lemma {:induction false} MigratedUpToDate(s: Snapshot, ms: seq<Migration>)
    requires forall m :: m in ms ==> m in AvailableMigrations
    requires |ms| > 0
    ensures RunAll(s, ms).version == Some(1)
    ensures Pending(AvailableMigrations, RunAll(s, ms).version.GetOr(0)) == []
  {
  }

  /** The Mongo database: the `db` properties document and the three collections. */
  class Database {
    var version: Option<int>
    var votes: seq<VoteDoc>
    var closed: seq<ClosedDoc>
    var hidden: seq<HiddenDoc>
    /** The contents of closed_reports.json, once written. */
    var closedReport: Option<seq<ClosedDoc>>

    constructor(version: Option<int>, votes: seq<VoteDoc>, closed: seq<ClosedDoc>, hidden: seq<HiddenDoc>)
      ensures State() == Snapshot(version, votes, closed, hidden, None)
    {
      this.version := version;
      this.votes := votes;
      this.closed := closed;
      this.hidden := hidden;
      this.closedReport := None;
    }

    function State(): Snapshot
      reads this
    {
      Snapshot(version, votes, closed, hidden, closedReport)
    }

    /** The stored version, after storing version 0 when there is none (utils/properties.js:11-20). */
    method DbVer() returns (v: int)
      modifies this
      ensures v == old(version).GetOr(0)
      ensures State() == old(State()).(version := Some(v))
    {
      if version.None? {
        version := Some(0);
      }
      v := version.value;
    }

    /** Stores the version, creating the properties document if needed (utils/properties.js:22-32). */
    method SetDbVer(v: int)
      modifies this
      ensures State() == old(State()).(version := Some(v))
    {
      version := Some(v);
    }
  }

  /** The `Migrations` class of utils/migrations.js. */
  class Migrator {
    const db: Database
    var dbVer: int
    /** `_migrations`, unset until `init`. */
    var migrations: Option<seq<Migration>>

    /** Every selected migration is an available one. */
    predicate Valid()
      reads this
    {
      migrations.Some? ==> forall m :: m in migrations.value ==> m in AvailableMigrations
    }

    constructor(db: Database)
      ensures this.db == db && migrations == None && Valid()
    {
      this.db := db;
      dbVer := 0;
      migrations := None;
    }

    /** Reads the version and selects the migrations past it (utils/migrations.js:19-28). */
    method Init()
      modifies this, db
      ensures dbVer == old(db.version).GetOr(0)
      ensures migrations == Some(Pending(AvailableMigrations, dbVer))
      ensures db.State() == old(db.State()).(version := Some(dbVer))
      ensures Valid()
    {
      dbVer := db.DbVer();
      var selected: seq<Migration> := [];
      for k := 0 to |AvailableMigrations|
        invariant selected == Pending(AvailableMigrations[..k], dbVer)
      {
        assert AvailableMigrations[..k + 1][..k] == AvailableMigrations[..k];
        if AvailableMigrations[k].to > dbVer {
          selected := selected + [AvailableMigrations[k]];
        }
      }
      assert AvailableMigrations[..|AvailableMigrations|] == AvailableMigrations;
      migrations := Some(selected);
      PendingMembers(AvailableMigrations, dbVer);
    }

    /** Runs the selected migrations in list order (utils/migrations.js:30-37). */
    method Migrate()
      requires Valid() && migrations.Some?
      modifies db
      ensures db.State() == RunAll(old(db.State()), migrations.value)
    {
      var ms := migrations.value;
      for k := 0 to |ms|
        invariant db.State() == RunAll(old(db.State()), ms[..k])
      {
        assert ms[..k + 1][..k] == ms[..k];
        Migration1();
      }
      assert ms[..|ms|] == ms;
    }

    /** The first migration (utils/migrations.js:39-182). */
    method Migration1()
      modifies db
      ensures db.State() == Migration1Spec(old(db.State()))
    {
      var t := Tabulate(db.votes);
      var data := Flatten(t);
      if |data| > 0 {
        db.votes := data;
      }
      db.SetDbVer(1);
      var closedData, errors := Partition(t.tableChannel, db.closed);
      if |errors| > 0 {
        db.closedReport := Some(errors);
      }
      if |closedData| > 0 {
        db.closed := closedData;
      }
      db.hidden := Unset(db.hidden);
    }
  }
}
