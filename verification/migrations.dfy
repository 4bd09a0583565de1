/** Schema migrations: an ordered list of scripts, applied and rolled back one transaction at a time. */
module Migrations {
  import opened GoText
  import opened Faults

  /** A table: its columns, and those whose declared constraints (keys, NOT NULL, defaults) are in force. */
  datatype Table = Table(columns: set<string>, constrained: set<string>)

  datatype Schema = Schema(functions: Option<Table>, backup: Option<Table>)

  const EMPTY := Schema(None, None)

  /** The schema after a script, or None when one of its statements fails on this schema. */
  type Script = Schema -> Option<Schema>

  datatype Migration = Migration(version: int, up: Script, down: Script)

  /** A database: its schema and the rows of the table that records the migrations. */
  datatype Contents = Contents(schema: Schema, rows: seq<int>)

  // The migrations the gateway ships.

  const FIRST_COLUMNS: set<string> := {"id", "name", "image", "env_process", "env_vars", "labels", "secrets", "network",
                                       "replicas", "limits", "requests", "read_only", "created_at", "updated_at"}
  const FIRST_CONSTRAINED: set<string> := {"id", "name", "image", "network", "replicas", "read_only", "created_at",
                                           "updated_at"}

  function InitialUp(s: Schema): Option<Schema> {
    match s.functions
    case None => Some(s.(functions := Some(Table(FIRST_COLUMNS, FIRST_CONSTRAINED))))
    case Some(t) => if {"name", "created_at"} <= t.columns then Some(s) else None
  }

  function InitialDown(s: Schema): Option<Schema> {
    Some(s.(functions := None))
  }

  function DebugUp(s: Schema): Option<Schema> {
    if s.functions.None? || "debug" in s.functions.value.columns then None
    else
      var t := s.functions.value;
      Some(s.(functions := Some(Table(t.columns + {"debug"}, t.constrained + {"debug"}))))
  }

  /** Copies the first columns to a new table, which has no constraints, and puts it in place of the old one. */
  function DebugDown(s: Schema): Option<Schema> {
    if s.backup.Some? || s.functions.None? || !(FIRST_COLUMNS <= s.functions.value.columns) then None
    else Some(Schema(Some(Table(FIRST_COLUMNS, {})), None))
  }

  function Shipped(): seq<Migration> {
    [Migration(1, InitialUp, InitialDown), Migration(2, DebugUp, DebugDown)]
  }

  // What a migration list must satisfy.

  predicate WellNumbered(list: seq<Migration>) {
    forall k | 0 <= k < |list| :: list[k].version == k + 1
  }

  /** The schema the first `k` migrations build from nothing. */
  function FoldUps(list: seq<Migration>, k: nat): Option<Schema>
    requires k <= |list|
  {
    if k == 0 then Some(EMPTY)
    else if FoldUps(list, k - 1).None? then None
    else list[k - 1].up(FoldUps(list, k - 1).value)
  }

  /** A schema up to constraints: its tables and their columns. */
  function Shape(s: Schema): Schema {
    Schema(if s.functions.None? then None else Some(s.functions.value.(constrained := {})),
           if s.backup.None? then None else Some(s.backup.value.(constrained := {})))
  }

  ghost predicate AtStage(list: seq<Migration>, k: nat, s: Schema)
    requires k <= |list|
  {
    FoldUps(list, k).Some? && Shape(s) == Shape(FoldUps(list, k).value)
  }

  /** Each Down, when it runs, undoes its Up as far as tables and columns go. */
  ghost predicate Faithful(list: seq<Migration>) {
    WellNumbered(list)
    && (forall k, s | 0 <= k < |list| && AtStage(list, k, s) && list[k].up(s).Some? ::
          AtStage(list, k + 1, list[k].up(s).value))
    && (forall k, s | 0 <= k < |list| && AtStage(list, k + 1, s) && list[k].down(s).Some? ::
          AtStage(list, k, list[k].down(s).value))
  }

  /** Besides, no script fails where the list puts it. */
  ghost predicate NeverStuck(list: seq<Migration>) {
    (forall k, s | 0 <= k < |list| && AtStage(list, k, s) :: list[k].up(s).Some?)
    && (forall k, s | 0 <= k < |list| && AtStage(list, k + 1, s) :: list[k].down(s).Some?)
  }

  lemma ShippedStages()
    ensures FoldUps(Shipped(), 1) == Some(Schema(Some(Table(FIRST_COLUMNS, FIRST_CONSTRAINED)), None))
    ensures FoldUps(Shipped(), 2) ==
            Some(Schema(Some(Table(FIRST_COLUMNS + {"debug"}, FIRST_CONSTRAINED + {"debug"})), None))
  {
    assert FoldUps(Shipped(), 0) == Some(EMPTY);
    assert "debug" !in FIRST_COLUMNS;
  }

  /** At version 1 there is one table with the first columns, at version 2 it has one more. */
  lemma ShippedShapes(s: Schema)
    ensures AtStage(Shipped(), 0, s) <==> s == EMPTY
    ensures AtStage(Shipped(), 1, s) <==>
            s.backup.None? && s.functions.Some? && s.functions.value.columns == FIRST_COLUMNS
    ensures AtStage(Shipped(), 2, s) <==>
            s.backup.None? && s.functions.Some? && s.functions.value.columns == FIRST_COLUMNS + {"debug"}
  {
    ShippedStages();
  }

  lemma ShippedScripts(s: Schema)
    ensures AtStage(Shipped(), 0, s) ==> InitialUp(s).Some? && AtStage(Shipped(), 1, InitialUp(s).value)
    ensures AtStage(Shipped(), 1, s) ==> InitialDown(s).Some? && AtStage(Shipped(), 0, InitialDown(s).value)
    ensures AtStage(Shipped(), 1, s) ==> DebugUp(s).Some? && AtStage(Shipped(), 2, DebugUp(s).value)
    ensures AtStage(Shipped(), 2, s) ==> DebugDown(s).Some? && AtStage(Shipped(), 1, DebugDown(s).value)
  {
    hide AtStage;
    ShippedShapes(s);
    assert "debug" !in FIRST_COLUMNS;
    if AtStage(Shipped(), 0, s) {
      ShippedShapes(InitialUp(s).value);
    }
    if AtStage(Shipped(), 1, s) {
      ShippedShapes(InitialDown(s).value);
      ShippedShapes(DebugUp(s).value);
    }
    if AtStage(Shipped(), 2, s) {
      ShippedShapes(DebugDown(s).value);
    }
  }

  lemma ShippedIsFaithful()
    ensures Faithful(Shipped()) && NeverStuck(Shipped())
  {
    hide AtStage, InitialUp, InitialDown, DebugUp, DebugDown;
    var list := Shipped();
    assert list[0].up == InitialUp && list[0].down == InitialDown && list[1].up == DebugUp && list[1].down == DebugDown;
    forall k, s | 0 <= k < |list| && AtStage(list, k, s)
      ensures list[k].up(s).Some? && AtStage(list, k + 1, list[k].up(s).value)
    {
      assert k == 0 || k == 1;
      ShippedScripts(s);
    }
    forall k, s | 0 <= k < |list| && AtStage(list, k + 1, s)
      ensures list[k].down(s).Some? && AtStage(list, k, list[k].down(s).value)
    {
      assert k == 0 || k == 1;
      ShippedScripts(s);
    }
  }

  /** Rolling version 2 back gives the schema before it, constraints included, exactly when that had none. */
  lemma RollbackRestoresIff(s: Schema)
    requires AtStage(Shipped(), 1, s)
    ensures DebugUp(s).Some? && DebugDown(DebugUp(s).value).Some?
    ensures DebugDown(DebugUp(s).value).value == s <==> s.functions.value.constrained == {}
  {
    ShippedStages();
    assert "debug" !in FIRST_COLUMNS;
  }

  /** Down and up again: the column list is as before, but function names are no longer unique. */
  lemma ReapplyLosesUniqueNames()
    ensures var s := FoldUps(Shipped(), 2).value;
            var again := DebugUp(DebugDown(s).value).value;
            "name" in s.functions.value.constrained && "name" !in again.functions.value.constrained
            && Shape(again) == Shape(s) && again != s
  {
    ShippedStages();
    assert "debug" !in FIRST_COLUMNS;
  }

  // The records.

  function Upto(k: nat): seq<int> {
    seq(k, i => i + 1)
  }

  /** `SELECT COALESCE(MAX(version), 0)`. */
  function MaxVersion(rows: seq<int>): int
    decreases |rows|
  {
    if rows == [] then 0
    else if |rows| == 1 then rows[0]
    else
      var rest := MaxVersion(rows[..|rows| - 1]);
      if rows[|rows| - 1] > rest then rows[|rows| - 1] else rest
  }

  /** `DELETE … WHERE version = v`. */
  function Deleted(rows: seq<int>, v: int): seq<int> {
    if rows == [] then []
    else Deleted(rows[..|rows| - 1], v) + if rows[|rows| - 1] == v then [] else [rows[|rows| - 1]]
  }

  lemma {:induction false} MaxOfUpto(k: nat)
    ensures MaxVersion(Upto(k)) == k
  {
    if k > 1 {
      assert Upto(k)[..k - 1] == Upto(k - 1);
      MaxOfUpto(k - 1);
    }
  }

  lemma {:induction false} DeletedAbsent(rows: seq<int>, v: int)
    requires v !in rows
    ensures Deleted(rows, v) == rows
  {
    if rows != [] {
      DeletedAbsent(rows[..|rows| - 1], v);
    }
  }

  lemma DeletedLast(k: nat)
    ensures Deleted(Upto(k + 1), k + 1) == Upto(k)
    ensures k + 1 !in Upto(k) && Upto(k) + [k + 1] == Upto(k + 1)
  {
    assert Upto(k + 1)[..k] == Upto(k);
    DeletedAbsent(Upto(k), k + 1);
  }

  /** The records are exactly versions 1..k, and the tables and columns are those of the first k migrations. */
  ghost predicate Good(list: seq<Migration>, c: Contents) {
    c.rows == Upto(|c.rows|) && |c.rows| <= |list| && AtStage(list, |c.rows|, c.schema)
  }

  /** One applied or undone migration keeps records and schema in step. */
  lemma ForwardKeepsGood(list: seq<Migration>, c: Contents)
    requires Faithful(list) && Good(list, c) && |c.rows| < |list| && list[|c.rows|].up(c.schema).Some?
    ensures var m := list[|c.rows|];
            m.version !in c.rows && Good(list, Contents(m.up(c.schema).value, c.rows + [m.version]))
  {
    DeletedLast(|c.rows|);
    var m := list[|c.rows|];
    assert |c.rows + [m.version]| == |c.rows| + 1;
  }

  lemma BackwardKeepsGood(list: seq<Migration>, c: Contents)
    requires Faithful(list) && Good(list, c) && c.rows != [] && list[|c.rows| - 1].down(c.schema).Some?
    ensures var m := list[|c.rows| - 1];
            Good(list, Contents(m.down(c.schema).value, Deleted(c.rows, m.version)))
            && |Deleted(c.rows, m.version)| == |c.rows| - 1
  {
    DeletedLast(|c.rows| - 1);
  }

  function RollbackTarget(k: nat, steps: int): nat {
    if steps <= 0 then k else if steps >= k then 0 else k - steps
  }

  ghost predicate NoFaults(schedule: nat -> Fault) {
    forall k: nat :: schedule(k).Answered?
  }

  class Database {
    const schedule: nat -> Fault
    var calls: nat
    var committed: Contents
    var working: Contents
    /** Every state that was ever committed. */
    ghost var history: seq<Contents>

    constructor (schedule: nat -> Fault)
      ensures committed == Contents(EMPTY, []) && history == [committed]
      ensures this.schedule == schedule
    {
      this.schedule := schedule;
      calls := 0;
      committed, working := Contents(EMPTY, []), Contents(EMPTY, []);
      history := [Contents(EMPTY, [])];
    }

    ghost predicate Reliable()
      reads this
    {
      NoFaults(schedule)
    }

    /** A call that changes no committed data: creating the records table, a query, the start of a transaction. */
    method Call() returns (ok: bool)
      modifies this`calls, this`working
      ensures Reliable() ==> ok
      ensures working == committed
    {
      ok := schedule(calls).Answered?;
      calls, working := calls + 1, committed;
    }

    /** A statement inside a transaction. */
    method Exec(script: Script) returns (ok: bool)
      modifies this`calls, this`working
      ensures Reliable() && script(old(working).schema).Some? ==> ok
      ensures ok ==>
                script(old(working).schema).Some?
                && working == old(working).(schema := script(old(working).schema).value)
    {
      var next := script(working.schema);
      ok := schedule(calls).Answered? && next.Some?;
      if next.Some? {
        working := working.(schema := next.value);
      }
      calls := calls + 1;
    }

    /** The version is the primary key: a second insert of it fails. */
    method InsertVersion(version: int) returns (ok: bool)
      modifies this`calls, this`working
      ensures Reliable() && version !in old(working).rows ==> ok
      ensures ok ==> version !in old(working).rows && working == old(working).(rows := old(working).rows + [version])
    {
      ok := schedule(calls).Answered? && version !in working.rows;
      if ok {
        working := working.(rows := working.rows + [version]);
      }
      calls := calls + 1;
    }

    method DeleteVersion(version: int) returns (ok: bool)
      modifies this`calls, this`working
      ensures Reliable() ==> ok
      ensures ok ==> working == old(working).(rows := Deleted(old(working).rows, version))
    {
      ok := schedule(calls).Answered?;
      working := working.(rows := Deleted(working.rows, version));
      calls := calls + 1;
    }

    method Abandon()
      modifies this`working
      ensures working == committed
    {
      working := committed;
    }

    /** All or nothing; when the reply is lost the transaction is in although the caller sees an error. */
    method Commit() returns (ok: bool)
      modifies this
      ensures Reliable() ==> ok
      ensures (committed == old(committed) && history == old(history) && !ok)
              || (committed == old(working) && history == old(history) + [committed])
    {
      var fault := schedule(calls);
      calls := calls + 1;
      if !fault.Refused? {
        committed := working;
        history := history + [committed];
      }
      ok := fault.Answered?;
    }
  }

  /** The states committed since there were `from` of them are good, each one version above (or below) the last. */
  ghost predicate Climbs(list: seq<Migration>, history: seq<Contents>, from: nat, step: int) {
    forall i | 1 <= from <= i < |history| :: Good(list, history[i]) && |history[i].rows| == |history[i - 1].rows| + step
  }

  class MigrationManager {
    const migrations: seq<Migration>
    const db: Database

    ghost predicate Valid()
      reads this, db
    {
      Faithful(migrations) && Good(migrations, db.committed)
      && db.history != [] && db.history[|db.history| - 1] == db.committed
    }

    constructor (migrations: seq<Migration>, db: Database)
      requires Faithful(migrations) && db.committed == Contents(EMPTY, []) && db.history == [db.committed]
      ensures Valid() && this.migrations == migrations && this.db == db
    {
      this.migrations, this.db := migrations, db;
    }

    method GetCurrentVersion() returns (version: Option<int>)
      requires Valid()
      modifies db`calls, db`working
      ensures Valid()
      ensures version.Some? ==> version.value == |db.committed.rows|
      ensures db.Reliable() ==> version.Some?
    {
      MaxOfUpto(|db.committed.rows|);
      var ok := db.Call();
      if !ok {
        return None;
      }
      ok := db.Call();
      version := if ok then Some(MaxVersion(db.committed.rows)) else None;
    }

    /** One migration in one transaction. */
    method ApplyOne(migration: Migration) returns (ok: bool)
      requires Valid() && |db.committed.rows| < |migrations| && migration == migrations[|db.committed.rows|]
      modifies db
      ensures Valid()
      ensures (db.committed == old(db.committed) && db.history == old(db.history) && !ok)
              || (|db.committed.rows| == old(|db.committed.rows|) + 1 && db.history == old(db.history) + [db.committed])
      ensures db.Reliable() && NeverStuck(migrations) ==> ok
    {
      hide Faithful, AtStage;
      ok := db.Call();
      if !ok {
        return;
      }
      assert NeverStuck(migrations) ==> migration.up(db.committed.schema).Some?;
      if migration.up(db.committed.schema).Some? {
        ForwardKeepsGood(migrations, db.committed);
      }
      ok := db.Exec(migration.up);
      if !ok {
        db.Abandon();
        return;
      }
      ok := db.InsertVersion(migration.version);
      if !ok {
        db.Abandon();
        return;
      }
      ok := db.Commit();
    }

    /** Brings the database to the last version, or stops with an error at a version in between. */
    method ApplyMigrations() returns (ok: bool)
      requires Valid()
      modifies db
      ensures Valid()
      ensures ok ==> |db.committed.rows| == |migrations|
      ensures old(|db.committed.rows|) <= |db.committed.rows|
      ensures old(|db.committed.rows|) == |migrations| ==>
                db.committed == old(db.committed) && db.history == old(db.history)
      ensures old(db.history) <= db.history && Climbs(migrations, db.history, old(|db.history|), 1)
      ensures db.Reliable() && NeverStuck(migrations) ==> ok
    {
      hide Faithful, NeverStuck, AtStage;
      ok := db.Call();
      if !ok {
        return;
      }
      var current := GetCurrentVersion();
      if current.None? {
        return false;
      }
      for k := 0 to |migrations|
        invariant Valid()
        invariant |db.committed.rows| == if k < current.value then current.value else k
        invariant k <= current.value ==> db.committed == old(db.committed) && db.history == old(db.history)
        invariant old(db.history) <= db.history && Climbs(migrations, db.history, old(|db.history|), 1)
      {
        NumberedAt(migrations, k);
        if migrations[k].version <= current.value {
          continue;
        }
        ok := ApplyOne(migrations[k]);
        if !ok {
          return;
        }
      }
      var final := GetCurrentVersion();
      ok := true;
    }

    /** The latest migration undone in one transaction. */
    method UndoOne(migration: Migration) returns (ok: bool)
      requires Valid() && db.committed.rows != [] && migration == migrations[|db.committed.rows| - 1]
      modifies db
      ensures Valid()
      ensures (db.committed == old(db.committed) && db.history == old(db.history) && !ok)
              || (|db.committed.rows| == old(|db.committed.rows|) - 1 && db.history == old(db.history) + [db.committed])
      ensures db.Reliable() && NeverStuck(migrations) ==> ok
    {
      hide Faithful, AtStage, Deleted, MaxVersion, Upto;
      ok := db.Call();
      if !ok {
        return;
      }
      ghost var k := |db.committed.rows| - 1;
      assert NeverStuck(migrations) ==> migrations[k].down(db.committed.schema).Some? by {
        assert AtStage(migrations, k + 1, db.committed.schema);
      }
      if migration.down(db.committed.schema).Some? {
        BackwardKeepsGood(migrations, db.committed);
      }
      ok := db.Exec(migration.down);
      if !ok {
        db.Abandon();
        return;
      }
      ok := db.DeleteVersion(migration.version);
      if !ok {
        db.Abandon();
        return;
      }
      ok := db.Commit();
    }

    /** The migration with a version, looked up from the front of the list. */
    method Find(version: int) returns (found: Option<Migration>)
      requires WellNumbered(migrations)
      ensures found == if 1 <= version <= |migrations| then Some(migrations[version - 1]) else None
    {
      for k := 0 to |migrations|
        invariant !(1 <= version <= k)
      {
        if migrations[k].version == version {
          return Some(migrations[k]);
        }
      }
      found := None;
    }

    /** Undoes the last `steps` migrations, or stops with an error on the way. */
    method Rollback(steps: int) returns (ok: bool)
      requires Valid()
      modifies db
      ensures Valid()
      ensures ok ==> old(|db.committed.rows|) > 0
                     && |db.committed.rows| == RollbackTarget(old(|db.committed.rows|), steps)
      ensures ok && steps >= old(|db.committed.rows|) ==> |db.committed.rows| == 0
      ensures ok && 0 <= steps < old(|db.committed.rows|) ==>
                |db.committed.rows| == old(|db.committed.rows|) - steps
      ensures steps >= 0 ==> |db.committed.rows| >= old(|db.committed.rows|) - steps
      ensures ok && steps < 0 ==> |db.committed.rows| == old(|db.committed.rows|)
      ensures RollbackTarget(old(|db.committed.rows|), steps) <= |db.committed.rows| <= old(|db.committed.rows|)
      ensures old(|db.committed.rows|) == |db.committed.rows| ==>
                db.committed == old(db.committed) && db.history == old(db.history)
      ensures old(db.history) <= db.history && Climbs(migrations, db.history, old(|db.history|), -1)
      ensures db.Reliable() && NeverStuck(migrations) ==> (ok <==> old(|db.committed.rows|) > 0)
    {
      hide Faithful, NeverStuck, AtStage;
      var version := GetCurrentVersion();
      if version.None? || version.value == 0 {
        return false;
      }
      var current := version.value;
      var i := 0;
      while i < steps && current > 0
        invariant Valid() && current == |db.committed.rows|
        invariant 0 <= i && current == old(|db.committed.rows|) - i && (steps > 0 ==> i <= steps)
        invariant i > 0 ==> steps > 0
        invariant i == 0 ==> db.committed == old(db.committed) && db.history == old(db.history)
        invariant old(db.history) <= db.history && Climbs(migrations, db.history, old(|db.history|), -1)
        decreases steps - i
      {
        IsNumbered(migrations);
        var found := Find(current);
        if found.None? {
          return false;
        }
        ok := UndoOne(found.value);
        if !ok {
          return;
        }
        current := current - 1;
        i := i + 1;
      }
      ok := true;
    }
  }

  lemma IsNumbered(list: seq<Migration>)
    requires Faithful(list)
    ensures WellNumbered(list)
  {
  }

  lemma NumberedAt(list: seq<Migration>, k: nat)
    requires Faithful(list) && k < |list|
    ensures list[k].version == k + 1
  {
  }

  datatype Operation = Apply | Undo(steps: int)

  /** Any run of applications and rollbacks, with any statement failing, from an empty database: every state ever
      committed records exactly versions 1..k and has the tables and columns of the first k migrations. */
  method Perform(migrations: seq<Migration>, schedule: nat -> Fault, operations: seq<Operation>)
    returns (m: MigrationManager)
    requires Faithful(migrations)
    ensures m.Valid() && m.migrations == migrations
    ensures forall i | 0 <= i < |m.db.history| :: Good(migrations, m.db.history[i])
    ensures forall i | 1 <= i < |m.db.history| :: |m.db.history[i].rows| - |m.db.history[i - 1].rows| in {-1, 1}
    ensures operations != [] && operations[|operations| - 1].Apply? && NeverStuck(migrations) && NoFaults(schedule) ==>
              m.db.committed.rows == Upto(|migrations|)
  {
    hide Faithful, NeverStuck, AtStage;
    var db := new Database(schedule);
    m := new MigrationManager(migrations, db);
    for n := 0 to |operations|
      invariant m.Valid() && fresh(m.db) && m.migrations == migrations && m.db.schedule == schedule
      invariant forall i | 0 <= i < |m.db.history| :: Good(migrations, m.db.history[i])
      invariant forall i | 1 <= i < |m.db.history| :: |m.db.history[i].rows| - |m.db.history[i - 1].rows| in {-1, 1}
      invariant n > 0 && operations[n - 1].Apply? && NeverStuck(migrations) && NoFaults(schedule) ==>
          m.db.committed.rows == Upto(|migrations|)
    {
      match operations[n] {
        case Apply =>
          var ok := m.ApplyMigrations();
        case Undo(steps) =>
          var ok := m.Rollback(steps);
      }
    }
  }
}
