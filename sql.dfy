/**
 * The SQL migration runner: `hashMessage`, `runMigrations`,
 * `initalizeMigrationsTable` and `prepareSqlite`.
 *
 * The SQL engine is not modelled. Executing a command appends its text to a
 * log. The one piece of DDL the model interprets is the initialize
 * migration, which creates the `__teeny_migrations` table. That table is a
 * sequence of rows in insertion order, and `LIKE "<prefix>%"` is a prefix test.
 */
module Sql {
  import opened Wrappers
  import opened Strings

  // ---------------------------------------------------------------- hashMessage

  const Two32: int := 0x1_0000_0000
  const Two31: int := 0x8000_0000

  /** JavaScript's ToInt32 (`x | 0`) on an integral number: wrap into -2^31 .. 2^31 - 1. */
  function ToInt32(x: int): (r: int)
    ensures -Two31 <= r < Two31
    ensures (r - x) % Two32 == 0
  {
    var m := x % Two32;
    if m >= Two31 then m - Two32 else m
  }

  /** The hash of `msg` as a number: the fold `h := ToInt32(31 * h + code)` from 0. */
  function HashValue(msg: string): (r: int)
    ensures -Two31 <= r < Two31
  {
    if msg == [] then 0
    else ToInt32(31 * HashValue(msg[..|msg| - 1]) + msg[|msg| - 1] as int)
  }

  function DigitChar36(d: nat): char
    requires d < 36
  {
    if d < 10 then ('0' as int + d) as char else ('a' as int + d - 10) as char
  }

  function DigitValue36(c: char): int
  {
    if '0' <= c <= '9' then c as int - '0' as int
    else if 'a' <= c <= 'z' then c as int - 'a' as int + 10
    else -1
  }

  /** The base-36 digits of `n`, lower case, without leading zeros ("0" for zero). */
  function Base36Digits(n: nat): (r: string)
    ensures |r| > 0
    decreases n
  {
    if n < 36 then [DigitChar36(n)] else Base36Digits(n / 36) + [DigitChar36(n % 36)]
  }

  /** `n.toString(36)`. */
  function ToBase36(n: int): string
  {
    if n < 0 then "-" + Base36Digits(-n) else Base36Digits(n)
  }

  function ParseDigits36(s: string): int
  {
    if s == [] then 0 else 36 * ParseDigits36(s[..|s| - 1]) + DigitValue36(s[|s| - 1])
  }

  /** Reads back a `toString(36)` rendering. */
  function ParseBase36(s: string): int
  {
    if |s| > 0 && s[0] == '-' then -ParseDigits36(s[1..]) else ParseDigits36(s)
  }

  /** What `hashMessage(msg)` returns. */
  function HashText(msg: string): string
  {
    ToBase36(HashValue(msg))
  }

  lemma ToInt32Congruent(x: int, y: int)
    requires (x - y) % Two32 == 0
    ensures ToInt32(x) == ToInt32(y)
  {
    var k := (x - y) / Two32;
    assert x == y + Two32 * k;
  }

  /** One round as the source writes it, `((h << 5) - h + c) | 0`, is one round of the fold. */
  lemma ShiftStep(h: int, c: int)
    ensures ToInt32(ToInt32(h * 32) - h + c) == ToInt32(31 * h + c)
  {
    var a := ToInt32(h * 32);
    assert (a - h + c) - (31 * h + c) == a - h * 32;
    ToInt32Congruent(a - h + c, 31 * h + c);
  }

  lemma {:induction false} Base36DigitsRoundTrip(n: nat)
    ensures ParseDigits36(Base36Digits(n)) == n
    decreases n
  {
    if n >= 36 {
      Base36DigitsRoundTrip(n / 36);
      var s := Base36Digits(n);
      assert s[..|s| - 1] == Base36Digits(n / 36);
    } else {
      assert [DigitChar36(n)][..0] == [];
    }
  }

  /** The base-36 rendering loses nothing: reading it back gives the number. */
  lemma Base36RoundTrip(n: int)
    ensures ParseBase36(ToBase36(n)) == n
  {
    if n < 0 {
      Base36DigitsRoundTrip(-n);
      assert ToBase36(n)[1..] == Base36Digits(-n);
    } else {
      Base36DigitsRoundTrip(n);
      var s := Base36Digits(n);
      if s[0] == '-' {
        BaseDigitsNoSign(n);
      }
    }
  }

  lemma BaseDigitsNoSign(n: nat)
    ensures Base36Digits(n)[0] != '-'
    decreases n
  {
    if n >= 36 {
      BaseDigitsNoSign(n / 36);
    }
  }

  /** Two messages get the same hash text exactly when their hash numbers agree. */
  lemma HashTextMatches(a: string, b: string)
    ensures HashText(a) == HashText(b) <==> HashValue(a) == HashValue(b)
  {
    Base36RoundTrip(HashValue(a));
    Base36RoundTrip(HashValue(b));
  }

  /** `hashMessage`: the loop over the UTF-16 code units, as written. */
  method HashMessage(msg: string) returns (r: string)
    ensures r == HashText(msg)
  {
    var hash := 0;
    var i := 0;
    while i < |msg|
      invariant 0 <= i <= |msg|
      invariant hash == HashValue(msg[..i])
    {
      var code := msg[i] as int;
      ShiftStep(hash, code);
      assert msg[..i + 1][..i] == msg[..i];
      hash := ToInt32(ToInt32(hash * 32) - hash + code);
      i := i + 1;
    }
    assert msg[..i] == msg;
    r := ToBase36(hash);
  }

  // ---------------------------------------------------------------- migrations

  /** A migration: a list of commands, or commands with an optional description. */
  datatype Migration =
    | Commands(commands: seq<string>)
    | Described(description: Option<string>, commands: seq<string>)

  /** A row of `__teeny_migrations`. */
  datatype Row = Row(key: string, runOrder: nat, description: string, hash: string, date: string)

  /** The database as the runner sees it: the commands executed so far, and the migrations table if it exists. */
  datatype Db = Db(log: seq<string>, table: Option<seq<Row>>)

  datatype MigrationError =
    | MissingEntries   // "Bad migration config: Migration config missing entries"
    | HashMismatch     // "Bad migration config: Hash doesn't match"
    | NoTable          // the INSERT fails: `__teeny_migrations` does not exist

  datatype Outcome = Outcome(result: Result<(), MigrationError>, db: Db)

  const MigrationsTable := "__teeny_migrations"

  /** The text a migration executes: its commands joined with `;`. */
  function CommandText(m: Migration): string
  {
    Join(m.commands, ";")
  }

  function DescriptionOf(m: Migration): string
  {
    match m
    case Commands(_) => ""
    case Described(d, _) => if d.Some? then d.value else ""
  }

  /** The key a migration is recorded under: `${prefix}$$${name}`. */
  function MigrationKey(prefix: string, name: string): string
  {
    prefix + "$$" + name
  }

  function RowFor(prefix: string, config: seq<(string, Migration)>, i: nat, date: string): Row
    requires i < |config|
  {
    Row(MigrationKey(prefix, config[i].0), i, DescriptionOf(config[i].1), HashText(CommandText(config[i].1)), date)
  }

  /** The rows for the config entries from `i` on, as a successful run records them. */
  function RowsFrom(prefix: string, config: seq<(string, Migration)>, i: nat, date: string): (r: seq<Row>)
    requires i <= |config|
    ensures |r| == |config| - i
    ensures forall j :: 0 <= j < |r| ==> r[j] == RowFor(prefix, config, i + j, date)
  {
    seq(|config| - i, j requires 0 <= j < |config| - i => RowFor(prefix, config, i + j, date))
  }

  /** The command texts for the config entries from `i` on. */
  function TextsFrom(config: seq<(string, Migration)>, i: nat): (r: seq<string>)
    requires i <= |config|
    ensures |r| == |config| - i
    ensures forall j :: 0 <= j < |r| ==> r[j] == CommandText(config[i + j].1)
  {
    seq(|config| - i, j requires 0 <= j < |config| - i => CommandText(config[i + j].1))
  }

  function RowsWithPrefix(rows: seq<Row>, prefix: string): seq<Row>
  {
    if rows == [] then []
    else (if StartsWith(rows[0].key, prefix) then [rows[0]] else []) + RowsWithPrefix(rows[1..], prefix)
  }

  /**
   * `prevRuns`: the recorded rows whose key starts with `prefix`, in table
   * order; no rows when the table does not exist (the SELECT throws and
   * `prevRuns` stays null).
   */
  function PrevRuns(db: Db, prefix: string): seq<Row>
  {
    if db.table.None? then [] else RowsWithPrefix(db.table.value, prefix)
  }

  /**
   * Executing a command appends it to the log. The only effect of the SQL
   * engine the model interprets is the creation of `__teeny_migrations` by a
   * command that begins by creating it, as the initialize migration does.
   */
  function ExecSpec(db: Db, command: string): Db
  {
    Db(db.log + [command], if db.table.None? && StartsWith(command, CreateTablePrefix) then Some([]) else db.table)
  }

  /** A table after rows are appended; a missing table stays missing only when there is nothing to append. */
  function AppendRows(table: Option<seq<Row>>, rows: seq<Row>): Option<seq<Row>>
  {
    if table.Some? then Some(table.value + rows)
    else if rows == [] then None
    else Some(rows)
  }

  function InsertSpec(db: Db, row: Row): Db
    requires db.table.Some?
  {
    db.(table := Some(db.table.value + [row]))
  }

  /** The loop of `runMigrations` from index `i`, against the rows `prev` read before it began. */
  function MigrateFrom(prefix: string, prev: seq<Row>, config: seq<(string, Migration)>, i: nat, db: Db, date: string): Outcome
    requires i <= |config|
    decreases |config| - i
  {
    if i == |config| then Outcome(Success(()), db)
    else
      var text := CommandText(config[i].1);
      if i < |prev| then
        if prev[i].hash != HashText(text) then Outcome(Failure(HashMismatch), db)
        else MigrateFrom(prefix, prev, config, i + 1, db, date)
      else
        var db1 := ExecSpec(db, text);
        if db1.table.None? then Outcome(Failure(NoTable), db1)
        else MigrateFrom(prefix, prev, config, i + 1, InsertSpec(db1, RowFor(prefix, config, i, date)), date)
  }

  /** `runMigrations(prefix, ctx, config)`, with the date string as a parameter. */
  function Migrate(prefix: string, db: Db, config: seq<(string, Migration)>, date: string): Outcome
  {
    var prev := PrevRuns(db, prefix);
    if |prev| > |config| then Outcome(Failure(MissingEntries), db)
    else MigrateFrom(prefix, prev, config, 0, db, date)
  }

  const InitPrefix := "_teeny_sql"
  const UserPrefix := "user"

  const CreateTablePrefix := "CREATE TABLE IF NOT EXISTS __teeny_migrations "

  /** The one migration `initalizeMigrationsTable` runs. */
  const InitMigration := Described(Some("Initalize migrations table"), [
    CreateTablePrefix + "(\n\t\t\t\t\tid INTEGER PRIMARY KEY AUTOINCREMENT,\n\t\t\t\t\tkey TEXT NOT NULL UNIQUE,\n\t\t\t\t\trun_order INTEGER NOT NULL,\n\t\t\t\t\tdescription TEXT NOT NULL,\n\t\t\t\t\thash TEXT NOT NULL,\n\t\t\t\t\tdate TEXT NOT NULL\n\t \t\t\t)",
    "CREATE INDEX IF NOT EXISTS __teeny_migrations_key ON __teeny_migrations (key)"
  ])

  const InitConfig: seq<(string, Migration)> := [("initalize", InitMigration)]

  /** `prepareSqlite`: the initialize migration, then the user's; neither when no migrations are configured. */
  function PrepareSpec(db: Db, migrations: Option<seq<(string, Migration)>>, date: string): Outcome
  {
    if migrations.None? then Outcome(Success(()), db)
    else
      var init := Migrate(InitPrefix, db, InitConfig, date);
      if init.result.Failure? then init
      else Migrate(UserPrefix, init.db, migrations.value, date)
  }

  // ---------------------------------------------------------------- lemmas

  /** The validation phase: indices below the recorded count are only compared, never executed. */
  lemma {:induction false} CheckPhase(prefix: string, prev: seq<Row>, config: seq<(string, Migration)>, i: nat, db: Db, date: string)
    requires i <= |prev| <= |config|
    ensures MigrateFrom(prefix, prev, config, i, db, date) ==
      if exists j :: i <= j < |prev| && prev[j].hash != HashText(CommandText(config[j].1))
      then Outcome(Failure(HashMismatch), db)
      else MigrateFrom(prefix, prev, config, |prev|, db, date)
    decreases |prev| - i
  {
    if i < |prev| {
      CheckPhase(prefix, prev, config, i + 1, db, date);
    }
  }

  lemma TextsFromCons(config: seq<(string, Migration)>, i: nat)
    requires i < |config|
    ensures TextsFrom(config, i) == [CommandText(config[i].1)] + TextsFrom(config, i + 1)
  {
    var a, b := TextsFrom(config, i), [CommandText(config[i].1)] + TextsFrom(config, i + 1);
    forall j | 0 <= j < |a| ensures a[j] == b[j] {
      if j > 0 {
        assert b[j] == TextsFrom(config, i + 1)[j - 1];
      }
    }
  }

  lemma RowsFromCons(prefix: string, config: seq<(string, Migration)>, i: nat, date: string)
    requires i < |config|
    ensures RowsFrom(prefix, config, i, date) == [RowFor(prefix, config, i, date)] + RowsFrom(prefix, config, i + 1, date)
  {
    var a, b := RowsFrom(prefix, config, i, date), [RowFor(prefix, config, i, date)] + RowsFrom(prefix, config, i + 1, date);
    forall j | 0 <= j < |a| ensures a[j] == b[j] {
      if j > 0 {
        assert b[j] == RowsFrom(prefix, config, i + 1, date)[j - 1];
      }
    }
  }

  lemma ConsAssociates<T>(a: seq<T>, x: T, b: seq<T>)
    ensures (a + [x]) + b == a + ([x] + b)
  {
  }

  /** The execution phase, once the table exists: every remaining entry is executed and recorded, in order. */
  lemma {:induction false} ExecPhase(prefix: string, prev: seq<Row>, config: seq<(string, Migration)>, i: nat, db: Db, date: string)
    requires |prev| <= i <= |config|
    requires db.table.Some?
    ensures MigrateFrom(prefix, prev, config, i, db, date) ==
      Outcome(Success(()), Db(db.log + TextsFrom(config, i), Some(db.table.value + RowsFrom(prefix, config, i, date))))
    decreases |config| - i
  {
    if i < |config| {
      var text, row := CommandText(config[i].1), RowFor(prefix, config, i, date);
      var db1 := ExecSpec(db, text);
      assert db1 == Db(db.log + [text], db.table);
      var db2 := InsertSpec(db1, row);
      assert MigrateFrom(prefix, prev, config, i, db, date) == MigrateFrom(prefix, prev, config, i + 1, db2, date);
      ExecPhase(prefix, prev, config, i + 1, db2, date);
      TextsFromCons(config, i);
      RowsFromCons(prefix, config, i, date);
      ConsAssociates(db.log, text, TextsFrom(config, i + 1));
      ConsAssociates(db.table.value, row, RowsFrom(prefix, config, i + 1, date));
    } else {
      assert TextsFrom(config, i) == [];
      assert RowsFrom(prefix, config, i, date) == [];
      assert db.log + [] == db.log && db.table.value + [] == db.table.value;
    }
  }

  /** More recorded runs than config entries: the run throws and touches nothing. */
  lemma MissingEntriesExactly(prefix: string, db: Db, config: seq<(string, Migration)>, date: string)
    ensures Migrate(prefix, db, config, date).result == Failure(MissingEntries) <==> |PrevRuns(db, prefix)| > |config|
    ensures Migrate(prefix, db, config, date).result == Failure(MissingEntries) ==> Migrate(prefix, db, config, date).db == db
  {
    var prev := PrevRuns(db, prefix);
    if |prev| <= |config| {
      CheckPhase(prefix, prev, config, 0, db, date);
      if !exists j :: 0 <= j < |prev| && prev[j].hash != HashText(CommandText(config[j].1)) {
        MigrateFromNeverMissing(prefix, prev, config, |prev|, db, date);
      }
    }
  }

  lemma {:induction false} MigrateFromNeverMissing(prefix: string, prev: seq<Row>, config: seq<(string, Migration)>, i: nat, db: Db, date: string)
    requires i <= |config|
    ensures MigrateFrom(prefix, prev, config, i, db, date).result != Failure(MissingEntries)
    decreases |config| - i
  {
    if i < |config| {
      var text := CommandText(config[i].1);
      if i < |prev| {
        MigrateFromNeverMissing(prefix, prev, config, i + 1, db, date);
      } else {
        var db1 := ExecSpec(db, text);
        if db1.table.Some? {
          MigrateFromNeverMissing(prefix, prev, config, i + 1, InsertSpec(db1, RowFor(prefix, config, i, date)), date);
        }
      }
    }
  }

  /**
   * A stored hash that differs from the config's at an index below the
   * recorded count makes the run throw; all such checks come before any
   * execution, so a throwing run executes and records nothing. Keys and run
   * orders are not compared.
   */
  lemma HashMismatchExactly(prefix: string, db: Db, config: seq<(string, Migration)>, date: string)
    requires |PrevRuns(db, prefix)| <= |config|
    ensures var prev := PrevRuns(db, prefix);
      (exists j :: 0 <= j < |prev| && prev[j].hash != HashText(CommandText(config[j].1))) ==>
        Migrate(prefix, db, config, date) == Outcome(Failure(HashMismatch), db)
    ensures var prev := PrevRuns(db, prefix);
      (forall j :: 0 <= j < |prev| ==> prev[j].hash == HashText(CommandText(config[j].1))) ==>
        Migrate(prefix, db, config, date).result != Failure(HashMismatch)
  {
    var prev := PrevRuns(db, prefix);
    CheckPhase(prefix, prev, config, 0, db, date);
    if forall j :: 0 <= j < |prev| ==> prev[j].hash == HashText(CommandText(config[j].1)) {
      MigrateFromNoMismatch(prefix, prev, config, |prev|, db, date);
    }
  }

  lemma {:induction false} MigrateFromNoMismatch(prefix: string, prev: seq<Row>, config: seq<(string, Migration)>, i: nat, db: Db, date: string)
    requires |prev| <= i <= |config|
    ensures MigrateFrom(prefix, prev, config, i, db, date).result != Failure(HashMismatch)
    decreases |config| - i
  {
    if i < |config| {
      var db1 := ExecSpec(db, CommandText(config[i].1));
      if db1.table.Some? {
        MigrateFromNoMismatch(prefix, prev, config, i + 1, InsertSpec(db1, RowFor(prefix, config, i, date)), date);
      }
    }
  }

  lemma {:induction false} RowsWithPrefixAppend(a: seq<Row>, b: seq<Row>, prefix: string)
    ensures RowsWithPrefix(a + b, prefix) == RowsWithPrefix(a, prefix) + RowsWithPrefix(b, prefix)
  {
    if a != [] {
      assert (a + b)[1..] == a[1..] + b;
      RowsWithPrefixAppend(a[1..], b, prefix);
    } else {
      assert a + b == b;
    }
  }

  lemma {:induction false} RowsWithPrefixAll(rows: seq<Row>, prefix: string)
    requires forall i :: 0 <= i < |rows| ==> StartsWith(rows[i].key, prefix)
    ensures RowsWithPrefix(rows, prefix) == rows
  {
    if rows != [] {
      RowsWithPrefixAll(rows[1..], prefix);
      assert rows == [rows[0]] + rows[1..];
    }
  }

  lemma NewRowsHavePrefix(prefix: string, config: seq<(string, Migration)>, i: nat, date: string)
    requires i <= |config|
    ensures RowsWithPrefix(RowsFrom(prefix, config, i, date), prefix) == RowsFrom(prefix, config, i, date)
  {
    var rows := RowsFrom(prefix, config, i, date);
    forall j | 0 <= j < |rows| ensures StartsWith(rows[j].key, prefix) {
      assert rows[j].key == prefix + ("$$" + config[i + j].0);
    }
    RowsWithPrefixAll(rows, prefix);
  }

  /**
   * A successful run executes the entries past the recorded count, in config
   * order, and records one row for each, with key `prefix$$name`, run order
   * its index, its description (or `''`), its hash and the date.
   */
  lemma MigrateSuccess(prefix: string, db: Db, config: seq<(string, Migration)>, date: string)
    requires Migrate(prefix, db, config, date).result.Success?
    ensures var n := |PrevRuns(db, prefix)|;
      && n <= |config|
      && Migrate(prefix, db, config, date).db == Db(db.log + TextsFrom(config, n), AppendRows(db.table, RowsFrom(prefix, config, n, date)))
      && forall j :: 0 <= j < n ==> PrevRuns(db, prefix)[j].hash == HashText(CommandText(config[j].1))
  {
    var prev := PrevRuns(db, prefix);
    var out := Migrate(prefix, db, config, date);
    assert |prev| <= |config|;
    assert out == MigrateFrom(prefix, prev, config, 0, db, date);
    CheckPhase(prefix, prev, config, 0, db, date);
    assert out == MigrateFrom(prefix, prev, config, |prev|, db, date);
    if db.table.Some? {
      ExecPhase(prefix, prev, config, |prev|, db, date);
    } else {
      ExecPhaseCreatingTable(prefix, prev, config, db, date);
    }
  }

  /** Without the table, a run succeeds only if its first entry creates it; then every entry is executed and recorded. */
  lemma ExecPhaseCreatingTable(prefix: string, prev: seq<Row>, config: seq<(string, Migration)>, db: Db, date: string)
    requires db.table.None? && prev == []
    requires MigrateFrom(prefix, prev, config, 0, db, date).result.Success?
    ensures MigrateFrom(prefix, prev, config, 0, db, date) ==
      Outcome(Success(()), Db(db.log + TextsFrom(config, 0), AppendRows(None, RowsFrom(prefix, config, 0, date))))
  {
    if |config| > 0 {
      var text, row := CommandText(config[0].1), RowFor(prefix, config, 0, date);
      var db1 := ExecSpec(db, text);
      assert MigrateFrom(prefix, prev, config, 0, db, date) == if db1.table.None? then Outcome(Failure(NoTable), db1)
        else MigrateFrom(prefix, prev, config, 1, InsertSpec(db1, row), date);
      assert db1 == Db(db.log + [text], Some([]));
      var db2 := InsertSpec(db1, row);
      assert [] + [row] == [row];
      assert db2 == Db(db.log + [text], Some([row]));
      ExecPhase(prefix, prev, config, 1, db2, date);
      TextsFromCons(config, 0);
      RowsFromCons(prefix, config, 0, date);
      ConsAssociates(db.log, text, TextsFrom(config, 1));
    } else {
      assert TextsFrom(config, 0) == [] && RowsFrom(prefix, config, 0, date) == [];
      assert db.log + [] == db.log;
    }
  }

  /** After a successful run the table records exactly one run per config entry for the prefix, each with the config's hash. */
  lemma RecordedAfterSuccess(prefix: string, db: Db, config: seq<(string, Migration)>, date: string)
    requires Migrate(prefix, db, config, date).result.Success?
    ensures var after := Migrate(prefix, db, config, date).db;
      && |PrevRuns(after, prefix)| == |config|
      && forall j :: 0 <= j < |config| ==> PrevRuns(after, prefix)[j].hash == HashText(CommandText(config[j].1))
  {
    MigrateSuccess(prefix, db, config, date);
    var prev := PrevRuns(db, prefix);
    var n := |prev|;
    var newRows := RowsFrom(prefix, config, n, date);
    var after := Migrate(prefix, db, config, date).db;
    NewRowsHavePrefix(prefix, config, n, date);
    PrevRunsAppend(db, after, newRows, prefix);
    forall j | n <= j < |config| ensures (prev + newRows)[j].hash == HashText(CommandText(config[j].1)) {
      assert (prev + newRows)[j] == newRows[j - n] == RowFor(prefix, config, j, date);
    }
  }

  /** Appending rows that all carry the prefix extends the prefix's recorded runs by exactly those rows. */
  lemma PrevRunsAppend(db: Db, after: Db, newRows: seq<Row>, prefix: string)
    requires after.table == AppendRows(db.table, newRows)
    requires RowsWithPrefix(newRows, prefix) == newRows
    ensures PrevRuns(after, prefix) == PrevRuns(db, prefix) + newRows
  {
    if db.table.Some? {
      RowsWithPrefixAppend(db.table.value, newRows, prefix);
    } else if newRows == [] {
      assert PrevRuns(db, prefix) + newRows == [];
    } else {
      assert after.table == Some(newRows);
      assert PrevRuns(db, prefix) + newRows == newRows;
    }
  }

  /** Running the same config again executes nothing and records nothing. */
  lemma MigrateIdempotent(prefix: string, db: Db, config: seq<(string, Migration)>, date: string, date2: string)
    requires Migrate(prefix, db, config, date).result.Success?
    ensures var after := Migrate(prefix, db, config, date).db;
      Migrate(prefix, after, config, date2) == Outcome(Success(()), after)
  {
    var after := Migrate(prefix, db, config, date).db;
    RecordedAfterSuccess(prefix, db, config, date);
    var prev := PrevRuns(after, prefix);
    CheckPhase(prefix, prev, config, 0, after, date2);
  }

  /**
   * An illustration that the hash sees only the `;`-joined text: two
   * different command lists that join to the same text get the same hash.
   */
  lemma JoinedTextCollision()
    ensures Commands(["a;b"]) != Commands(["a", "b"])
    ensures CommandText(Commands(["a;b"])) == CommandText(Commands(["a", "b"]))
    ensures HashText(CommandText(Commands(["a;b"]))) == HashText(CommandText(Commands(["a", "b"])))
  {
    assert Join(["a", "b"], ";") == "a" + ";" + Join(["b"], ";");
  }

  /** On a fresh database, `prepareSqlite` creates the table and records the initialize migration first. */
  lemma PrepareFresh(migrations: seq<(string, Migration)>, date: string)
    ensures var out := PrepareSpec(Db([], None), Some(migrations), date);
      && |out.db.log| >= 1
      && out.db.log[0] == CommandText(InitMigration)
      && out.db.table.Some? && |out.db.table.value| >= 1
      && out.db.table.value[0] == Row(MigrationKey(InitPrefix, "initalize"), 0, "Initalize migrations table", HashText(CommandText(InitMigration)), date)
  {
    var db := Db([], None);
    assert PrevRuns(db, InitPrefix) == [];
    MigrateSuccessFresh(date);
    var init := Migrate(InitPrefix, db, InitConfig, date);
    var user := Migrate(UserPrefix, init.db, migrations, date);
    if user.result.Success? {
      MigrateSuccess(UserPrefix, init.db, migrations, date);
    } else {
      FailureKeepsPrefix(UserPrefix, init.db, migrations, date);
    }
  }

  /** On a fresh database, a single migration that creates the table runs and is recorded as run 0. */
  lemma FreshSingle(prefix: string, name: string, m: Migration, date: string)
    requires StartsWith(CommandText(m), CreateTablePrefix)
    ensures Migrate(prefix, Db([], None), [(name, m)], date) ==
      Outcome(Success(()), Db([CommandText(m)], Some([Row(MigrationKey(prefix, name), 0, DescriptionOf(m), HashText(CommandText(m)), date)])))
  {
    var db := Db([], None);
    var config := [(name, m)];
    assert PrevRuns(db, prefix) == [];
    var db1 := ExecSpec(db, CommandText(m));
    assert db1.table == Some([]);
    var db2 := InsertSpec(db1, RowFor(prefix, config, 0, date));
    assert [] + [RowFor(prefix, config, 0, date)] == [RowFor(prefix, config, 0, date)];
    assert MigrateFrom(prefix, [], config, 0, db, date) == MigrateFrom(prefix, [], config, 1, db2, date);
  }

  /** The initialize migration's text begins by creating `__teeny_migrations`. */
  lemma InitCreatesTable()
    ensures StartsWith(CommandText(InitMigration), CreateTablePrefix)
  {
    var first := InitMigration.commands[0];
    var rest := first[|CreateTablePrefix|..];
    assert first == CreateTablePrefix + rest;
    assert CommandText(InitMigration) == first + ";" + Join(InitMigration.commands[1..], ";");
    assert CommandText(InitMigration) == CreateTablePrefix + (rest + ";" + Join(InitMigration.commands[1..], ";"));
  }

  lemma MigrateSuccessFresh(date: string)
    ensures Migrate(InitPrefix, Db([], None), InitConfig, date) ==
      Outcome(Success(()), Db([CommandText(InitMigration)], Some([Row(MigrationKey(InitPrefix, "initalize"), 0, "Initalize migrations table", HashText(CommandText(InitMigration)), date)])))
  {
    InitCreatesTable();
    FreshSingle(InitPrefix, "initalize", InitMigration, date);
  }

  /** Whatever a run does, it only appends to the log and to an existing table. */
  lemma {:induction false} MigrateFromExtends(prefix: string, prev: seq<Row>, config: seq<(string, Migration)>, i: nat, db: Db, date: string)
    requires i <= |config|
    ensures var out := MigrateFrom(prefix, prev, config, i, db, date).db;
      && |db.log| <= |out.log| && out.log[..|db.log|] == db.log
      && (db.table.Some? ==> out.table.Some? && |db.table.value| <= |out.table.value| && out.table.value[..|db.table.value|] == db.table.value)
    decreases |config| - i
  {
    if i < |config| {
      var text := CommandText(config[i].1);
      if i < |prev| {
        MigrateFromExtends(prefix, prev, config, i + 1, db, date);
      } else {
        var db1 := ExecSpec(db, text);
        if db1.table.None? {
          assert db1.log[..|db.log|] == db.log;
        } else {
          var db2 := InsertSpec(db1, RowFor(prefix, config, i, date));
          MigrateFromExtends(prefix, prev, config, i + 1, db2, date);
          assert db2.log[..|db.log|] == db.log;
          if db.table.Some? {
            assert db2.table.value[..|db.table.value|] == db.table.value;
          }
        }
      }
    }
  }

  lemma FailureKeepsPrefix(prefix: string, db: Db, config: seq<(string, Migration)>, date: string)
    ensures var out := Migrate(prefix, db, config, date).db;
      && |db.log| <= |out.log| && out.log[..|db.log|] == db.log
      && (db.table.Some? ==> out.table.Some? && |db.table.value| <= |out.table.value| && out.table.value[..|db.table.value|] == db.table.value)
  {
    var prev := PrevRuns(db, prefix);
    if |prev| <= |config| {
      MigrateFromExtends(prefix, prev, config, 0, db, date);
    }
  }

  // ---------------------------------------------------------------- the database

  /** The SQL side of the host storage: the executed-command log and the migrations table. */
  class Database {
    var log: seq<string>
    var table: Option<seq<Row>>

    function State(): Db
      reads this
    {
      Db(log, table)
    }

    constructor ()
      ensures State() == Db([], None)
    {
      log := [];
      table := None;
    }

    method Exec(command: string)
      modifies this
      ensures State() == ExecSpec(old(State()), command)
    {
      log := log + [command];
      if table.None? && StartsWith(command, CreateTablePrefix) {
        table := Some([]);
      }
    }

    /** `SELECT * FROM __teeny_migrations WHERE key LIKE "<prefix>%"`; None where it throws. */
    method SelectByPrefix(prefix: string) returns (rows: Option<seq<Row>>)
      ensures rows.None? <==> table.None?
      ensures rows.Some? ==> rows.value == PrevRuns(State(), prefix)
    {
      if table.None? {
        return None;
      }
      rows := Some(RowsWithPrefix(table.value, prefix));
    }

    /** The INSERT into `__teeny_migrations`; false where it throws for want of the table. */
    method Insert(row: Row) returns (ok: bool)
      modifies this
      ensures ok <==> old(table).Some?
      ensures ok ==> State() == InsertSpec(old(State()), row)
      ensures !ok ==> State() == old(State())
    {
      if table.None? {
        return false;
      }
      table := Some(table.value + [row]);
      ok := true;
    }
  }

  /** `runMigrations(prefix, ctx, migrations)`: validate against the recorded runs, then execute and record the rest. */
  method RunMigrations(db: Database, prefix: string, config: seq<(string, Migration)>, date: string) returns (r: Result<(), MigrationError>)
    modifies db
    ensures Outcome(r, db.State()) == Migrate(prefix, old(db.State()), config, date)
  {
    var prevRuns := db.SelectByPrefix(prefix);
    var prev := if prevRuns.Some? then prevRuns.value else [];
    assert prev == PrevRuns(db.State(), prefix);
    if |prev| > |config| {
      return Failure(MissingEntries);
    }
    var i := 0;
    while i < |config|
      invariant 0 <= i <= |config|
      invariant prev == PrevRuns(old(db.State()), prefix)
      invariant Migrate(prefix, old(db.State()), config, date) == MigrateFrom(prefix, prev, config, i, db.State(), date)
    {
      var commands := CommandText(config[i].1);
      var hash := HashMessage(commands);
      if i < |prev| {
        if prev[i].hash != hash {
          return Failure(HashMismatch);
        }
        i := i + 1;
        continue;
      }
      db.Exec(commands);
      var ok := db.Insert(RowFor(prefix, config, i, date));
      if !ok {
        return Failure(NoTable);
      }
      i := i + 1;
    }
    r := Success(());
  }

  /** `initalizeMigrationsTable`. */
  method InitializeMigrationsTable(db: Database, date: string) returns (r: Result<(), MigrationError>)
    modifies db
    ensures Outcome(r, db.State()) == Migrate(InitPrefix, old(db.State()), InitConfig, date)
  {
    r := RunMigrations(db, InitPrefix, InitConfig, date);
  }

  /** `prepareSqlite(ctx, {migrations})`, with the date string as a parameter; `statements` are ignored. */
  method PrepareSqlite(db: Database, migrations: Option<seq<(string, Migration)>>, date: string) returns (r: Result<(), MigrationError>)
    modifies db
    ensures Outcome(r, db.State()) == PrepareSpec(old(db.State()), migrations, date)
  {
    if migrations.None? {
      return Success(());
    }
    r := InitializeMigrationsTable(db, date);
    if r.Failure? {
      return;
    }
    r := RunMigrations(db, UserPrefix, migrations.value, date);
  }
}
