/**
 The tracked migration runner: loading a directory of migration files, and the generated
 script read as one transaction on the migration history and the schema.
 */
module Migrations {
  import opened Prelude
  import opened MigrationText

  type Raw = seq<bv8>

  datatype File = File(name: string, raw: Raw)

  /** What the runner takes from Python: UTF-8 decoding, SHA-256 in hexadecimal and the class \w. */
  datatype Python = Python(decode: Raw -> Option<string>, sha256: Raw -> string, isWord: char -> bool)

  datatype Migration = Migration(version: nat, name: string, digest: string, body: string)

  datatype Row = Row(name: string, digest: string, adopted: bool)

  /** A state of the public schema; what a migration body does to it is foreign. */
  type Schema = int

  /** What psql sends one at a time. END, ABORT and COMMIT AND CHAIN are spelled with these. */
  datatype Statement = Sql(text: string) | Begin | Commit | Rollback

  /**
   `parse` splits a body into statements and `exec` is the effect of a single one; `tables`
   counts the public tables, `allEmpty` says they hold no row, `coreTests` runs the core checks.
   */
  datatype Engine = Engine(
    parse: string -> seq<Statement>,
    exec: (Schema, string) -> Option<Schema>,
    tables: Schema -> nat,
    allEmpty: Schema -> bool,
    coreTests: Schema -> bool)

  /** `executed` is a history variable: the migrations whose body ran to its end before its row was inserted. */
  datatype Db = Db(tracked: bool, history: map<nat, Row>, schema: Schema, executed: seq<Migration>)

  datatype Command = Apply | Status | AdoptTested

  datatype Invocation = Invocation(command: Command, database: string, files: seq<File>)

  const SUFFIX := ".up.sql"
  const TEST_DATABASE := "meshalot_test"
  const CORE_TABLES := 13

  const TESTED: map<string, string> := map[
    "000001_core.up.sql" := "3b7a8cf883d1997fe4e9027c4a909bb10ee14fc72a2055f9ab42c9401f0bc8fc",
    "000002_audit_and_ledger.up.sql" := "e4327b9223dfe4719b1d06bc11477a6359b0b6a360cae7bc9bdbc0f0bc1b56ed"]

  // ---------------------------------------------------------------------
  // Loading
  // ---------------------------------------------------------------------

  predicate IsDigit(c: char) {
    '0' <= c <= '9'
  }

  /** Six digits, an underscore, a non-empty name, the suffix. */
  predicate ValidName(name: string) {
    && |name| > 7 + |SUFFIX| && name[|name| - |SUFFIX|..] == SUFFIX && name[6] == '_'
    && (forall i :: 0 <= i < 6 ==> IsDigit(name[i]))
    && (forall i :: 7 <= i < |name| - |SUFFIX| ==> IsDigit(name[i]) || 'a' <= name[i] <= 'z' || name[i] == '_')
  }

  function Number(digits: string): nat
    requires forall i :: 0 <= i < |digits| ==> IsDigit(digits[i])
  {
    if digits == "" then 0
    else
      assert IsDigit(digits[|digits| - 1]);
      10 * Number(digits[..|digits| - 1]) + (digits[|digits| - 1] - '0') as nat
  }

  function VersionOf(name: string): nat {
    if ValidName(name) then Number(name[..6]) else 0
  }

  /** The body of a file whose bytes decode to an accepted text. */
  function BodyOfFile(py: Python, f: File): Option<string> {
    match py.decode(f.raw)
    case None => None
    case Some(text) => BodyOf(py.isWord, text)
  }

  /** One entry of the list: version, name, hash of the whole file, body. */
  function MigrationOf(py: Python, f: File): Option<Migration> {
    if !ValidName(f.name) || BodyOfFile(py, f).None? then None
    else Some(Migration(VersionOf(f.name), f.name, py.sha256(f.raw), BodyOfFile(py, f).value))
  }

  ghost predicate LoadedAs(py: Python, files: seq<File>, ms: seq<Migration>) {
    && |ms| == |files| > 0
    && forall i :: 0 <= i < |files| ==> MigrationOf(py, files[i]) == Some(ms[i]) && ms[i].version == i + 1
  }

  function Loaded(py: Python, files: seq<File>): (r: Option<seq<Migration>>)
    ensures r.Some? ==> LoadedAs(py, files, r.value)
    ensures r.None? ==> forall ms :: !LoadedAs(py, files, ms)
  {
    if files != []
       && forall i :: 0 <= i < |files| ==>
            MigrationOf(py, files[i]).Some? && MigrationOf(py, files[i]).value.version == i + 1
    then
      Some(seq(|files|, i requires 0 <= i < |files| && MigrationOf(py, files[i]).Some? =>
                 MigrationOf(py, files[i]).value))
    else
      None
  }

  /** Every name and text must be acceptable, and the versions exactly 1, 2, ..., one per file. */
  method LoadMigrations(py: Python, files: seq<File>) returns (r: Option<seq<Migration>>)
    ensures r.Some? ==> LoadedAs(py, files, r.value)
    ensures r.None? ==> forall ms :: !LoadedAs(py, files, ms)
    ensures r == Loaded(py, files)
  {
    hide VersionOf, ValidName, BodyOf;
    var migrations: seq<Migration> := [];
    var i := 0;
    while i < |files|
      invariant 0 <= i <= |files| && |migrations| == i
      invariant forall k :: 0 <= k < i ==> MigrationOf(py, files[k]) == Some(migrations[k])
    {
      var file := files[i];
      if !ValidName(file.name) { return None; }
      var text := py.decode(file.raw);
      if text.None? { return None; }
      var body := BodyOf(py.isWord, text.value);
      if body.None? { return None; }
      migrations := migrations + [Migration(VersionOf(file.name), file.name, py.sha256(file.raw), body.value)];
      i := i + 1;
    }
    if migrations == [] { return None; }
    i := 0;
    while i < |migrations|
      invariant 0 <= i <= |migrations|
      invariant forall k :: 0 <= k < i ==> migrations[k].version == k + 1
    {
      if migrations[i].version != i + 1 { return None; }
      i := i + 1;
    }
    assert LoadedAs(py, files, migrations) && Loaded(py, files).Some?;
    assert migrations == Loaded(py, files).value;
    return Some(migrations);
  }

  // ---------------------------------------------------------------------
  // A successful run: one transaction
  // ---------------------------------------------------------------------

  /** Every recorded row is expected with the same name and hash, and nothing up to the newest row is missing. */
  predicate HistoryVerified(history: map<nat, Row>, ms: seq<Migration>) {
    && (forall v :: v in history ==>
          1 <= v <= |ms| && history[v].name == ms[v - 1].name && history[v].digest == ms[v - 1].digest)
    && (forall v, w :: v in history && 1 <= w <= v ==> w in history)
  }

  /** The UNIQUE constraint on filename. */
  predicate NameTaken(history: map<nat, Row>, name: string) {
    exists v :: v in history && history[v].name == name
  }

  /** A body that runs to its end inside the transaction. */
  function RunBody(e: Engine, schema: Schema, ss: seq<Statement>): Option<Schema> {
    if ss == [] then Some(schema)
    else
      match RunBody(e, schema, ss[..|ss| - 1])
      case None => None
      case Some(mid) =>
        match ss[|ss| - 1]
        case Sql(text) => e.exec(mid, text)
        case Begin => Some(mid)  // only a warning
        case _ => None
  }

  function WithRow(db: Db, m: Migration): Db {
    db.(history := db.history[m.version := Row(m.name, m.digest, false)], executed := db.executed + [m])
  }

  /** One `if pending` block; the body and its history row belong together. */
  function ApplyOne(e: Engine, db: Db, m: Migration): Option<Db> {
    if m.version in db.history then Some(db)
    else
      match RunBody(e, db.schema, e.parse(m.body))
      case None => None
      case Some(schema) =>
        if NameTaken(db.history, m.name) then None else Some(WithRow(db.(schema := schema), m))
  }

  function ApplyAll(e: Engine, db: Db, ms: seq<Migration>): Option<Db> {
    if ms == [] then Some(db)
    else
      match ApplyAll(e, db, ms[..|ms| - 1])
      case None => None
      case Some(mid) => ApplyOne(e, mid, ms[|ms| - 1])
  }

  /** The checks before the first body. */
  predicate Admitted(e: Engine, db: Db, ms: seq<Migration>) {
    HistoryVerified(db.history, ms) && (db.history == map[] ==> e.tables(db.schema) == 0)
  }

  function ApplyCommand(e: Engine, db: Db, ms: seq<Migration>): Option<Db> {
    if !Admitted(e, db, ms) then None else ApplyAll(e, db.(tracked := true), ms)
  }

  // ---------------------------------------------------------------------
  // Any run: the session, statement by statement
  // ---------------------------------------------------------------------

  /**
   The script's session: what is committed, what it sees, whether a transaction is open, whether
   the temporary table of expected migrations, dropped with the transaction it was created in, is
   still there, and whether a statement failed, after which psql stops.
   */
  datatype Session = Session(committed: Db, working: Db, open: bool, expected: bool, failed: bool)

  /** Outside a transaction a statement commits by itself. */
  function Write(t: Session, db: Db): Session {
    t.(working := db, committed := if t.open then t.committed else db)
  }

  function Perform(e: Engine, t: Session, s: Statement): Session {
    if t.failed then t
    else
      match s
      case Sql(text) =>
        (match e.exec(t.working.schema, text)
         case None => t.(failed := true)
         case Some(schema) => Write(t, t.working.(schema := schema)))
      case Begin => t.(open := true)
      case Commit => if t.open then t.(committed := t.working, open := false, expected := false) else t
      case Rollback => if t.open then t.(working := t.committed, open := false, expected := false) else t
  }

  function PerformAll(e: Engine, t: Session, ss: seq<Statement>): Session {
    if ss == [] then t else Perform(e, PerformAll(e, t, ss[..|ss| - 1]), ss[|ss| - 1])
  }

  /** INSERT into the history, which needs the history table and both unique constraints. */
  function Register(t: Session, m: Migration): Session {
    if t.failed then t
    else if !t.working.tracked || m.version in t.working.history || NameTaken(t.working.history, m.name)
    then t.(failed := true)
    else Write(t, WithRow(t.working, m))
  }

  function ApplyStep(e: Engine, t: Session, m: Migration): Session {
    if t.failed then t
    else if !t.working.tracked then t.(failed := true)
    else if m.version in t.working.history then t
    else Register(PerformAll(e, t, e.parse(m.body)), m)
  }

  function Applied(e: Engine, t: Session, ms: seq<Migration>): Session {
    if ms == [] then t else ApplyStep(e, Applied(e, t, ms[..|ms| - 1]), ms[|ms| - 1])
  }

  /** After the checks: the history table exists, so far in the open transaction only. */
  function Opened(db: Db): Session {
    Session(db, db.(tracked := true), true, true, false)
  }

  /** The closing report reads the temporary table; only then comes COMMIT. */
  predicate Succeeds(t: Session) {
    !t.failed && t.expected
  }

  /** What stays in the database: psql's exit rolls back what is open. */
  function Remains(t: Session): Db {
    if Succeeds(t) then t.working else t.committed
  }

  /** The database after an apply run, successful or not. */
  function AfterApply(e: Engine, db: Db, ms: seq<Migration>): Db {
    if Admitted(e, db, ms) then Remains(Applied(e, Opened(db), ms)) else db
  }

  function AdoptedHistory(ms: seq<Migration>): map<nat, Row> {
    if ms == [] then map[]
    else AdoptedHistory(ms[..|ms| - 1])[|ms| := Row(ms[|ms| - 1].name, ms[|ms| - 1].digest, true)]
  }

  function DigestsOf(ms: seq<Migration>): map<string, string> {
    if ms == [] then map[]
    else DigestsOf(ms[..|ms| - 1])[ms[|ms| - 1].name := ms[|ms| - 1].digest]
  }

  function AdoptCommand(e: Engine, db: Db, database: string, ms: seq<Migration>): Option<Db> {
    if database != TEST_DATABASE || DigestsOf(ms) != TESTED || !HistoryVerified(db.history, ms) then None
    else if db.history != map[] then Some(db.(tracked := true))
    else if e.tables(db.schema) != CORE_TABLES || !e.allEmpty(db.schema) || !e.coreTests(db.schema) then None
    else Some(db.(tracked := true, history := AdoptedHistory(ms)))
  }

  /** The outcome of one run of the tool: the committed state, or nothing when it failed. */
  function Outcome(e: Engine, py: Python, db: Db, inv: Invocation): Option<Db> {
    match Loaded(py, inv.files)
    case None => None
    case Some(ms) =>
      match inv.command
      case Apply => ApplyCommand(e, db, ms)
      case Status => if db.tracked && !HistoryVerified(db.history, ms) then None else Some(db)
      case AdoptTested => AdoptCommand(e, db, inv.database, ms)
  }

  /** What a run leaves behind; an apply run that fails leaves what its session had committed. */
  function After(e: Engine, py: Python, db: Db, inv: Invocation): Db {
    match Loaded(py, inv.files)
    case None => db
    case Some(ms) =>
      match inv.command
      case Apply => AfterApply(e, db, ms)
      case Status => db
      case AdoptTested => if Outcome(e, py, db, inv).Some? then Outcome(e, py, db, inv).value else db
  }

  function RunAll(e: Engine, py: Python, db: Db, invs: seq<Invocation>): Db {
    if invs == [] then db else After(e, py, RunAll(e, py, db, invs[..|invs| - 1]), invs[|invs| - 1])
  }

  /** The committed state of the database, and the session of the script on it. */
  class Target {
    var tracked: bool
    var history: map<nat, Row>
    var schema: Schema
    var executed: seq<Migration>

    function Contents(): Db
      reads this
    {
      Db(tracked, history, schema, executed)
    }

    constructor (schema: Schema)
      ensures Contents() == Db(false, map[], schema, [])
    {
      tracked, history, this.schema, executed := false, map[], schema, [];
    }

    method Publish(db: Db)
      modifies this
      ensures Contents() == db
    {
      tracked, history, schema, executed := db.tracked, db.history, db.schema, db.executed;
    }

    /** One body, statement by statement; `working` is what the session sees. */
    method RunStatements(e: Engine, ss: seq<Statement>, seen: Db, inTx: bool, hasExpected: bool)
      returns (working: Db, open: bool, expected: bool, failed: bool)
      modifies this
      ensures PerformAll(e, Session(old(Contents()), seen, inTx, hasExpected, false), ss)
              == Session(Contents(), working, open, expected, failed)
    {
      ghost var start := Session(Contents(), seen, inTx, hasExpected, false);
      working, open, expected, failed := seen, inTx, hasExpected, false;
      var i := 0;
      while i < |ss|
        invariant 0 <= i <= |ss| && !failed
        invariant PerformAll(e, start, ss[..i]) == Session(Contents(), working, open, expected, failed)
      {
        assert ss[..i + 1][..i] == ss[..i];
        match ss[i] {
          case Sql(text) =>
            var result := e.exec(working.schema, text);
            if result.None? {
              failed := true;
              FailedStays(e, start, ss, i + 1);
              return;
            }
            working := working.(schema := result.value);
            if !open { Publish(working); }
          case Begin =>
            open := true;
          case Commit =>
            if open {
              Publish(working);
              open, expected := false, false;
            }
          case Rollback =>
            if open { working, open, expected := Contents(), false, false; }
        }
        i := i + 1;
      }
      assert ss[..|ss|] == ss;
    }

    /** One `if pending` block. */
    method RunMigration(e: Engine, m: Migration, seen: Db, inTx: bool, hasExpected: bool)
      returns (working: Db, open: bool, expected: bool, failed: bool)
      modifies this
      ensures ApplyStep(e, Session(old(Contents()), seen, inTx, hasExpected, false), m)
              == Session(Contents(), working, open, expected, failed)
    {
      hide NameTaken, PerformAll, WithRow;
      working, open, expected, failed := seen, inTx, hasExpected, false;
      if !working.tracked {
        failed := true;
      } else if m.version !in working.history {
        working, open, expected, failed := RunStatements(e, e.parse(m.body), working, open, expected);
        if failed { return; }
        if !working.tracked || m.version in working.history || NameTaken(working.history, m.name) {
          failed := true;
          return;
        }
        working := WithRow(working, m);
        if !open { Publish(working); }
      }
    }

    method ApplyMigrations(e: Engine, ms: seq<Migration>) returns (ok: bool)
      modifies this
      ensures ok <==> ApplyCommand(e, old(Contents()), ms).Some?
      ensures ok ==> ApplyCommand(e, old(Contents()), ms) == Some(Contents())
      ensures Contents() == AfterApply(e, old(Contents()), ms)
    {
      hide HistoryVerified, ApplyStep, ApplyAll;
      ghost var db := Contents();
      SessionRefines(e, db, ms);
      if !HistoryVerified(history, ms) { return false; }
      if history == map[] && e.tables(schema) > 0 { return false; }
      var working, open, expected, failed := Contents().(tracked := true), true, true, false;
      var i := 0;
      while i < |ms|
        invariant 0 <= i <= |ms| && !failed
        invariant Applied(e, Opened(db), ms[..i]) == Session(Contents(), working, open, expected, failed)
      {
        assert ms[..i + 1][..i] == ms[..i];
        working, open, expected, failed := RunMigration(e, ms[i], working, open, expected);
        if failed {
          StopStays(e, Opened(db), ms, i + 1);
          return false;
        }
        i := i + 1;
      }
      assert ms[..|ms|] == ms;
      if !expected { return false; }
      Publish(working);
      return true;
    }
  }

  lemma {:induction false} FailedStays(e: Engine, t: Session, ss: seq<Statement>, i: nat)
    requires i <= |ss| && PerformAll(e, t, ss[..i]).failed
    ensures PerformAll(e, t, ss) == PerformAll(e, t, ss[..i])
    decreases |ss|
  {
    if i < |ss| {
      assert ss[..|ss| - 1][..i] == ss[..i];
      FailedStays(e, t, ss[..|ss| - 1], i);
    } else {
      assert ss[..i] == ss;
    }
  }

  lemma {:induction false} StopStays(e: Engine, t: Session, ms: seq<Migration>, i: nat)
    requires i <= |ms| && Applied(e, t, ms[..i]).failed
    ensures Applied(e, t, ms) == Applied(e, t, ms[..i])
    decreases |ms|
  {
    if i < |ms| {
      assert ms[..|ms| - 1][..i] == ms[..i];
      StopStays(e, t, ms[..|ms| - 1], i);
    } else {
      assert ms[..i] == ms;
    }
  }

  // ---------------------------------------------------------------------
  // The session succeeds exactly as one transaction
  // ---------------------------------------------------------------------

  /** Still in the transaction that the script opened. */
  predicate Intact(t: Session) {
    t.open && t.expected && !t.failed
  }

  lemma {:induction false} BodyRefines(e: Engine, t: Session, ss: seq<Statement>)
    requires Intact(t)
    ensures var r := RunBody(e, t.working.schema, ss);
            if r.Some? then PerformAll(e, t, ss) == t.(working := t.working.(schema := r.value))
            else !Succeeds(PerformAll(e, t, ss))
  {
    if ss != [] { BodyRefines(e, t, ss[..|ss| - 1]); }
  }

  lemma StepRefines(e: Engine, t: Session, m: Migration)
    requires Intact(t) && t.working.tracked
    ensures var r := ApplyOne(e, t.working, m);
            if r.Some? then r.value.tracked && ApplyStep(e, t, m) == t.(working := r.value)
            else !Succeeds(ApplyStep(e, t, m))
  {
    hide NameTaken, PerformAll, RunBody;
    BodyRefines(e, t, e.parse(m.body));
  }

  lemma {:induction false} NoSecondSuccess(e: Engine, t: Session, ss: seq<Statement>)
    requires !Succeeds(t)
    ensures !Succeeds(PerformAll(e, t, ss))
  {
    if ss != [] { NoSecondSuccess(e, t, ss[..|ss| - 1]); }
  }

  /**
   An apply run succeeds exactly when all pending bodies run to their end inside the script's own
   transaction, and then leaves exactly what they and their rows make of the database.
   */
  lemma {:induction false} SessionRefines(e: Engine, db: Db, ms: seq<Migration>)
    ensures var r, t := ApplyAll(e, db.(tracked := true), ms), Applied(e, Opened(db), ms);
            if r.Some? then r.value.tracked && t == Opened(db).(working := r.value) else !Succeeds(t)
  {
    hide ApplyOne, ApplyStep;
    if ms != [] {
      var init, m := ms[..|ms| - 1], ms[|ms| - 1];
      SessionRefines(e, db, init);
      var t := Applied(e, Opened(db), init);
      if Intact(t) && t.working.tracked && ApplyAll(e, db.(tracked := true), init).Some? {
        StepRefines(e, t, m);
      } else {
        StepNoSecondSuccess(e, t, m);
      }
    }
  }

  lemma StepNoSecondSuccess(e: Engine, t: Session, m: Migration)
    requires !Succeeds(t)
    ensures !Succeeds(ApplyStep(e, t, m))
  {
    hide NameTaken, PerformAll;
    NoSecondSuccess(e, t, e.parse(m.body));
  }

  // ---------------------------------------------------------------------
  // The invariant of a sound history
  // ---------------------------------------------------------------------

  /** Rows 1..k, each under the version its name carries. */
  ghost predicate Contiguous(history: map<nat, Row>) {
    && (forall v :: v in history <==> 1 <= v <= |history|)
    && (forall v :: v in history ==> ValidName(history[v].name) && VersionOf(history[v].name) == v)
  }

  ghost predicate HasRun(executed: seq<Migration>, v: nat) {
    exists i :: 0 <= i < |executed| && executed[i].version == v
  }

  /** The row that records an executed migration, with its name and hash. */
  ghost predicate Recorded(history: map<nat, Row>, m: Migration) {
    m.version in history && history[m.version] == Row(m.name, m.digest, false)
  }

  /**
   The bodies ran once each, in version order; every executed migration is recorded under its
   own name and hash, and every row that was not adopted stands for an executed migration.
   */
  ghost predicate ExecutedOnce(db: Db) {
    && (forall i, j :: 0 <= i < j < |db.executed| ==> db.executed[i].version < db.executed[j].version)
    && (forall i :: 0 <= i < |db.executed| ==> Recorded(db.history, db.executed[i]))
    && (forall v :: v in db.history && !db.history[v].adopted ==> HasRun(db.executed, v))
  }

  ghost predicate Inv(db: Db) {
    Contiguous(db.history) && ExecutedOnce(db) && (!db.tracked ==> db.history == map[])
  }

  ghost predicate WellLoaded(ms: seq<Migration>) {
    forall i :: 0 <= i < |ms| ==> ms[i].version == i + 1 && ValidName(ms[i].name) && VersionOf(ms[i].name) == i + 1
  }
}
