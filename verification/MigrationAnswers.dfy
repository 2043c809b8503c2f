/** What each command of the migration tool answers, and what it writes when it succeeds. */
module MigrationAnswers {
  import opened Prelude
  import opened MigrationText
  import opened Migrations
  import opened MigrationContainment
  import opened MigrationHistory

  // ---------------------------------------------------------------------
  // Names and loading
  // ---------------------------------------------------------------------

  predicate StemChar(c: char) {
    '0' <= c <= '9' || 'a' <= c <= 'z' || c == '_'
  }

  ghost predicate NameParts(name: string, digits: string, stem: string) {
    && name == digits + "_" + stem + ".up.sql"
    && |digits| == 6 && (forall i :: 0 <= i < 6 ==> '0' <= digits[i] <= '9')
    && stem != "" && (forall i :: 0 <= i < |stem| ==> StemChar(stem[i]))
  }

  lemma PartsAreValid(name: string, digits: string, stem: string)
    requires NameParts(name, digits, stem)
    ensures ValidName(name) && name[..6] == digits
  {
    assert name[|name| - |SUFFIX|..] == SUFFIX;
    forall i | 7 <= i < |name| - |SUFFIX|
      ensures IsDigit(name[i]) || 'a' <= name[i] <= 'z' || name[i] == '_'
    {
      assert name[i] == stem[i - 7];
    }
  }

  /** A name is valid exactly when it is six digits, an underscore, a stem and the suffix. */
  lemma NameForm(name: string)
    ensures ValidName(name) <==> exists digits, stem :: NameParts(name, digits, stem)
  {
    if ValidName(name) {
      var digits, stem := name[..6], name[7..|name| - |SUFFIX|];
      assert name == digits + "_" + stem + ".up.sql";
      assert NameParts(name, digits, stem);
    }
    forall digits, stem | NameParts(name, digits, stem) ensures ValidName(name) {
      PartsAreValid(name, digits, stem);
    }
  }

  function Digit(c: char): int {
    c as int - 48
  }

  /** The version is the decimal number of the six digits. */
  lemma VersionIsDecimal(name: string)
    requires ValidName(name)
    ensures VersionOf(name) == 100000 * Digit(name[0]) + 10000 * Digit(name[1]) + 1000 * Digit(name[2])
                               + 100 * Digit(name[3]) + 10 * Digit(name[4]) + Digit(name[5])
  {
    var d := name[..6];
    NumberStep(d, 5);
    NumberStep(d, 4);
    NumberStep(d, 3);
    NumberStep(d, 2);
    NumberStep(d, 1);
    NumberStep(d, 0);
    assert d[..6] == d && Number(d[..0]) == 0;
  }

  lemma NumberStep(d: string, n: nat)
    requires n < |d| && forall i :: 0 <= i < |d| ==> IsDigit(d[i])
    ensures Number(d[..n + 1]) == 10 * Number(d[..n]) + Digit(d[n])
  {
    assert d[..n + 1][..n] == d[..n];
  }

  /** A loaded migration carries its file's number, name, the hash of all its bytes and the body of its text. */
  lemma LoadedCarries(py: Python, files: seq<File>, i: nat)
    requires Loaded(py, files).Some? && i < |files|
    ensures var m, text := Loaded(py, files).value[i], py.decode(files[i].raw);
            && |Loaded(py, files).value| == |files|
            && m.version == i + 1 && m.name == files[i].name && m.digest == py.sha256(files[i].raw)
            && text.Some? && BodyOf(py.isWord, text.value) == Some(m.body)
  {
    assert MigrationOf(py, files[i]) == Some(Loaded(py, files).value[i]);
  }

  // ---------------------------------------------------------------------
  // Apply
  // ---------------------------------------------------------------------

  /** The first rows of the history are those of the first files. */
  ghost predicate Matches(history: map<nat, Row>, ms: seq<Migration>) {
    forall v :: v in history ==>
      1 <= v <= |ms| && history[v].name == ms[v - 1].name && history[v].digest == ms[v - 1].digest
  }

  /** A body runs statement by statement; BEGIN inside the transaction is idle, COMMIT and ROLLBACK leave no result. */
  lemma BodyRunsInOrder(e: Engine, schema: Schema, ss: seq<Statement>, s: Statement)
    ensures RunBody(e, schema, []) == Some(schema)
    ensures RunBody(e, schema, ss).None? ==> RunBody(e, schema, ss + [s]).None?
    ensures RunBody(e, schema, ss).Some? && s.Sql? ==>
            RunBody(e, schema, ss + [s]) == e.exec(RunBody(e, schema, ss).value, s.text)
    ensures s == Begin ==> RunBody(e, schema, ss + [s]) == RunBody(e, schema, ss)
    ensures s == Commit || s == Rollback ==> RunBody(e, schema, ss + [s]).None?
  {
    assert (ss + [s])[..|ss|] == ss;
  }

  /** `db'` is `db` after the pending ones of the first `n` migrations: rows, executions and schema. */
  ghost predicate Caught(e: Engine, db: Db, db': Db, ms: seq<Migration>, n: nat) {
    var k := |db.history|;
    && k <= n <= |ms| && db'.tracked && db'.executed == db.executed + ms[k..n]
    && Some(db'.schema) == Execute(e, db.schema, ms[k..n])
    && (forall v :: v in db'.history <==> 1 <= v <= n)
    && (forall v :: 1 <= v <= k ==> v in db.history && db'.history[v] == db.history[v])
    && (forall v :: k < v <= n ==> db'.history[v] == Row(ms[v - 1].name, ms[v - 1].digest, false))
  }

  lemma CaughtUp(e: Engine, db: Db, mid: Db, ms: seq<Migration>, n: nat)
    requires n < |ms| && Caught(e, db, mid, ms, n) && ms[n].version == n + 1 && !NameTaken(mid.history, ms[n].name)
    ensures var r := ApplyOne(e, mid, ms[n]);
            if r.Some? then Caught(e, db, r.value, ms, n + 1)
            else Execute(e, db.schema, ms[|db.history|..n + 1]).None?
  {
    hide NameTaken, RunBody, Execute;
    var k := |db.history|;
    ExecuteOneMore(e, db.schema, ms, k, n);
    assert db.executed + ms[k..n + 1] == db.executed + ms[k..n] + [ms[n]];
  }

  lemma ExecuteOneMore(e: Engine, schema: Schema, ms: seq<Migration>, k: nat, n: nat)
    requires k <= n < |ms|
    ensures Execute(e, schema, ms[k..n + 1]) ==
            match Execute(e, schema, ms[k..n]) case None => None case Some(mid) => RunBody(e, mid, e.parse(ms[n].body))
  {
    hide RunBody;
    var pending := ms[k..n + 1];
    assert pending[..|pending| - 1] == ms[k..n] && pending[|pending| - 1] == ms[n];
  }

  lemma TrackedIsSound(db: Db)
    requires Inv(db)
    ensures Inv(db.(tracked := true))
  {
  }

  lemma {:induction false} ApplyPrefix(e: Engine, db: Db, ms: seq<Migration>, n: nat)
    requires Inv(db) && db.tracked && WellLoaded(ms) && |db.history| <= n <= |ms|
    ensures var r := ApplyAll(e, db, ms[..n]);
            if r.Some? then Inv(r.value) && |r.value.history| == n && Caught(e, db, r.value, ms, n)
            else Execute(e, db.schema, ms[|db.history|..n]).None?
  {
    hide ValidName, VersionOf, ExecutedOnce, Caught, ApplyOne, NameTaken, Execute;
    var k := |db.history|;
    if n == k {
      RecordedIsSkipped(e, db, ms[..n]);
      CaughtAtFirst(e, db, ms);
    } else {
      ApplyPrefix(e, db, ms, n - 1);
      assert ms[..n][..n - 1] == ms[..n - 1];
      if ApplyAll(e, db, ms[..n - 1]).Some? {
        var mid := ApplyAll(e, db, ms[..n - 1]).value;
        NextIsNew(mid, ms[n - 1]);
        CaughtUp(e, db, mid, ms, n - 1);
        CaughtIsTracked(e, db, mid, ms, n - 1);
        if ApplyOne(e, mid, ms[n - 1]).Some? { ApplyOneKeepsInv(e, mid, ms[n - 1]); }
      } else {
        ExecuteOneMore(e, db.schema, ms, k, n - 1);
      }
    }
  }

  lemma CaughtAtFirst(e: Engine, db: Db, ms: seq<Migration>)
    requires Inv(db) && db.tracked && |db.history| <= |ms|
    ensures Caught(e, db, db, ms, |db.history|)
  {
    hide ExecutedOnce, ValidName, VersionOf;
    assert ms[|db.history|..|db.history|] == [];
  }

  lemma CaughtIsTracked(e: Engine, db: Db, db': Db, ms: seq<Migration>, n: nat)
    requires Caught(e, db, db', ms, n)
    ensures db'.tracked
  {
  }

  /** The recorded rows are those of the first files, and an untracked database has no tables. */
  ghost predicate MayApply(e: Engine, db: Db, ms: seq<Migration>) {
    Matches(db.history, ms) && |db.history| <= |ms| && (|db.history| == 0 ==> e.tables(db.schema) == 0)
  }

  /**
   An apply run succeeds exactly when it may and the bodies after the recorded ones execute one
   after another; it then records exactly these and leaves the schema they make.
   */
  lemma ApplyRunsPending(e: Engine, db: Db, ms: seq<Migration>)
    requires Inv(db) && WellLoaded(ms)
    ensures ApplyCommand(e, db, ms).Some? <==>
              MayApply(e, db, ms) && Execute(e, db.schema, ms[|db.history|..]).Some?
    ensures ApplyCommand(e, db, ms).Some? ==> Caught(e, db, ApplyCommand(e, db, ms).value, ms, |ms|)
  {
    hide ValidName, VersionOf, ExecutedOnce, ApplyAll, Execute;
    if Matches(db.history, ms) {
      ContiguousHasNoGap(db.history, ms);
      WithinFiles(db.history, ms);
      TrackedIsSound(db);
      ApplyPrefix(e, db.(tracked := true), ms, |ms|);
      assert ms[..|ms|] == ms && ms[|db.history|..|ms|] == ms[|db.history|..];
    }
  }

  // ---------------------------------------------------------------------
  // Status and adoption
  // ---------------------------------------------------------------------

  /** A status run reports success on an untracked database or when the recorded rows are those of the first files. */
  lemma StatusAnswer(e: Engine, py: Python, db: Db, inv: Invocation)
    requires Inv(db) && inv.command == Status
    ensures Outcome(e, py, db, inv) ==
            if Loaded(py, inv.files).Some? && (!db.tracked || Matches(db.history, Loaded(py, inv.files).value))
            then Some(db) else None
  {
    hide Loaded;
    if Loaded(py, inv.files).Some? && Matches(db.history, Loaded(py, inv.files).value) {
      ContiguousHasNoGap(db.history, Loaded(py, inv.files).value);
    }
  }

  lemma {:induction false} DigestsAreThose(ms: seq<Migration>)
    requires forall i, j :: 0 <= i < j < |ms| ==> ms[i].name != ms[j].name
    ensures forall i :: 0 <= i < |ms| ==> ms[i].name in DigestsOf(ms) && DigestsOf(ms)[ms[i].name] == ms[i].digest
    ensures forall name :: name in DigestsOf(ms) ==> exists i :: 0 <= i < |ms| && ms[i].name == name
  {
    if ms != [] {
      var init, m := ms[..|ms| - 1], ms[|ms| - 1];
      DigestsAreThose(init);
      forall name | name in DigestsOf(ms) ensures exists i :: 0 <= i < |ms| && ms[i].name == name {
        if name == m.name {
          assert ms[|ms| - 1].name == name;
        } else {
          assert name in DigestsOf(init);
          var i :| 0 <= i < |init| && init[i].name == name;
          assert ms[i].name == name;
        }
      }
    }
  }

  const CORE_NAME := "000001_core.up.sql"
  const LEDGER_NAME := "000002_audit_and_ledger.up.sql"
  const CORE_HASH := "3b7a8cf883d1997fe4e9027c4a909bb10ee14fc72a2055f9ab42c9401f0bc8fc"
  const LEDGER_HASH := "e4327b9223dfe4719b1d06bc11477a6359b0b6a360cae7bc9bdbc0f0bc1b56ed"

  /** These are the two files that adoption admits. */
  ghost predicate TheTested(ms: seq<Migration>) {
    && |ms| == 2 && ms[0].name == CORE_NAME && ms[0].digest == CORE_HASH
    && ms[1].name == LEDGER_NAME && ms[1].digest == LEDGER_HASH
  }

  lemma NamesDiffer(ms: seq<Migration>)
    requires WellLoaded(ms)
    ensures forall i, j :: 0 <= i < j < |ms| ==> ms[i].name != ms[j].name
  {
    hide ValidName, VersionOf;
  }

  lemma CoreName()
    ensures ValidName(CORE_NAME) && VersionOf(CORE_NAME) == 1
  {
    assert NameParts(CORE_NAME, "000001", "core");
    PartsAreValid(CORE_NAME, "000001", "core");
    SmallNumber("000001", 1);
  }

  lemma LedgerName()
    ensures ValidName(LEDGER_NAME) && VersionOf(LEDGER_NAME) == 2
  {
    LedgerParts();
    hide NameParts, ValidName, Number;
    PartsAreValid(LEDGER_NAME, "000002", "audit_and_ledger");
    SmallNumber("000002", 2);
  }

  lemma LedgerParts()
    ensures NameParts(LEDGER_NAME, "000002", "audit_and_ledger")
  {
  }

  lemma TestedPairs()
    ensures TESTED == map[CORE_NAME := CORE_HASH, LEDGER_NAME := LEDGER_HASH]
  {
  }

  /** A map with exactly two keys is decided by its values there. */
  lemma PairsDecide(m: map<string, string>, a: string, x: string, b: string, y: string)
    requires a != b
    ensures m == map[a := x, b := y] <==> m.Keys == {a, b} && m[a] == x && m[b] == y
  {
    if m.Keys == {a, b} && m[a] == x && m[b] == y {
      assert m == map[a := x, b := y];
    }
  }

  lemma OnlyTwoFiles(ms: seq<Migration>, a: string, b: string)
    requires WellLoaded(ms) && VersionOf(a) == 1 && VersionOf(b) == 2
    requires forall i :: 0 <= i < |ms| ==> ms[i].name in {a, b}
    requires exists i :: 0 <= i < |ms| && ms[i].name == b
    ensures |ms| == 2 && ms[0].name == a && ms[1].name == b
  {
    hide ValidName, VersionOf;
    forall i | 0 <= i < |ms| ensures ms[i].version <= 2 {
      assert ms[i].name in {a, b};
    }
    assert ms[|ms| - 1].version <= 2;
  }

  /** The digests of well-loaded files are those two pairs exactly for these two files. */
  lemma TwoDigestsIff(ms: seq<Migration>, a: string, x: string, b: string, y: string)
    requires WellLoaded(ms) && VersionOf(a) == 1 && VersionOf(b) == 2
    ensures DigestsOf(ms) == map[a := x, b := y] <==>
            |ms| == 2 && ms[0].name == a && ms[0].digest == x && ms[1].name == b && ms[1].digest == y
  {
    hide ValidName, VersionOf, DigestsOf;
    NamesDiffer(ms);
    DigestsAreThose(ms);
    PairsDecide(DigestsOf(ms), a, x, b, y);
    if DigestsOf(ms) == map[a := x, b := y] { OnlyTwoFiles(ms, a, b); }
  }

  lemma TestedIff(ms: seq<Migration>)
    requires WellLoaded(ms)
    ensures DigestsOf(ms) == TESTED <==> TheTested(ms)
  {
    CoreName();
    LedgerName();
    hide WellLoaded, DigestsOf;
    TwoDigestsIff(ms, CORE_NAME, CORE_HASH, LEDGER_NAME, LEDGER_HASH);
    TestedPairs();
  }

  lemma TwoAdopted(ms: seq<Migration>)
    requires |ms| == 2
    ensures AdoptedHistory(ms) ==
            map[1 := Row(ms[0].name, ms[0].digest, true), 2 := Row(ms[1].name, ms[1].digest, true)]
  {
    AdoptedRows(ms);
  }

  /**
   Adoption succeeds exactly for the test database and the two tested files, on a matching
   history or on an untracked schema of thirteen empty tables that passes the core tests; it
   records both files as adopted and executes nothing.
   */
  lemma AdoptAnswer(e: Engine, db: Db, database: string, ms: seq<Migration>)
    requires Inv(db) && WellLoaded(ms)
    ensures AdoptCommand(e, db, database, ms).Some? <==>
              && database == "meshalot_test" && TheTested(ms) && Matches(db.history, ms)
              && (db.history == map[] ==>
                    e.tables(db.schema) == 13 && e.allEmpty(db.schema) && e.coreTests(db.schema))
    ensures AdoptCommand(e, db, database, ms).Some? ==>
            var db' := AdoptCommand(e, db, database, ms).value;
            && |ms| == 2 && db' == db.(tracked := true, history := db'.history)
            && db'.history == (if db.history != map[] then db.history
                               else map[1 := Row(ms[0].name, ms[0].digest, true),
                                        2 := Row(ms[1].name, ms[1].digest, true)])
  {
    TestedIff(ms);
    if Matches(db.history, ms) { ContiguousHasNoGap(db.history, ms); }
    hide WellLoaded, DigestsOf, ExecutedOnce, Contiguous, AdoptedHistory;
    if TheTested(ms) { TwoAdopted(ms); }
  }
}
