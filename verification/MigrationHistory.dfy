/** What the recorded history means over every sequence of runs of the migration tool. */
module MigrationHistory {
  import opened Prelude
  import opened MigrationText
  import opened Migrations
  import opened MigrationContainment

  lemma LoadedIsWellLoaded(py: Python, files: seq<File>)
    requires Loaded(py, files).Some?
    ensures WellLoaded(Loaded(py, files).value) && Loaded(py, files).value != []
  {
    hide VersionOf, ValidName, BodyOfFile;
    var ms := Loaded(py, files).value;
    forall i | 0 <= i < |ms|
      ensures ms[i].version == i + 1 && ValidName(ms[i].name) && VersionOf(ms[i].name) == i + 1
    {
      assert MigrationOf(py, files[i]) == Some(ms[i]);
    }
  }

  /** The UNIQUE constraint on the file name never fires: a name carries its version. */
  lemma NamesNeverCollide(history: map<nat, Row>, m: Migration)
    requires Contiguous(history) && ValidName(m.name) && VersionOf(m.name) == m.version && m.version !in history
    ensures !NameTaken(history, m.name)
  {
    hide ValidName, VersionOf;
  }

  lemma ApplyOneKeepsInv(e: Engine, db: Db, m: Migration)
    requires Inv(db) && db.tracked && ApplyOne(e, db, m).Some?
    requires ValidName(m.name) && VersionOf(m.name) == m.version && 1 <= m.version <= |db.history| + 1
    ensures Inv(ApplyOne(e, db, m).value) && ApplyOne(e, db, m).value.tracked
    ensures m.version in ApplyOne(e, db, m).value.history
    ensures |ApplyOne(e, db, m).value.history| ==
            if m.version <= |db.history| then |db.history| else |db.history| + 1
  {
    hide ValidName, VersionOf;
    var db' := ApplyOne(e, db, m).value;
    if m.version !in db.history {
      assert Contiguous(db'.history);
      forall i | 0 <= i < |db.executed| ensures db.executed[i].version < m.version {
        assert Recorded(db.history, db.executed[i]);
      }
      AppendExecution(db, db', m);
    }
  }

  lemma AppendExecution(db: Db, db': Db, m: Migration)
    requires ExecutedOnce(db) && forall i :: 0 <= i < |db.executed| ==> db.executed[i].version < m.version
    requires db'.executed == db.executed + [m] && Recorded(db'.history, m)
    requires forall w :: w in db'.history <==> w in db.history || w == m.version
    requires forall w :: w in db.history ==> db'.history[w] == db.history[w]
    ensures ExecutedOnce(db')
  {
    hide ValidName, VersionOf;
    forall i | 0 <= i < |db'.executed| ensures Recorded(db'.history, db'.executed[i]) {
      if i < |db.executed| { assert Recorded(db.history, db.executed[i]); }
    }
    forall v | v in db'.history && !db'.history[v].adopted ensures HasRun(db'.executed, v) {
      if v == m.version {
        assert db'.executed[|db.executed|].version == v;
      } else {
        assert HasRun(db.executed, v);
        var i :| 0 <= i < |db.executed| && db.executed[i].version == v;
        assert db'.executed[i].version == v;
      }
    }
  }

  /** Rows and executions are only ever appended. */
  ghost predicate Grows(db: Db, db': Db) {
    && (forall v :: v in db.history ==> v in db'.history && db'.history[v] == db.history[v])
    && db.executed <= db'.executed
  }

  lemma {:induction false} ApplyAllKeepsInv(e: Engine, db: Db, ms: seq<Migration>)
    requires Inv(db) && db.tracked && WellLoaded(ms) && ApplyAll(e, db, ms).Some?
    ensures var db' := ApplyAll(e, db, ms).value;
            && Inv(db') && db'.tracked && Grows(db, db')
            && |db'.history| == if |ms| <= |db.history| then |db.history| else |ms|
  {
    hide ValidName, VersionOf, Inv;
    if ms != [] {
      var init, m := ms[..|ms| - 1], ms[|ms| - 1];
      ApplyAllKeepsInv(e, db, init);
      ApplyOneKeepsInv(e, ApplyAll(e, db, init).value, m);
    }
  }

  lemma {:induction false} AdoptedRows(ms: seq<Migration>)
    ensures |AdoptedHistory(ms)| == |ms|
    ensures forall v :: v in AdoptedHistory(ms) <==> 1 <= v <= |ms|
    ensures forall v :: v in AdoptedHistory(ms) ==>
      AdoptedHistory(ms)[v] == Row(ms[v - 1].name, ms[v - 1].digest, true)
  {
    if ms != [] { AdoptedRows(ms[..|ms| - 1]); }
  }

  lemma NothingExecuted(db: Db)
    requires ExecutedOnce(db) && db.history == map[]
    ensures db.executed == []
  {
    FirstIsRecorded(db);
  }

  lemma FirstIsRecorded(db: Db)
    requires ExecutedOnce(db)
    ensures db.executed != [] ==> db.executed[0].version in db.history
  {
  }

  lemma AdoptKeepsInv(ms: seq<Migration>, db: Db)
    requires Inv(db) && WellLoaded(ms) && db.history == map[]
    ensures Inv(db.(tracked := true, history := AdoptedHistory(ms)))
  {
    hide ValidName, VersionOf, AdoptedHistory;
    AdoptedRows(ms);
    NothingExecuted(db);
  }

  /** The apply run, if this is one, meets no pending body that can leave its transaction to any effect. */
  ghost predicate RunContained(e: Engine, py: Python, db: Db, inv: Invocation) {
    inv.command == Apply && Loaded(py, inv.files).Some? ==> PendingContained(e, db, Loaded(py, inv.files).value)
  }

  ghost predicate AllContained(e: Engine, py: Python, db: Db, invs: seq<Invocation>) {
    invs == []
    || (AllContained(e, py, db, invs[..|invs| - 1])
        && RunContained(e, py, RunAll(e, py, db, invs[..|invs| - 1]), invs[|invs| - 1]))
  }

  /**
   One run keeps the history a contiguous prefix and only extends it; a status run changes
   nothing, and a failing run changes nothing either when its pending bodies are contained.
   */
  lemma AfterKeepsInv(e: Engine, py: Python, db: Db, inv: Invocation)
    requires Inv(db) && RunContained(e, py, db, inv)
    ensures Inv(After(e, py, db, inv)) && Grows(db, After(e, py, db, inv))
    ensures inv.command == Status || Outcome(e, py, db, inv).None? ==> After(e, py, db, inv) == db
    ensures Outcome(e, py, db, inv).Some? ==> Outcome(e, py, db, inv) == Some(After(e, py, db, inv))
  {
    hide ValidName, VersionOf, ApplyAll, AdoptedHistory, Loaded, HistoryVerified, DigestsOf, AfterApply;
    if Loaded(py, inv.files).Some? {
      LoadedIsWellLoaded(py, inv.files);
      var ms := Loaded(py, inv.files).value;
      if inv.command == Apply {
        FailureLeavesNothing(e, db, ms);
        if ApplyCommand(e, db, ms).Some? { ApplyAllKeepsInv(e, db.(tracked := true), ms); }
      } else if inv.command == AdoptTested && db.history == map[] {
        AdoptKeepsInv(ms, db);
      }
    }
  }

  function Untouched(schema: Schema): Db {
    Db(false, map[], schema, [])
  }

  /** Over every sequence of runs with contained bodies the history is 1..k, each body run once, in order. */
  lemma {:induction false} RunAllKeepsInv(e: Engine, py: Python, schema: Schema, invs: seq<Invocation>)
    requires AllContained(e, py, Untouched(schema), invs)
    ensures Inv(RunAll(e, py, Untouched(schema), invs))
  {
    hide ValidName, VersionOf, After, RunContained;
    if invs != [] {
      RunAllKeepsInv(e, py, schema, invs[..|invs| - 1]);
      AfterKeepsInv(e, py, RunAll(e, py, Untouched(schema), invs[..|invs| - 1]), invs[|invs| - 1]);
    }
  }

  // ---------------------------------------------------------------------
  // What holds whatever the bodies do
  // ---------------------------------------------------------------------

  /** Rows are only appended, and every executed migration from `db` on has a version up to `n`. */
  ghost predicate Extends(db: Db, db': Db, n: nat) {
    && ExecutedOnce(db') && Grows(db, db')
    && forall i :: 0 <= i < |db'.executed| ==> db'.executed[i].version in db.history || db'.executed[i].version <= n
  }

  ghost predicate SessionExtends(db: Db, t: Session, n: nat) {
    Extends(db, t.committed, n) && Extends(db, t.working, n)
  }

  ghost predicate SameRows(db: Db, db': Db) {
    db.history == db'.history && db.executed == db'.executed
  }

  lemma {:induction false} BodyKeepsRows(e: Engine, t: Session, ss: seq<Statement>)
    ensures var t' := PerformAll(e, t, ss);
            && (SameRows(t.committed, t'.committed) || SameRows(t.working, t'.committed))
            && (SameRows(t.committed, t'.working) || SameRows(t.working, t'.working))
  {
    if ss != [] { BodyKeepsRows(e, t, ss[..|ss| - 1]); }
  }

  lemma SameRowsExtend(db: Db, a: Db, b: Db, n: nat)
    requires SameRows(a, b) && Extends(db, a, n)
    ensures Extends(db, b, n)
  {
  }

  lemma RowExtends(db: Db, seen: Db, m: Migration)
    requires m.version >= 1 && Extends(db, seen, m.version - 1) && m.version !in seen.history
    requires forall v, w :: v in db.history && 1 <= w <= v ==> w in db.history
    ensures Extends(db, WithRow(seen, m), m.version)
  {
    var db' := WithRow(seen, m);
    forall i | 0 <= i < |seen.executed| ensures seen.executed[i].version < m.version {
      assert seen.executed[i].version in db.history ==> m.version !in db.history;
    }
    AppendExecution(seen, db', m);
  }

  lemma {:induction false} RunExtends(e: Engine, db: Db, ms: seq<Migration>)
    requires ExecutedOnce(db) && WellLoaded(ms)
    requires forall v, w :: v in db.history && 1 <= w <= v ==> w in db.history
    ensures SessionExtends(db, Applied(e, Opened(db), ms), |ms|)
  {
    hide ExecutedOnce, PerformAll, NameTaken, ValidName, VersionOf, Grows;
    if ms == [] {
      SameRowsExtendNothing(db);
    } else {
      var init, m := ms[..|ms| - 1], ms[|ms| - 1];
      RunExtends(e, db, init);
      var t := Applied(e, Opened(db), init);
      if !t.failed && m.version !in t.working.history {
        BodyThenRow(e, db, t, m);
      }
      ExtendsLater(db, t, |init|);
    }
  }

  lemma SameRowsExtendNothing(db: Db)
    requires ExecutedOnce(db)
    ensures SessionExtends(db, Opened(db), 0)
  {
    forall i | 0 <= i < |db.executed| ensures db.executed[i].version in db.history {
      assert Recorded(db.history, db.executed[i]);
    }
  }

  lemma ExtendsLater(db: Db, t: Session, n: nat)
    requires SessionExtends(db, t, n)
    ensures SessionExtends(db, t, n + 1)
  {
  }

  lemma BodyThenRow(e: Engine, db: Db, t: Session, m: Migration)
    requires m.version >= 1 && SessionExtends(db, t, m.version - 1)
    requires forall v, w :: v in db.history && 1 <= w <= v ==> w in db.history
    ensures SessionExtends(db, Register(PerformAll(e, t, e.parse(m.body)), m), m.version)
  {
    hide PerformAll, Extends, NameTaken, SameRows;
    var t' := PerformAll(e, t, e.parse(m.body));
    BodyKeepsRows(e, t, e.parse(m.body));
    forall a, b | (a == t.committed || a == t.working) && (b == t'.committed || b == t'.working) && SameRows(a, b)
      ensures Extends(db, b, m.version - 1)
    {
      SameRowsExtend(db, a, b, m.version - 1);
    }
    ExtendsLater(db, t', m.version - 1);
    if m.version !in t'.working.history { RowExtends(db, t'.working, m); }
  }

  /** Whatever the bodies do, no run changes or removes a recorded row, and rows match executed bodies. */
  lemma AfterKeepsRows(e: Engine, py: Python, db: Db, inv: Invocation)
    requires ExecutedOnce(db)
    ensures ExecutedOnce(After(e, py, db, inv)) && Grows(db, After(e, py, db, inv))
  {
    hide ExecutedOnce, Grows, Applied, Loaded, HistoryVerified, DigestsOf, ValidName, VersionOf, AdoptedHistory;
    GrowsNothing(db);
    if Loaded(py, inv.files).Some? {
      LoadedIsWellLoaded(py, inv.files);
      var ms := Loaded(py, inv.files).value;
      if inv.command == Apply && Admitted(e, db, ms) {
        VerifiedHasNoGap(db.history, ms);
        RunExtends(e, db, ms);
      } else if inv.command == AdoptTested && Outcome(e, py, db, inv).Some? {
        AdoptKeepsRows(db, ms);
      }
    }
  }

  lemma GrowsNothing(db: Db)
    ensures Grows(db, db)
  {
  }

  lemma VerifiedHasNoGap(history: map<nat, Row>, ms: seq<Migration>)
    requires HistoryVerified(history, ms)
    ensures forall v, w :: v in history && 1 <= w <= v ==> w in history
  {
  }

  lemma AdoptKeepsRows(db: Db, ms: seq<Migration>)
    requires ExecutedOnce(db)
    ensures var db' := db.(tracked := true);
            ExecutedOnce(db') && Grows(db, db')
    ensures db.history == map[] ==>
            var db' := db.(tracked := true, history := AdoptedHistory(ms));
            ExecutedOnce(db') && Grows(db, db')
  {
    if db.history == map[] {
      NothingExecuted(db);
      AdoptedRows(ms);
    }
  }

  /** Over every sequence of runs, whatever the files, rows and executed migrations belong together. */
  lemma {:induction false} RunAllKeepsRows(e: Engine, py: Python, schema: Schema, invs: seq<Invocation>)
    ensures ExecutedOnce(RunAll(e, py, Untouched(schema), invs))
  {
    hide After, ExecutedOnce;
    if invs != [] {
      RunAllKeepsRows(e, py, schema, invs[..|invs| - 1]);
      AfterKeepsRows(e, py, RunAll(e, py, Untouched(schema), invs[..|invs| - 1]), invs[|invs| - 1]);
    } else {
      UntouchedIsSound(schema);
    }
  }

  lemma UntouchedIsSound(schema: Schema)
    ensures ExecutedOnce(Untouched(schema))
  {
  }

  // ---------------------------------------------------------------------
  // What a successful apply means
  // ---------------------------------------------------------------------

  ghost predicate RowsMatch(history: map<nat, Row>, ms: seq<Migration>) {
    forall v :: v in history ==>
      1 <= v <= |ms| && history[v].name == ms[v - 1].name && history[v].digest == ms[v - 1].digest
  }

  lemma {:induction false} ApplyAllKeepsMatch(e: Engine, db: Db, ms: seq<Migration>, n: nat)
    requires n <= |ms| && WellLoaded(ms) && RowsMatch(db.history, ms) && ApplyAll(e, db, ms[..n]).Some?
    ensures RowsMatch(ApplyAll(e, db, ms[..n]).value.history, ms)
  {
    hide ValidName, VersionOf;
    if n > 0 {
      assert ms[..n][..n - 1] == ms[..n - 1];
      ApplyAllKeepsMatch(e, db, ms, n - 1);
    }
  }

  lemma ContiguousHasNoGap(history: map<nat, Row>, ms: seq<Migration>)
    requires Contiguous(history) && RowsMatch(history, ms)
    ensures HistoryVerified(history, ms)
  {
    hide ValidName, VersionOf;
  }

  /** After a successful apply the history lists exactly the given files, name by name and hash by hash. */
  lemma ApplyRecordsAll(e: Engine, db: Db, ms: seq<Migration>)
    requires Inv(db) && WellLoaded(ms) && ApplyCommand(e, db, ms).Some?
    ensures var db' := ApplyCommand(e, db, ms).value;
            Inv(db') && db'.tracked && HistoryVerified(db'.history, ms) && |db'.history| == |ms|
  {
    hide ValidName, VersionOf, ApplyAll;
    var start := db.(tracked := true);
    ApplyAllKeepsInv(e, start, ms);
    assert ms[..|ms|] == ms;
    ApplyAllKeepsMatch(e, start, ms, |ms|);
    var db' := ApplyAll(e, start, ms).value;
    ContiguousHasNoGap(db'.history, ms);
    WithinFiles(db.history, ms);
  }

  lemma WithinFiles(history: map<nat, Row>, ms: seq<Migration>)
    requires Contiguous(history) && RowsMatch(history, ms)
    ensures |history| <= |ms|
  {
    hide ValidName, VersionOf;
    if |history| > 0 { assert |history| in history; }
  }

  lemma {:induction false} RecordedIsSkipped(e: Engine, db: Db, ms: seq<Migration>)
    requires forall i :: 0 <= i < |ms| ==> ms[i].version in db.history
    ensures ApplyAll(e, db, ms) == Some(db)
  {
    if ms != [] { RecordedIsSkipped(e, db, ms[..|ms| - 1]); }
  }

  /** Applying the same files again succeeds and changes nothing. */
  lemma ApplyTwice(e: Engine, py: Python, db: Db, inv: Invocation)
    requires Inv(db) && inv.command == Apply && Outcome(e, py, db, inv).Some?
    ensures Outcome(e, py, After(e, py, db, inv), inv) == Some(After(e, py, db, inv))
  {
    hide ValidName, VersionOf, HistoryVerified, ApplyAll, Loaded;
    LoadedIsWellLoaded(py, inv.files);
    var ms := Loaded(py, inv.files).value;
    SuccessIsSpecified(e, db, ms);
    ApplyRecordsAll(e, db, ms);
    RecordedIsSkipped(e, After(e, py, db, inv), ms);
  }

  /** A fold over a prefix of the files is absorbed by the fold over all of them. */
  lemma {:induction false} PrefixAbsorbed(e: Engine, db: Db, ms: seq<Migration>, n: nat)
    requires n <= |ms| && WellLoaded(ms) && ApplyAll(e, db, ms[..n]).Some?
    requires forall i :: 0 <= i < n ==> ms[i].version in ApplyAll(e, db, ms[..n]).value.history
    ensures ApplyAll(e, ApplyAll(e, db, ms[..n]).value, ms) == ApplyAll(e, db, ms)
    decreases |ms|
  {
    hide ValidName, VersionOf;
    if n < |ms| {
      var init := ms[..|ms| - 1];
      assert init[..n] == ms[..n];
      PrefixAbsorbed(e, db, init, n);
    } else {
      assert ms[..n] == ms;
      RecordedIsSkipped(e, ApplyAll(e, db, ms).value, ms);
    }
  }

  lemma VerifiedExtends(history: map<nat, Row>, few: seq<Migration>, many: seq<Migration>)
    requires HistoryVerified(history, few) && few <= many
    ensures HistoryVerified(history, many)
  {
  }

  lemma ApplyPrefixFirst(e: Engine, db: Db, few: seq<Migration>, many: seq<Migration>)
    requires Inv(db) && WellLoaded(many) && few <= many && few != [] && ApplyCommand(e, db, few).Some?
    ensures ApplyCommand(e, ApplyCommand(e, db, few).value, many) == ApplyCommand(e, db, many)
  {
    hide ValidName, VersionOf, ApplyAll, HistoryVerified;
    assert many[..|few|] == few;
    assert WellLoaded(few);
    ApplyRecordsAll(e, db, few);
    var db' := ApplyCommand(e, db, few).value;
    VerifiedExtends(db.history, few, many);
    VerifiedExtends(db'.history, few, many);
    PrefixAbsorbed(e, db.(tracked := true), many, |few|);
    assert db'.(tracked := true) == db';
  }

  /**
   Incremental deployment: applying an earlier file set and then an extended one has the
   same outcome, schema and history as applying the extended set at once.
   */
  lemma ApplyIncrementally(e: Engine, py: Python, db: Db, early: Invocation, late: Invocation)
    requires Inv(db) && early.command == Apply && late.command == Apply
    requires Outcome(e, py, db, early).Some? && Loaded(py, late.files).Some?
    requires Loaded(py, early.files).value <= Loaded(py, late.files).value
    ensures Outcome(e, py, After(e, py, db, early), late) == Outcome(e, py, db, late)
  {
    hide ApplyCommand, Loaded, WellLoaded, Inv, AfterApply;
    LoadedIsWellLoaded(py, early.files);
    LoadedIsWellLoaded(py, late.files);
    SuccessIsSpecified(e, db, Loaded(py, early.files).value);
    ApplyPrefixFirst(e, db, Loaded(py, early.files).value, Loaded(py, late.files).value);
  }

  // ---------------------------------------------------------------------
  // The schema is what the executed bodies made of it
  // ---------------------------------------------------------------------

  /** The given bodies executed one after another. */
  function Execute(e: Engine, schema: Schema, ms: seq<Migration>): Option<Schema> {
    if ms == [] then Some(schema)
    else
      match Execute(e, schema, ms[..|ms| - 1])
      case None => None
      case Some(mid) => RunBody(e, mid, e.parse(ms[|ms| - 1].body))
  }

  ghost predicate Replays(e: Engine, start: Schema, db: Db) {
    Execute(e, start, db.executed) == Some(db.schema)
  }

  lemma ApplyOneReplays(e: Engine, start: Schema, db: Db, m: Migration)
    requires Replays(e, start, db) && ApplyOne(e, db, m).Some?
    ensures Replays(e, start, ApplyOne(e, db, m).value)
  {
    assert (db.executed + [m])[..|db.executed|] == db.executed;
  }

  lemma {:induction false} ApplyAllReplays(e: Engine, start: Schema, db: Db, ms: seq<Migration>)
    requires Replays(e, start, db) && ApplyAll(e, db, ms).Some?
    ensures Replays(e, start, ApplyAll(e, db, ms).value)
  {
    if ms != [] {
      ApplyAllReplays(e, start, db, ms[..|ms| - 1]);
      ApplyOneReplays(e, start, ApplyAll(e, db, ms[..|ms| - 1]).value, ms[|ms| - 1]);
    }
  }

  /** Over every sequence of runs with contained bodies the schema is the initial one after the executed bodies. */
  lemma {:induction false} SchemaIsReplayed(e: Engine, py: Python, schema: Schema, invs: seq<Invocation>)
    requires AllContained(e, py, Untouched(schema), invs)
    ensures Replays(e, schema, RunAll(e, py, Untouched(schema), invs))
  {
    hide ApplyAll, Loaded, HistoryVerified, DigestsOf, AfterApply, PendingContained;
    if invs != [] {
      var db, inv := RunAll(e, py, Untouched(schema), invs[..|invs| - 1]), invs[|invs| - 1];
      SchemaIsReplayed(e, py, schema, invs[..|invs| - 1]);
      if inv.command == Apply && Loaded(py, inv.files).Some? {
        FailureLeavesNothing(e, db, Loaded(py, inv.files).value);
        if Outcome(e, py, db, inv).Some? {
          ApplyAllReplays(e, schema, db.(tracked := true), Loaded(py, inv.files).value);
        }
      }
    }
  }

  // ---------------------------------------------------------------------
  // The hashes pin the bodies
  // ---------------------------------------------------------------------

  function FilesOf(files: seq<File>): set<File> {
    set f | f in files
  }

  /** All files the runner was given. */
  function Given(invs: seq<Invocation>): set<File> {
    if invs == [] then {}
    else Given(invs[..|invs| - 1]) + FilesOf(invs[|invs| - 1].files)
  }

  ghost predicate CameFrom(py: Python, files: set<File>, m: Migration) {
    exists f :: f in files && MigrationOf(py, f) == Some(m)
  }

  ghost predicate AllCameFrom(py: Python, files: set<File>, ms: seq<Migration>) {
    forall i :: 0 <= i < |ms| ==> CameFrom(py, files, ms[i])
  }

  /** Among these files, only equal contents have equal hashes. */
  ghost predicate CollisionFree(py: Python, files: set<File>) {
    forall f, g :: f in files && g in files && py.sha256(f.raw) == py.sha256(g.raw) ==> f.raw == g.raw
  }

  /** Nothing but the given migrations is added to the executed ones. */
  ghost predicate ExecutesOnly(t: Session, db: Db, ms: seq<Migration>) {
    && (forall m :: m in t.committed.executed ==> m in db.executed || m in ms)
    && (forall m :: m in t.working.executed ==> m in db.executed || m in ms)
  }

  lemma {:induction false} RunExecutesOnly(e: Engine, db: Db, ms: seq<Migration>)
    ensures ExecutesOnly(Applied(e, Opened(db), ms), db, ms)
  {
    hide PerformAll, NameTaken;
    if ms != [] {
      var init, m := ms[..|ms| - 1], ms[|ms| - 1];
      RunExecutesOnly(e, db, init);
      BodyKeepsRows(e, Applied(e, Opened(db), init), e.parse(m.body));
    }
  }

  /** Every executed migration was read from a file of some run. */
  lemma {:induction false} ExecutedCameFrom(e: Engine, py: Python, schema: Schema, invs: seq<Invocation>)
    ensures AllCameFrom(py, Given(invs), RunAll(e, py, Untouched(schema), invs).executed)
  {
    hide Applied, MigrationOf, HistoryVerified, DigestsOf;
    if invs != [] {
      var init, inv := invs[..|invs| - 1], invs[|invs| - 1];
      var db := RunAll(e, py, Untouched(schema), init);
      ExecutedCameFrom(e, py, schema, init);
      var db' := RunAll(e, py, Untouched(schema), invs);
      if inv.command == Apply && Loaded(py, inv.files).Some? {
        RunExecutesOnly(e, db, Loaded(py, inv.files).value);
      }
      forall i | 0 <= i < |db'.executed| ensures CameFrom(py, Given(invs), db'.executed[i]) {
        assert db'.executed[i] in db'.executed;
        StillCameFrom(py, Given(init), inv.files, db.executed, db'.executed[i]);
      }
    }
  }

  lemma StillCameFrom(py: Python, earlier: set<File>, files: seq<File>, executed: seq<Migration>, m: Migration)
    requires AllCameFrom(py, earlier, executed)
    requires m in executed || (Loaded(py, files).Some? && m in Loaded(py, files).value)
    ensures CameFrom(py, earlier + FilesOf(files), m)
  {
    hide MigrationOf;
    if m in executed {
      var i :| 0 <= i < |executed| && executed[i] == m;
      assert CameFrom(py, earlier, executed[i]);
    } else {
      var i :| 0 <= i < |files| && Loaded(py, files).value[i] == m;
      assert MigrationOf(py, files[i]) == Some(m);
    }
  }

  /** A run over these files gets past the history checks. */
  ghost predicate FilesMatch(py: Python, history: map<nat, Row>, files: seq<File>) {
    Loaded(py, files).Some? && HistoryVerified(history, Loaded(py, files).value)
  }

  lemma RecordPinsBody(py: Python, history: map<nat, Row>, given: set<File>, files: seq<File>, m: Migration)
    requires Recorded(history, m) && CameFrom(py, given, m) && FilesMatch(py, history, files)
    requires CollisionFree(py, given + FilesOf(files))
    ensures 1 <= m.version <= |files| && Loaded(py, files).value[m.version - 1] == m
  {
    hide ValidName, VersionOf, BodyOfFile;
    var f :| f in given && MigrationOf(py, f) == Some(m);
    var g := files[m.version - 1];
    assert MigrationOf(py, g) == Some(Loaded(py, files).value[m.version - 1]);
    assert g in FilesOf(files);
    assert f.raw == g.raw && f.name == g.name;
  }

  /**
   Recorded history cannot be edited: unless two given files collide under the hash, every file
   set that a later run accepts contains exactly the migrations that were executed, bodies
   included.
   */
  lemma LaterFilesAgree(e: Engine, py: Python, schema: Schema, invs: seq<Invocation>, db: Db, files: seq<File>)
    requires db == RunAll(e, py, Untouched(schema), invs) && FilesMatch(py, db.history, files)
    requires CollisionFree(py, Given(invs) + FilesOf(files))
    ensures forall i :: 0 <= i < |db.executed| ==>
              && 1 <= db.executed[i].version <= |files|
              && Loaded(py, files).value[db.executed[i].version - 1] == db.executed[i]
  {
    hide RunAll, HistoryVerified, MigrationOf, CollisionFree, Contiguous, Given;
    RunAllKeepsRows(e, py, schema, invs);
    ExecutedCameFrom(e, py, schema, invs);
    forall i | 0 <= i < |db.executed|
      ensures 1 <= db.executed[i].version <= |files|
      ensures Loaded(py, files).Some? && Loaded(py, files).value[db.executed[i].version - 1] == db.executed[i]
    {
      RecordPinsBody(py, db.history, Given(invs), files, db.executed[i]);
    }
  }

  // ---------------------------------------------------------------------
  // A fresh database catches up
  // ---------------------------------------------------------------------

  lemma {:induction false} FreshApply(e: Engine, schema: Schema, ms: seq<Migration>, n: nat)
    requires n <= |ms| && WellLoaded(ms) && Execute(e, schema, ms[..n]).Some?
    ensures var r := ApplyAll(e, Untouched(schema).(tracked := true), ms[..n]);
            && r.Some? && r.value.executed == ms[..n] && r.value.schema == Execute(e, schema, ms[..n]).value
            && Inv(r.value) && r.value.tracked && |r.value.history| == n
  {
    hide ValidName, VersionOf, Contiguous, ExecutedOnce;
    if n == 0 {
      EmptyIsSound(schema);
    } else {
      assert ms[..n][..n - 1] == ms[..n - 1] && ms[..n - 1] + [ms[n - 1]] == ms[..n];
      FreshApply(e, schema, ms, n - 1);
      var mid := ApplyAll(e, Untouched(schema).(tracked := true), ms[..n - 1]).value;
      NextIsNew(mid, ms[n - 1]);
      ApplyOneKeepsInv(e, mid, ms[n - 1]);
    }
  }

  lemma FreshCommand(e: Engine, schema: Schema, ms: seq<Migration>)
    requires WellLoaded(ms) && Execute(e, schema, ms).Some? && e.tables(schema) == 0
    ensures var r := ApplyCommand(e, Untouched(schema), ms);
            r.Some? && r.value.executed == ms && r.value.schema == Execute(e, schema, ms).value
  {
    hide ValidName, VersionOf, ApplyAll, Execute, Inv;
    assert ms[..|ms|] == ms;
    FreshApply(e, schema, ms, |ms|);
  }

  lemma EmptyIsSound(schema: Schema)
    ensures Inv(Untouched(schema).(tracked := true))
  {
  }

  lemma NextIsNew(db: Db, m: Migration)
    requires Contiguous(db.history) && m.version == |db.history| + 1
    requires ValidName(m.name) && VersionOf(m.name) == m.version
    ensures m.version !in db.history && !NameTaken(db.history, m.name)
  {
    hide ValidName, VersionOf;
    NamesNeverCollide(db.history, m);
  }

  /** In a history without adopted rows the executed migrations are numbered 1..k. */
  lemma ExecutedAreAll(db: Db, ms: seq<Migration>)
    requires Inv(db) && |ms| == |db.history| && forall v :: v in db.history ==> !db.history[v].adopted
    requires forall i :: 0 <= i < |db.executed| ==>
               1 <= db.executed[i].version <= |ms| && ms[db.executed[i].version - 1] == db.executed[i]
    ensures db.executed == ms
  {
    hide ValidName, VersionOf;
    forall v | 1 <= v <= |ms| ensures HasRun(db.executed, v) {
      assert v in db.history;
    }
    AscendingIsIdentity(db.executed, |ms|);
  }

  lemma NoNumbersBelowOne(executed: seq<Migration>)
    requires forall i :: 0 <= i < |executed| ==> 1 <= executed[i].version
    ensures executed != [] ==> executed[0].version > 0
  {
  }

  /** Ascending numbers that cover 1..n and lie in it are 1..n. */
  lemma {:induction false} AscendingIsIdentity(executed: seq<Migration>, n: nat)
    requires forall i, j :: 0 <= i < j < |executed| ==> executed[i].version < executed[j].version
    requires forall i :: 0 <= i < |executed| ==> 1 <= executed[i].version <= n
    requires forall v :: 1 <= v <= n ==> HasRun(executed, v)
    ensures |executed| == n && forall i :: 0 <= i < n ==> executed[i].version == i + 1
  {
    if n == 0 {
      NoNumbersBelowOne(executed);
    } else {
      assert HasRun(executed, n);
      var last := |executed| - 1;
      var k :| 0 <= k < |executed| && executed[k].version == n;
      assert k == last;
      var init := executed[..last];
      forall v | 1 <= v <= n - 1 ensures HasRun(init, v) {
        assert HasRun(executed, v);
        var i :| 0 <= i < |executed| && executed[i].version == v;
        assert init[i].version == v;
      }
      AscendingIsIdentity(init, n - 1);
    }
  }

  /**
   Rebuilding: when every row was executed rather than adopted, applying the current files to a
   fresh database with the original schema ends in the same schema, with the same bodies run.
   */
  lemma FreshApplyRebuilds(e: Engine, py: Python, schema: Schema, invs: seq<Invocation>, db: Db, files: seq<File>)
    requires db == RunAll(e, py, Untouched(schema), invs) && FilesMatch(py, db.history, files)
    requires |db.history| == |files| && forall v :: v in db.history ==> !db.history[v].adopted
    requires AllContained(e, py, Untouched(schema), invs)
    requires CollisionFree(py, Given(invs) + FilesOf(files)) && e.tables(schema) == 0
    ensures var rebuilt := ApplyCommand(e, Untouched(schema), Loaded(py, files).value);
            rebuilt.Some? && rebuilt.value.schema == db.schema && rebuilt.value.executed == db.executed
  {
    hide RunAll, ApplyCommand, CollisionFree, LoadedAs, HistoryVerified, Given, Inv, WellLoaded;
    var ms := Loaded(py, files).value;
    RunAllKeepsInv(e, py, schema, invs);
    LaterFilesAgree(e, py, schema, invs, db, files);
    ExecutedAreAll(db, ms);
    SchemaIsReplayed(e, py, schema, invs);
    LoadedIsWellLoaded(py, files);
    FreshCommand(e, schema, ms);
  }
}
