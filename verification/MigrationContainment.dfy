/**
 What a migration body may do to the transaction it runs in. The loader looks for transaction
 control at line starts only, so a body can still end the transaction; this module says exactly
 which bodies are harmless and what the others can leave behind.
 */
module MigrationContainment {
  import opened Prelude
  import opened Migrations

  /**
   A body's transaction control alone: whether a transaction is open, whether it may hold
   uncommitted changes, and whether something was committed before the end of the script.
   */
  datatype Flow = Flow(open: bool, dirty: bool, escaped: bool)

  function FlowStep(f: Flow, s: Statement): Flow {
    if f.escaped then f
    else
      match s
      case Sql(_) => if f.open then f.(dirty := true) else f.(escaped := true)
      case Begin => if f.open then f else Flow(true, false, false)
      case Commit => if f.open && f.dirty then f.(escaped := true) else Flow(false, false, false)
      case Rollback => Flow(false, false, false)
  }

  function FlowOf(ss: seq<Statement>): Flow {
    if ss == [] then Flow(true, true, false) else FlowStep(FlowOf(ss[..|ss| - 1]), ss[|ss| - 1])
  }

  /** From inside a transaction with changes, the body commits nothing and ends inside a transaction. */
  predicate Contained(ss: seq<Statement>) {
    FlowOf(ss).open && !FlowOf(ss).escaped
  }

  /** No pending body ends the transaction to any effect. */
  ghost predicate PendingContained(e: Engine, db: Db, ms: seq<Migration>) {
    forall i :: 0 <= i < |ms| && ms[i].version !in db.history ==> Contained(e.parse(ms[i].body))
  }

  /** A body without COMMIT and ROLLBACK is contained. */
  lemma {:induction false} PlainIsContained(ss: seq<Statement>)
    requires Commit !in ss && Rollback !in ss
    ensures FlowOf(ss) == Flow(true, true, false) && Contained(ss)
  {
    if ss != [] { PlainIsContained(ss[..|ss| - 1]); }
  }

  // ---------------------------------------------------------------------
  // Contained bodies leave nothing behind
  // ---------------------------------------------------------------------

  /** Nothing is committed yet, and the session sees every row of `db`. */
  ghost predicate Unpublished(t: Session, db: Db) {
    t.committed == db && db.history.Keys <= t.working.history.Keys
  }

  lemma {:induction false} BodyPublishesNothing(e: Engine, t: Session, db: Db, ss: seq<Statement>)
    requires Unpublished(t, db) && t.open && !FlowOf(ss).escaped
    ensures var t' := PerformAll(e, t, ss);
            && Unpublished(t', db)
            && (t'.failed || (t'.open == FlowOf(ss).open && (!FlowOf(ss).dirty ==> t'.working == db)))
  {
    if ss != [] { BodyPublishesNothing(e, t, db, ss[..|ss| - 1]); }
  }

  lemma {:induction false} RunPublishesNothing(e: Engine, db: Db, ms: seq<Migration>)
    requires PendingContained(e, db, ms)
    ensures var t := Applied(e, Opened(db), ms);
            Unpublished(t, db) && (t.failed || t.open)
  {
    hide PerformAll, FlowOf, NameTaken;
    if ms != [] {
      var init, m := ms[..|ms| - 1], ms[|ms| - 1];
      assert PendingContained(e, db, init) by {
        assert forall i :: 0 <= i < |init| ==> init[i] == ms[i];
      }
      RunPublishesNothing(e, db, init);
      var t := Applied(e, Opened(db), init);
      if !t.failed && m.version !in t.working.history { BodyPublishesNothing(e, t, db, e.parse(m.body)); }
    }
  }

  /** When every pending body is contained, an apply run commits all of its work or leaves the database as it was. */
  lemma FailureLeavesNothing(e: Engine, db: Db, ms: seq<Migration>)
    requires PendingContained(e, db, ms)
    ensures AfterApply(e, db, ms) ==
            if ApplyCommand(e, db, ms).Some? then ApplyCommand(e, db, ms).value else db
  {
    hide Applied, ApplyAll, HistoryVerified;
    RunPublishesNothing(e, db, ms);
    SessionRefines(e, db, ms);
  }

  /** Contained or not, a successful run leaves exactly what its specification says. */
  lemma SuccessIsSpecified(e: Engine, db: Db, ms: seq<Migration>)
    requires ApplyCommand(e, db, ms).Some?
    ensures AfterApply(e, db, ms) == ApplyCommand(e, db, ms).value
  {
    hide Applied, ApplyAll, HistoryVerified;
    SessionRefines(e, db, ms);
  }

  // ---------------------------------------------------------------------
  // A run whose transaction was ended never succeeds
  // ---------------------------------------------------------------------

  lemma {:induction false} EndingBodyHasNoResult(e: Engine, schema: Schema, ss: seq<Statement>)
    requires Commit in ss || Rollback in ss
    ensures RunBody(e, schema, ss).None?
  {
    if ss[|ss| - 1] != Commit && ss[|ss| - 1] != Rollback {
      EndingBodyHasNoResult(e, schema, ss[..|ss| - 1]);
    }
  }

  lemma {:induction false} OnlyItsVersions(e: Engine, db: Db, ms: seq<Migration>)
    requires ApplyAll(e, db, ms).Some?
    ensures forall v :: v in ApplyAll(e, db, ms).value.history ==>
              v in db.history || exists i :: 0 <= i < |ms| && ms[i].version == v
  {
    if ms != [] {
      var init := ms[..|ms| - 1];
      OnlyItsVersions(e, db, init);
      forall v | v in ApplyAll(e, db, ms).value.history && v !in db.history
        ensures exists i :: 0 <= i < |ms| && ms[i].version == v
      {
        if v in ApplyAll(e, db, init).value.history {
          var i :| 0 <= i < |init| && init[i].version == v;
          assert ms[i].version == v;
        } else {
          assert ms[|ms| - 1].version == v;
        }
      }
    }
  }

  lemma {:induction false} NoResultIsFinal(e: Engine, db: Db, ms: seq<Migration>, i: nat)
    requires i <= |ms| && ApplyAll(e, db, ms[..i]).None?
    ensures ApplyAll(e, db, ms).None?
    decreases |ms|
  {
    if i < |ms| {
      assert ms[..|ms| - 1][..i] == ms[..i];
      NoResultIsFinal(e, db, ms[..|ms| - 1], i);
    } else {
      assert ms[..i] == ms;
    }
  }

  /** A pending body with COMMIT or ROLLBACK makes every apply run fail, whatever else the run does. */
  lemma EndingBodyNeverSucceeds(e: Engine, db: Db, ms: seq<Migration>, i: nat)
    requires WellLoaded(ms) && i < |ms| && ms[i].version !in db.history
    requires Commit in e.parse(ms[i].body) || Rollback in e.parse(ms[i].body)
    ensures ApplyCommand(e, db, ms).None?
  {
    hide ValidName, VersionOf, NameTaken, RunBody;
    var start := db.(tracked := true);
    assert ms[..i + 1][..i] == ms[..i];
    if ApplyAll(e, start, ms[..i]).Some? {
      OnlyItsVersions(e, start, ms[..i]);
      EndingBodyHasNoResult(e, ApplyAll(e, start, ms[..i]).value.schema, e.parse(ms[i].body));
    }
    NoResultIsFinal(e, start, ms, i + 1);
  }

  // ---------------------------------------------------------------------
  // Only contained bodies are safe
  // ---------------------------------------------------------------------

  /**
   A body that no failing apply run can be hurt by: whatever the engine, the database and the
   other bodies, as long as those are contained, a run that fails leaves the database unchanged.
   */
  ghost predicate Safe(text: string, ss: seq<Statement>) {
    forall e: Engine, db: Db, ms: seq<Migration> ::
      && e.parse(text) == ss && Inv(db) && WellLoaded(ms)
      && (forall i :: 0 <= i < |ms| ==> ms[i].body == text || Contained(e.parse(ms[i].body)))
      && ApplyCommand(e, db, ms).None?
      ==> AfterApply(e, db, ms) == db
  }

  /** Every statement succeeds and changes the schema; all bodies but `text` are empty. */
  function Counting(text: string, ss: seq<Statement>): Engine {
    Engine(t => if t == text then ss else [], (schema, _) => Some(schema + 1), _ => 0, _ => true, _ => true)
  }

  /** How much a database holds; no statement lowers it. */
  function Weight(db: Db): int {
    db.schema + |db.history|
  }

  const SOME_NAMES := ["000001_a.up.sql", "000002_a.up.sql", "000003_a.up.sql"]

  lemma SomeNamesAreValid()
    ensures forall i :: 0 <= i < 3 ==> ValidName(SOME_NAMES[i]) && VersionOf(SOME_NAMES[i]) == i + 1
  {
    forall i | 0 <= i < 3 ensures ValidName(SOME_NAMES[i]) && VersionOf(SOME_NAMES[i]) == i + 1 {
      var name := SOME_NAMES[i];
      assert name[|name| - |SUFFIX|..] == SUFFIX;
      SmallNumber(name[..6], i + 1);
    }
  }

  lemma SmallNumber(digits: string, n: nat)
    requires n < 10 && digits == "00000" + ['0' + n as char]
    ensures (forall i :: 0 <= i < |digits| ==> IsDigit(digits[i])) && Number(digits) == n
  {
    ZeroNumber(5);
    assert digits[..5] == Zeros(5);
  }

  function Zeros(n: nat): string {
    seq(n, _ => '0')
  }

  lemma {:induction false} ZeroNumber(n: nat)
    ensures Number(Zeros(n)) == 0
  {
    if n > 0 {
      ZeroNumber(n - 1);
      assert Zeros(n)[..n - 1] == Zeros(n - 1);
    }
  }

  predicate OnlyFirst(history: map<nat, Row>) {
    forall v :: v in history ==> v == 1 && history[v].name == SOME_NAMES[0]
  }

  /** What a counting body does to a session in a transaction with changes follows its control flow. */
  ghost predicate Follows(t: Session, f: Flow, db: Db) {
    && !t.failed && t.working.tracked && t.committed.tracked
    && OnlyFirst(t.working.history) && OnlyFirst(t.committed.history)
    && (t.expected ==> f.open && !f.escaped)
    && (if f.escaped then Weight(db) < Weight(t.committed) <= Weight(t.working)
        else t.open == f.open && t.committed == db
             && (if f.dirty then f.open && Weight(db) < Weight(t.working) else t.working == db))
  }

  lemma {:induction false} CountingFollows(text: string, ss: seq<Statement>, t: Session, db: Db, tail: seq<Statement>)
    requires Follows(t, FlowOf([]), db)
    ensures Follows(PerformAll(Counting(text, ss), t, tail), FlowOf(tail), db)
    decreases |tail|
  {
    if tail != [] { CountingFollows(text, ss, t, db, tail[..|tail| - 1]); }
  }

  /** An empty first body and then `text`, on a tracked database without history. */
  function TwoMigrations(text: string): seq<Migration> {
    [Migration(1, SOME_NAMES[0], "", text + "x"), Migration(2, SOME_NAMES[1], "", text)]
  }

  const TRACKED := Db(true, map[], 0, [])

  lemma TwoAreWellLoaded(text: string)
    ensures WellLoaded(TwoMigrations(text)) && Inv(TRACKED)
    ensures Admitted(Counting(text, []), TRACKED, TwoMigrations(text))
  {
    hide ValidName, VersionOf;
    SomeNamesAreValid();
  }

  /** The first migration leaves its row, uncommitted, in the open transaction. */
  lemma FirstIsOpen(text: string, ss: seq<Statement>) returns (t: Session)
    ensures t == Applied(Counting(text, ss), Opened(TRACKED), TwoMigrations(text)[..1])
    ensures Follows(t, FlowOf([]), TRACKED) && t.working.history == map[1 := Row(SOME_NAMES[0], "", false)]
  {
    var e, ms := Counting(text, ss), TwoMigrations(text);
    t := Opened(TRACKED);
    t := t.(working := WithRow(t.working, ms[0]));
    assert ms[..1][..0] == [] && text + "x" != text;
    assert Applied(e, Opened(TRACKED), ms[..1][..0]) == Opened(TRACKED);
    assert e.parse(ms[0].body) == [];
    assert ApplyStep(e, Opened(TRACKED), ms[0]) == t;
  }

  /** If `ss` is not contained, this run fails and still changes the database. */
  lemma EscapeChangesDatabase(text: string, ss: seq<Statement>)
    requires !Contained(ss)
    ensures ApplyCommand(Counting(text, ss), TRACKED, TwoMigrations(text)).None?
    ensures AfterApply(Counting(text, ss), TRACKED, TwoMigrations(text)) != TRACKED
  {
    hide PerformAll, FlowOf, Applied, ApplyAll, HistoryVerified, ValidName, VersionOf, OnlyFirst;
    var e, ms := Counting(text, ss), TwoMigrations(text);
    var t := FirstIsOpen(text, ss);
    CountingFollows(text, ss, t, TRACKED, ss);
    var after := PerformAll(e, t, ss);
    SomeNamesAreValid();
    SecondIsRegistered(after, FlowOf(ss), ms[1]);
    LastStep(text, ss, t);
    SessionRefines(e, TRACKED, ms);
    TwoAreWellLoaded(text);
  }

  lemma SecondIsRegistered(t: Session, f: Flow, m: Migration)
    requires Follows(t, f, TRACKED) && !(f.open && !f.escaped) && m.version == 2
    requires m.name != SOME_NAMES[0]
    ensures var t' := Register(t, m);
            !t'.failed && !t'.expected && Weight(t'.committed) > Weight(TRACKED)
  {
  }

  lemma LastStep(text: string, ss: seq<Statement>, t: Session)
    requires t == Applied(Counting(text, ss), Opened(TRACKED), TwoMigrations(text)[..1])
    requires !t.failed && t.working.tracked && 2 !in t.working.history
    ensures Applied(Counting(text, ss), Opened(TRACKED), TwoMigrations(text)) ==
            Register(PerformAll(Counting(text, ss), t, ss), TwoMigrations(text)[1])
  {
    hide PerformAll, Register;
    assert TwoMigrations(text)[..2] == TwoMigrations(text);
  }

  /** A body is safe in every run exactly when it is contained. */
  lemma SafeIffContained(text: string, ss: seq<Statement>)
    ensures Safe(text, ss) <==> Contained(ss)
  {
    hide Contained, Applied, ApplyAll, HistoryVerified, ValidName, VersionOf;
    if Contained(ss) {
      forall e: Engine, db: Db, ms: seq<Migration> |
        && e.parse(text) == ss && Inv(db) && WellLoaded(ms)
        && (forall i :: 0 <= i < |ms| ==> ms[i].body == text || Contained(e.parse(ms[i].body)))
        && ApplyCommand(e, db, ms).None?
        ensures AfterApply(e, db, ms) == db
      {
        FailureLeavesNothing(e, db, ms);
      }
    } else {
      EscapeChangesDatabase(text, ss);
      TwoAreWellLoaded(text);
      EmptyIsContained();
      assert Counting(text, ss).parse(text) == ss;
    }
  }

  lemma EmptyIsContained()
    ensures Contained([])
  {
  }

  // ---------------------------------------------------------------------
  // A rollback can leave a gap
  // ---------------------------------------------------------------------

  /** A version up to the newest recorded one is missing. */
  ghost predicate HasGap(history: map<nat, Row>) {
    exists v, w :: v in history && 1 <= w <= v && w !in history
  }

  /** A ROLLBACK in the second body undoes the first migration and then records the second alone. */
  lemma RollbackLeavesGap(text: string)
    ensures var ms := TwoMigrations(text);
            var db := AfterApply(Counting(text, [Rollback]), TRACKED, ms);
            db.history == map[2 := Row(ms[1].name, "", false)] && HasGap(db.history)
  {
    hide PerformAll, Applied, ApplyAll, HistoryVerified, ValidName, VersionOf;
    var e, ms := Counting(text, [Rollback]), TwoMigrations(text);
    var t := FirstIsOpen(text, [Rollback]);
    OneStatement(e, t, Rollback);
    LastStep(text, [Rollback], t);
    TwoAreWellLoaded(text);
    var after := Perform(e, t, Rollback);
    assert Register(after, ms[1]) == Write(after, WithRow(TRACKED, ms[1]));
    var history := WithRow(TRACKED, ms[1]).history;
    assert 2 in history && 1 !in history;
  }

  lemma OneStatement(e: Engine, t: Session, s: Statement)
    ensures PerformAll(e, t, [s]) == Perform(e, t, s)
  {
    assert [s][..0] == [];
  }

  /** Once there is a gap, no run of any command with any files changes the database again. */
  lemma GapIsFinal(e: Engine, py: Python, db: Db, inv: Invocation)
    requires HasGap(db.history)
    ensures After(e, py, db, inv) == db
  {
    hide Loaded, DigestsOf, AdoptedHistory;
  }
}
