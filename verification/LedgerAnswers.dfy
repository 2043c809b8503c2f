/**
 What each statement on the ledger tables is answered, said without the guards themselves:
 which statements pass, what they write, and that the whole life of a job can happen.
 */
module LedgerAnswers {
  import opened Prelude
  import opened Ledger

  // ---------------------------------------------------------------------
  // Job updates
  // ---------------------------------------------------------------------

  /** The status changes a job may make, and staying as it is before the end. */
  const STATUS_PAIRS: set<(JobStatus, JobStatus)> := {
    (Queued, Queued), (Queued, Running), (Queued, Failed), (Queued, Cancelled),
    (Running, Running), (Running, Completed), (Running, Failed), (Running, Cancelled)}

  /** An UPDATE of a job passes exactly when it changes nothing, or makes a listed move of an unchanged job. */
  lemma JobUpdateAnswer(t: Tables, id: JobId, id': JobId, row: Job)
    requires Inv(t) && id in t.jobs
    ensures var before := t.jobs[id];
            VerdictOf(t, UpdateJob(id, id', row)) == Accepted <==>
              && id' == id
              && (|| row == before
                  || (&& (before.status, row.status) in STATUS_PAIRS
                      && row.consumer == before.consumer && row.model == before.model
                      && row.createdAt == before.createdAt
                      && (before.provider.Some? ==> row.provider == before.provider)
                      && (row.provider.Some? ==> row.provider.value in t.nodes)
                      && (row.status in {Running, Completed} ==> row.provider.Some?)))
  {
    assert JobConsistent(t, id);
  }

  /** An accepted UPDATE replaces the row and logs exactly a change of status. */
  lemma JobUpdateWrites(t: Tables, id: JobId, row: Job)
    requires VerdictOf(t, UpdateJob(id, id, row)) == Accepted
    ensures var t' := Step(t, UpdateJob(id, id, row));
            && t' == t.(jobs := t'.jobs, events := t'.events)
            && t'.jobs.Keys == t.jobs.Keys && t'.jobs[id] == row
            && (forall j :: j in t.jobs && j != id ==> t'.jobs[j] == t.jobs[j])
            && (t.jobs[id].status == row.status ==> t'.events == t.events)
            && (t.jobs[id].status != row.status ==>
                  t'.events == t.events + [Event(id, StatusChanged, FromTo(t.jobs[id].status, row.status))])
  {
  }

  // ---------------------------------------------------------------------
  // Every other statement
  // ---------------------------------------------------------------------

  /** The tables if the statement simply took effect, unguarded. */
  function Naive(t: Tables, s: Statement): Tables {
    match s
    case InsertUser(u) => t.(users := t.users + {u})
    case DeleteUser(u) => t.(users := t.users - {u})
    case InsertNode(n, row) => t.(nodes := t.nodes[n := row])
    case UpdateNode(n, n', row) => t.(nodes := (t.nodes - {n})[n' := row])
    case DeleteNode(n) => t.(nodes := t.nodes - {n})
    case InsertJob(j, row) =>
      t.(jobs := t.jobs[j := row], events := t.events + [Event(j, Created, StatusIs(row.status))])
    case UpdateJob(j, j', row) => t.(jobs := (t.jobs - {j})[j' := row])
    case InsertEvent(e) => t.(events := t.events + [e])
    case InsertUsage(j, metrics) => t.(usage := t.usage[j := metrics])
    case InsertWallet(e) => t.(wallet := t.wallet + [e])
    case Rewrite(_) => t
  }

  /** Does the statement's new row have a key of its own, or its old row exist? */
  predicate KeysFit(t: Tables, s: Statement) {
    match s
    case InsertUser(u) => u !in t.users
    case DeleteUser(u) => u in t.users
    case InsertNode(n, row) => n !in t.nodes && forall m :: m in t.nodes ==> t.nodes[m].nodeKey != row.nodeKey
    case UpdateNode(n, n', row) =>
      n in t.nodes && n' == n && row.owner == t.nodes[n].owner && row.nodeKey == t.nodes[n].nodeKey
    case DeleteNode(n) => n in t.nodes
    case InsertJob(j, row) => j !in t.jobs && row.status == Queued
    case UpdateJob(j, j', row) => j in t.jobs && j' == j
    case InsertEvent(_) => true
    case InsertUsage(j, _) => j !in t.usage
    case InsertWallet(e) =>
      -0x8000_0000_0000_0000 <= e.amount < 0x8000_0000_0000_0000 && exists i :: 0 <= i < |e.key| && e.key[i] != ' '
    case Rewrite(_) => false
  }

  /**
   The guards are exact: apart from job updates, a statement with fitting keys is accepted
   exactly when taking effect leaves every wallet row justified and every reference and unique
   index intact; otherwise it is refused. Accepted, it does take effect; refused, it does nothing.
   */
  lemma GuardsAreExact(t: Tables, s: Statement)
    requires Inv(t) && !s.UpdateJob?
    ensures VerdictOf(t, s) == Accepted <==> KeysFit(t, s) && Inv(Naive(t, s))
    ensures Step(t, s) == if VerdictOf(t, s) == Accepted then Naive(t, s) else t
  {
    hide Inv;
    match s
    case InsertWallet(e) => WalletInsertIsExact(t, e);
    case InsertUsage(j, metrics) => UsageInsertIsExact(t, j, metrics);
    case DeleteNode(n) => NodeDeleteIsExact(t, n);
    case DeleteUser(u) => UserDeleteIsExact(t, u);
    case InsertJob(j, row) => JobInsertIsExact(t, j, row);
    case InsertEvent(e) => EventInsertIsExact(t, e);
    case InsertNode(n, row) => NodeInsertIsExact(t, n, row);
    case UpdateNode(n, n', row) => NodeUpdateIsExact(t, n, n', row);
    case InsertUser(u) => UserInsertIsExact(t, u);
    case Rewrite(_) =>
  }

  /** An accepted statement that simply takes effect keeps the invariant. */
  lemma AcceptedIsSound(t: Tables, s: Statement)
    requires Inv(t) && VerdictOf(t, s) == Accepted && Naive(t, s) == Effect(t, s)
    ensures Inv(Naive(t, s))
  {
    hide Inv, VerdictOf, Effect;
    StepKeepsInv(t, s);
  }

  lemma WalletInsertIsExact(t: Tables, e: Entry)
    requires Inv(t)
    ensures VerdictOf(t, InsertWallet(e)) == Accepted <==>
            KeysFit(t, InsertWallet(e)) && Inv(Naive(t, InsertWallet(e)))
  {
    var t' := Naive(t, InsertWallet(e));
    if VerdictOf(t, InsertWallet(e)) == Accepted { AcceptedIsSound(t, InsertWallet(e)); }
    if Inv(t') {
      assert t'.wallet[|t.wallet|] == e && Justified(t', e);
      forall i | 0 <= i < |t.wallet|
        ensures t.wallet[i].key != e.key && !(t.wallet[i].job == e.job && t.wallet[i].kind == e.kind)
      {
        assert t'.wallet[i] == t.wallet[i];
      }
    }
  }

  lemma UsageInsertIsExact(t: Tables, j: JobId, metrics: string)
    requires Inv(t)
    ensures VerdictOf(t, InsertUsage(j, metrics)) == Accepted <==>
            KeysFit(t, InsertUsage(j, metrics)) && Inv(Naive(t, InsertUsage(j, metrics)))
  {
    hide Justified;
    var t' := Naive(t, InsertUsage(j, metrics));
    if VerdictOf(t, InsertUsage(j, metrics)) == Accepted { AcceptedIsSound(t, InsertUsage(j, metrics)); }
    if Inv(t') { assert j in t'.usage; }
  }

  lemma NodeDeleteIsExact(t: Tables, n: NodeId)
    requires Inv(t)
    ensures VerdictOf(t, DeleteNode(n)) == Accepted <==> KeysFit(t, DeleteNode(n)) && Inv(Naive(t, DeleteNode(n)))
  {
    hide Justified;
    var t' := Naive(t, DeleteNode(n));
    if VerdictOf(t, DeleteNode(n)) == Accepted { AcceptedIsSound(t, DeleteNode(n)); }
    if Inv(t') {
      forall j | j in t.jobs ensures t.jobs[j].provider != Some(n) { assert JobConsistent(t', j); }
    }
  }

  lemma UserDeleteIsExact(t: Tables, u: UserId)
    requires Inv(t)
    ensures VerdictOf(t, DeleteUser(u)) == Accepted <==> KeysFit(t, DeleteUser(u)) && Inv(Naive(t, DeleteUser(u)))
  {
    var t' := Naive(t, DeleteUser(u));
    if VerdictOf(t, DeleteUser(u)) == Accepted { AcceptedIsSound(t, DeleteUser(u)); }
    if Inv(t') {
      forall j | j in t.jobs ensures t.jobs[j].consumer != u { assert JobConsistent(t', j); }
      forall i | 0 <= i < |t.wallet| ensures t.wallet[i].user != u { assert Justified(t', t'.wallet[i]); }
    }
  }

  lemma JobInsertIsExact(t: Tables, j: JobId, row: Job)
    requires Inv(t)
    ensures VerdictOf(t, InsertJob(j, row)) == Accepted <==>
            KeysFit(t, InsertJob(j, row)) && Inv(Naive(t, InsertJob(j, row)))
  {
    hide Justified;
    var t' := Naive(t, InsertJob(j, row));
    if VerdictOf(t, InsertJob(j, row)) == Accepted { AcceptedIsSound(t, InsertJob(j, row)); }
    if Inv(t') { assert JobConsistent(t', j); }
  }

  lemma EventInsertIsExact(t: Tables, e: Event)
    requires Inv(t)
    ensures VerdictOf(t, InsertEvent(e)) == Accepted <==> Inv(Naive(t, InsertEvent(e)))
  {
    hide Justified;
    var t' := Naive(t, InsertEvent(e));
    if VerdictOf(t, InsertEvent(e)) == Accepted { AcceptedIsSound(t, InsertEvent(e)); }
    if Inv(t') { assert t'.events[|t.events|] == e; }
  }

  lemma NodeInsertIsExact(t: Tables, n: NodeId, row: Node)
    requires Inv(t)
    ensures VerdictOf(t, InsertNode(n, row)) == Accepted <==>
            KeysFit(t, InsertNode(n, row)) && Inv(Naive(t, InsertNode(n, row)))
  {
    hide Justified;
    var t' := Naive(t, InsertNode(n, row));
    if VerdictOf(t, InsertNode(n, row)) == Accepted { AcceptedIsSound(t, InsertNode(n, row)); }
    if Inv(t') { assert n in t'.nodes; }
  }

  lemma NodeUpdateIsExact(t: Tables, n: NodeId, n': NodeId, row: Node)
    requires Inv(t)
    ensures VerdictOf(t, UpdateNode(n, n', row)) == Accepted <==>
            KeysFit(t, UpdateNode(n, n', row)) && Inv(Naive(t, UpdateNode(n, n', row)))
    ensures Step(t, UpdateNode(n, n', row)) ==
            if VerdictOf(t, UpdateNode(n, n', row)) == Accepted then Naive(t, UpdateNode(n, n', row)) else t
  {
    hide Justified;
    assert n in t.nodes && n' == n ==> (t.nodes - {n})[n := row] == t.nodes[n := row];
    if VerdictOf(t, UpdateNode(n, n', row)) == Accepted { AcceptedIsSound(t, UpdateNode(n, n', row)); }
  }

  lemma UserInsertIsExact(t: Tables, u: UserId)
    requires Inv(t)
    ensures VerdictOf(t, InsertUser(u)) == Accepted <==> KeysFit(t, InsertUser(u)) && Inv(Naive(t, InsertUser(u)))
  {
    hide Justified;
    if VerdictOf(t, InsertUser(u)) == Accepted { AcceptedIsSound(t, InsertUser(u)); }
  }

  /** Usage is recorded for a job that has ended and has a provider, completed or not, and once. */
  lemma UsageAnswer(t: Tables, j: JobId, metrics: string)
    ensures VerdictOf(t, InsertUsage(j, metrics)) == Accepted <==>
              && j in t.jobs && t.jobs[j].status in {Completed, Failed, Cancelled} && t.jobs[j].provider.Some?
              && j !in t.usage
  {
  }

  /** A wallet row needs a completed job with usage, the right party and sign, fresh keys and an existing user. */
  lemma WalletAnswer(t: Tables, e: Entry)
    requires Inv(t)
    ensures VerdictOf(t, InsertWallet(e)) == Accepted <==>
              && e.job in t.jobs && t.jobs[e.job].status == Completed && e.job in t.usage && e.user in t.users
              && (|| (e.kind == Usage && e.amount < 0 && e.user == t.jobs[e.job].consumer)
                  || (e.kind == Earning && e.amount > 0 && t.jobs[e.job].provider.Some?
                      && t.jobs[e.job].provider.value in t.nodes
                      && e.user == t.nodes[t.jobs[e.job].provider.value].owner))
              && -0x8000_0000_0000_0000 <= e.amount < 0x8000_0000_0000_0000
              && (exists i :: 0 <= i < |e.key| && e.key[i] != ' ')
              && forall i :: 0 <= i < |t.wallet| ==> !Collides(t.wallet[i], e)
  {
    hide Justified;
    if VerdictOf(t, InsertWallet(e)) != Accepted && (forall i :: 0 <= i < |t.wallet| ==> !Collides(t.wallet[i], e)) {
      assert WalletUnique(t.wallet, e);
    }
  }

  predicate Collides(a: Entry, b: Entry) {
    a.key == b.key || (a.job == b.job && a.kind == b.kind)
  }

  /** Every refusal names a fault that is there. */
  lemma RefusalsAreTrue(t: Tables, s: Statement)
    ensures VerdictOf(t, s) == NoSuchRow <==>
            || (s.DeleteUser? && s.user !in t.users)
            || ((s.DeleteNode? || s.UpdateNode?) && s.node !in t.nodes)
            || (s.UpdateJob? && s.job !in t.jobs)
    ensures VerdictOf(t, s) == UniqueViolation ==>
            || (s.InsertUser? && s.user in t.users)
            || (s.InsertNode? && s.node in t.nodes)
            || (s.InsertNode? && exists n :: n in t.nodes && t.nodes[n].nodeKey == s.nodeRow.nodeKey)
            || (s.InsertJob? && s.job in t.jobs)
            || (s.InsertUsage? && s.job in t.usage)
            || (s.InsertWallet? && exists i :: 0 <= i < |t.wallet| && Collides(t.wallet[i], s.entry))
    ensures VerdictOf(t, s) == ForeignKeyViolation ==>
            || (s.InsertNode? && s.nodeRow.owner !in t.users)
            || (s.InsertEvent? && s.event.job !in t.jobs)
            || (s.InsertWallet? && s.entry.user !in t.users)
            || ((s.InsertJob? || s.UpdateJob?) &&
                  (|| s.jobRow.consumer !in t.users
                   || (s.jobRow.provider.Some? && s.jobRow.provider.value !in t.nodes)))
            || (s.DeleteNode? && exists j :: j in t.jobs && t.jobs[j].provider == Some(s.node))
            || (s.DeleteUser? &&
                  (|| (exists n :: n in t.nodes && t.nodes[n].owner == s.user)
                   || (exists j :: j in t.jobs && t.jobs[j].consumer == s.user)
                   || (exists i :: 0 <= i < |t.wallet| && t.wallet[i].user == s.user)))
    ensures s.Rewrite? ==> VerdictOf(t, s) == CheckViolation
  {
  }

  // ---------------------------------------------------------------------
  // The life of a job
  // ---------------------------------------------------------------------

  /** Extends a run from the empty tables by a statement with a known effect. */
  lemma Then(ss: seq<Statement>, s: Statement, expected: Tables) returns (longer: seq<Statement>)
    requires Step(Run(EMPTY_TABLES, ss), s) == expected
    ensures Run(EMPTY_TABLES, longer) == expected
  {
    longer := ss + [s];
    assert longer[..|ss|] == ss;
  }

  const WAITING := Job(1, None, None, 0, Queued)

  /** Two users, a node of the second and a queued job of the first. */
  const QUEUED_TABLES := Tables(
    {1, 2}, map[3 := Node(2, "node", "1.0")], map[4 := WAITING],
    [Event(4, Created, StatusIs(Queued))], map[], [])

  lemma AJobCanBeQueued() returns (ss: seq<Statement>)
    ensures Run(EMPTY_TABLES, ss) == QUEUED_TABLES
  {
    hide Run;
    RunNothing();
    var t := EMPTY_TABLES;
    t := t.(users := {1});
    ss := Then([], InsertUser(1), t);
    t := t.(users := {1, 2});
    ss := Then(ss, InsertUser(2), t);
    t := t.(nodes := map[3 := Node(2, "node", "1.0")]);
    ss := Then(ss, InsertNode(3, Node(2, "node", "1.0")), t);
    ss := Then(ss, InsertJob(4, WAITING), QUEUED_TABLES);
  }

  /** The empty run of the ledger. */
  lemma RunNothing()
    ensures Run(EMPTY_TABLES, []) == EMPTY_TABLES
  {
  }

  const RUNNING := WAITING.(status := Running, provider := Some(3))

  function Moved(t: Tables, row: Job, from: JobStatus): Tables {
    t.(jobs := map[4 := row], events := t.events + [Event(4, StatusChanged, FromTo(from, row.status))])
  }

  const COMPLETED_TABLES := Moved(Moved(QUEUED_TABLES, RUNNING, Queued), RUNNING.(status := Completed), Running)
  const USED_TABLES := COMPLETED_TABLES.(usage := map[4 := "usage"])
  const EARNING := Entry(2, 4, Earning, 7, "earning")
  const CHARGE := Entry(1, 4, Usage, -7, "charge")

  lemma AJobCanBeUsed() returns (ss: seq<Statement>)
    ensures Run(EMPTY_TABLES, ss) == USED_TABLES
  {
    hide Run;
    ss := AJobCanBeQueued();
    ss := Then(ss, UpdateJob(4, 4, RUNNING), Moved(QUEUED_TABLES, RUNNING, Queued));
    ss := Then(ss, UpdateJob(4, 4, RUNNING.(status := Completed)), COMPLETED_TABLES);
    ss := Then(ss, InsertUsage(4, "usage"), USED_TABLES);
  }

  /** A job runs and completes, its usage is recorded, its provider paid and its consumer charged. */
  lemma AJobCanComplete() returns (ss: seq<Statement>)
    ensures var t := Run(EMPTY_TABLES, ss);
            && t.jobs == map[4 := Job(1, Some(3), None, 0, Completed)] && t.usage == map[4 := "usage"]
            && t.wallet == [Entry(2, 4, Earning, 7, "earning"), Entry(1, 4, Usage, -7, "charge")]
            && t.events == [Event(4, Created, StatusIs(Queued)),
                            Event(4, StatusChanged, FromTo(Queued, Running)),
                            Event(4, StatusChanged, FromTo(Running, Completed))]
            && Replay(t.events, 4) == At(Completed) && Balance(t.wallet, 2) == 7 && Balance(t.wallet, 1) == -7
  {
    hide Run, Inv, Replay, Balance;
    ss := AJobCanBeUsed();
    assert EARNING.key[0] != ' ' && CHARGE.key[0] != ' ';
    ss := Then(ss, InsertWallet(EARNING), USED_TABLES.(wallet := [EARNING]));
    assert EARNING.key != CHARGE.key by { assert |EARNING.key| != |CHARGE.key|; }
    ss := Then(ss, InsertWallet(CHARGE), USED_TABLES.(wallet := [EARNING] + [CHARGE]));
    ReplayOfThree();
    BalancesOfTwo(EARNING, CHARGE);
  }

  lemma ReplayOfThree()
    ensures Replay([Event(4, Created, StatusIs(Queued)), Event(4, StatusChanged, FromTo(Queued, Running)),
                    Event(4, StatusChanged, FromTo(Running, Completed))], 4) == At(Completed)
  {
    var a, b := Event(4, Created, StatusIs(Queued)), Event(4, StatusChanged, FromTo(Queued, Running));
    ReplayAppend([], a, 4);
    ReplayAppend([a], b, 4);
    ReplayAppend([a, b], Event(4, StatusChanged, FromTo(Running, Completed)), 4);
    assert [] + [a] == [a] && [a] + [b] == [a, b];
  }

  lemma BalancesOfTwo(a: Entry, b: Entry)
    requires a.user != b.user
    ensures Balance([a] + [b], a.user) == a.amount && Balance([a] + [b], b.user) == b.amount
  {
    BalanceAppend([], a, a.user);
    BalanceAppend([], a, b.user);
    assert [] + [a] == [a];
    BalanceAppend([a], b, a.user);
    BalanceAppend([a], b, b.user);
  }

  /** A queued and a running job can each fail or be cancelled. */
  lemma AJobCanEnd(status: JobStatus) returns (waiting: seq<Statement>, running: seq<Statement>)
    requires status in {Failed, Cancelled}
    ensures Run(EMPTY_TABLES, waiting).jobs == map[4 := Job(1, None, None, 0, status)]
    ensures Run(EMPTY_TABLES, running).jobs == map[4 := Job(1, Some(3), None, 0, status)]
  {
    hide Run;
    var queued := AJobCanBeQueued();
    var ended := WAITING.(status := status);
    waiting := Then(queued, UpdateJob(4, 4, ended), Moved(QUEUED_TABLES, ended, Queued));
    var t := Moved(QUEUED_TABLES, RUNNING, Queued);
    running := Then(queued, UpdateJob(4, 4, RUNNING), t);
    ended := RUNNING.(status := status);
    running := Then(running, UpdateJob(4, 4, ended), Moved(t, ended, Running));
  }
}
