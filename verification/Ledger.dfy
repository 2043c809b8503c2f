/**
 Jobs, audit events, usage records and the wallet ledger, as guarded by the
 triggers and constraints of migration 2.

 `Verdict` and `Effect` say what PostgreSQL does with one single-row statement;
 class `Database` performs the statements on mutable tables, trigger by trigger;
 the lemmas are about every run of statements from the empty database.
 */
module Ledger {
  import opened Prelude

  type UserId = nat
  type NodeId = nat
  type JobId = nat

  datatype JobStatus = Queued | Running | Completed | Failed | Cancelled

  datatype Job = Job(consumer: UserId, provider: Option<NodeId>, model: Option<nat>, createdAt: int, status: JobStatus)

  datatype Node = Node(owner: UserId, nodeKey: string, agentVersion: string)

  /** The jsonb documents the audit trigger writes, and all other documents, numbered. */
  datatype Payload = StatusIs(status: JobStatus) | FromTo(from: JobStatus, to: JobStatus) | OtherDocument(number: nat)

  type UnnamedEventType = t: string | t != "created" && t != "status_changed" witness ""

  /** `event_type` is a free text column; the audit trigger writes two of its values. */
  datatype EventType = Created | StatusChanged | OtherType(text: UnnamedEventType)

  datatype Event = Event(job: JobId, eventType: EventType, payload: Payload)

  type UnnamedKind = t: string | t != "earning" && t != "usage" witness ""

  /** `transaction_type` is a text column; a CHECK admits only two of its values. */
  datatype Kind = Earning | Usage | OtherKind(text: UnnamedKind)

  datatype Entry = Entry(user: UserId, job: JobId, kind: Kind, amount: int, key: string)

  datatype Tables = Tables(
    users: set<UserId>,
    nodes: map<NodeId, Node>,
    jobs: map<JobId, Job>,
    events: seq<Event>,
    usage: map<JobId, string>,
    wallet: seq<Entry>)

  const EMPTY_TABLES := Tables({}, map[], map[], [], map[], [])

  datatype AppendOnlyTable = WalletTransactions | JobEvents | UsageRecords | Jobs

  datatype Statement =
    | InsertUser(user: UserId)
    | DeleteUser(user: UserId)
    | InsertNode(node: NodeId, nodeRow: Node)
    | UpdateNode(node: NodeId, newNode: NodeId, nodeRow: Node)
    | DeleteNode(node: NodeId)
    | InsertJob(job: JobId, jobRow: Job)
    | UpdateJob(job: JobId, newJob: JobId, jobRow: Job)
    | InsertEvent(event: Event)
    | InsertUsage(job: JobId, metrics: string)
    | InsertWallet(entry: Entry)
    | Rewrite(table: AppendOnlyTable)  // UPDATE, DELETE or TRUNCATE of a protected table

  datatype Verdict = Accepted | CheckViolation | UniqueViolation | ForeignKeyViolation | NoSuchRow

  // ---------------------------------------------------------------------
  // Trigger functions and constraints
  // ---------------------------------------------------------------------

  predicate Terminal(s: JobStatus) {
    s == Completed || s == Failed || s == Cancelled
  }

  predicate LegalTransition(from: JobStatus, to: JobStatus) {
    || (from == Queued && (to == Running || to == Failed || to == Cancelled))
    || (from == Running && (to == Completed || to == Failed || to == Cancelled))
  }

  predicate HasRequiredProvider(row: Job) {
    row.status == Running || row.status == Completed ==> row.provider.Some?
  }

  /** meshalot_guard_job on UPDATE. */
  predicate JobUpdateAllowed(id: JobId, old': Job, newId: JobId, new': Job) {
    && id == newId && old'.consumer == new'.consumer && old'.model == new'.model && old'.createdAt == new'.createdAt
    && (old'.provider.Some? ==> new'.provider == old'.provider)
    && (Terminal(old'.status) ==> new' == old')
    && (new'.status != old'.status ==> LegalTransition(old'.status, new'.status))
    && HasRequiredProvider(new')
  }

  predicate ProviderExists(t: Tables, row: Job) {
    row.provider.Some? ==> row.provider.value in t.nodes
  }

  /** meshalot_check_usage. */
  predicate UsageAllowed(t: Tables, job: JobId) {
    job in t.jobs && t.jobs[job].provider.Some? && Terminal(t.jobs[job].status)
  }

  /** meshalot_check_wallet: `provider` is NULL when the node row is not found. */
  predicate WalletAllowed(t: Tables, e: Entry) {
    && e.job in t.jobs && t.jobs[e.job].status == Completed && e.job in t.usage
    && var j := t.jobs[e.job];
    && (e.kind == Earning ==>
          j.provider.Some? && j.provider.value in t.nodes && e.user == t.nodes[j.provider.value].owner)
    && (e.kind == Usage ==> e.user == j.consumer)
  }

  const BIGINT_LIMIT := 0x8000_0000_0000_0000

  predicate WalletConstraints(e: Entry) {
    && -BIGINT_LIMIT <= e.amount < BIGINT_LIMIT
    && ((e.kind == Earning && e.amount > 0) || (e.kind == Usage && e.amount < 0))
    && exists i :: 0 <= i < |e.key| && e.key[i] != ' '
  }

  predicate WalletUnique(wallet: seq<Entry>, e: Entry) {
    forall i :: 0 <= i < |wallet| ==>
      wallet[i].key != e.key && !(wallet[i].job == e.job && wallet[i].kind == e.kind)
  }

  predicate UserReferenced(t: Tables, u: UserId) {
    || (exists n :: n in t.nodes && t.nodes[n].owner == u)
    || (exists j :: j in t.jobs && t.jobs[j].consumer == u)
    || (exists i :: 0 <= i < |t.wallet| && t.wallet[i].user == u)
  }

  predicate NodeReferenced(t: Tables, n: NodeId) {
    exists j :: j in t.jobs && t.jobs[j].provider == Some(n)
  }

  predicate NodeKeyTaken(t: Tables, key: string) {
    exists n :: n in t.nodes && t.nodes[n].nodeKey == key
  }

  /** What PostgreSQL answers to one statement: BEFORE triggers, CHECKs, unique indexes, then foreign keys. */
  function VerdictOf(t: Tables, s: Statement): Verdict {
    match s
    case InsertUser(u) => if u in t.users then UniqueViolation else Accepted
    case DeleteUser(u) =>
      if u !in t.users then NoSuchRow else if UserReferenced(t, u) then ForeignKeyViolation else Accepted
    case InsertNode(n, row) =>
      if n in t.nodes || NodeKeyTaken(t, row.nodeKey) then UniqueViolation
      else if row.owner !in t.users then ForeignKeyViolation else Accepted
    case UpdateNode(n, n', row) =>
      if n !in t.nodes then NoSuchRow
      else if n' != n || row.owner != t.nodes[n].owner || row.nodeKey != t.nodes[n].nodeKey then CheckViolation
      else Accepted
    case DeleteNode(n) =>
      if n !in t.nodes then NoSuchRow else if NodeReferenced(t, n) then ForeignKeyViolation else Accepted
    case InsertJob(j, row) =>
      if row.status != Queued then CheckViolation
      else if j in t.jobs then UniqueViolation
      else if row.consumer !in t.users || !ProviderExists(t, row) then ForeignKeyViolation
      else Accepted
    case UpdateJob(j, j', row) =>
      if j !in t.jobs then NoSuchRow
      else if !JobUpdateAllowed(j, t.jobs[j], j', row) then CheckViolation
      else if !ProviderExists(t, row) then ForeignKeyViolation
      else Accepted
    case InsertEvent(e) => if e.job !in t.jobs then ForeignKeyViolation else Accepted
    case InsertUsage(j, _) =>
      if !UsageAllowed(t, j) then CheckViolation else if j in t.usage then UniqueViolation else Accepted
    case InsertWallet(e) =>
      if !WalletAllowed(t, e) || !WalletConstraints(e) then CheckViolation
      else if !WalletUnique(t.wallet, e) then UniqueViolation
      else if e.user !in t.users then ForeignKeyViolation
      else Accepted
    case Rewrite(_) => CheckViolation
  }

  /** meshalot_record_job_status on INSERT and on UPDATE. */
  function CreatedEvent(j: JobId, row: Job): Event {
    Event(j, Created, StatusIs(row.status))
  }

  function ChangedEvents(j: JobId, old': Job, new': Job): seq<Event> {
    if new'.status != old'.status then [Event(j, StatusChanged, FromTo(old'.status, new'.status))] else []
  }

  function Effect(t: Tables, s: Statement): Tables
    requires VerdictOf(t, s) == Accepted
  {
    match s
    case InsertUser(u) => t.(users := t.users + {u})
    case DeleteUser(u) => t.(users := t.users - {u})
    case InsertNode(n, row) => t.(nodes := t.nodes[n := row])
    case UpdateNode(n, _, row) => t.(nodes := t.nodes[n := row])
    case DeleteNode(n) => t.(nodes := t.nodes - {n})
    case InsertJob(j, row) => t.(jobs := t.jobs[j := row], events := t.events + [CreatedEvent(j, row)])
    case UpdateJob(j, _, row) =>
      t.(jobs := t.jobs[j := row], events := t.events + ChangedEvents(j, t.jobs[j], row))
    case InsertEvent(e) => t.(events := t.events + [e])
    case InsertUsage(j, m) => t.(usage := t.usage[j := m])
    case InsertWallet(e) => t.(wallet := t.wallet + [e])
  }

  /** A refused statement changes nothing. */
  function Step(t: Tables, s: Statement): Tables {
    if VerdictOf(t, s) == Accepted then Effect(t, s) else t
  }

  function Run(t: Tables, ss: seq<Statement>): Tables {
    if ss == [] then t else Step(Run(t, ss[..|ss| - 1]), ss[|ss| - 1])
  }

  // ---------------------------------------------------------------------
  // The tables as mutable state
  // ---------------------------------------------------------------------

  /** The six tables, each statement carried out trigger by trigger. */
  class Database {
    var users: set<UserId>
    var nodes: map<NodeId, Node>
    var jobs: map<JobId, Job>
    var events: seq<Event>
    var usage: map<JobId, string>
    var wallet: seq<Entry>

    function Snapshot(): Tables
      reads this
    {
      Tables(users, nodes, jobs, events, usage, wallet)
    }

    ghost predicate Valid()
      reads this
    {
      Inv(Snapshot())
    }

    constructor ()
      ensures Valid() && Snapshot() == EMPTY_TABLES
    {
      users, nodes, jobs, events, usage, wallet := {}, map[], map[], [], map[], [];
    }

    /** AFTER trigger job_status_audit: `before` is NULL on INSERT. */
    method RecordJobStatus(id: JobId, before: Option<Job>, after: Job)
      modifies this`events
      ensures events == old(events) +
        (if before.None? then [CreatedEvent(id, after)] else ChangedEvents(id, before.value, after))
    {
      if before.None? {
        events := events + [Event(id, Created, StatusIs(after.status))];
      } else if before.value.status != after.status {
        events := events + [Event(id, StatusChanged, FromTo(before.value.status, after.status))];
      }
    }

    method AddJob(id: JobId, row: Job) returns (v: Verdict)
      requires Valid()
      modifies this`jobs, this`events
      ensures Valid() && Snapshot() == Step(old(Snapshot()), InsertJob(id, row))
      ensures v == VerdictOf(old(Snapshot()), InsertJob(id, row))
    {
      StepKeepsInv(Snapshot(), InsertJob(id, row));
      if row.status != Queued { return CheckViolation; }
      if id in jobs { return UniqueViolation; }
      if row.consumer !in users || (row.provider.Some? && row.provider.value !in nodes) { return ForeignKeyViolation; }
      jobs := jobs[id := row];
      RecordJobStatus(id, None, row);
      return Accepted;
    }

    method ChangeJob(id: JobId, newId: JobId, row: Job) returns (v: Verdict)
      requires Valid()
      modifies this`jobs, this`events
      ensures Valid() && Snapshot() == Step(old(Snapshot()), UpdateJob(id, newId, row))
      ensures v == VerdictOf(old(Snapshot()), UpdateJob(id, newId, row))
    {
      StepKeepsInv(Snapshot(), UpdateJob(id, newId, row));
      if id !in jobs { return NoSuchRow; }
      var before := jobs[id];
      if id != newId || before.consumer != row.consumer || before.model != row.model
        || before.createdAt != row.createdAt || (before.provider.Some? && row.provider != before.provider) {
        return CheckViolation;
      }
      if Terminal(before.status) && row != before { return CheckViolation; }
      if row.status != before.status && !LegalTransition(before.status, row.status) { return CheckViolation; }
      if (row.status == Running || row.status == Completed) && row.provider.None? { return CheckViolation; }
      if row.provider.Some? && row.provider.value !in nodes { return ForeignKeyViolation; }
      jobs := jobs[id := row];
      RecordJobStatus(id, Some(before), row);
      return Accepted;
    }

    method AddUsage(job: JobId, metrics: string) returns (v: Verdict)
      requires Valid()
      modifies this`usage
      ensures Valid() && Snapshot() == Step(old(Snapshot()), InsertUsage(job, metrics))
      ensures v == VerdictOf(old(Snapshot()), InsertUsage(job, metrics))
    {
      StepKeepsInv(Snapshot(), InsertUsage(job, metrics));
      if job !in jobs || jobs[job].provider.None? || !Terminal(jobs[job].status) { return CheckViolation; }
      if job in usage { return UniqueViolation; }
      usage := usage[job := metrics];
      return Accepted;
    }

    method AddWalletEntry(e: Entry) returns (v: Verdict)
      requires Valid()
      modifies this`wallet
      ensures Valid() && Snapshot() == Step(old(Snapshot()), InsertWallet(e))
      ensures v == VerdictOf(old(Snapshot()), InsertWallet(e))
    {
      StepKeepsInv(Snapshot(), InsertWallet(e));
      if e.job !in jobs || jobs[e.job].status != Completed || e.job !in usage { return CheckViolation; }
      var j := jobs[e.job];
      var provider: Option<UserId> := None;
      if j.provider.Some? && j.provider.value in nodes { provider := Some(nodes[j.provider.value].owner); }
      if (e.kind == Earning && provider != Some(e.user)) || (e.kind == Usage && e.user != j.consumer) {
        return CheckViolation;
      }
      if !WalletConstraints(e) { return CheckViolation; }
      var i := 0;
      while i < |wallet|
        invariant 0 <= i <= |wallet|
        invariant WalletUnique(wallet[..i], e)
      {
        if wallet[i].key == e.key || (wallet[i].job == e.job && wallet[i].kind == e.kind) {
          return UniqueViolation;
        }
        i := i + 1;
      }
      assert wallet[..i] == wallet;
      if e.user !in users { return ForeignKeyViolation; }
      wallet := wallet + [e];
      return Accepted;
    }

    method ChangeNode(id: NodeId, newId: NodeId, row: Node) returns (v: Verdict)
      requires Valid()
      modifies this`nodes
      ensures Valid() && Snapshot() == Step(old(Snapshot()), UpdateNode(id, newId, row))
      ensures v == VerdictOf(old(Snapshot()), UpdateNode(id, newId, row))
    {
      StepKeepsInv(Snapshot(), UpdateNode(id, newId, row));
      if id !in nodes { return NoSuchRow; }
      var before := nodes[id];
      if newId != id || row.owner != before.owner || row.nodeKey != before.nodeKey { return CheckViolation; }
      nodes := nodes[id := row];
      return Accepted;
    }

    method AddUser(id: UserId) returns (v: Verdict)
      requires Valid()
      modifies this`users
      ensures Valid() && Snapshot() == Step(old(Snapshot()), InsertUser(id))
      ensures v == VerdictOf(old(Snapshot()), InsertUser(id))
    {
      StepKeepsInv(Snapshot(), InsertUser(id));
      if id in users { return UniqueViolation; }
      users := users + {id};
      return Accepted;
    }

    method DropUser(id: UserId) returns (v: Verdict)
      requires Valid()
      modifies this`users
      ensures Valid() && Snapshot() == Step(old(Snapshot()), DeleteUser(id))
      ensures v == VerdictOf(old(Snapshot()), DeleteUser(id))
    {
      StepKeepsInv(Snapshot(), DeleteUser(id));
      if id !in users { return NoSuchRow; }
      if UserReferenced(Snapshot(), id) { return ForeignKeyViolation; }
      users := users - {id};
      return Accepted;
    }

    method AddNode(id: NodeId, row: Node) returns (v: Verdict)
      requires Valid()
      modifies this`nodes
      ensures Valid() && Snapshot() == Step(old(Snapshot()), InsertNode(id, row))
      ensures v == VerdictOf(old(Snapshot()), InsertNode(id, row))
    {
      StepKeepsInv(Snapshot(), InsertNode(id, row));
      if id in nodes || NodeKeyTaken(Snapshot(), row.nodeKey) { return UniqueViolation; }
      if row.owner !in users { return ForeignKeyViolation; }
      nodes := nodes[id := row];
      return Accepted;
    }

    method DropNode(id: NodeId) returns (v: Verdict)
      requires Valid()
      modifies this`nodes
      ensures Valid() && Snapshot() == Step(old(Snapshot()), DeleteNode(id))
      ensures v == VerdictOf(old(Snapshot()), DeleteNode(id))
    {
      StepKeepsInv(Snapshot(), DeleteNode(id));
      if id !in nodes { return NoSuchRow; }
      if NodeReferenced(Snapshot(), id) { return ForeignKeyViolation; }
      nodes := nodes - {id};
      return Accepted;
    }

    method AddEvent(e: Event) returns (v: Verdict)
      requires Valid()
      modifies this`events
      ensures Valid() && Snapshot() == Step(old(Snapshot()), InsertEvent(e))
      ensures v == VerdictOf(old(Snapshot()), InsertEvent(e))
    {
      StepKeepsInv(Snapshot(), InsertEvent(e));
      if e.job !in jobs { return ForeignKeyViolation; }
      events := events + [e];
      return Accepted;
    }
  }

  // ---------------------------------------------------------------------
  // Every wallet row stays justified
  // ---------------------------------------------------------------------

  /** The insert-time check of a wallet row, read as a claim about the tables now. */
  ghost predicate Justified(t: Tables, e: Entry) {
    && e.job in t.jobs && e.job in t.usage && e.user in t.users
    && var j := t.jobs[e.job];
    && j.status == Completed && j.provider.Some? && j.provider.value in t.nodes
    && (|| (e.kind == Earning && e.amount > 0 && e.user == t.nodes[j.provider.value].owner)
        || (e.kind == Usage && e.amount < 0 && e.user == j.consumer))
  }

  ghost predicate JobConsistent(t: Tables, j: JobId)
    requires j in t.jobs
  {
    t.jobs[j].consumer in t.users && ProviderExists(t, t.jobs[j]) && HasRequiredProvider(t.jobs[j])
  }

  ghost predicate Inv(t: Tables) {
    && (forall n :: n in t.nodes ==> t.nodes[n].owner in t.users)
    && (forall j :: j in t.jobs ==> JobConsistent(t, j))
    && (forall i :: 0 <= i < |t.events| ==> t.events[i].job in t.jobs)
    && (forall j :: j in t.usage ==> UsageAllowed(t, j))
    && (forall i :: 0 <= i < |t.wallet| ==> Justified(t, t.wallet[i]))
    && (forall i, k :: 0 <= i < k < |t.wallet| ==>
          t.wallet[i].key != t.wallet[k].key
          && !(t.wallet[i].job == t.wallet[k].job && t.wallet[i].kind == t.wallet[k].kind))
  }

  /**
   What no statement can undo: the append-only tables keep their rows in place, jobs keep
   their parties, terminal jobs are frozen, and a node named by a job keeps its owner.
   */
  ghost predicate Extends(t: Tables, t': Tables) {
    && t.events <= t'.events && t.wallet <= t'.wallet
    && (forall j :: j in t.usage ==> j in t'.usage && t'.usage[j] == t.usage[j])
    && (forall j :: j in t.jobs ==> j in t'.jobs && SameParties(t.jobs[j], t'.jobs[j]))
    && (forall j :: j in t.jobs && ProviderExists(t, t.jobs[j]) && t.jobs[j].provider.Some? ==>
          && ProviderExists(t', t.jobs[j])
          && t'.nodes[t.jobs[j].provider.value].owner == t.nodes[t.jobs[j].provider.value].owner)
  }

  ghost predicate SameParties(old': Job, new': Job) {
    && old'.consumer == new'.consumer && old'.model == new'.model && old'.createdAt == new'.createdAt
    && (old'.provider.Some? ==> new'.provider == old'.provider)
    && (Terminal(old'.status) ==> new' == old')
  }

  lemma StepExtends(t: Tables, s: Statement)
    ensures Extends(t, Step(t, s))
  {
    if VerdictOf(t, s) == Accepted && s.DeleteNode? {
      forall j | j in t.jobs && t.jobs[j].provider.Some?
        ensures t.jobs[j].provider.value != s.node
      {
      }
    }
  }

  /** A justified wallet row stays justified in every extension that keeps its user. */
  lemma JustifiedStays(t: Tables, t': Tables, e: Entry)
    requires Justified(t, e) && Extends(t, t') && e.user in t'.users
    ensures Justified(t', e)
  {
    assert SameParties(t.jobs[e.job], t'.jobs[e.job]);
    assert ProviderExists(t, t.jobs[e.job]);
  }

  lemma StepKeepsWallet(t: Tables, s: Statement)
    requires Inv(t) && VerdictOf(t, s) == Accepted
    ensures forall i :: 0 <= i < |Effect(t, s).wallet| ==> Justified(Effect(t, s), Effect(t, s).wallet[i])
  {
    var t' := Effect(t, s);
    StepExtends(t, s);
    if s.DeleteUser? {
      forall i | 0 <= i < |t.wallet| ensures t.wallet[i].user != s.user {}
    }
    forall i | 0 <= i < |t'.wallet| ensures Justified(t', t'.wallet[i]) {
      if i < |t.wallet| { JustifiedStays(t, t', t.wallet[i]); }
    }
  }

  lemma StepKeepsUsage(t: Tables, s: Statement)
    requires Inv(t) && VerdictOf(t, s) == Accepted
    ensures forall j :: j in Effect(t, s).usage ==> UsageAllowed(Effect(t, s), j)
  {
    hide Justified, WalletAllowed, WalletConstraints, WalletUnique, NodeKeyTaken, UserReferenced, NodeReferenced;
  }

  /** One statement keeps every wallet row justified, and the foreign keys and unique indexes hold. */
  lemma StepKeepsInv(t: Tables, s: Statement)
    requires Inv(t)
    ensures Inv(Step(t, s))
  {
    hide Justified, WalletAllowed, WalletConstraints, NodeKeyTaken;
    if VerdictOf(t, s) == Accepted {
      var t' := Effect(t, s);
      StepKeepsWallet(t, s);
      StepKeepsUsage(t, s);
      forall j | j in t'.jobs ensures JobConsistent(t', j) {
        if j in t.jobs { assert JobConsistent(t, j); }
      }
    }
  }

  /** In every reachable state every wallet row is still justified. */
  lemma {:induction false} ReachableInv(ss: seq<Statement>)
    ensures Inv(Run(EMPTY_TABLES, ss))
  {
    if ss != [] {
      ReachableInv(ss[..|ss| - 1]);
      StepKeepsInv(Run(EMPTY_TABLES, ss[..|ss| - 1]), ss[|ss| - 1]);
    }
  }

  /** The jobs whose usage the inner joins of the job_usage_parties view list. */
  function UsageParties(t: Tables): set<JobId> {
    set j | j in t.usage && j in t.jobs && t.jobs[j].provider.Some? && t.jobs[j].provider.value in t.nodes
  }

  /** The inner joins of job_usage_parties hide no usage record, in any reachable state. */
  lemma UsagePartiesListsAll(ss: seq<Statement>)
    ensures UsageParties(Run(EMPTY_TABLES, ss)) == Run(EMPTY_TABLES, ss).usage.Keys
  {
    var t := Run(EMPTY_TABLES, ss);
    ReachableInv(ss);
    forall j | j in t.usage ensures j in UsageParties(t) {
      assert UsageAllowed(t, j) && JobConsistent(t, j);
    }
  }

  lemma ExtendsTransitive(a: Tables, b: Tables, c: Tables)
    requires Extends(a, b) && Extends(b, c)
    ensures Extends(a, c)
  {
    forall j | j in a.jobs && ProviderExists(a, a.jobs[j]) && a.jobs[j].provider.Some?
      ensures ProviderExists(c, a.jobs[j])
      ensures c.nodes[a.jobs[j].provider.value].owner == a.nodes[a.jobs[j].provider.value].owner
    {
      assert SameParties(a.jobs[j], b.jobs[j]);
      assert ProviderExists(b, b.jobs[j]);
    }
    forall j | j in a.jobs ensures j in c.jobs && SameParties(a.jobs[j], c.jobs[j]) {
      assert SameParties(a.jobs[j], b.jobs[j]) && SameParties(b.jobs[j], c.jobs[j]);
    }
  }

  /** No run rewrites history: whatever the tables held before, `Extends` holds after. */
  lemma {:induction false} RunExtends(t: Tables, ss: seq<Statement>)
    ensures Extends(t, Run(t, ss))
  {
    if ss != [] {
      var mid := Run(t, ss[..|ss| - 1]);
      RunExtends(t, ss[..|ss| - 1]);
      StepExtends(mid, ss[|ss| - 1]);
      ExtendsTransitive(t, mid, Run(t, ss));
    }
  }

  // ---------------------------------------------------------------------
  // The audit log replays to the job status
  // ---------------------------------------------------------------------

  /** The event types the audit trigger writes; the schema does not keep others from writing them too. */
  predicate Reserved(eventType: EventType) {
    !eventType.OtherType?
  }

  /** What the audit-typed events of one job add up to. */
  datatype Replayed = Nothing | At(status: JobStatus) | Broken

  /** One link of the chain: it starts with "created queued", then each "from" is the previous "to". */
  function Advance(r: Replayed, e: Event): Replayed {
    if e.eventType == Created && e.payload == StatusIs(Queued) && r == Nothing then At(Queued)
    else if e.eventType == StatusChanged && e.payload.FromTo? && r == At(e.payload.from)
         && LegalTransition(e.payload.from, e.payload.to) then At(e.payload.to)
    else Broken
  }

  predicate Audits(e: Event, j: JobId) {
    e.job == j && Reserved(e.eventType)
  }

  /** Rebuilds the status of job `j` from the log alone. */
  function Replay(events: seq<Event>, j: JobId): Replayed {
    if events == [] then Nothing
    else
      var r, e := Replay(events[..|events| - 1], j), events[|events| - 1];
      if Audits(e, j) then Advance(r, e) else r
  }

  function AuditCount(events: seq<Event>, j: JobId): nat {
    if events == [] then 0
    else AuditCount(events[..|events| - 1], j) + (if Audits(events[|events| - 1], j) then 1 else 0)
  }

  ghost predicate AuditHolds(t: Tables) {
    forall j :: j in t.jobs ==> Replay(t.events, j) == At(t.jobs[j].status)
  }

  lemma ReplayAppend(events: seq<Event>, e: Event, j: JobId)
    ensures Replay(events + [e], j) == if Audits(e, j) then Advance(Replay(events, j), e) else Replay(events, j)
  {
    assert (events + [e])[..|events|] == events;
  }

  lemma {:induction false} ReplayOfUnknownJob(events: seq<Event>, j: JobId)
    requires forall i :: 0 <= i < |events| ==> events[i].job != j
    ensures Replay(events, j) == Nothing
  {
    if events != [] { ReplayOfUnknownJob(events[..|events| - 1], j); }
  }

  /** A log that replays holds one audit event per status the job has been in: never more than three. */
  lemma {:induction false} ReplayLength(events: seq<Event>, j: JobId)
    ensures Replay(events, j) == Nothing <==> AuditCount(events, j) == 0
    ensures Replay(events, j).At? ==> AuditCount(events, j) <= 3
    ensures Replay(events, j) == At(Queued) ==> AuditCount(events, j) == 1
    ensures Replay(events, j) == At(Running) ==> AuditCount(events, j) == 2
    ensures Replay(events, j) == At(Completed) ==> AuditCount(events, j) == 3
  {
    if events != [] { ReplayLength(events[..|events| - 1], j); }
  }

  /** A statement that inserts an event of an audit type by hand. */
  predicate ForgesAudit(t: Tables, s: Statement) {
    s.InsertEvent? && Reserved(s.event.eventType) && VerdictOf(t, s) == Accepted
  }

  lemma JobInsertKeepsAudit(t: Tables, id: JobId, row: Job)
    requires AuditHolds(t) && VerdictOf(t, InsertJob(id, row)) == Accepted
    requires forall i :: 0 <= i < |t.events| ==> t.events[i].job in t.jobs
    ensures AuditHolds(Effect(t, InsertJob(id, row)))
  {
    hide JobUpdateAllowed, UserReferenced, NodeReferenced, NodeKeyTaken, UsageAllowed, WalletAllowed,
         WalletConstraints, WalletUnique, LegalTransition;
    var t' := Effect(t, InsertJob(id, row));
    var e := CreatedEvent(id, row);
    assert Replay(t.events, id) == Nothing by { ReplayOfUnknownJob(t.events, id); }
    forall j | j in t'.jobs ensures Replay(t'.events, j) == At(t'.jobs[j].status) {
      ReplayAppend(t.events, e, j);
    }
  }

  lemma JobUpdateKeepsAudit(t: Tables, id: JobId, id': JobId, row: Job)
    requires AuditHolds(t) && VerdictOf(t, UpdateJob(id, id', row)) == Accepted
    ensures AuditHolds(Effect(t, UpdateJob(id, id', row)))
  {
    var t' := Effect(t, UpdateJob(id, id', row));
    if row.status == t.jobs[id].status {
      assert t'.events == t.events;
    } else {
      var e := Event(id, StatusChanged, FromTo(t.jobs[id].status, row.status));
      forall j | j in t'.jobs ensures Replay(t'.events, j) == At(t'.jobs[j].status) {
        ReplayAppend(t.events, e, j);
      }
    }
  }

  lemma EventInsertKeepsAudit(t: Tables, e: Event)
    requires AuditHolds(t) && VerdictOf(t, InsertEvent(e)) == Accepted
    ensures AuditHolds(Effect(t, InsertEvent(e))) <==> !Reserved(e.eventType)
  {
    var t' := Effect(t, InsertEvent(e));
    forall j | j in t'.jobs
      ensures Replay(t'.events, j) == if Audits(e, j) then Advance(Replay(t.events, j), e) else Replay(t.events, j)
    {
      ReplayAppend(t.events, e, j);
    }
    assert Replay(t.events, e.job) == At(t.jobs[e.job].status);
    assert e.job in t'.jobs;
  }

  /** The log keeps replaying after a statement exactly when the statement forges no audit event. */
  lemma StepKeepsAudit(t: Tables, s: Statement)
    requires Inv(t) && AuditHolds(t)
    ensures AuditHolds(Step(t, s)) <==> !ForgesAudit(t, s)
  {
    if VerdictOf(t, s) == Accepted {
      match s
      case InsertJob(id, row) => JobInsertKeepsAudit(t, id, row);
      case UpdateJob(id, id', row) => JobUpdateKeepsAudit(t, id, id', row);
      case InsertEvent(e) => EventInsertKeepsAudit(t, e);
      case _ =>
    }
  }

  /** The state after the first `i` statements of a run from the empty database. */
  function StateAt(ss: seq<Statement>, i: nat): Tables
    requires i <= |ss|
  {
    Run(EMPTY_TABLES, ss[..i])
  }

  ghost predicate AuditAlways(ss: seq<Statement>) {
    forall i :: 0 <= i <= |ss| ==> AuditHolds(StateAt(ss, i))
  }

  ghost predicate NeverForges(ss: seq<Statement>) {
    forall i :: 0 <= i < |ss| ==> !ForgesAudit(StateAt(ss, i), ss[i])
  }

  lemma StateAtStep(ss: seq<Statement>, i: nat)
    requires i < |ss|
    ensures StateAt(ss, i + 1) == Step(StateAt(ss, i), ss[i])
  {
    assert ss[..i + 1][..i] == ss[..i];
  }

  /** Over every run: the log replays in every state exactly when nobody writes audit types by hand. */
  lemma AuditOverRuns(ss: seq<Statement>)
    ensures AuditAlways(ss) <==> NeverForges(ss)
  {
    if AuditAlways(ss) {
      forall i | 0 <= i < |ss| ensures !ForgesAudit(StateAt(ss, i), ss[i]) {
        assert AuditHolds(StateAt(ss, i)) && AuditHolds(StateAt(ss, i + 1));
        ReachableInv(ss[..i]);
        StateAtStep(ss, i);
        StepKeepsAudit(StateAt(ss, i), ss[i]);
      }
    }
    if NeverForges(ss) {
      forall i | 0 <= i <= |ss| ensures AuditHolds(StateAt(ss, i)) {
        AuditUpTo(ss, i);
      }
    }
  }

  lemma {:induction false} AuditUpTo(ss: seq<Statement>, i: nat)
    requires i <= |ss| && NeverForges(ss)
    ensures AuditHolds(StateAt(ss, i))
  {
    hide Inv, Step, ForgesAudit;
    if i > 0 {
      AuditUpTo(ss, i - 1);
      ReachableInv(ss[..i - 1]);
      StateAtStep(ss, i - 1);
      StepKeepsAudit(StateAt(ss, i - 1), ss[i - 1]);
    }
  }

  // ---------------------------------------------------------------------
  // Conservation
  // ---------------------------------------------------------------------

  /** One row of the wallet_balances view. */
  function Balance(wallet: seq<Entry>, u: UserId): int {
    if wallet == [] then 0
    else
      var e := wallet[|wallet| - 1];
      Balance(wallet[..|wallet| - 1], u) + (if e.user == u then e.amount else 0)
  }

  function Total(wallet: seq<Entry>): int {
    if wallet == [] then 0 else Total(wallet[..|wallet| - 1]) + wallet[|wallet| - 1].amount
  }

  ghost function Pick(us: set<UserId>): (u: UserId)
    requires us != {}
    ensures u in us
  {
    var u :| u in us; u
  }

  ghost function SumOfBalances(wallet: seq<Entry>, us: set<UserId>): int {
    if us == {} then 0 else Balance(wallet, Pick(us)) + SumOfBalances(wallet, us - {Pick(us)})
  }

  lemma BalanceAppend(wallet: seq<Entry>, e: Entry, u: UserId)
    ensures Balance(wallet + [e], u) == Balance(wallet, u) + (if e.user == u then e.amount else 0)
  {
    assert (wallet + [e])[..|wallet|] == wallet;
  }

  lemma {:induction false} SumOfBalancesAppend(wallet: seq<Entry>, e: Entry, us: set<UserId>)
    ensures SumOfBalances(wallet + [e], us) == SumOfBalances(wallet, us) + (if e.user in us then e.amount else 0)
  {
    if us != {} {
      BalanceAppend(wallet, e, Pick(us));
      SumOfBalancesAppend(wallet, e, us - {Pick(us)});
    }
  }

  lemma {:induction false} SumOfEmptyLedger(us: set<UserId>)
    ensures SumOfBalances([], us) == 0
  {
    if us != {} { SumOfEmptyLedger(us - {Pick(us)}); }
  }

  /** The balances of all users add up to the whole ledger. */
  lemma {:induction false} BalancesSumToLedger(wallet: seq<Entry>, us: set<UserId>)
    requires forall i :: 0 <= i < |wallet| ==> wallet[i].user in us
    ensures SumOfBalances(wallet, us) == Total(wallet)
  {
    if wallet == [] {
      SumOfEmptyLedger(us);
    } else {
      var init, e := wallet[..|wallet| - 1], wallet[|wallet| - 1];
      BalancesSumToLedger(init, us);
      SumOfBalancesAppend(init, e, us);
      assert wallet == init + [e];
    }
  }

  lemma {:induction false} PositiveBalanceHasCredit(wallet: seq<Entry>, u: UserId) returns (i: nat)
    requires Balance(wallet, u) > 0
    ensures i < |wallet| && wallet[i].user == u && wallet[i].amount > 0
  {
    i := |wallet| - 1;
    if !(wallet[i].user == u && wallet[i].amount > 0) {
      i := PositiveBalanceHasCredit(wallet[..|wallet| - 1], u);
    }
  }

  /** `u` owns the provider node of completed job `j`. */
  ghost predicate EarnedBy(t: Tables, j: JobId, u: UserId) {
    && j in t.jobs && t.jobs[j].status == Completed && t.jobs[j].provider.Some?
    && t.jobs[j].provider.value in t.nodes && t.nodes[t.jobs[j].provider.value].owner == u
  }

  /**
   Conservation over every run: the balances of the registered users sum to the ledger, a job
   is paid and charged at most once each, and only the owner of a node that completed a job
   can be in credit.
   */
  lemma ReachableConservation(ss: seq<Statement>)
    ensures var t := Run(EMPTY_TABLES, ss);
            && SumOfBalances(t.wallet, t.users) == Total(t.wallet)
            && (forall i, k :: 0 <= i < k < |t.wallet| ==>
                  t.wallet[i].job != t.wallet[k].job || t.wallet[i].kind != t.wallet[k].kind)
            && (forall u :: Balance(t.wallet, u) > 0 ==> exists j :: EarnedBy(t, j, u))
  {
    var t := Run(EMPTY_TABLES, ss);
    ReachableInv(ss);
    assert forall i :: 0 <= i < |t.wallet| ==> Justified(t, t.wallet[i]);
    BalancesSumToLedger(t.wallet, t.users);
    forall u | Balance(t.wallet, u) > 0
      ensures exists j :: EarnedBy(t, j, u)
    {
      var i := PositiveBalanceHasCredit(t.wallet, u);
      assert Justified(t, t.wallet[i]);
      assert EarnedBy(t, t.wallet[i].job, u);
    }
  }

  /** A statement moves no balance, except an accepted wallet insert, which moves one balance by its amount. */
  lemma StepMovesOneBalance(t: Tables, s: Statement, u: UserId)
    ensures Balance(Step(t, s).wallet, u) - Balance(t.wallet, u) ==
            if s.InsertWallet? && VerdictOf(t, s) == Accepted && s.entry.user == u then s.entry.amount else 0
  {
    if s.InsertWallet? { BalanceAppend(t.wallet, s.entry, u); }
  }

  /** A hand-written audit event is accepted and breaks the replay: the schema does not reserve the types. */
  lemma ForgedAuditExample(t: Tables, j: JobId)
    requires Inv(t) && AuditHolds(t) && j in t.jobs && t.jobs[j].status == Queued
    ensures !AuditHolds(Step(t, InsertEvent(Event(j, StatusChanged, FromTo(Queued, Completed)))))
  {
    StepKeepsAudit(t, InsertEvent(Event(j, StatusChanged, FromTo(Queued, Completed))));
  }
}
