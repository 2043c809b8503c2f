/**
 Signed benchmark submission over a network that loses, duplicates and reorders requests,
 interleaved with everything the enrollment system can do to the pinned keys.

 Signature verification, JSON decoding and the square root are foreign; they are arbitrary
 functions in `Env`. Requests in `network` may come from anyone and may be delivered any
 number of times, or never.
 */
module Submissions {
  import opened Prelude
  import opened Text
  import opened Uuid
  import opened Protocol
  import opened Validation
  import opened Scores
  import opened GoTime
  import Enrollment
  import Transactions = EnrollmentTransactions

  type ReportId = seq<Byte>

  datatype Env = Env(
    decode: string -> Option<Submission>,
    verify: (Enrollment.PublicKey, string, string) -> bool,
    sqrt: real -> real)

  datatype Request = Request(body: string, signature: string)

  datatype Response = Created(reportId: string) | Refused(status: nat)

  /** A row of compute_benchmarks; the table is keyed by the uuid value of the report ID. */
  datatype Row = Row(node: string, benchmark: Benchmark, score: int, observedAt: int)

  datatype Stage = Validated | Verified | Replied(response: Response)

  datatype Handler = Handler(request: Request, submission: Submission, now: int, stage: Stage)

  /** `storedFor` and `storedBy` are history variables: the request and the handler that inserted each row. */
  datatype World = World(
    sys: Transactions.Sys,
    reports: map<ReportId, Row>,
    network: set<Request>,
    handlers: map<nat, Handler>,
    replies: set<(Request, Response)>,
    confirmed: set<(Request, string)>,
    storedFor: map<ReportId, Request>,
    storedBy: map<ReportId, nat>)

  datatype Action =
    | Enrolling(action: Transactions.Action)
    | Send(request: Request)
    | Receive(id: nat, request: Request, now: int)
    | Authenticate(id: nat)
    | Store(id: nat, acknowledged: bool)
    | Break(id: nat)
    | AgentReads(request: Request, response: Response, reportId: string)

  function InitialWorld(owner: Enrollment.UserId, clock: int): World {
    World(Transactions.Initial(owner, clock), map[], {}, map[], {}, {}, map[], map[])
  }

  /** InventoryPublicKey: the pinned key of a node, unless it is NULL or empty. */
  function PinnedKey(db: Enrollment.Db, node: string): Option<Enrollment.PublicKey> {
    if node !in db.nodes || db.nodes[node].publicKey == Some(Enrollment.EmptyText) then None
    else db.nodes[node].publicKey
  }

  function Reply(w: World, id: nat, response: Response): World
    requires id in w.handlers
  {
    w.(handlers := w.handlers[id := w.handlers[id].(stage := Replied(response))],
       replies := w.replies + {(w.handlers[id].request, response)})
  }

  /** Read, decode and validate; the clock is read once. */
  ghost function ReceiveStep(env: Env, w: World, id: nat, r: Request, now: int): World {
    if r !in w.network || id in w.handlers then w
    else
      match env.decode(r.body)
      case None => w.(replies := w.replies + {(r, Refused(400))})
      case Some(s) =>
        if Accepted(s, now) then w.(handlers := w.handlers[id := Handler(r, s, now, Validated)])
        else w.(replies := w.replies + {(r, Refused(400))})
  }

  /** Look up the node's key and verify the signature over the body. */
  function AuthenticateStep(env: Env, w: World, id: nat): World {
    if id !in w.handlers || w.handlers[id].stage != Validated then w
    else
      var h := w.handlers[id];
      match PinnedKey(w.sys.db, h.submission.nodeId)
      case None => Reply(w, id, Refused(401))
      case Some(key) =>
        if env.verify(key, h.request.signature, h.request.body)
        then w.(handlers := w.handlers[id := h.(stage := Verified)])
        else Reply(w, id, Refused(401))
  }

  function ScoredRow(env: Env, h: Handler): Row {
    Row(h.submission.nodeId, h.submission.benchmark, ComputeScore(env.sqrt, h.submission.benchmark.samples), h.now)
  }

  /**
   Score and insert: no node row inserts nothing, a known report ID is a replay. When the
   database commits but its answer comes too late, the handler answers 500 for a stored row.
   */
  function StoreStep(env: Env, w: World, id: nat, acknowledged: bool): World {
    if id !in w.handlers || w.handlers[id].stage != Verified || !ValidUuidV4(w.handlers[id].submission.reportId) then w
    else
      var h := w.handlers[id];
      var key := Parse(h.submission.reportId);
      if h.submission.nodeId !in w.sys.db.nodes then Reply(w, id, Refused(401))
      else if key in w.reports then Reply(w, id, Refused(409))
      else
        Reply(w.(reports := w.reports[key := ScoredRow(env, h)], storedFor := w.storedFor[key := h.request],
                 storedBy := w.storedBy[key := id]),
              id, if acknowledged then Created(h.submission.reportId) else Refused(500))
  }

  /** PostSignedComputeBenchmark: success is status 201, accepted, and the expected report ID. */
  function AgentStep(w: World, r: Request, response: Response, reportId: string): World {
    if (r, response) in w.replies && response == Created(reportId)
    then w.(confirmed := w.confirmed + {(r, reportId)}) else w
  }

  ghost function Do(env: Env, w: World, a: Action): World {
    match a
    case Enrolling(e) => w.(sys := Transactions.Do(w.sys, e))
    case Send(r) => w.(network := w.network + {r})
    case Receive(id, r, now) => ReceiveStep(env, w, id, r, now)
    case Authenticate(id) => AuthenticateStep(env, w, id)
    case Store(id, acknowledged) => StoreStep(env, w, id, acknowledged)
    case Break(id) =>
      if id in w.handlers && !w.handlers[id].stage.Replied? then Reply(w, id, Refused(500)) else w
    case AgentReads(r, response, reportId) => AgentStep(w, r, response, reportId)
  }

  ghost function Run(env: Env, w: World, acts: seq<Action>): World {
    if acts == [] then w else Do(env, Run(env, w, acts[..|acts| - 1]), acts[|acts| - 1])
  }

  // ---------------------------------------------------------------------
  // The invariant
  // ---------------------------------------------------------------------

  /** The signature of a request verifies under the key the node has pinned now. */
  ghost predicate SignedByNode(env: Env, db: Enrollment.Db, r: Request, node: string) {
    PinnedKey(db, node).Some? && env.verify(PinnedKey(db, node).value, r.signature, r.body)
  }

  ghost predicate HandlerSound(env: Env, db: Enrollment.Db, h: Handler) {
    && env.decode(h.request.body) == Some(h.submission)
    && Accepted(h.submission, h.now)
    && (h.stage == Verified ==> SignedByNode(env, db, h.request, h.submission.nodeId))
  }

  /** Row `u` was built from request `r`: its payload, its server-side score, an accepted and signed submission. */
  ghost predicate RowSound(env: Env, db: Enrollment.Db, u: ReportId, row: Row, r: Request) {
    && env.decode(r.body).Some?
    && var s := env.decode(r.body).value;
    && Accepted(s, row.observedAt) && Parse(s.reportId) == u
    && row == Row(s.nodeId, s.benchmark, ComputeScore(env.sqrt, s.benchmark.samples), row.observedAt)
    && SignedByNode(env, db, r, s.nodeId)
  }

  /** A confirmation of `id` for request `r` is backed by the row that `r` itself stored. */
  ghost predicate Backed(env: Env, w: World, r: Request, id: string) {
    && env.decode(r.body).Some? && env.decode(r.body).value.reportId == id
    && ValidUuidV4(id) && Parse(id) in w.reports && Parse(id) in w.storedFor && w.storedFor[Parse(id)] == r
  }

  /** Handler `i` answered request `r` with Created(`id`). */
  ghost predicate Answered(w: World, i: nat, r: Request, id: string) {
    i in w.handlers && w.handlers[i].request == r && w.handlers[i].stage == Replied(Created(id))
  }

  ghost predicate HasAnswerer(w: World, r: Request, id: string) {
    exists i :: Answered(w, i, r, id)
  }

  /** Every Created answer came from the handler that inserted the row. */
  ghost predicate AnswersSound(w: World) {
    && w.reports.Keys == w.storedBy.Keys
    && (forall i, r, id :: Answered(w, i, r, id) ==>
          ValidUuidV4(id) && Parse(id) in w.storedBy && w.storedBy[Parse(id)] == i)
    && (forall r, id :: (r, Created(id)) in w.replies ==> HasAnswerer(w, r, id))
  }

  ghost predicate RowsSound(env: Env, w: World) {
    && w.reports.Keys == w.storedFor.Keys
    && forall u :: u in w.reports ==> RowSound(env, w.sys.db, u, w.reports[u], w.storedFor[u])
  }

  ghost predicate WorldInv(env: Env, w: World) {
    && Transactions.SysInv(w.sys)
    && (forall i :: i in w.handlers ==> HandlerSound(env, w.sys.db, w.handlers[i]))
    && RowsSound(env, w) && AnswersSound(w)
    && (forall r, id :: (r, Created(id)) in w.replies ==> Backed(env, w, r, id))
    && (forall r, id :: (r, id) in w.confirmed ==> Backed(env, w, r, id))
  }

  /** Rows are inserted once and never change. */
  ghost predicate KeepsReports(w: World, w': World) {
    && (forall u :: u in w.reports ==> u in w'.reports && w'.reports[u] == w.reports[u])
    && (forall u :: u in w.storedFor ==> u in w'.storedFor && w'.storedFor[u] == w.storedFor[u])
  }

  /** Enrollment cannot invalidate a signature: pinned keys are write-once. */
  lemma PinnedKeyStays(db: Enrollment.Db, db': Enrollment.Db, node: string)
    requires Enrollment.Inv(db) && Enrollment.KeepsIdentities(db, db') && PinnedKey(db, node).Some?
    ensures PinnedKey(db', node) == PinnedKey(db, node)
  {
  }

  lemma EnrollingKeepsInv(env: Env, w: World, e: Transactions.Action)
    requires WorldInv(env, w)
    ensures WorldInv(env, Do(env, w, Enrolling(e)))
  {
    hide Accepted, ComputeScore, Parse, ValidUuidV4, Transactions.Do, Transactions.SysInv, PinnedKey,
         Enrollment.KeepsIdentities, Enrollment.Inv;
    var w' := Do(env, w, Enrolling(e));
    FrameAnswers(w, w');
    Transactions.DoKeepsInv(w.sys, e);
    SysInvGivesDb(w.sys);
    forall i | i in w'.handlers ensures HandlerSound(env, w'.sys.db, w'.handlers[i]) {
      assert HandlerSound(env, w.sys.db, w.handlers[i]);
      if w.handlers[i].stage == Verified { PinnedKeyStays(w.sys.db, w'.sys.db, w.handlers[i].submission.nodeId); }
    }
    forall u | u in w'.reports ensures RowSound(env, w'.sys.db, u, w'.reports[u], w'.storedFor[u]) {
      assert RowSound(env, w.sys.db, u, w.reports[u], w.storedFor[u]);
      PinnedKeyStays(w.sys.db, w'.sys.db, env.decode(w.storedFor[u].body).value.nodeId);
    }
    forall r, id | (r, Created(id)) in w'.replies ensures Backed(env, w', r, id) {
      assert Backed(env, w, r, id);
    }
    forall r, id | (r, id) in w'.confirmed ensures Backed(env, w', r, id) {
      assert Backed(env, w, r, id);
    }
  }

  lemma SysInvGivesDb(s: Transactions.Sys)
    requires Transactions.SysInv(s)
    ensures Enrollment.Inv(s.db)
  {
  }

  /** No new Created answers, and none lost. */
  ghost predicate SameAnswers(w: World, w': World) {
    && (forall i :: i in w.handlers && w.handlers[i].stage.Replied? ==>
          i in w'.handlers && w'.handlers[i] == w.handlers[i])
    && (forall i :: i in w'.handlers && w'.handlers[i].stage.Replied? && w'.handlers[i].stage.response.Created? ==>
          i in w.handlers && w'.handlers[i] == w.handlers[i])
  }

  lemma FrameAnswers(w: World, w': World)
    requires AnswersSound(w) && SameAnswers(w, w') && w'.reports == w.reports && w'.storedBy == w.storedBy
    requires forall r, id :: (r, Created(id)) in w'.replies ==> (r, Created(id)) in w.replies
    ensures AnswersSound(w')
  {
    hide ValidUuidV4, Parse;
    forall i, r, id | Answered(w', i, r, id)
      ensures ValidUuidV4(id) && Parse(id) in w'.storedBy && w'.storedBy[Parse(id)] == i
    {
      assert Answered(w, i, r, id);
    }
    forall r, id | (r, Created(id)) in w'.replies ensures HasAnswerer(w', r, id) {
      assert HasAnswerer(w, r, id);
      var i :| Answered(w, i, r, id);
      assert Answered(w', i, r, id);
    }
  }

  /** A step that leaves rows and keys alone, and confirms only what is backed. */
  lemma FrameInv(env: Env, w: World, w': World)
    requires WorldInv(env, w)
    requires w'.sys == w.sys && w'.reports == w.reports && w'.storedFor == w.storedFor && w'.storedBy == w.storedBy
    requires SameAnswers(w, w')
    requires forall i :: i in w'.handlers ==> HandlerSound(env, w.sys.db, w'.handlers[i])
    requires forall r, id :: (r, Created(id)) in w'.replies ==> (r, Created(id)) in w.replies
    requires forall r, id :: (r, id) in w'.confirmed ==> (r, id) in w.confirmed || (r, Created(id)) in w.replies
    ensures WorldInv(env, w')
  {
    hide HandlerSound, RowSound, AnswersSound, SameAnswers;
    FrameAnswers(w, w');
    forall r, id | (r, Created(id)) in w'.replies ensures Backed(env, w', r, id) {
      assert Backed(env, w, r, id);
    }
    forall r, id | (r, id) in w'.confirmed ensures Backed(env, w', r, id) {
      assert Backed(env, w, r, id);
    }
  }

  predicate Inserts(w: World, id: nat) {
    && id in w.handlers && w.handlers[id].stage == Verified && ValidUuidV4(w.handlers[id].submission.reportId)
    && w.handlers[id].submission.nodeId in w.sys.db.nodes
    && Parse(w.handlers[id].submission.reportId) !in w.reports
  }

  lemma StoreKeepsInv(env: Env, w: World, id: nat, acknowledged: bool)
    requires WorldInv(env, w)
    ensures WorldInv(env, StoreStep(env, w, id, acknowledged))
    ensures KeepsReports(w, StoreStep(env, w, id, acknowledged))
  {
    hide Accepted, ComputeScore, PinnedKey, Parse, ValidUuidV4, Transactions.SysInv, RowSound, SignedByNode;
    if Inserts(w, id) {
      InsertKeepsInv(env, w, id, acknowledged);
    } else {
      assert id in w.handlers ==> HandlerSound(env, w.sys.db, w.handlers[id]);
      FrameInv(env, w, StoreStep(env, w, id, acknowledged));
    }
  }

  lemma NewRowSound(env: Env, db: Enrollment.Db, h: Handler)
    requires HandlerSound(env, db, h) && h.stage == Verified
    ensures RowSound(env, db, Parse(h.submission.reportId), ScoredRow(env, h), h.request)
  {
    hide ComputeScore, Parse, SignedByNode, ValidUuidV4, TimestampsAccepted, HeaderAccepted, SamplesAccepted;
  }

  /** The new row's handler is the only one to answer Created for it. */
  lemma InsertKeepsAnswers(env: Env, w: World, id: nat, acknowledged: bool)
    requires AnswersSound(w) && Inserts(w, id)
    ensures AnswersSound(StoreStep(env, w, id, acknowledged))
  {
    hide ValidUuidV4, Parse, ScoredRow;
    var w' := StoreStep(env, w, id, acknowledged);
    forall i, r, u | Answered(w', i, r, u)
      ensures ValidUuidV4(u) && Parse(u) in w'.storedBy && w'.storedBy[Parse(u)] == i
    {
      if i != id { assert Answered(w, i, r, u); }
    }
    forall r, u | (r, Created(u)) in w'.replies ensures HasAnswerer(w', r, u) {
      if (r, Created(u)) in w.replies {
        assert HasAnswerer(w, r, u);
        var i :| Answered(w, i, r, u);
        assert Answered(w', i, r, u);
      } else {
        assert Answered(w', id, r, u);
      }
    }
  }

  lemma InsertKeepsInv(env: Env, w: World, id: nat, acknowledged: bool)
    requires WorldInv(env, w) && Inserts(w, id)
    ensures WorldInv(env, StoreStep(env, w, id, acknowledged))
    ensures KeepsReports(w, StoreStep(env, w, id, acknowledged))
  {
    hide Accepted, ComputeScore, Parse, ValidUuidV4, Transactions.SysInv, RowSound, SignedByNode, ScoredRow,
         AnswersSound;
    var h, w' := w.handlers[id], StoreStep(env, w, id, acknowledged);
    var key := Parse(h.submission.reportId);
    assert HandlerSound(env, w.sys.db, h);
    NewRowSound(env, w.sys.db, h);
    InsertKeepsAnswers(env, w, id, acknowledged);
    forall u | u in w'.reports ensures RowSound(env, w'.sys.db, u, w'.reports[u], w'.storedFor[u]) {
      if u != key { assert RowSound(env, w.sys.db, u, w.reports[u], w.storedFor[u]); }
    }
    forall r, i | (r, Created(i)) in w'.replies ensures Backed(env, w', r, i) {
      if (r, Created(i)) in w.replies { assert Backed(env, w, r, i); }
    }
    forall r, i | (r, i) in w'.confirmed ensures Backed(env, w', r, i) {
      assert Backed(env, w, r, i);
    }
  }

  lemma DoKeepsInv(env: Env, w: World, a: Action)
    requires WorldInv(env, w)
    ensures WorldInv(env, Do(env, w, a)) && KeepsReports(w, Do(env, w, a))
  {
    hide Transactions.SysInv, RowSound, SignedByNode, StoreStep, ReceiveStep, AuthenticateStep, HandlerSound,
         AnswersSound, Backed;
    match a
    case Enrolling(e) => EnrollingKeepsInv(env, w, e);
    case Store(id, acknowledged) => StoreKeepsInv(env, w, id, acknowledged);
    case Receive(id, r, now) => ReceiveKeepsInv(env, w, id, r, now);
    case Authenticate(id) => AuthenticateKeepsInv(env, w, id);
    case Break(id) => BreakKeepsInv(env, w, id);
    case _ => FrameInv(env, w, Do(env, w, a));
  }

  lemma HandlersAreSound(env: Env, w: World)
    requires WorldInv(env, w)
    ensures forall i :: i in w.handlers ==> HandlerSound(env, w.sys.db, w.handlers[i])
  {
    hide HandlerSound;
  }

  lemma ReceiveKeepsInv(env: Env, w: World, id: nat, r: Request, now: int)
    requires WorldInv(env, w)
    ensures WorldInv(env, ReceiveStep(env, w, id, r, now)) && KeepsReports(w, ReceiveStep(env, w, id, r, now))
  {
    hide WorldInv, Accepted, SignedByNode;
    HandlersAreSound(env, w);
    FrameInv(env, w, ReceiveStep(env, w, id, r, now));
  }

  /** A handler that goes on has verified the signature under the pinned key. */
  lemma AuthenticatedIsSound(env: Env, w: World, id: nat)
    requires WorldInv(env, w)
    ensures var w' := AuthenticateStep(env, w, id);
            forall i :: i in w'.handlers ==> HandlerSound(env, w.sys.db, w'.handlers[i])
  {
    hide WorldInv, Accepted, PinnedKey;
    HandlersAreSound(env, w);
  }

  lemma AuthenticateKeepsInv(env: Env, w: World, id: nat)
    requires WorldInv(env, w)
    ensures WorldInv(env, AuthenticateStep(env, w, id)) && KeepsReports(w, AuthenticateStep(env, w, id))
  {
    hide WorldInv, HandlerSound;
    AuthenticatedIsSound(env, w, id);
    FrameInv(env, w, AuthenticateStep(env, w, id));
  }

  lemma BreakKeepsInv(env: Env, w: World, id: nat)
    requires WorldInv(env, w)
    ensures WorldInv(env, Do(env, w, Break(id)))
  {
    hide WorldInv, Accepted, SignedByNode;
    HandlersAreSound(env, w);
    FrameInv(env, w, Do(env, w, Break(id)));
  }

  lemma {:induction false} RunKeepsInv(env: Env, w: World, acts: seq<Action>)
    requires WorldInv(env, w)
    ensures WorldInv(env, Run(env, w, acts)) && KeepsReports(w, Run(env, w, acts))
  {
    hide WorldInv, Do;
    if acts != [] {
      RunKeepsInv(env, w, acts[..|acts| - 1]);
      DoKeepsInv(env, Run(env, w, acts[..|acts| - 1]), acts[|acts| - 1]);
    }
  }

  // ---------------------------------------------------------------------
  // What a run guarantees
  // ---------------------------------------------------------------------

  lemma InitialInv(env: Env, owner: Enrollment.UserId, clock: int)
    ensures WorldInv(env, InitialWorld(owner, clock))
  {
  }

  /**
   In every reachable state every stored report carries the payload of an accepted submission
   and the server-computed score, and its signature verifies under the key the node has
   pinned in that state.
   */
  lemma StoredReportsAreSigned(env: Env, owner: Enrollment.UserId, clock: int, acts: seq<Action>, u: ReportId)
    requires u in Run(env, InitialWorld(owner, clock), acts).reports
    ensures var w := Run(env, InitialWorld(owner, clock), acts);
            u in w.storedFor && RowSound(env, w.sys.db, u, w.reports[u], w.storedFor[u])
  {
    hide RowSound;
    InitialInv(env, owner, clock);
    RunKeepsInv(env, InitialWorld(owner, clock), acts);
  }

  /** An agent that returned success has its own benchmark stored, with the server's score, now and later. */
  lemma ConfirmedIsStored(env: Env, owner: Enrollment.UserId, clock: int, acts: seq<Action>, r: Request, id: string)
    requires (r, id) in Run(env, InitialWorld(owner, clock), acts).confirmed
    ensures var w := Run(env, InitialWorld(owner, clock), acts);
            && Backed(env, w, r, id)
            && w.reports[Parse(id)].benchmark == env.decode(r.body).value.benchmark
            && w.reports[Parse(id)].node == env.decode(r.body).value.nodeId
            && w.reports[Parse(id)].score ==
                 ComputeScore(env.sqrt, env.decode(r.body).value.benchmark.samples)
  {
    hide Accepted, ComputeScore, Parse, ValidUuidV4, SignedByNode;
    var w := Run(env, InitialWorld(owner, clock), acts);
    InitialInv(env, owner, clock);
    RunKeepsInv(env, InitialWorld(owner, clock), acts);
    assert Backed(env, w, r, id);
    assert RowSound(env, w.sys.db, Parse(id), w.reports[Parse(id)], w.storedFor[Parse(id)]);
  }

  /** One report ID, in whatever letter case, is created at most once: by one handler, for one request. */
  lemma CreatedOncePerReport(env: Env, owner: Enrollment.UserId, clock: int, acts: seq<Action>, r: Request, id: string)
    returns (i: nat)
    requires (r, Created(id)) in Run(env, InitialWorld(owner, clock), acts).replies
    ensures var w := Run(env, InitialWorld(owner, clock), acts);
            && Answered(w, i, r, id)
            && forall j, r', id' :: Answered(w, j, r', id') && Lower(id') == Lower(id) ==>
                 j == i && r' == r && id' == id
  {
    hide Parse, ValidUuidV4, Lower, RowsSound, HandlerSound;
    var w := Run(env, InitialWorld(owner, clock), acts);
    InitialInv(env, owner, clock);
    RunKeepsInv(env, InitialWorld(owner, clock), acts);
    assert HasAnswerer(w, r, id);
    i :| Answered(w, i, r, id);
    forall j, r', id' | Answered(w, j, r', id') && Lower(id') == Lower(id)
      ensures j == i && r' == r && id' == id
    {
      SameValueIffSameText(id, id');
    }
  }

  /** A stored report was received within ten minutes of its collection exactly when no skew saturated. */
  lemma StoredReportsAreFresh(env: Env, owner: Enrollment.UserId, clock: int, acts: seq<Action>, u: ReportId)
    requires u in Run(env, InitialWorld(owner, clock), acts).reports
    ensures var w := Run(env, InitialWorld(owner, clock), acts);
            && u in w.storedFor && env.decode(w.storedFor[u].body).Some?
            && var s, t := env.decode(w.storedFor[u].body).value, w.reports[u].observedAt;
            -2 * MAX_SKEW <= t - w.reports[u].benchmark.collectedAt <= 2 * MAX_SKEW <==> NoSaturation(s, t)
  {
    hide ComputeScore, SignedByNode, EnvelopeAccepted, TimestampsAccepted, HeaderAccepted, SamplesAccepted;
    var w := Run(env, InitialWorld(owner, clock), acts);
    StoredReportsAreSigned(env, owner, clock, acts, u);
    FreshIffNoSaturation(env.decode(w.storedFor[u].body).value, w.reports[u].observedAt);
  }

  // ---------------------------------------------------------------------
  // What can be stored
  // ---------------------------------------------------------------------

  /** Extends a run of the submission world by an action with a known effect. */
  lemma Then(env: Env, w: World, acts: seq<Action>, a: Action, expected: World) returns (longer: seq<Action>)
    requires Do(env, Run(env, w, acts), a) == expected
    ensures Run(env, w, longer) == expected
  {
    longer := acts + [a];
    assert longer[..|acts|] == acts;
  }

  /** A run of the enrollment system is a run of the world in which nothing else happens. */
  lemma {:induction false} LiftEnrolling(env: Env, owner: Enrollment.UserId, clock: int, es: seq<Transactions.Action>)
    returns (acts: seq<Action>)
    ensures Run(env, InitialWorld(owner, clock), acts) ==
            InitialWorld(owner, clock).(sys := Transactions.Run(Transactions.Initial(owner, clock), es))
  {
    hide Transactions.Do;
    var w := InitialWorld(owner, clock);
    if es == [] {
      acts := [];
    } else {
      acts := LiftEnrolling(env, owner, clock, es[..|es| - 1]);
      acts := Then(env, w, acts, Enrolling(es[|es| - 1]), w.(sys := Transactions.Run(w.sys, es)));
    }
  }

  /** Whatever submission the validator accepts, signed under any key, some run stores it. */
  lemma AcceptedCanBeStored(env: Env, s: Submission, now: int, r: Request, k: Enrollment.PublicKey)
    returns (acts: seq<Action>)
    requires env.decode(r.body) == Some(s) && Accepted(s, now)
    requires k != Enrollment.EmptyText && env.verify(k, r.signature, r.body)
    ensures var w := Run(env, InitialWorld(0, 0), acts);
            && Parse(s.reportId) in w.reports
            && w.reports[Parse(s.reportId)] ==
                 Row(s.nodeId, s.benchmark, ComputeScore(env.sqrt, s.benchmark.samples), now)
  {
    hide ValidUuidV4, Parse, ComputeScore, TimestampsAccepted, HeaderAccepted, SamplesAccepted, Run,
         Transactions.Run, Transactions.Do;
    var es := Transactions.KeyCanBePinned(0, 0, s.nodeId, k);
    acts := LiftEnrolling(env, 0, 0, es);
    var start := InitialWorld(0, 0);
    var w := start.(sys := Transactions.Run(start.sys, es));
    w := w.(network := {r});
    acts := Then(env, start, acts, Send(r), w);
    var h := Handler(r, s, now, Validated);
    w := w.(handlers := map[0 := h]);
    acts := Then(env, start, acts, Receive(0, r, now), w);
    w := w.(handlers := map[0 := h.(stage := Verified)]);
    acts := Then(env, start, acts, Authenticate(0), w);
    acts := Then(env, start, acts, Store(0, true), StoreStep(env, w, 0, true));
  }

  lemma SomeUuid() returns (id: string)
    ensures ValidUuidV4(id)
  {
    var raw: seq<Byte> := seq(16, i => if i == 6 then 0x40 else if i == 8 then 0x80 else 0);
    PrintedIsValid(raw);
    id := Format(Encode(raw));
  }

  /** A well-formed submission with the given timestamps. */
  lemma SomeSubmission(signedAt: int, collectedAt: int) returns (s: Submission)
    ensures s.signedAt == signedAt && s.benchmark.collectedAt == collectedAt
    ensures EnvelopeAccepted(s) && HeaderAccepted(s.benchmark) && SamplesAccepted(s.benchmark.samples)
  {
    hide ValidUuidV4, TextAccepted;
    var id := SomeUuid();
    var sample := Sample(1, 1, 1, 1.0, 1.0, 0.0, 1, None, None, None, true, "");
    assert Blank("");
    assert TextAccepted("x", 64) && TextAccepted("x", 128) && TextAccepted("x", 512) by { ShortText(); }
    s := Submission(SUBMISSION_VERSION, id, id, signedAt,
                    Benchmark(SCHEMA_VERSION, collectedAt, "x", "x", "x", "", "x", "", 1, [sample]));
  }

  lemma ShortText()
    ensures TextAccepted("x", 64) && TextAccepted("x", 128) && TextAccepted("x", 512)
  {
    TrimOfTight("x");
    AsciiLength("x");
  }

  /** A run that stores a report dated centuries after its receipt: the first skew saturates and passes. */
  lemma StaleReportIsStored(sqrt: real -> real) returns (env: Env, acts: seq<Action>, u: ReportId)
    ensures u in Run(env, InitialWorld(0, 0), acts).reports
    ensures var row := Run(env, InitialWorld(0, 0), acts).reports[u];
            row.benchmark.collectedAt - row.observedAt == 0x8000_0000_0000_0000 > 2 * MAX_SKEW
  {
    hide Run, EnvelopeAccepted, HeaderAccepted, SamplesAccepted, ValidUuidV4, Parse;
    var t := 1 + 0x8000_0000_0000_0000;
    var s := SomeSubmission(t, t);
    StaleTimestampsAccepted(s, 1);
    env := Env(_ => Some(s), (k, sig, body) => true, sqrt);
    u := ParsedId(s);
    acts := AcceptedCanBeStored(env, s, 1, Request("", ""), Enrollment.KeyText("k"));
  }

  lemma ParsedId(s: Submission) returns (u: ReportId)
    requires EnvelopeAccepted(s)
    ensures ValidUuidV4(s.reportId) && u == Parse(s.reportId)
  {
    u := Parse(s.reportId);
  }

  // ---------------------------------------------------------------------
  // What a request is answered
  // ---------------------------------------------------------------------

  /** Refused by the validator, unauthenticated, replayed, or created. */
  ghost function AnswerTo(env: Env, w: World, r: Request, now: int, acknowledged: bool): Response {
    match env.decode(r.body)
    case None => Refused(400)
    case Some(s) =>
      if !Accepted(s, now) then Refused(400)
      else if !SignedByNode(env, w.sys.db, r, s.nodeId) then Refused(401)
      else if Parse(s.reportId) in w.reports then Refused(409)
      else if acknowledged then Created(s.reportId) else Refused(500)
  }

  /** A signature counts only under a key that is pinned on an existing node. */
  lemma SignedMeans(env: Env, db: Enrollment.Db, r: Request, node: string)
    requires Enrollment.Inv(db)
    ensures SignedByNode(env, db, r, node) <==>
              && node in db.nodes && db.nodes[node].publicKey.Some?
              && env.verify(db.nodes[node].publicKey.value, r.signature, r.body)
  {
  }

  ghost function Handled(env: Env, w: World, id: nat, r: Request, now: int, acknowledged: bool): World {
    Do(env, Do(env, Do(env, w, Receive(id, r, now)), Authenticate(id)), Store(id, acknowledged))
  }

  /**
   A request that is handled without interruption gets exactly this answer; it stores the row of
   its own benchmark with the server's score and receipt time exactly when nothing is refused,
   and otherwise stores nothing. 409 is answered exactly for a report that is stored already.
   */
  lemma RequestIsAnswered(env: Env, w: World, id: nat, r: Request, now: int, acknowledged: bool)
    requires r in w.network && id !in w.handlers
    ensures var w', a := Handled(env, w, id, r, now, acknowledged), AnswerTo(env, w, r, now, acknowledged);
            && w'.replies == w.replies + {(r, a)}
            && w'.reports == ReportsAfter(env, w, r, now, a)
  {
    hide Accepted, SignedByNode, AuthenticateStep, StoreStep, ComputeScore, Parse, ValidUuidV4, Transactions.Do;
    var w1 := Do(env, w, Receive(id, r, now));
    if id in w1.handlers {
      ValidatedIsAnswered(env, w1, id, acknowledged);
    } else {
      NotReceived(env, w1, id, acknowledged);
    }
  }

  /** The stored reports after a request: one more row exactly when nothing was refused. */
  ghost function ReportsAfter(env: Env, w: World, r: Request, now: int, a: Response): map<ReportId, Row> {
    match env.decode(r.body)
    case Some(s) =>
      if ValidUuidV4(s.reportId) && (a.Created? || a == Refused(500)) then
        w.reports[Parse(s.reportId) :=
          Row(s.nodeId, s.benchmark, ComputeScore(env.sqrt, s.benchmark.samples), now)]
      else w.reports
    case None => w.reports
  }

  lemma NotReceived(env: Env, w: World, id: nat, acknowledged: bool)
    requires id !in w.handlers
    ensures Do(env, Do(env, w, Authenticate(id)), Store(id, acknowledged)) == w
  {
  }

  lemma ValidatedIsAnswered(env: Env, w: World, id: nat, acknowledged: bool)
    requires id in w.handlers && w.handlers[id].stage == Validated
    requires Accepted(w.handlers[id].submission, w.handlers[id].now)
    requires env.decode(w.handlers[id].request.body) == Some(w.handlers[id].submission)
    ensures var r, now := w.handlers[id].request, w.handlers[id].now;
            var w' := Do(env, Do(env, w, Authenticate(id)), Store(id, acknowledged));
            var a := AnswerTo(env, w, r, now, acknowledged);
            && w'.replies == w.replies + {(r, a)} && w'.reports == ReportsAfter(env, w, r, now, a)
  {
    hide Accepted, SignedByNode, AuthenticateStep, StoreStep, ComputeScore, Parse, ValidUuidV4, Transactions.Do;
    var h := w.handlers[id];
    AcceptedHasUuid(h.submission, h.now);
    AuthenticationIsAnswered(env, w, id);
    if SignedByNode(env, w.sys.db, h.request, h.submission.nodeId) {
      StoringIsAnswered(env, w.(handlers := w.handlers[id := h.(stage := Verified)]), id, acknowledged);
    } else {
      NothingToStore(env, AuthenticateStep(env, w, id), id, acknowledged);
    }
  }

  lemma AcceptedHasUuid(s: Submission, now: int)
    requires Accepted(s, now)
    ensures ValidUuidV4(s.reportId)
  {
  }

  /** A validated request goes on exactly when its signature verifies under the pinned key. */
  lemma AuthenticationIsAnswered(env: Env, w: World, id: nat)
    requires id in w.handlers && w.handlers[id].stage == Validated
    ensures var h := w.handlers[id];
            AuthenticateStep(env, w, id) ==
            if SignedByNode(env, w.sys.db, h.request, h.submission.nodeId)
            then w.(handlers := w.handlers[id := h.(stage := Verified)]) else Reply(w, id, Refused(401))
    ensures SignedByNode(env, w.sys.db, w.handlers[id].request, w.handlers[id].submission.nodeId) ==>
            w.handlers[id].submission.nodeId in w.sys.db.nodes
  {
  }

  /** A verified request is stored exactly when its report is new and its node has a row. */
  lemma StoringIsAnswered(env: Env, w: World, id: nat, acknowledged: bool)
    requires id in w.handlers && w.handlers[id].stage == Verified && ValidUuidV4(w.handlers[id].submission.reportId)
    ensures var h, w' := w.handlers[id], StoreStep(env, w, id, acknowledged);
            var u := Parse(h.submission.reportId);
            var row := Row(h.submission.nodeId, h.submission.benchmark,
                           ComputeScore(env.sqrt, h.submission.benchmark.samples), h.now);
            var stored := h.submission.nodeId in w.sys.db.nodes && u !in w.reports;
            && w'.reports == (if stored then w.reports[u := row] else w.reports)
            && w'.replies == w.replies + {(h.request,
                 if h.submission.nodeId !in w.sys.db.nodes then Refused(401)
                 else if u in w.reports then Refused(409)
                 else if acknowledged then Created(h.submission.reportId) else Refused(500))}
  {
    hide ValidUuidV4, Parse, ComputeScore;
  }

  lemma NothingToStore(env: Env, w: World, id: nat, acknowledged: bool)
    requires id in w.handlers ==> w.handlers[id].stage != Verified
    ensures StoreStep(env, w, id, acknowledged) == w
  {
  }

  /** The agent reports success exactly on a Created reply with the ID it expects. */
  lemma AgentConfirmsIff(env: Env, w: World, r: Request, response: Response, reportId: string)
    requires (r, response) in w.replies && (r, reportId) !in w.confirmed
    ensures (r, reportId) in Do(env, w, AgentReads(r, response, reportId)).confirmed <==> response == Created(reportId)
  {
  }

  /** Only what was sent is handled, and nobody's answer but the server's reaches the agent. */
  lemma NothingFromNowhere(env: Env, w: World, id: nat, r: Request, now: int, response: Response, reportId: string)
    ensures r !in w.network ==> Do(env, w, Receive(id, r, now)) == w
    ensures (r, response) !in w.replies ==> Do(env, w, AgentReads(r, response, reportId)) == w
    ensures Do(env, w, Send(r)) == w.(network := w.network + {r})
  {
  }

  /** A handler that breaks before it replied answers 500 and stores nothing more. */
  lemma BreakIsAnswered(env: Env, w: World, id: nat)
    requires id in w.handlers && !w.handlers[id].stage.Replied?
    ensures var w' := Do(env, w, Break(id));
            && w'.replies == w.replies + {(w.handlers[id].request, Refused(500))} && w'.reports == w.reports
            && id in w'.handlers && w'.handlers[id].stage == Replied(Refused(500))
  {
  }
}
