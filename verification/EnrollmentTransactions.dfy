/**
 Concurrent enrollment: every interleaving of redemptions, legacy enrollments,
 heartbeats and code issuance, statement by statement.

 READ COMMITTED with row locks: a statement sees committed rows; `FOR UPDATE`, an
 uncommitted insert and a pending unique-index entry make other transactions wait. An
 action that must wait leaves the system unchanged, so a run is any sequence of actions.
 */
module EnrollmentTransactions {
  import opened Prelude
  import opened Enrollment

  datatype Request =
    | RedeemRequest(r: Redemption)
    | EnrollRequest(node: NodeKey, version: Text)

  datatype Stage =
    | Begun          // nothing read yet
    | TokenHeld      // redemption: the code row is locked
    | NodeMissing    // redemption: the node SELECT found no row
    | RowInserted    // legacy: after INSERT ... ON CONFLICT DO NOTHING
    | NodeHeld       // the node row is locked
    | NodeWritten    // the node row is inserted or updated
    | StatusWritten  // the status row is ensured
    | TokenConsumed  // redemption: the code row is updated
    | Done(outcome: Outcome)

  /** `row` is the node row as the transaction sees it; `inserted` says that the row is its own insert. */
  datatype Tx = Tx(req: Request, now: int, stage: Stage, user: UserId, row: Option<Node>, inserted: bool,
                   newStatus: Option<NodeStatus>)

  datatype Sys = Sys(owner: UserId, db: Db, clock: int, txs: map<nat, Tx>, issuing: map<nat, UserId>)

  datatype Action =
    | Begin(id: nat, req: Request)
    | Advance(id: nat)
    | Abort(id: nat)
    | Tick(to: int)
    | BeatOnce(node: NodeKey, mode: Text)
    | CountCodes(id: nat, user: UserId)
    | InsertCode(id: nat, hash: TokenHash, expiresAt: int)
    | DropIssue(id: nat)  // the issuance fails after its count: timeout, cancellation, lost connection

  function Initial(owner: UserId, clock: int): Sys {
    Sys(owner, EMPTY_DB, clock, map[], map[])
  }

  // ---------------------------------------------------------------------
  // Locks, read off the stages
  // ---------------------------------------------------------------------

  function NodeOf(req: Request): NodeKey {
    match req case RedeemRequest(r) => r.nodeKey case EnrollRequest(n, _) => n
  }

  predicate Wrote(tx: Tx) {
    tx.stage == NodeWritten || tx.stage == StatusWritten || tx.stage == TokenConsumed
  }

  predicate HoldsToken(tx: Tx) {
    tx.req.RedeemRequest? && !tx.stage.Begun? && !tx.stage.Done?
  }

  predicate HoldsNode(tx: Tx) {
    tx.stage == NodeHeld || Wrote(tx) || (tx.stage == RowInserted && tx.inserted)
  }

  /** The unique-index entry a pending node write holds. */
  predicate ClaimsKey(tx: Tx, k: PublicKey) {
    Wrote(tx) && tx.row.Some? && tx.row.value.publicKey == Some(k)
  }

  predicate TokenLocked(s: Sys, id: nat, h: TokenHash) {
    exists j :: j in s.txs && j != id && HoldsToken(s.txs[j]) && s.txs[j].req.r.hash == h
  }

  predicate NodeLocked(s: Sys, id: nat, n: NodeKey) {
    exists j :: j in s.txs && j != id && HoldsNode(s.txs[j]) && NodeOf(s.txs[j].req) == n
  }

  predicate KeyPending(s: Sys, id: nat, k: PublicKey) {
    exists j :: j in s.txs && j != id && ClaimsKey(s.txs[j], k)
  }

  // ---------------------------------------------------------------------
  // One statement of one transaction
  // ---------------------------------------------------------------------

  function Fail(tx: Tx, o: Outcome): Tx {
    tx.(stage := Done(o))
  }

  function SelectToken(s: Sys, id: nat, tx: Tx): Tx
    requires tx.req.RedeemRequest?
  {
    var h := tx.req.r.hash;
    if !Redeemable(s.db, h, tx.now) then Fail(tx, InvalidCode)
    else if TokenLocked(s, id, h) then tx
    else tx.(stage := TokenHeld, user := s.db.tokens[h].user)
  }

  function SelectNode(s: Sys, id: nat, tx: Tx): Tx
    requires tx.req.RedeemRequest?
  {
    var r := tx.req.r;
    if r.nodeKey !in s.db.nodes then tx.(stage := NodeMissing)
    else if NodeLocked(s, id, r.nodeKey) then tx
    else
      var row := s.db.nodes[r.nodeKey];
      if row.user != tx.user then Fail(tx, OwnershipError)
      else if Conflicting(row.publicKey, r.publicKey) then Fail(tx, IdentityConflict)
      else tx.(stage := NodeHeld, row := Some(row), inserted := false)
  }

  function InsertNode(s: Sys, id: nat, tx: Tx): Tx
    requires tx.req.RedeemRequest?
  {
    var r := tx.req.r;
    if r.nodeKey in s.db.nodes || KeyTaken(s.db, r.publicKey, r.nodeKey) then Fail(tx, IdentityConflict)
    else if NodeLocked(s, id, r.nodeKey) || KeyPending(s, id, r.publicKey) then tx
    else tx.(stage := NodeWritten, row := Some(Node(tx.user, r.version, Some(r.publicKey))), inserted := true)
  }

  function UpdateNode(s: Sys, id: nat, tx: Tx): Tx {
    if tx.row.None? then tx
    else
      match tx.req
      case RedeemRequest(r) =>
        var key := Coalesce(tx.row.value.publicKey, r.publicKey);
        if tx.row.value.publicKey.None? && KeyTaken(s.db, r.publicKey, r.nodeKey) then Fail(tx, IdentityConflict)
        else if tx.row.value.publicKey.None? && KeyPending(s, id, r.publicKey) then tx
        else tx.(stage := NodeWritten, row := Some(tx.row.value.(agentVersion := r.version, publicKey := key)))
      case EnrollRequest(_, version) =>
        tx.(stage := NodeWritten, row := Some(tx.row.value.(agentVersion := version)))
  }

  /** Legacy: INSERT ... ON CONFLICT(node_key) DO NOTHING, which waits for a pending insert of the key. */
  function InsertUnlessPresent(s: Sys, id: nat, tx: Tx): Tx
    requires tx.req.EnrollRequest?
  {
    if tx.req.node in s.db.nodes then tx.(stage := RowInserted, inserted := false)
    else if NodeLocked(s, id, tx.req.node) then tx
    else tx.(stage := RowInserted, inserted := true, row := Some(Node(s.owner, tx.req.version, None)))
  }

  function LockEnrolled(s: Sys, id: nat, tx: Tx): Tx
    requires tx.req.EnrollRequest?
  {
    if tx.inserted then tx.(stage := NodeHeld)
    else if tx.req.node !in s.db.nodes || NodeLocked(s, id, tx.req.node) then tx
    else if s.db.nodes[tx.req.node].user != s.owner then Fail(tx, OwnershipError)
    else tx.(stage := NodeHeld, row := Some(s.db.nodes[tx.req.node]))
  }

  function EnsureStatus(s: Sys, tx: Tx): Tx {
    tx.(stage := StatusWritten,
        newStatus := if NodeOf(tx.req) in s.db.statuses then None else Some(FreshStatus(tx.now)))
  }

  /** UPDATE ... WHERE consumed_at IS NULL, which must touch one row. */
  function ConsumeToken(s: Sys, tx: Tx): Tx
    requires tx.req.RedeemRequest?
  {
    if tx.req.r.hash in s.db.tokens && s.db.tokens[tx.req.r.hash].consumedAt.None?
    then tx.(stage := TokenConsumed) else Fail(tx, InvalidCode)
  }

  /** The next statement of an open transaction, up to but not including COMMIT. */
  function NextTx(s: Sys, id: nat, tx: Tx): Tx {
    match tx.stage
    case Begun => if tx.req.RedeemRequest? then SelectToken(s, id, tx) else InsertUnlessPresent(s, id, tx)
    case TokenHeld => if tx.req.RedeemRequest? then SelectNode(s, id, tx) else tx
    case NodeMissing => if tx.req.RedeemRequest? then InsertNode(s, id, tx) else tx
    case RowInserted => if tx.req.EnrollRequest? then LockEnrolled(s, id, tx) else tx
    case NodeHeld => UpdateNode(s, id, tx)
    case NodeWritten => EnsureStatus(s, tx)
    case StatusWritten => if tx.req.RedeemRequest? then ConsumeToken(s, tx) else tx
    case _ => tx
  }

  predicate ReadyToCommit(tx: Tx) {
    && tx.row.Some?
    && (tx.stage == TokenConsumed || (tx.stage == StatusWritten && tx.req.EnrollRequest?))
  }

  /** COMMIT makes all pending writes of a transaction visible at once. */
  function Commit(db: Db, tx: Tx): Db
    requires tx.row.Some?
  {
    var n := NodeOf(tx.req);
    Db(if tx.req.RedeemRequest? && tx.req.r.hash in db.tokens
       then db.tokens[tx.req.r.hash :=
              db.tokens[tx.req.r.hash].(consumedAt := Some(tx.now), consumedNode := Some(n))]
       else db.tokens,
       db.nodes[n := tx.row.value],
       if tx.newStatus.Some? then db.statuses[n := tx.newStatus.value] else db.statuses)
  }

  function Active(db: Db, u: UserId, now: int): set<TokenHash> {
    set h | h in db.tokens && db.tokens[h].user == u && Redeemable(db, h, now)
  }

  /** The INSERT of an issuance that has counted; a hash that already exists is a unique violation. */
  function InsertOne(s: Sys, id: nat, h: TokenHash, expiresAt: int): Sys
    requires id in s.issuing
  {
    s.(issuing := s.issuing - {id},
       db := if h in s.db.tokens then s.db
             else s.db.(tokens := s.db.tokens[h := Token(s.issuing[id], expiresAt, None, None)]))
  }

  function Do(s: Sys, a: Action): Sys {
    match a
    case Begin(id, req) =>
      if id in s.txs || (req.RedeemRequest? && req.r.publicKey == EmptyText) then s
      else s.(txs := s.txs[id := Tx(req, s.clock, Begun, s.owner, None, false, None)])
    case Advance(id) =>
      if id !in s.txs || s.txs[id].stage.Done? then s
      else if ReadyToCommit(s.txs[id]) then
        s.(db := Commit(s.db, s.txs[id]), txs := s.txs[id := s.txs[id].(stage := Done(Success))])
      else s.(txs := s.txs[id := NextTx(s, id, s.txs[id])])
    case Abort(id) =>
      if id !in s.txs || s.txs[id].stage.Done? then s
      else s.(txs := s.txs[id := Fail(s.txs[id], Cancelled)])
    case Tick(to) => if to < s.clock then s else s.(clock := to)
    case BeatOnce(n, mode) => s.(db := Beat(s.db, s.owner, n, mode, s.clock))
    case CountCodes(id, u) =>
      if id in s.issuing || |Active(s.db, u, s.clock)| >= MAX_ACTIVE_CODES then s
      else s.(issuing := s.issuing[id := u])
    case InsertCode(id, h, expiresAt) => if id in s.issuing then InsertOne(s, id, h, expiresAt) else s
    case DropIssue(id) => s.(issuing := s.issuing - {id})
  }

  function Run(s: Sys, acts: seq<Action>): Sys {
    if acts == [] then s else Do(Run(s, acts[..|acts| - 1]), acts[|acts| - 1])
  }

  // ---------------------------------------------------------------------
  // The invariant of the whole system
  // ---------------------------------------------------------------------

  /** The node row the transaction would leave if it ran alone from the committed tables. */
  ghost function SerialRow(s: Sys, tx: Tx): Node {
    match tx.req
    case RedeemRequest(r) => RedeemedRow(s.db, r, tx.user)
    case EnrollRequest(n, version) => EnrolledRow(s.db, s.owner, n, version)
  }

  /** What a transaction has read stays true of the committed tables while it holds its locks. */
  ghost predicate TxInv(s: Sys, tx: Tx) {
    var n := NodeOf(tx.req);
    && (tx.req.RedeemRequest? ==> tx.req.r.publicKey != EmptyText && tx.stage != RowInserted)
    && (tx.req.EnrollRequest? ==> tx.stage !in {TokenHeld, NodeMissing, TokenConsumed} && tx.user == s.owner)
    && (HoldsToken(tx) ==> Redeemable(s.db, tx.req.r.hash, tx.now) && s.db.tokens[tx.req.r.hash].user == tx.user)
    && (tx.stage == RowInserted && !tx.inserted ==> n in s.db.nodes)
    && (HoldsNode(tx) ==>
          && tx.row.Some? && tx.row.value.user == tx.user
          && (tx.inserted ==> n !in s.db.nodes)
          && (!tx.inserted ==> n in s.db.nodes && s.db.nodes[n].user == tx.user))
    && ((tx.stage == NodeHeld || tx.stage == RowInserted) && tx.inserted ==>
          tx.req.EnrollRequest? && tx.row == Some(Node(s.owner, tx.req.version, None)))
    && (tx.stage == NodeHeld && !tx.inserted ==>
          && tx.row == Some(s.db.nodes[n])
          && (tx.req.RedeemRequest? ==>
                tx.row.value.publicKey == None || tx.row.value.publicKey == Some(tx.req.r.publicKey)))
    && (Wrote(tx) ==>
          && tx.row == Some(SerialRow(s, tx))
          && (tx.req.RedeemRequest? ==> tx.row.value.publicKey == Some(tx.req.r.publicKey))
          && (tx.row.value.publicKey.Some? ==>
                tx.row.value.publicKey.value != EmptyText && !KeyTaken(s.db, tx.row.value.publicKey.value, n)))
    && (tx.stage == StatusWritten || tx.stage == TokenConsumed ==>
          tx.newStatus == if n in s.db.statuses then None else Some(FreshStatus(tx.now)))
  }

  predicate Redeemed(tx: Tx) {
    tx.req.RedeemRequest? && tx.stage == Done(Success)
  }

  ghost predicate ConsumedBy(db: Db, tx: Tx) {
    && tx.req.RedeemRequest? && tx.req.r.hash in db.tokens
    && db.tokens[tx.req.r.hash].consumedAt == Some(tx.now)
    && db.tokens[tx.req.r.hash].consumedNode == Some(tx.req.r.nodeKey)
  }

  ghost predicate TokensApart(a: Tx, b: Tx) {
    HoldsToken(a) && HoldsToken(b) ==> a.req.r.hash != b.req.r.hash
  }

  ghost predicate NodesApart(a: Tx, b: Tx) {
    HoldsNode(a) && HoldsNode(b) ==> NodeOf(a.req) != NodeOf(b.req)
  }

  ghost predicate KeysApart(a: Tx, b: Tx) {
    Wrote(a) && Wrote(b) && a.row.Some? && b.row.Some? && a.row.value.publicKey.Some? ==>
      a.row.value.publicKey != b.row.value.publicKey
  }

  ghost predicate RedeemedApart(a: Tx, b: Tx) {
    Redeemed(a) && Redeemed(b) ==> a.req.r.hash != b.req.r.hash
  }

  /** Two transactions never hold the same lock, and never both consumed the same code. */
  ghost predicate Compatible(a: Tx, b: Tx) {
    TokensApart(a, b) && NodesApart(a, b) && KeysApart(a, b) && RedeemedApart(a, b)
  }

  ghost predicate HasRedeemer(s: Sys, h: TokenHash) {
    exists i :: i in s.txs && Redeemed(s.txs[i]) && s.txs[i].req.r.hash == h
  }

  /** Consumed codes and committed redemptions correspond. */
  ghost predicate Accounts(s: Sys) {
    && (forall i :: i in s.txs && Redeemed(s.txs[i]) ==> ConsumedBy(s.db, s.txs[i]))
    && (forall h :: h in s.db.tokens && s.db.tokens[h].consumedAt.Some? ==> HasRedeemer(s, h))
  }

  ghost predicate SysInv(s: Sys) {
    && Inv(s.db)
    && (forall i :: i in s.txs ==> TxInv(s, s.txs[i]))
    && (forall i, j :: i in s.txs && j in s.txs && i != j ==> Compatible(s.txs[i], s.txs[j]))
    && Accounts(s)
  }

  lemma ReplaceKeepsAccounts(s: Sys, id: nat, tx: Tx)
    requires Accounts(s) && !Redeemed(tx) && (id in s.txs ==> !Redeemed(s.txs[id]))
    ensures Accounts(s.(txs := s.txs[id := tx]))
  {
    var s' := s.(txs := s.txs[id := tx]);
    forall h | h in s'.db.tokens && s'.db.tokens[h].consumedAt.Some? ensures HasRedeemer(s', h) {
      var i :| i in s.txs && Redeemed(s.txs[i]) && s.txs[i].req.r.hash == h;
      assert s'.txs[i] == s.txs[i];
    }
  }

  /** Replacing one transaction, tables untouched, needs only that transaction's own obligations. */
  lemma ReplaceTx(s: Sys, id: nat, tx: Tx)
    requires SysInv(s) && TxInv(s, tx) && !Redeemed(tx)
    requires id in s.txs ==> !Redeemed(s.txs[id])
    requires forall j :: j in s.txs && j != id ==> Compatible(tx, s.txs[j]) && Compatible(s.txs[j], tx)
    ensures SysInv(s.(txs := s.txs[id := tx]))
  {
    var s' := s.(txs := s.txs[id := tx]);
    forall i | i in s'.txs ensures TxInv(s', s'.txs[i]) {
      if i != id { assert TxInv(s, s.txs[i]); }
    }
    ReplaceKeepsAccounts(s, id, tx);
  }

  lemma FailedTx(s: Sys, id: nat, o: Outcome)
    requires SysInv(s) && id in s.txs && !s.txs[id].stage.Done? && o != Success
    ensures SysInv(s.(txs := s.txs[id := Fail(s.txs[id], o)]))
  {
    assert TxInv(s, s.txs[id]);
    ReplaceTx(s, id, Fail(s.txs[id], o));
  }

  /** A transaction about to commit holds row for row what it would write if it ran alone now. */
  lemma CommitIsSerial(s: Sys, id: nat)
    requires SysInv(s) && id in s.txs && ReadyToCommit(s.txs[id])
    ensures var tx := s.txs[id];
            match tx.req
            case RedeemRequest(r) =>
              RedeemOutcome(s.db, r, tx.now) == Success && Commit(s.db, tx) == Redeem(s.db, r, tx.now)
            case EnrollRequest(n, version) => Commit(s.db, tx) == Enroll(s.db, s.owner, n, version, tx.now)
  {
    assert TxInv(s, s.txs[id]);
  }

  // ---------------------------------------------------------------------
  // Every action keeps the invariant
  // ---------------------------------------------------------------------

  lemma StatementKeepsInv(s: Sys, id: nat)
    requires SysInv(s) && id in s.txs && !s.txs[id].stage.Done? && !ReadyToCommit(s.txs[id])
    ensures SysInv(s.(txs := s.txs[id := NextTx(s, id, s.txs[id])]))
  {
    var tx := s.txs[id];
    var tx' := NextTx(s, id, tx);
    assert TxInv(s, tx);
    if tx'.stage.Done? {
      FailedTx(s, id, tx'.stage.outcome);
    } else {
      NextTxInv(s, id, tx);
      forall j | j in s.txs && j != id ensures Compatible(tx', s.txs[j]) && Compatible(s.txs[j], tx') {
        NextTxCompatible(s, id, tx, j);
        CompatibleSymmetric(tx', s.txs[j]);
      }
      ReplaceTx(s, id, tx');
    }
  }

  /** What the next statement reads is what the transaction may rely on from then on. */
  lemma NextTxInv(s: Sys, id: nat, tx: Tx)
    requires Inv(s.db) && TxInv(s, tx) && !tx.stage.Done? && !ReadyToCommit(tx)
    requires !NextTx(s, id, tx).stage.Done?
    ensures TxInv(s, NextTx(s, id, tx))
  {
    if tx.stage == NodeHeld { UpdateNodeInv(s, id, tx); }
  }

  lemma UpdateNodeInv(s: Sys, id: nat, tx: Tx)
    requires Inv(s.db) && TxInv(s, tx) && tx.stage == NodeHeld && !UpdateNode(s, id, tx).stage.Done?
    ensures TxInv(s, UpdateNode(s, id, tx))
  {
    var key := UpdateNode(s, id, tx).row.value.publicKey;
    if tx.row.value.publicKey.Some? {
      assert key == s.db.nodes[NodeOf(tx.req)].publicKey;
      assert !KeyTaken(s.db, key.value, NodeOf(tx.req));
    }
  }

  /** The next statement takes no lock that another transaction holds. */
  lemma NextTxCompatible(s: Sys, id: nat, tx: Tx, j: nat)
    requires Inv(s.db) && TxInv(s, tx) && !tx.stage.Done? && !ReadyToCommit(tx)
    requires j in s.txs && j != id && TxInv(s, s.txs[j]) && Compatible(tx, s.txs[j])
    requires !NextTx(s, id, tx).stage.Done?
    ensures Compatible(NextTx(s, id, tx), s.txs[j])
  {
    var tx', o := NextTx(s, id, tx), s.txs[j];
    assert TokensApart(tx', o) by { TokenNotShared(s, id, tx, j); }
    assert NodesApart(tx', o) by { NodeNotShared(s, id, tx, j); }
    assert KeysApart(tx', o) by {
      if Wrote(tx') && !Wrote(tx) && Wrote(o) && tx'.row.value.publicKey.Some? {
        KeyNotShared(s, id, tx, j);
      }
    }
  }

  lemma TokenNotShared(s: Sys, id: nat, tx: Tx, j: nat)
    requires j in s.txs && j != id && TokensApart(tx, s.txs[j]) && !tx.stage.Done?
    ensures TokensApart(NextTx(s, id, tx), s.txs[j])
  {
    if tx.stage == Begun && HoldsToken(s.txs[j]) && tx.req.RedeemRequest? && s.txs[j].req.r.hash == tx.req.r.hash {
      assert TokenLocked(s, id, tx.req.r.hash);
    }
  }

  lemma NodeNotShared(s: Sys, id: nat, tx: Tx, j: nat)
    requires j in s.txs && j != id && NodesApart(tx, s.txs[j]) && TxInv(s, tx) && TxInv(s, s.txs[j])
    ensures NodesApart(NextTx(s, id, tx), s.txs[j])
  {
    if HoldsNode(NextTx(s, id, tx)) && !HoldsNode(tx) && HoldsNode(s.txs[j]) && NodeOf(s.txs[j].req) == NodeOf(tx.req) {
      assert NodeLocked(s, id, NodeOf(tx.req));
    }
  }

  lemma KeyNotShared(s: Sys, id: nat, tx: Tx, j: nat)
    requires Inv(s.db) && TxInv(s, tx) && (tx.stage == NodeHeld || tx.stage == NodeMissing)
    requires j in s.txs && j != id && TxInv(s, s.txs[j]) && Compatible(tx, s.txs[j]) && Wrote(s.txs[j])
    requires Wrote(NextTx(s, id, tx)) && NextTx(s, id, tx).row.value.publicKey.Some?
    ensures NextTx(s, id, tx).row.value.publicKey != s.txs[j].row.value.publicKey
  {
    var k := NextTx(s, id, tx).row.value.publicKey.value;
    if tx.stage == NodeHeld && tx.row.value.publicKey.Some? {
      var m := NodeOf(s.txs[j].req);
      assert m != NodeOf(tx.req) && s.db.nodes[NodeOf(tx.req)].publicKey == Some(k);
      assert KeyTaken(s.db, k, m);
    } else {
      assert ClaimsKey(s.txs[j], k) ==> KeyPending(s, id, k);
    }
  }

  lemma CompatibleSymmetric(a: Tx, b: Tx)
    requires Compatible(a, b)
    ensures Compatible(b, a)
  {
  }

  /** Another open transaction cannot tell that `id` committed: their locks are disjoint. */
  lemma CommitKeepsOther(s: Sys, id: nat, j: nat)
    requires SysInv(s) && id in s.txs && ReadyToCommit(s.txs[id]) && j in s.txs && j != id
    ensures TxInv(s.(db := Commit(s.db, s.txs[id])), s.txs[j])
  {
    assert TxInv(s, s.txs[id]) && TxInv(s, s.txs[j]);
    assert Compatible(s.txs[id], s.txs[j]) && Compatible(s.txs[j], s.txs[id]);
  }

  lemma CommitKeepsDb(s: Sys, id: nat)
    requires SysInv(s) && id in s.txs && ReadyToCommit(s.txs[id])
    ensures Inv(Commit(s.db, s.txs[id])) && KeepsIdentities(s.db, Commit(s.db, s.txs[id]))
  {
    hide KeepsIdentities, Inv, Commit, Redeem, Enroll;
    var tx := s.txs[id];
    assert TxInv(s, tx);
    CommitIsSerial(s, id);
    match tx.req {
      case RedeemRequest(r) => RedeemKeepsInv(s.db, r, tx.now);
      case EnrollRequest(n, version) => EnrollKeepsInv(s.db, s.owner, n, version, tx.now);
    }
  }

  lemma CommitKeepsInv(s: Sys, id: nat)
    requires SysInv(s) && id in s.txs && ReadyToCommit(s.txs[id])
    ensures SysInv(Do(s, Advance(id)))
    ensures KeepsIdentities(s.db, Do(s, Advance(id)).db)
  {
    hide Compatible, Accounts, Inv, KeepsIdentities, Commit;
    var s' := Do(s, Advance(id));
    CommitKeepsDb(s, id);
    forall j | j in s'.txs ensures TxInv(s', s'.txs[j]) {
      if j == id {
        CommittedTxInv(s, id);
      } else {
        CommitKeepsOther(s, id, j);
        SameDbSameTxInv(s', s.(db := s'.db), s.txs[j]);
      }
    }
    CommitKeepsCompatible(s, id);
    CommitKeepsAccounts(s, id);
  }

  lemma CommittedTxInv(s: Sys, id: nat)
    requires SysInv(s) && id in s.txs && ReadyToCommit(s.txs[id])
    ensures TxInv(Do(s, Advance(id)), s.txs[id].(stage := Done(Success)))
  {
    assert TxInv(s, s.txs[id]);
  }

  lemma SameDbSameTxInv(s: Sys, s': Sys, tx: Tx)
    requires s.db == s'.db && s.owner == s'.owner
    ensures TxInv(s, tx) == TxInv(s', tx)
  {
  }

  lemma CommitKeepsCompatible(s: Sys, id: nat)
    requires SysInv(s) && id in s.txs && ReadyToCommit(s.txs[id])
    ensures var txs := s.txs[id := s.txs[id].(stage := Done(Success))];
      forall i, j :: i in txs && j in txs && i != j ==> Compatible(txs[i], txs[j])
  {
    var txs := s.txs[id := s.txs[id].(stage := Done(Success))];
    forall i, j | i in txs && j in txs && i != j ensures Compatible(txs[i], txs[j]) {
      if i == id { CommitKeepsApart(s, id, j); } else if j == id { CommitKeepsApart(s, id, i); }
    }
  }

  lemma CommitKeepsAccounts(s: Sys, id: nat)
    requires SysInv(s) && id in s.txs && ReadyToCommit(s.txs[id])
    ensures Accounts(Do(s, Advance(id)))
  {
    var tx := s.txs[id];
    var s' := Do(s, Advance(id));
    assert TxInv(s, tx);
    forall i | i in s'.txs && Redeemed(s'.txs[i]) ensures ConsumedBy(s'.db, s'.txs[i]) {
      assert i != id ==> ConsumedBy(s.db, s.txs[i]);
    }
    forall h | h in s'.db.tokens && s'.db.tokens[h].consumedAt.Some? ensures HasRedeemer(s', h) {
      if tx.req.RedeemRequest? && h == tx.req.r.hash {
        assert Redeemed(s'.txs[id]);
      } else {
        assert HasRedeemer(s, h);
        var i :| i in s.txs && Redeemed(s.txs[i]) && s.txs[i].req.r.hash == h;
        assert s'.txs[i] == s.txs[i];
      }
    }
  }

  /** The code a redemption holds has no earlier redeemer. */
  lemma CommitKeepsApart(s: Sys, id: nat, j: nat)
    requires SysInv(s) && id in s.txs && ReadyToCommit(s.txs[id]) && j in s.txs && j != id
    ensures Compatible(s.txs[id].(stage := Done(Success)), s.txs[j])
    ensures Compatible(s.txs[j], s.txs[id].(stage := Done(Success)))
  {
    assert TxInv(s, s.txs[id]);
    assert Compatible(s.txs[id], s.txs[j]) && Compatible(s.txs[j], s.txs[id]);
    assert Redeemed(s.txs[j]) ==> ConsumedBy(s.db, s.txs[j]);
  }

  /** A change of the tables that only touches status rows or adds codes disturbs nobody. */
  lemma QuietChange(s: Sys, s': Sys)
    requires SysInv(s) && Inv(s'.db) && s'.txs == s.txs && s'.owner == s.owner && s'.db.nodes == s.db.nodes
    requires s'.db.statuses.Keys == s.db.statuses.Keys
    requires forall h :: h in s.db.tokens ==> h in s'.db.tokens && s'.db.tokens[h] == s.db.tokens[h]
    requires forall h :: h in s'.db.tokens && h !in s.db.tokens ==> s'.db.tokens[h].consumedAt.None?
    ensures SysInv(s')
  {
    forall h | h in s'.db.tokens && s'.db.tokens[h].consumedAt.Some? ensures HasRedeemer(s', h) {
      assert HasRedeemer(s, h);
    }
    forall i | i in s'.txs ensures TxInv(s', s'.txs[i]) {
      assert TxInv(s, s.txs[i]);
      assert forall k, n :: KeyTaken(s'.db, k, n) == KeyTaken(s.db, k, n);
    }
  }

  lemma SysInvGivesDb(s: Sys)
    requires SysInv(s)
    ensures Inv(s.db)
  {
  }

  /** Every action keeps the invariant, the owners and the pinned keys. */
  lemma DoKeepsInv(s: Sys, a: Action)
    requires SysInv(s)
    ensures SysInv(Do(s, a)) && KeepsIdentities(s.db, Do(s, a).db)
  {
    hide SysInv, Inv, NextTx, Commit, ReadyToCommit, InsertOne, Active;
    var s' := Do(s, a);
    SysInvGivesDb(s);
    match a
    case Begin(id, req) =>
      if s' != s { BeginKeepsInv(s, id, req); }
    case Advance(id) =>
      if id in s.txs && !s.txs[id].stage.Done? {
        if ReadyToCommit(s.txs[id]) { CommitKeepsInv(s, id); } else { StatementKeepsInv(s, id); }
      }
    case Abort(id) =>
      if id in s.txs && !s.txs[id].stage.Done? { FailedTx(s, id, Cancelled); }
    case BeatOnce(n, mode) =>
      BeatKeepsInv(s.db, s.owner, n, mode, s.clock);
      QuietChange(s, s');
    case InsertCode(id, h, expiresAt) => NewCodeKeepsInv(s, a);
    case _ => QuietChange(s, s');
  }

  lemma BeginKeepsInv(s: Sys, id: nat, req: Request)
    requires SysInv(s) && id !in s.txs && !(req.RedeemRequest? && req.r.publicKey == EmptyText)
    ensures SysInv(Do(s, Begin(id, req)))
  {
    ReplaceTx(s, id, Tx(req, s.clock, Begun, s.owner, None, false, None));
  }

  lemma NewCodeKeepsInv(s: Sys, a: Action)
    requires SysInv(s) && a.InsertCode?
    ensures SysInv(Do(s, a)) && KeepsIdentities(s.db, Do(s, a).db)
  {
    var s' := Do(s, a);
    forall h | h in s'.db.tokens ensures TokenSound(s'.db, h) {
      if h in s.db.tokens { assert TokenSound(s.db, h); }
    }
    QuietChange(s, s');
  }

  lemma {:induction false} RunKeepsInv(s: Sys, acts: seq<Action>)
    requires SysInv(s)
    ensures SysInv(Run(s, acts)) && KeepsIdentities(s.db, Run(s, acts).db)
  {
    if acts != [] {
      RunKeepsInv(s, acts[..|acts| - 1]);
      DoKeepsInv(Run(s, acts[..|acts| - 1]), acts[|acts| - 1]);
    }
  }

  // ---------------------------------------------------------------------
  // Every interleaving is a serial history
  // ---------------------------------------------------------------------

  /** One write to the tables, as the code performs it when nothing else runs. */
  datatype SerialOp =
    | SerialRedeem(r: Redemption, now: int)
    | SerialEnroll(node: NodeKey, version: Text, now: int)
    | SerialBeat(node: NodeKey, mode: Text, now: int)
    | SerialCode(user: UserId, hash: TokenHash, expiresAt: int)

  function ApplyOp(db: Db, owner: UserId, op: SerialOp): Db {
    match op
    case SerialRedeem(r, now) => Redeem(db, r, now)
    case SerialEnroll(n, version, now) => Enroll(db, owner, n, version, now)
    case SerialBeat(n, mode, now) => Beat(db, owner, n, mode, now)
    case SerialCode(u, h, expiresAt) =>
      if h in db.tokens then db else db.(tokens := db.tokens[h := Token(u, expiresAt, None, None)])
  }

  function ApplyOps(db: Db, owner: UserId, ops: seq<SerialOp>): Db {
    if ops == [] then db else ApplyOp(ApplyOps(db, owner, ops[..|ops| - 1]), owner, ops[|ops| - 1])
  }

  /** The table write an action completes, if any: a transaction's whole effect falls at its COMMIT. */
  function WriteOf(s: Sys, a: Action): seq<SerialOp> {
    match a
    case Advance(id) =>
      if id in s.txs && ReadyToCommit(s.txs[id]) then
        match s.txs[id].req
        case RedeemRequest(r) => [SerialRedeem(r, s.txs[id].now)]
        case EnrollRequest(n, version) => [SerialEnroll(n, version, s.txs[id].now)]
      else []
    case BeatOnce(n, mode) => [SerialBeat(n, mode, s.clock)]
    case InsertCode(id, h, expiresAt) => if id in s.issuing then [SerialCode(s.issuing[id], h, expiresAt)] else []
    case _ => []
  }

  function History(s: Sys, acts: seq<Action>): seq<SerialOp> {
    if acts == [] then []
    else History(s, acts[..|acts| - 1]) + WriteOf(Run(s, acts[..|acts| - 1]), acts[|acts| - 1])
  }

  lemma ApplyOpsAppend(db: Db, owner: UserId, ops: seq<SerialOp>, more: seq<SerialOp>)
    requires |more| <= 1
    ensures ApplyOps(db, owner, ops + more) ==
            if more == [] then ApplyOps(db, owner, ops) else ApplyOp(ApplyOps(db, owner, ops), owner, more[0])
  {
    if more == [] {
      assert ops + more == ops;
    } else {
      assert (ops + more)[..|ops|] == ops;
    }
  }

  /** An action changes the tables exactly as its serial write does; an unfinished transaction writes nothing. */
  lemma ActionIsSerial(s: Sys, a: Action)
    requires SysInv(s)
    ensures |WriteOf(s, a)| <= 1 && Do(s, a).owner == s.owner
    ensures Do(s, a).db == if WriteOf(s, a) == [] then s.db else ApplyOp(s.db, s.owner, WriteOf(s, a)[0])
  {
    if a.Advance? && a.id in s.txs && ReadyToCommit(s.txs[a.id]) { CommitIsSerial(s, a.id); }
  }

  /**
   Serializability: whatever the interleaving, the tables are those of the committed
   transactions run one after another in commit order.
   */
  lemma {:induction false} Serializable(s: Sys, acts: seq<Action>)
    requires SysInv(s)
    ensures Run(s, acts).owner == s.owner
    ensures Run(s, acts).db == ApplyOps(s.db, s.owner, History(s, acts))
  {
    if acts != [] {
      var init, a := acts[..|acts| - 1], acts[|acts| - 1];
      Serializable(s, init);
      RunKeepsInv(s, init);
      ActionIsSerial(Run(s, init), a);
      ApplyOpsAppend(s.db, s.owner, History(s, init), WriteOf(Run(s, init), a));
    }
  }

  // ---------------------------------------------------------------------
  // One redemption per code
  // ---------------------------------------------------------------------

  ghost function Redeemers(s: Sys): set<nat> {
    set i | i in s.txs && Redeemed(s.txs[i])
  }

  ghost function ConsumedCodes(s: Sys): set<TokenHash> {
    set h | h in s.db.tokens && s.db.tokens[h].consumedAt.Some?
  }

  /** In every reachable state the successful redemptions and the consumed codes are equally many. */
  lemma ReachableAccounts(owner: UserId, clock: int, acts: seq<Action>)
    ensures var s := Run(Initial(owner, clock), acts);
            && SysInv(s)
            && |Redeemers(s)| == |ConsumedCodes(s)|
            && (forall i, j :: i in Redeemers(s) && j in Redeemers(s) && i != j ==>
                  s.txs[i].req.r.hash != s.txs[j].req.r.hash)
  {
    RunKeepsInv(Initial(owner, clock), acts);
    RedeemersDistinct(Run(Initial(owner, clock), acts));
    RedeemersMatchCodes(Run(Initial(owner, clock), acts));
  }

  lemma RedeemersDistinct(s: Sys)
    requires forall i, j :: i in s.txs && j in s.txs && i != j ==> Compatible(s.txs[i], s.txs[j])
    ensures forall i, j :: i in Redeemers(s) && j in Redeemers(s) && i != j ==>
              s.txs[i].req.r.hash != s.txs[j].req.r.hash
  {
    forall i, j | i in Redeemers(s) && j in Redeemers(s) && i != j
      ensures s.txs[i].req.r.hash != s.txs[j].req.r.hash
    {
      assert Compatible(s.txs[i], s.txs[j]);
    }
  }

  lemma RedeemersMatchCodes(s: Sys)
    requires Accounts(s)
    requires forall i, j :: i in Redeemers(s) && j in Redeemers(s) && i != j ==>
               s.txs[i].req.r.hash != s.txs[j].req.r.hash
    ensures |Redeemers(s)| == |ConsumedCodes(s)|
  {
    var codeOf := map i | i in Redeemers(s) :: s.txs[i].req.r.hash;
    InjectiveImageSize(codeOf, Redeemers(s));
    RedeemedCodesAreConsumed(s, codeOf);
  }

  lemma RedeemedCodesAreConsumed(s: Sys, codeOf: map<nat, TokenHash>)
    requires Accounts(s) && codeOf == map i | i in Redeemers(s) :: s.txs[i].req.r.hash
    ensures (set i | i in Redeemers(s) :: codeOf[i]) == ConsumedCodes(s)
  {
    var hashes := set i | i in Redeemers(s) :: codeOf[i];
    forall h | h in ConsumedCodes(s) ensures h in hashes {
      assert HasRedeemer(s, h);
      var i :| i in s.txs && Redeemed(s.txs[i]) && s.txs[i].req.r.hash == h;
      assert i in Redeemers(s);
    }
    forall h | h in hashes ensures h in ConsumedCodes(s) {
      var i :| i in Redeemers(s) && codeOf[i] == h;
      assert ConsumedBy(s.db, s.txs[i]);
    }
  }

  /** The final `RowsAffected != 1` check never fires: the row lock keeps the code unconsumed. */
  lemma ConsumeAlwaysTouchesOneRow(s: Sys, id: nat)
    requires SysInv(s) && id in s.txs && s.txs[id].req.RedeemRequest? && s.txs[id].stage == StatusWritten
    ensures NextTx(s, id, s.txs[id]).stage == TokenConsumed
  {
    assert TxInv(s, s.txs[id]);
  }

  // ---------------------------------------------------------------------
  // Consumed codes
  // ---------------------------------------------------------------------

  /** Every consumed code was consumed before it expired, for a node that belongs to the code's user. */
  lemma ConsumedCodesAreBound(owner: UserId, clock: int, acts: seq<Action>, h: TokenHash)
    requires h in Run(Initial(owner, clock), acts).db.tokens
    requires Run(Initial(owner, clock), acts).db.tokens[h].consumedAt.Some?
    ensures var db := Run(Initial(owner, clock), acts).db;
            var t := db.tokens[h];
            && t.consumedAt.value < t.expiresAt
            && t.consumedNode.Some? && t.consumedNode.value in db.nodes && t.consumedNode.value in db.statuses
            && db.nodes[t.consumedNode.value].user == t.user
            && db.nodes[t.consumedNode.value].publicKey.Some?
  {
    RunKeepsInv(Initial(owner, clock), acts);
    assert TokenSound(Run(Initial(owner, clock), acts).db, h);
    RedeemedNodesAreKeyed(owner, clock, acts);
  }

  ghost predicate ConsumersKeyed(db: Db) {
    forall h :: h in db.tokens && db.tokens[h].consumedNode.Some? ==>
      db.tokens[h].consumedNode.value in db.nodes && db.nodes[db.tokens[h].consumedNode.value].publicKey.Some?
  }

  lemma {:induction false} RedeemedNodesAreKeyed(owner: UserId, clock: int, acts: seq<Action>)
    ensures ConsumersKeyed(Run(Initial(owner, clock), acts).db)
  {
    if acts != [] {
      var init, a := acts[..|acts| - 1], acts[|acts| - 1];
      RedeemedNodesAreKeyed(owner, clock, init);
      RunKeepsInv(Initial(owner, clock), init);
      var s := Run(Initial(owner, clock), init);
      ActionIsSerial(s, a);
      DoKeepsInv(s, a);
      WriteKeepsKeyed(s, a);
    }
  }

  lemma WriteKeepsKeyed(s: Sys, a: Action)
    requires SysInv(s) && ConsumersKeyed(s.db) && KeepsIdentities(s.db, Do(s, a).db)
    requires |WriteOf(s, a)| <= 1
    requires Do(s, a).db == if WriteOf(s, a) == [] then s.db else ApplyOp(s.db, s.owner, WriteOf(s, a)[0])
    ensures ConsumersKeyed(Do(s, a).db)
  {
    hide Do, WriteOf, SysInv, KeepsIdentities;
    if WriteOf(s, a) != [] { OpKeepsKeyed(s.db, s.owner, WriteOf(s, a)[0]); }
  }

  lemma OpKeepsKeyed(db: Db, owner: UserId, op: SerialOp)
    requires ConsumersKeyed(db)
    ensures ConsumersKeyed(ApplyOp(db, owner, op))
  {
  }

  // ---------------------------------------------------------------------
  // A failed transaction changes nothing
  // ---------------------------------------------------------------------

  lemma DoneIsFinal(s: Sys, a: Action, id: nat)
    requires id in s.txs && s.txs[id].stage.Done?
    ensures id in Do(s, a).txs && Do(s, a).txs[id] == s.txs[id]
  {
  }

  lemma {:induction false} DoneStays(s: Sys, acts: seq<Action>, i: nat, id: nat)
    requires i <= |acts| && id in Run(s, acts[..i]).txs && Run(s, acts[..i]).txs[id].stage.Done?
    ensures id in Run(s, acts).txs && Run(s, acts).txs[id] == Run(s, acts[..i]).txs[id]
    decreases |acts|
  {
    hide Do;
    if i == |acts| {
      assert acts[..i] == acts;
    } else {
      var init := acts[..|acts| - 1];
      assert init[..i] == acts[..i];
      DoneStays(s, init, i, id);
      DoneIsFinal(Run(s, init), acts[|acts| - 1], id);
    }
  }

  /** No statement of a transaction that ends in failure ever reaches the tables. */
  lemma FailureWritesNothing(s: Sys, acts: seq<Action>, id: nat, i: nat)
    requires i < |acts| && acts[i] == Advance(id)
    requires id in Run(s, acts).txs && Run(s, acts).txs[id].stage.Done?
    requires Run(s, acts).txs[id].stage != Done(Success)
    ensures WriteOf(Run(s, acts[..i]), acts[i]) == []
    ensures Do(Run(s, acts[..i]), acts[i]).db == Run(s, acts[..i]).db
  {
    var before := Run(s, acts[..i]);
    assert acts[..i + 1][..i] == acts[..i];
    if id in before.txs && ReadyToCommit(before.txs[id]) {
      DoneStays(s, acts, i + 1, id);
    }
  }

  // ---------------------------------------------------------------------
  // Enrollment can succeed
  // ---------------------------------------------------------------------

  /** A run of the enrollment system, one action longer. */
  lemma RunAppend(s: Sys, acts: seq<Action>, a: Action)
    ensures Run(s, acts + [a]) == Do(Run(s, acts), a)
  {
    assert (acts + [a])[..|acts|] == acts;
  }

  /** Extends a run of the enrollment system by an action with a known effect. */
  lemma Then(s: Sys, acts: seq<Action>, a: Action, expected: Sys) returns (longer: seq<Action>)
    requires Do(Run(s, acts), a) == expected
    ensures Run(s, longer) == expected
  {
    longer := acts + [a];
    RunAppend(s, acts, a);
  }

  /** The empty run of the enrollment system. */
  lemma RunNothing(s: Sys)
    ensures Run(s, []) == s
  {
  }

  /** A system whose only transaction is `tx`. */
  function Solo(owner: UserId, clock: int, db: Db, tx: Tx): Sys {
    Sys(owner, db, clock, map[0 := tx], map[])
  }

  lemma NothingLocked(owner: UserId, clock: int, db: Db, tx: Tx)
    ensures forall h :: !TokenLocked(Solo(owner, clock, db, tx), 0, h)
    ensures forall n :: !NodeLocked(Solo(owner, clock, db, tx), 0, n)
    ensures forall k :: !KeyPending(Solo(owner, clock, db, tx), 0, k)
  {
  }

  /** One statement of the only transaction. */
  lemma Proceed(s: Sys, acts: seq<Action>, owner: UserId, clock: int, db: Db, tx: Tx, next: Tx)
    returns (longer: seq<Action>)
    requires Run(s, acts) == Solo(owner, clock, db, tx) && !tx.stage.Done? && !ReadyToCommit(tx)
    requires NextTx(Solo(owner, clock, db, tx), 0, tx) == next
    ensures Run(s, longer) == Solo(owner, clock, db, next)
  {
    hide Run, NextTx, ReadyToCommit;
    longer := Then(s, acts, Advance(0), Solo(owner, clock, db, next));
  }

  /** One code is issued, and a redemption of it begins. */
  lemma RedemptionCanBegin(owner: UserId, clock: int, r: Redemption) returns (acts: seq<Action>)
    requires r.publicKey != EmptyText
    ensures Run(Initial(owner, clock), acts) ==
            Solo(owner, clock, Db(map[r.hash := Token(owner, clock + 1, None, None)], map[], map[]),
                 Tx(RedeemRequest(r), clock, Begun, owner, None, false, None))
  {
    hide Run;
    var s := Initial(owner, clock);
    RunNothing(s);
    assert Active(EMPTY_DB, owner, clock) == {};
    acts := Then(s, [], CountCodes(0, owner), s.(issuing := map[0 := owner]));
    var db := Db(map[r.hash := Token(owner, clock + 1, None, None)], map[], map[]);
    acts := Then(s, acts, InsertCode(0, r.hash, clock + 1), s.(db := db));
    var tx := Tx(RedeemRequest(r), clock, Begun, owner, None, false, None);
    acts := Then(s, acts, Begin(0, tx.req), Solo(owner, clock, db, tx));
  }

  /** Some run issues a code, redeems it and so pins any given key on any given new node. */
  lemma KeyCanBePinned(owner: UserId, clock: int, n: NodeKey, k: PublicKey) returns (acts: seq<Action>)
    requires k != EmptyText
    ensures var db := Run(Initial(owner, clock), acts).db;
            n in db.nodes && db.nodes[n].publicKey == Some(k)
  {
    hide Run, TokenLocked, NodeLocked, KeyPending;
    var s, r := Initial(owner, clock), Redemption("code", n, k, "1.0");
    acts := RedemptionCanBegin(owner, clock, r);
    var db := Db(map["code" := Token(owner, clock + 1, None, None)], map[], map[]);
    var tx0 := Tx(RedeemRequest(r), clock, Begun, owner, None, false, None);
    var tx1 := tx0.(stage := TokenHeld);
    NothingLocked(owner, clock, db, tx0);
    acts := Proceed(s, acts, owner, clock, db, tx0, tx1);
    var tx2 := tx1.(stage := NodeMissing);
    acts := Proceed(s, acts, owner, clock, db, tx1, tx2);
    var tx3 := tx2.(stage := NodeWritten, row := Some(Node(owner, "1.0", Some(k))), inserted := true);
    NothingLocked(owner, clock, db, tx2);
    acts := Proceed(s, acts, owner, clock, db, tx2, tx3);
    acts := WrittenCanCommit(s, acts, owner, clock, db, tx3);
  }

  lemma WrittenCanCommit(s: Sys, acts: seq<Action>, owner: UserId, clock: int, db: Db, tx: Tx)
    returns (longer: seq<Action>)
    requires Run(s, acts) == Solo(owner, clock, db, tx)
    requires tx.req.RedeemRequest? && tx.stage == NodeWritten && tx.row.Some?
    requires tx.req.r.hash in db.tokens && db.tokens[tx.req.r.hash].consumedAt.None?
    ensures NodeOf(tx.req) in Run(s, longer).db.nodes && Run(s, longer).db.nodes[NodeOf(tx.req)] == tx.row.value
  {
    hide Run;
    var tx4 := EnsureStatus(Solo(owner, clock, db, tx), tx);
    longer := Proceed(s, acts, owner, clock, db, tx, tx4);
    var tx5 := tx4.(stage := TokenConsumed);
    longer := Proceed(s, longer, owner, clock, db, tx4, tx5);
    longer := Then(s, longer, Advance(0), Solo(owner, clock, Commit(db, tx5), tx5.(stage := Done(Success))));
  }
}
