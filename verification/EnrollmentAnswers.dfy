/**
 What enrollment answers: the exact outcome and effect of every request, alone and among
 concurrent transactions. A failure is always true of the tables, a wait is always for
 another open transaction, and a request that runs alone gets its serial answer.
 */
module EnrollmentAnswers {
  import opened Prelude
  import opened Enrollment
  import opened EnrollmentTransactions

  // ---------------------------------------------------------------------
  // One request at a time
  // ---------------------------------------------------------------------

  /** An unconsumed code that has not expired. */
  predicate Live(db: Db, h: TokenHash, now: int) {
    h in db.tokens && db.tokens[h].consumedAt == None && now < db.tokens[h].expiresAt
  }

  predicate ForeignNode(db: Db, n: NodeKey, user: UserId) {
    n in db.nodes && db.nodes[n].user != user
  }

  /** Another key is pinned on the node, or the key is pinned on another node. */
  predicate KeyInTheWay(db: Db, n: NodeKey, k: PublicKey) {
    || (n in db.nodes && db.nodes[n].publicKey.Some? && db.nodes[n].publicKey.value != k)
    || (exists m :: m in db.nodes && m != n && db.nodes[m].publicKey == Some(k))
  }

  /** The outcome of a redemption, fault by fault; the first fault decides. */
  lemma RedeemAnswer(db: Db, r: Redemption, now: int)
    requires Inv(db)
    ensures RedeemOutcome(db, r, now) ==
            if !Live(db, r.hash, now) then InvalidCode
            else if ForeignNode(db, r.nodeKey, db.tokens[r.hash].user) then OwnershipError
            else if KeyInTheWay(db, r.nodeKey, r.publicKey) then IdentityConflict
            else Success
  {
    if r.nodeKey in db.nodes && db.nodes[r.nodeKey].publicKey == Some(r.publicKey) {
      assert !KeyInTheWay(db, r.nodeKey, r.publicKey);
    }
  }

  /** What a successful redemption writes, and that it writes nothing else. */
  lemma RedeemWrites(db: Db, r: Redemption, now: int)
    requires Inv(db) && RedeemOutcome(db, r, now) == Success
    ensures var db', n := Redeem(db, r, now), r.nodeKey;
            var code := db.tokens[r.hash];
            && db'.tokens == db.tokens[r.hash := Token(code.user, code.expiresAt, Some(now), Some(n))]
            && db'.nodes == db.nodes[n := Node(code.user, r.version, Some(r.publicKey))]
            && db'.statuses == (if n in db.nodes then db.statuses
                                else db.statuses[n := NodeStatus(Enrolled, "available", now, None)])
  {
    RedeemAnswer(db, r, now);
  }

  /** Legacy enrollment: a foreign node is left alone; otherwise the version is written and any key kept. */
  lemma EnrollWrites(db: Db, owner: UserId, n: NodeKey, version: Text, now: int)
    requires Inv(db)
    ensures Enroll(db, owner, n, version, now) ==
            if n !in db.nodes then
              Db(db.tokens, db.nodes[n := Node(owner, version, None)],
                 db.statuses[n := NodeStatus(Enrolled, "available", now, None)])
            else if db.nodes[n].user != owner then db
            else db.(nodes := db.nodes[n := Node(owner, version, db.nodes[n].publicKey)])
  {
    if n in db.nodes && db.nodes[n].user == owner {
      assert Enroll(db, owner, n, version, now).statuses == db.statuses;
    }
  }

  /** A heartbeat puts an owned node online with the reported mode; no other row changes. */
  lemma BeatWrites(db: Db, owner: UserId, n: NodeKey, mode: Text, now: int)
    requires Inv(db)
    ensures Beat(db, owner, n, mode, now) ==
            if n in db.nodes && db.nodes[n].user == owner
            then db.(statuses := db.statuses[n := NodeStatus(Online, mode, now, Some(now))]) else db
  {
  }

  // ---------------------------------------------------------------------
  // Among other transactions
  // ---------------------------------------------------------------------

  /** The system with transaction `id` in state `tx`. */
  function With(s: Sys, id: nat, tx: Tx): Sys {
    s.(txs := s.txs[id := tx])
  }

  /** What actions other than statements of a transaction do. */
  lemma ActionAnswer(s: Sys, a: Action)
    ensures a.Begin? ==>
            Do(s, a) == if a.id in s.txs || (a.req.RedeemRequest? && a.req.r.publicKey == EmptyText) then s
                        else With(s, a.id, Tx(a.req, s.clock, Begun, s.owner, None, false, None))
    ensures a.Abort? && a.id in s.txs && !s.txs[a.id].stage.Done? ==>
            Do(s, a) == With(s, a.id, s.txs[a.id].(stage := Done(Cancelled)))
    ensures a.Tick? ==> Do(s, a) == if a.to >= s.clock then s.(clock := a.to) else s
    ensures (a.Abort? || a.Advance?) && (a.id !in s.txs || s.txs[a.id].stage.Done?) ==> Do(s, a) == s
    ensures a.BeatOnce? ==> Do(s, a) == s.(db := Beat(s.db, s.owner, a.node, a.mode, s.clock))
    ensures a.CountCodes? && a.id !in s.issuing ==>
            Do(s, a) == if |set h | h in s.db.tokens && s.db.tokens[h].user == a.user && Live(s.db, h, s.clock)| < 5
                        then s.(issuing := s.issuing[a.id := a.user]) else s
    ensures a.InsertCode? && a.id in s.issuing && a.hash !in s.db.tokens ==>
            var code := Token(s.issuing[a.id], a.expiresAt, None, None);
            Do(s, a) == s.(issuing := s.issuing - {a.id}, db := s.db.(tokens := s.db.tokens[a.hash := code]))
    ensures a.InsertCode? && a.id in s.issuing && a.hash in s.db.tokens ==>
            Do(s, a) == s.(issuing := s.issuing - {a.id})
    ensures a.InsertCode? && a.id !in s.issuing ==> Do(s, a) == s
    ensures a.DropIssue? ==> Do(s, a) == s.(issuing := s.issuing - {a.id})
  {
    if a.CountCodes? {
      assert Active(s.db, a.user, s.clock)
          == set h | h in s.db.tokens && s.db.tokens[h].user == a.user && Live(s.db, h, s.clock);
    }
  }

  predicate Open(tx: Tx) {
    !tx.stage.Done?
  }

  /**
   A failure is true of the committed tables when it is reported: the code is not live, the node
   is another user's, or a key is in the way. The one other conflict is a node row committed
   between the SELECT that missed it and the INSERT.
   */
  ghost predicate FailureIsTrue(s: Sys, tx: Tx, o: Outcome) {
    match o
    case InvalidCode => tx.req.RedeemRequest? && !Live(s.db, tx.req.r.hash, tx.now)
    case OwnershipError =>
      && ForeignNode(s.db, NodeOf(tx.req), tx.user)
      && (tx.req.RedeemRequest? ==>
            tx.req.r.hash in s.db.tokens && tx.user == s.db.tokens[tx.req.r.hash].user)
      && (tx.req.EnrollRequest? ==> tx.user == s.owner)
    case IdentityConflict =>
      && tx.req.RedeemRequest?
      && (KeyInTheWay(s.db, tx.req.r.nodeKey, tx.req.r.publicKey)
          || (tx.stage == NodeMissing && tx.req.r.nodeKey in s.db.nodes))
    case _ => false
  }

  /** No statement fails a transaction without a reason. */
  lemma FailuresAreTrue(s: Sys, id: nat)
    requires SysInv(s) && id in s.txs && Open(s.txs[id]) && !ReadyToCommit(s.txs[id])
    ensures NextTx(s, id, s.txs[id]).stage.Done? ==>
            FailureIsTrue(s, s.txs[id], NextTx(s, id, s.txs[id]).stage.outcome)
  {
    assert TxInv(s, s.txs[id]);
  }

  /** Over every run: whenever a statement fails a transaction, the reason is there at that moment. */
  lemma ReachableFailuresAreTrue(owner: UserId, clock: int, acts: seq<Action>, id: nat)
    ensures var s := Run(Initial(owner, clock), acts);
            id in s.txs && Open(s.txs[id]) ==>
              var s' := Do(s, Advance(id));
              id in s'.txs && (s'.txs[id].stage.Done? ==>
                s'.txs[id].stage == Done(Success) || FailureIsTrue(s, s.txs[id], s'.txs[id].stage.outcome))
  {
    hide NextTx, FailureIsTrue, Run;
    RunKeepsInv(Initial(owner, clock), acts);
    var s := Run(Initial(owner, clock), acts);
    if id in s.txs && Open(s.txs[id]) && !ReadyToCommit(s.txs[id]) { FailuresAreTrue(s, id); }
  }

  /** Transaction `j` holds the code, the node or the key that `tx` needs next. */
  ghost predicate StandsInTheWay(s: Sys, j: nat, tx: Tx) {
    && j in s.txs && Open(s.txs[j])
    && (|| NodeOf(s.txs[j].req) == NodeOf(tx.req)
        || (tx.req.RedeemRequest? && s.txs[j].req.RedeemRequest? && s.txs[j].req.r.hash == tx.req.r.hash)
        || (tx.req.RedeemRequest? && s.txs[j].row.Some?
            && s.txs[j].row.value.publicKey == Some(tx.req.r.publicKey)))
  }

  /** Only a lock or a pending key makes a statement wait. */
  lemma WaitsForALock(s: Sys, id: nat)
    requires SysInv(s) && id in s.txs && Open(s.txs[id]) && NextTx(s, id, s.txs[id]) == s.txs[id]
    requires !ReadyToCommit(s.txs[id])
    ensures var tx := s.txs[id];
            || NodeLocked(s, id, NodeOf(tx.req))
            || (tx.req.RedeemRequest?
                && (TokenLocked(s, id, tx.req.r.hash) || KeyPending(s, id, tx.req.r.publicKey)))
  {
    hide TokenLocked, NodeLocked, KeyPending;
    assert TxInv(s, s.txs[id]);
  }

  /** A statement waits only for another open transaction on the same code, node or key. */
  lemma WaitsAreForOthers(s: Sys, id: nat)
    requires SysInv(s) && id in s.txs && Open(s.txs[id]) && NextTx(s, id, s.txs[id]) == s.txs[id]
    requires !ReadyToCommit(s.txs[id])
    ensures exists j :: j != id && StandsInTheWay(s, j, s.txs[id])
  {
    var tx := s.txs[id];
    WaitsForALock(s, id);
    hide SysInv, NextTx;
    if NodeLocked(s, id, NodeOf(tx.req)) {
      var j :| j in s.txs && j != id && HoldsNode(s.txs[j]) && NodeOf(s.txs[j].req) == NodeOf(tx.req);
      assert StandsInTheWay(s, j, tx);
    } else if TokenLocked(s, id, tx.req.r.hash) {
      var j :| j in s.txs && j != id && HoldsToken(s.txs[j]) && s.txs[j].req.r.hash == tx.req.r.hash;
      assert StandsInTheWay(s, j, tx);
    } else {
      var j :| j in s.txs && j != id && ClaimsKey(s.txs[j], tx.req.r.publicKey);
      assert StandsInTheWay(s, j, tx);
    }
  }

  // ---------------------------------------------------------------------
  // Alone
  // ---------------------------------------------------------------------

  /** No other transaction is open. */
  ghost predicate Alone(s: Sys, id: nat) {
    SysInv(s) && id in s.txs && forall j :: j in s.txs && j != id ==> s.txs[j].stage.Done?
  }

  lemma NothingLockedAlone(s: Sys, id: nat)
    requires Alone(s, id)
    ensures forall h :: !TokenLocked(s, id, h)
    ensures forall n :: !NodeLocked(s, id, n)
    ensures forall k :: !KeyPending(s, id, k)
  {
  }

  /** One statement of a transaction that is alone leaves it alone, and leaves the tables. */
  lemma StepAlone(s: Sys, id: nat)
    requires Alone(s, id) && Open(s.txs[id]) && !ReadyToCommit(s.txs[id])
    ensures var s' := Do(s, Advance(id));
            && Alone(s', id) && s' == With(s, id, NextTx(s, id, s.txs[id]))
  {
    hide SysInv, NextTx;
    DoKeepsInv(s, Advance(id));
  }

  /** The state of transaction `id` and the tables after `n` more statements. */
  function After(s: Sys, id: nat, n: nat): Sys {
    if n == 0 then s else Do(After(s, id, n - 1), Advance(id))
  }

  lemma DoneStaysDone(s: Sys, id: nat)
    requires id in s.txs && s.txs[id].stage.Done?
    ensures Do(s, Advance(id)) == s
  {
  }

  lemma {:induction false} DoneForGood(s: Sys, id: nat, n: nat, m: nat)
    requires n <= m && id in After(s, id, n).txs && After(s, id, n).txs[id].stage.Done?
    ensures After(s, id, m) == After(s, id, n)
  {
    hide Do;
    if n < m {
      DoneForGood(s, id, n, m - 1);
      DoneStaysDone(After(s, id, n), id);
    }
  }

  /** Once its node is written, a transaction that is alone commits, with its serial effect. */
  lemma WrittenCommitsAlone(s: Sys, id: nat)
    requires Alone(s, id) && s.txs[id].stage == NodeWritten
    ensures var req, now := s.txs[id].req, s.txs[id].now;
            var t := After(s, id, if req.RedeemRequest? then 3 else 2);
            && id in t.txs && t.txs[id].stage == Done(Success)
            && (req.RedeemRequest? ==>
                  RedeemOutcome(s.db, req.r, now) == Success && t.db == Redeem(s.db, req.r, now))
            && (req.EnrollRequest? ==> t.db == Enroll(s.db, s.owner, req.node, req.version, now))
  {
    hide Alone, SysInv, Redeem, Enroll, RedeemOutcome, Commit;
    var s1 := StepTo(s, id);
    assert s1.txs[id].stage == StatusWritten;
    assert After(s, id, 1) == s1;
    if s.txs[id].req.RedeemRequest? {
      ConsumesAlone(s1, id);
      var s2 := StepTo(s1, id);
      CommitsAlone(s2, id);
      assert After(s, id, 2) == s2;
    } else {
      CommitsAlone(s1, id);
    }
  }

  lemma StepTo(s: Sys, id: nat) returns (s': Sys)
    requires Alone(s, id) && s.txs[id].stage in {NodeWritten, StatusWritten} && !ReadyToCommit(s.txs[id])
    ensures s' == Do(s, Advance(id)) && Alone(s', id) && s' == With(s, id, NextTx(s, id, s.txs[id]))
    ensures s.txs[id].row.Some?
  {
    s' := Do(s, Advance(id));
    StepAlone(s, id);
    assert TxInv(s, s.txs[id]);
  }

  lemma ConsumesAlone(s: Sys, id: nat)
    requires Alone(s, id) && s.txs[id].req.RedeemRequest? && s.txs[id].stage == StatusWritten
    ensures NextTx(s, id, s.txs[id]).stage == TokenConsumed && !ReadyToCommit(s.txs[id])
  {
    assert TxInv(s, s.txs[id]);
  }

  lemma CommitsAlone(s: Sys, id: nat)
    requires Alone(s, id) && ReadyToCommit(s.txs[id])
    ensures var req, now := s.txs[id].req, s.txs[id].now;
            var t := Do(s, Advance(id));
            && id in t.txs && t.txs[id].stage == Done(Success)
            && (req.RedeemRequest? ==>
                  RedeemOutcome(s.db, req.r, now) == Success && t.db == Redeem(s.db, req.r, now))
            && (req.EnrollRequest? ==> t.db == Enroll(s.db, s.owner, req.node, req.version, now))
  {
    CommitIsSerial(s, id);
  }

  /** What a request is answered when nothing else runs. */
  function SerialOutcome(db: Db, owner: UserId, req: Request, now: int): Outcome {
    match req
    case RedeemRequest(r) => RedeemOutcome(db, r, now)
    case EnrollRequest(n, _) => if ForeignNode(db, n, owner) then OwnershipError else Success
  }

  function SerialEffect(db: Db, owner: UserId, req: Request, now: int): Db {
    match req
    case RedeemRequest(r) => Redeem(db, r, now)
    case EnrollRequest(n, version) => Enroll(db, owner, n, version, now)
  }

  /** Within `n` statements the transaction ends with its serial outcome and effect. */
  ghost predicate Answered(s: Sys, id: nat, n: nat)
    requires id in s.txs
  {
    var tx, t := s.txs[id], After(s, id, n);
    && id in t.txs && t.txs[id].stage == Done(SerialOutcome(s.db, s.owner, tx.req, tx.now))
    && t.db == SerialEffect(s.db, s.owner, tx.req, tx.now)
  }

  lemma {:induction false} AfterShift(s: Sys, id: nat, n: nat)
    ensures After(s, id, n + 1) == After(Do(s, Advance(id)), id, n)
  {
    hide Do;
    if n == 0 {
      assert After(s, id, 0) == s;
    } else {
      AfterShift(s, id, n - 1);
    }
  }

  /** If the next statement fails rightly, or leads to a state that will be answered, so will this one. */
  lemma AnsweredNext(s: Sys, id: nat, n: nat)
    requires Alone(s, id) && Open(s.txs[id]) && !ReadyToCommit(s.txs[id])
    requires var tx, tx' := s.txs[id], NextTx(s, id, s.txs[id]);
             || (tx'.stage == Done(SerialOutcome(s.db, s.owner, tx.req, tx.now)) && tx'.stage.outcome != Success)
             || (tx'.req == tx.req && tx'.now == tx.now && Answered(With(s, id, tx'), id, n))
    ensures Answered(s, id, n + 1)
  {
    hide SysInv, NextTx, Redeem, Enroll, Do;
    StepAlone(s, id);
    AfterShift(s, id, n);
    var s' := Do(s, Advance(id));
    if s'.txs[id].stage.Done? {
      DoneForGood(s', id, 0, n);
      FailureHasNoEffect(s.db, s.owner, s.txs[id].req, s.txs[id].now);
    }
  }

  lemma FailureHasNoEffect(db: Db, owner: UserId, req: Request, now: int)
    ensures SerialOutcome(db, owner, req, now) != Success ==> SerialEffect(db, owner, req, now) == db
  {
  }

  lemma WrittenIsAnswered(s: Sys, id: nat)
    requires Alone(s, id) && s.txs[id].stage == NodeWritten
    ensures Answered(s, id, if s.txs[id].req.RedeemRequest? then 3 else 2)
  {
    hide SysInv, Redeem, Enroll, RedeemOutcome, After;
    WrittenCommitsAlone(s, id);
    if s.txs[id].req.EnrollRequest? { WrittenIsOwn(s, id); }
  }

  lemma WrittenIsOwn(s: Sys, id: nat)
    requires Alone(s, id) && s.txs[id].stage == NodeWritten && s.txs[id].req.EnrollRequest?
    ensures !ForeignNode(s.db, s.txs[id].req.node, s.owner)
  {
    assert TxInv(s, s.txs[id]);
  }

  lemma NodeStageIsAnswered(s: Sys, id: nat)
    requires Alone(s, id) && (s.txs[id].stage == NodeHeld || s.txs[id].stage == NodeMissing)
    requires s.txs[id].stage == NodeMissing ==> s.txs[id].req.RedeemRequest? && NodeOf(s.txs[id].req) !in s.db.nodes
    ensures Answered(s, id, if s.txs[id].req.RedeemRequest? then 4 else 3)
  {
    hide After;
    var tx := s.txs[id];
    var tx' := NextTx(s, id, tx);
    NodeStageStep(s, id);
    StepAlone(s, id);
    hide Redeem, Enroll, RedeemOutcome, NextTx, SysInv, Alone;
    if tx'.stage == NodeWritten { WrittenIsAnswered(With(s, id, tx'), id); }
    AnsweredNext(s, id, if tx.req.RedeemRequest? then 3 else 2);
  }

  lemma NodeStageStep(s: Sys, id: nat)
    requires Alone(s, id) && (s.txs[id].stage == NodeHeld || s.txs[id].stage == NodeMissing)
    requires s.txs[id].stage == NodeMissing ==> s.txs[id].req.RedeemRequest? && NodeOf(s.txs[id].req) !in s.db.nodes
    ensures var tx, tx' := s.txs[id], NextTx(s, id, s.txs[id]);
            && tx'.req == tx.req && tx'.now == tx.now
            && (tx'.stage == NodeWritten
                || tx'.stage == Done(IdentityConflict) == Done(SerialOutcome(s.db, s.owner, tx.req, tx.now)))
  {
    hide TokenLocked, NodeLocked, KeyPending;
    NothingLockedAlone(s, id);
    assert TxInv(s, s.txs[id]);
  }

  lemma TokenHeldIsAnswered(s: Sys, id: nat)
    requires Alone(s, id) && s.txs[id].stage == TokenHeld
    ensures Answered(s, id, 5)
  {
    var tx := s.txs[id];
    var tx' := NextTx(s, id, tx);
    TokenHeldStep(s, id);
    StepAlone(s, id);
    hide After, Redeem, Enroll, RedeemOutcome, NextTx, SysInv, Alone;
    if !tx'.stage.Done? { NodeStageIsAnswered(With(s, id, tx'), id); }
    AnsweredNext(s, id, 4);
  }

  lemma TokenHeldStep(s: Sys, id: nat)
    requires Alone(s, id) && s.txs[id].stage == TokenHeld
    ensures var tx, tx' := s.txs[id], NextTx(s, id, s.txs[id]);
            && tx'.req == tx.req && tx'.now == tx.now && tx.req.RedeemRequest?
            && (|| tx'.stage == NodeHeld
                || (tx'.stage == NodeMissing && NodeOf(tx.req) !in s.db.nodes)
                || (tx'.stage == Done(SerialOutcome(s.db, s.owner, tx.req, tx.now))
                    && tx'.stage.outcome != Success))
  {
    hide TokenLocked, NodeLocked, KeyPending;
    NothingLockedAlone(s, id);
    assert TxInv(s, s.txs[id]);
  }

  lemma RowInsertedIsAnswered(s: Sys, id: nat)
    requires Alone(s, id) && s.txs[id].stage == RowInserted
    ensures Answered(s, id, 4)
  {
    var tx := s.txs[id];
    var tx' := NextTx(s, id, tx);
    RowInsertedStep(s, id);
    StepAlone(s, id);
    hide After, Redeem, Enroll, RedeemOutcome, NextTx, SysInv, Alone;
    if !tx'.stage.Done? { NodeStageIsAnswered(With(s, id, tx'), id); }
    AnsweredNext(s, id, 3);
  }

  lemma RowInsertedStep(s: Sys, id: nat)
    requires Alone(s, id) && s.txs[id].stage == RowInserted
    ensures var tx, tx' := s.txs[id], NextTx(s, id, s.txs[id]);
            && tx'.req == tx.req && tx'.now == tx.now && tx.req.EnrollRequest?
            && (|| tx'.stage == NodeHeld
                || (tx'.stage == Done(OwnershipError) && ForeignNode(s.db, tx.req.node, s.owner)))
  {
    hide TokenLocked, NodeLocked, KeyPending;
    NothingLockedAlone(s, id);
    assert TxInv(s, s.txs[id]);
  }

  /**
   Progress: a transaction that has begun and runs alone ends within six statements, with
   exactly the outcome and the tables of the request performed at once.
   */
  lemma RunsAlone(s: Sys, id: nat)
    requires Alone(s, id) && s.txs[id].stage == Begun
    ensures Answered(s, id, 6)
  {
    var tx := s.txs[id];
    var tx' := NextTx(s, id, tx);
    BegunStep(s, id);
    StepAlone(s, id);
    hide After, Redeem, Enroll, RedeemOutcome, NextTx, SysInv, Alone;
    if tx'.stage == TokenHeld { TokenHeldIsAnswered(With(s, id, tx'), id); }
    if tx'.stage == RowInserted {
      RowInsertedIsAnswered(With(s, id, tx'), id);
      AnsweredLater(With(s, id, tx'), id, 4, 5);
    }
    AnsweredNext(s, id, 5);
  }

  lemma BegunStep(s: Sys, id: nat)
    requires Alone(s, id) && s.txs[id].stage == Begun
    ensures var tx, tx' := s.txs[id], NextTx(s, id, s.txs[id]);
            && tx'.req == tx.req && tx'.now == tx.now
            && (|| tx'.stage == TokenHeld
                || tx'.stage == RowInserted
                || (tx'.stage == Done(InvalidCode) == Done(SerialOutcome(s.db, s.owner, tx.req, tx.now))))
  {
    hide TokenLocked, NodeLocked, KeyPending;
    NothingLockedAlone(s, id);
  }

  lemma AnsweredLater(s: Sys, id: nat, n: nat, m: nat)
    requires id in s.txs && n <= m && Answered(s, id, n)
    ensures Answered(s, id, m)
  {
    hide After, Redeem, Enroll, RedeemOutcome;
    DoneForGood(s, id, n, m);
  }
}
