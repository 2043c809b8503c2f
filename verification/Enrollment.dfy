/**
 Enrollment codes, node rows and node status rows, one transaction at a time.

 A node row is named by its `node_key` and a token row by its `token_hash`: both are
 unique and, by the identity trigger of migration 2, never change.
 */
module Enrollment {
  import opened Prelude

  type UserId = nat

  type Text = string
  type TokenHash = Text
  type NodeKey = Text

  type SolidText = t: Text | t != "" witness "k"

  /** The one public key text that the code treats specially is the empty one. */
  datatype PublicKey = EmptyText | KeyText(text: SolidText)

  /** A stored key that neither is empty nor equals the submitted one. */
  predicate Conflicting(stored: Option<PublicKey>, k: PublicKey) {
    stored.Some? && stored.value != EmptyText && stored.value != k
  }

  datatype NodeState = Enrolled | Online

  datatype Token = Token(user: UserId, expiresAt: int, consumedAt: Option<int>, consumedNode: Option<NodeKey>)

  datatype Node = Node(user: UserId, agentVersion: Text, publicKey: Option<PublicKey>)

  datatype NodeStatus = NodeStatus(state: NodeState, mode: Text, observedAt: int, lastHeartbeat: Option<int>)

  datatype Db = Db(tokens: map<TokenHash, Token>, nodes: map<NodeKey, Node>, statuses: map<NodeKey, NodeStatus>)

  const EMPTY_DB := Db(map[], map[], map[])

  /** A secure enrollment request that passed the handler's checks; the key is then never empty. */
  datatype Redemption = Redemption(hash: TokenHash, nodeKey: NodeKey, publicKey: PublicKey, version: Text)

  datatype Outcome = Success | InvalidCode | OwnershipError | IdentityConflict | Cancelled

  const MAX_ACTIVE_CODES := 5

  predicate Redeemable(db: Db, h: TokenHash, now: int) {
    h in db.tokens && db.tokens[h].consumedAt.None? && db.tokens[h].expiresAt > now
  }

  /** The partial unique index on identity_public_key, seen by a write to node `n`. */
  predicate KeyTaken(db: Db, k: PublicKey, n: NodeKey) {
    exists m :: m in db.nodes && m != n && db.nodes[m].publicKey == Some(k)
  }

  /** COALESCE(identity_public_key, $3). */
  function Coalesce(stored: Option<PublicKey>, k: PublicKey): Option<PublicKey> {
    if stored.Some? then stored else Some(k)
  }

  /** The default of the `mode` column. */
  const AVAILABLE: Text := "available"

  function FreshStatus(now: int): NodeStatus {
    NodeStatus(Enrolled, AVAILABLE, now, None)
  }

  /** INSERT INTO node_status ... ON CONFLICT DO NOTHING. */
  function WithStatus(db: Db, n: NodeKey, now: int): map<NodeKey, NodeStatus> {
    if n in db.statuses then db.statuses else db.statuses[n := FreshStatus(now)]
  }

  // ---------------------------------------------------------------------
  // What one redemption does when it runs alone
  // ---------------------------------------------------------------------

  function RedeemOutcome(db: Db, r: Redemption, now: int): Outcome {
    if !Redeemable(db, r.hash, now) then InvalidCode
    else if r.nodeKey !in db.nodes then
      if KeyTaken(db, r.publicKey, r.nodeKey) then IdentityConflict else Success
    else
      var row := db.nodes[r.nodeKey];
      if row.user != db.tokens[r.hash].user then OwnershipError
      else if Conflicting(row.publicKey, r.publicKey) then IdentityConflict
      else if row.publicKey.None? && KeyTaken(db, r.publicKey, r.nodeKey) then IdentityConflict
      else Success
  }

  /** The node row a redemption leaves behind for the token's user. */
  function RedeemedRow(db: Db, r: Redemption, user: UserId): Node {
    if r.nodeKey in db.nodes then
      db.nodes[r.nodeKey].(agentVersion := r.version,
                           publicKey := Coalesce(db.nodes[r.nodeKey].publicKey, r.publicKey))
    else Node(user, r.version, Some(r.publicKey))
  }

  function Redeem(db: Db, r: Redemption, now: int): Db {
    if RedeemOutcome(db, r, now) != Success then db
    else
      var token := db.tokens[r.hash];
      Db(db.tokens[r.hash := token.(consumedAt := Some(now), consumedNode := Some(r.nodeKey))],
         db.nodes[r.nodeKey := RedeemedRow(db, r, token.user)],
         WithStatus(db, r.nodeKey, now))
  }

  // ---------------------------------------------------------------------
  // The legacy enroll path and the heartbeat
  // ---------------------------------------------------------------------

  function EnrolledRow(db: Db, owner: UserId, n: NodeKey, version: Text): Node {
    if n in db.nodes then db.nodes[n].(agentVersion := version) else Node(owner, version, None)
  }

  function Enroll(db: Db, owner: UserId, n: NodeKey, version: Text, now: int): Db {
    if n in db.nodes && db.nodes[n].user != owner then db
    else db.(nodes := db.nodes[n := EnrolledRow(db, owner, n, version)], statuses := WithStatus(db, n, now))
  }

  /** The heartbeat updates the status row that joins an owned node, if there is one. */
  function Beat(db: Db, owner: UserId, n: NodeKey, mode: Text, now: int): Db {
    if n in db.nodes && db.nodes[n].user == owner && n in db.statuses
    then db.(statuses := db.statuses[n := NodeStatus(Online, mode, now, Some(now))])
    else db
  }

  /** The nodes the inner join of NodesForUser lists. */
  function Listed(db: Db, u: UserId): set<NodeKey> {
    set n | n in db.nodes && n in db.statuses && db.nodes[n].user == u
  }

  // ---------------------------------------------------------------------
  // The invariant of the committed tables
  // ---------------------------------------------------------------------

  ghost predicate TokenSound(db: Db, h: TokenHash)
    requires h in db.tokens
  {
    var t := db.tokens[h];
    if t.consumedAt.None? then t.consumedNode.None?
    else
      && t.consumedAt.value < t.expiresAt
      && t.consumedNode.Some? && t.consumedNode.value in db.nodes
      && db.nodes[t.consumedNode.value].user == t.user
  }

  ghost predicate KeysDistinct(db: Db) {
    forall n, m :: n in db.nodes && m in db.nodes && n != m && db.nodes[n].publicKey.Some? ==>
      db.nodes[n].publicKey != db.nodes[m].publicKey
  }

  ghost predicate Inv(db: Db) {
    && (forall h :: h in db.tokens ==> TokenSound(db, h))
    && (forall n :: n in db.nodes ==> db.nodes[n].publicKey != Some(EmptyText) && n in db.statuses)
    && (forall n :: n in db.statuses ==> n in db.nodes)
    && KeysDistinct(db)
  }

  /** Nodes are never dropped, their owners never change, and a pinned key is never replaced. */
  ghost predicate KeepsIdentities(db: Db, db': Db) {
    forall n :: n in db.nodes ==>
      && n in db'.nodes && db'.nodes[n].user == db.nodes[n].user
      && (db.nodes[n].publicKey.Some? ==> db'.nodes[n].publicKey == db.nodes[n].publicKey)
  }

  lemma RedeemKeepsInv(db: Db, r: Redemption, now: int)
    requires Inv(db) && r.publicKey != EmptyText
    ensures Inv(Redeem(db, r, now)) && KeepsIdentities(db, Redeem(db, r, now))
  {
    var db' := Redeem(db, r, now);
    if db' != db {
      forall h | h in db'.tokens ensures TokenSound(db', h) {
        assert TokenSound(db, h);
      }
    }
  }

  /**
   A successful redemption consumes exactly one live code, binds it to a node of the code's
   owner, and leaves exactly the submitted key on that node although the update only
   coalesces; it succeeds exactly when the code is live and no identity stands in the way.
   */
  lemma RedeemSucceeds(db: Db, r: Redemption, now: int)
    requires Inv(db)
    ensures RedeemOutcome(db, r, now) == Success <==>
            && Redeemable(db, r.hash, now)
            && !KeyTaken(db, r.publicKey, r.nodeKey)
            && (r.nodeKey in db.nodes ==>
                  && db.nodes[r.nodeKey].user == db.tokens[r.hash].user
                  && (db.nodes[r.nodeKey].publicKey.None? || db.nodes[r.nodeKey].publicKey == Some(r.publicKey)))
    ensures RedeemOutcome(db, r, now) == Success ==>
            var db' := Redeem(db, r, now);
            && r.nodeKey in db'.nodes && r.nodeKey in db'.statuses
            && db'.nodes[r.nodeKey].publicKey == Some(r.publicKey)
            && db'.nodes[r.nodeKey].user == db.tokens[r.hash].user
            && !Redeemable(db', r.hash, now)
            && db'.tokens - {r.hash} == db.tokens - {r.hash} && db'.nodes - {r.nodeKey} == db.nodes - {r.nodeKey}
    ensures RedeemOutcome(db, r, now) != Success ==> Redeem(db, r, now) == db
  {
    if r.nodeKey in db.nodes && db.nodes[r.nodeKey].publicKey == Some(r.publicKey) {
      assert !KeyTaken(db, r.publicKey, r.nodeKey);
    }
  }

  lemma EnrollKeepsInv(db: Db, owner: UserId, n: NodeKey, version: Text, now: int)
    requires Inv(db)
    ensures Inv(Enroll(db, owner, n, version, now)) && KeepsIdentities(db, Enroll(db, owner, n, version, now))
  {
    var db' := Enroll(db, owner, n, version, now);
    forall h | h in db'.tokens ensures TokenSound(db', h) {
      assert TokenSound(db, h);
    }
  }

  lemma BeatKeepsInv(db: Db, owner: UserId, n: NodeKey, mode: Text, now: int)
    requires Inv(db)
    ensures Inv(Beat(db, owner, n, mode, now)) && KeepsIdentities(db, Beat(db, owner, n, mode, now))
  {
    var db' := Beat(db, owner, n, mode, now);
    forall h | h in db'.tokens ensures TokenSound(db', h) {
      assert TokenSound(db, h);
    }
  }

  /** The inner join hides none of a user's nodes. */
  lemma ListedIsEveryNode(db: Db, u: UserId)
    requires Inv(db)
    ensures Listed(db, u) == set n | n in db.nodes && db.nodes[n].user == u
  {
  }

  // ---------------------------------------------------------------------
  // The store as the Go code drives it
  // ---------------------------------------------------------------------

  /** The three tables; a transaction works on local copies and assigns them when it commits. */
  class Store {
    const owner: UserId
    var tokens: map<TokenHash, Token>
    var nodes: map<NodeKey, Node>
    var statuses: map<NodeKey, NodeStatus>

    function Contents(): Db
      reads this
    {
      Db(tokens, nodes, statuses)
    }

    ghost predicate Valid()
      reads this
    {
      Inv(Contents())
    }

    constructor (owner: UserId)
      ensures Valid() && Contents() == EMPTY_DB && this.owner == owner
    {
      this.owner := owner;
      tokens, nodes, statuses := map[], map[], map[];
    }

    method RedeemEnrollmentToken(r: Redemption, now: int) returns (outcome: Outcome)
      requires Valid() && r.publicKey != EmptyText
      modifies this
      ensures Valid()
      ensures Contents() == Redeem(old(Contents()), r, now)
      ensures outcome == RedeemOutcome(old(Contents()), r, now)
    {
      ghost var db := Contents();
      RedeemKeepsInv(db, r, now);
      if r.hash !in tokens || tokens[r.hash].consumedAt.Some? || tokens[r.hash].expiresAt <= now {
        return InvalidCode;
      }
      var token := tokens[r.hash];
      var txNodes, txStatuses := nodes, statuses;
      if r.nodeKey !in nodes {
        if KeyTaken(Contents(), r.publicKey, r.nodeKey) { return IdentityConflict; }
        txNodes := txNodes[r.nodeKey := Node(token.user, r.version, Some(r.publicKey))];
      } else {
        var existing := nodes[r.nodeKey];
        if existing.user != token.user { return OwnershipError; }
        if Conflicting(existing.publicKey, r.publicKey) { return IdentityConflict; }
        if existing.publicKey.None? && KeyTaken(Contents(), r.publicKey, r.nodeKey) { return IdentityConflict; }
        var key := if existing.publicKey.Some? then existing.publicKey else Some(r.publicKey);
        txNodes := txNodes[r.nodeKey := Node(existing.user, r.version, key)];
      }
      if r.nodeKey !in txStatuses {
        txStatuses := txStatuses[r.nodeKey := NodeStatus(Enrolled, AVAILABLE, now, None)];
      }
      var consumed := Token(token.user, token.expiresAt, Some(now), Some(r.nodeKey));
      tokens, nodes, statuses := tokens[r.hash := consumed], txNodes, txStatuses;
      return Success;
    }

    method EnrollNode(n: NodeKey, version: Text, now: int) returns (outcome: Outcome)
      requires Valid()
      modifies this
      ensures Valid()
      ensures Contents() == Enroll(old(Contents()), owner, n, version, now)
      ensures outcome == if n in old(nodes) && old(nodes)[n].user != owner then OwnershipError else Success
    {
      ghost var db := Contents();
      EnrollKeepsInv(db, owner, n, version, now);
      var txNodes, txStatuses := nodes, statuses;
      if n !in txNodes { txNodes := txNodes[n := Node(owner, version, None)]; }
      var row := txNodes[n];
      if row.user != owner { return OwnershipError; }
      txNodes := txNodes[n := row.(agentVersion := version)];
      if n !in txStatuses { txStatuses := txStatuses[n := NodeStatus(Enrolled, AVAILABLE, now, None)]; }
      assert txNodes == Enroll(db, owner, n, version, now).nodes;
      nodes, statuses := txNodes, txStatuses;
      return Success;
    }

    method Heartbeat(n: NodeKey, mode: Text, now: int) returns (found: bool)
      requires Valid()
      modifies this`statuses
      ensures Valid() && Contents() == Beat(old(Contents()), owner, n, mode, now)
      ensures found <==> n in nodes && nodes[n].user == owner
    {
      BeatKeepsInv(Contents(), owner, n, mode, now);
      found := n in nodes && nodes[n].user == owner && n in statuses;
      if found { statuses := statuses[n := NodeStatus(Online, mode, now, Some(now))]; }
    }
  }
}
