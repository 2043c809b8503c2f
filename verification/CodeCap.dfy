/**
 The cap on active enrollment codes. Issuing a code counts the live ones in one statement
 and inserts in another, so the cap depends on how many issuances overlap.
 */
module CodeCap {
  import opened Prelude
  import opened Enrollment
  import opened EnrollmentTransactions

  /** The issuances of user `u` that have counted and not yet inserted. */
  function Issuing(s: Sys, u: UserId): set<nat> {
    set i | i in s.issuing && s.issuing[i] == u
  }

  function Live(s: Sys, u: UserId): set<TokenHash> {
    Active(s.db, u, s.clock)
  }

  /** Only inserting a code can make a code live. */
  lemma LiveShrinks(s: Sys, a: Action, u: UserId)
    requires SysInv(s) && !a.InsertCode?
    ensures Live(Do(s, a), u) <= Live(s, u)
  {
    if a.Advance? && a.id in s.txs && ReadyToCommit(s.txs[a.id]) { assert TxInv(s, s.txs[a.id]); }
  }

  /** Inserting a code trades one issuance in flight for at most one live code. */
  lemma InsertKeepsSum(s: Sys, id: nat, h: TokenHash, expiresAt: int, u: UserId)
    requires id in s.issuing
    ensures var s' := InsertOne(s, id, h, expiresAt);
            |Live(s', u)| + |Issuing(s', u)| <= |Live(s, u)| + |Issuing(s, u)|
  {
    var s' := InsertOne(s, id, h, expiresAt);
    if s.issuing[id] == u {
      assert Issuing(s', u) == Issuing(s, u) - {id} && id in Issuing(s, u);
      SubsetSize(Live(s', u), Live(s, u) + {h});
    } else {
      assert Issuing(s', u) == Issuing(s, u);
      SubsetSize(Live(s', u), Live(s, u));
    }
  }

  lemma ActionKeepsCap(s: Sys, a: Action, u: UserId, k: nat)
    requires SysInv(s) && |Live(s, u)| + |Issuing(s, u)| <= MAX_ACTIVE_CODES - 1 + k
    requires |Issuing(Do(s, a), u)| <= k
    ensures |Live(Do(s, a), u)| + |Issuing(Do(s, a), u)| <= MAX_ACTIVE_CODES - 1 + k
  {
    if a.InsertCode? {
      if a.id in s.issuing { InsertKeepsSum(s, a.id, a.hash, a.expiresAt, u); }
    } else {
      LiveShrinks(s, a, u);
      SubsetSize(Live(Do(s, a), u), Live(s, u));
      if a.CountCodes? && a.user == u {
        assert Do(s, a) == s || |Live(s, u)| < MAX_ACTIVE_CODES;
      } else {
        SubsetSize(Issuing(Do(s, a), u), Issuing(s, u));
      }
    }
  }

  /** At most `k` issuances of user `u` are in flight at any point of the run. */
  ghost predicate InFlightAtMost(s: Sys, acts: seq<Action>, u: UserId, k: nat) {
    forall i :: 0 <= i <= |acts| ==> |Issuing(Run(s, acts[..i]), u)| <= k
  }

  /**
   The count and the insert are separate statements, so with `k` issuances in flight a user
   can reach 4 + k live codes but never more, whatever redemptions and expiries interleave;
   one issuance at a time gives the intended cap of five.
   */
  lemma {:induction false} LiveCodesBounded(owner: UserId, clock: int, acts: seq<Action>, u: UserId, k: nat)
    requires InFlightAtMost(Initial(owner, clock), acts, u, k)
    ensures var s := Run(Initial(owner, clock), acts);
            |Live(s, u)| + |Issuing(s, u)| <= 4 + k
  {
    var s0 := Initial(owner, clock);
    if acts != [] {
      var init := acts[..|acts| - 1];
      assert forall i :: 0 <= i <= |init| ==> init[..i] == acts[..i];
      LiveCodesBounded(owner, clock, init, u, k);
      RunKeepsInv(s0, init);
      assert acts[..|acts|] == acts;
      assert |Issuing(Run(s0, acts), u)| <= k;
      ActionKeepsCap(Run(s0, init), acts[|acts| - 1], u, k);
    }
  }

  // ---------------------------------------------------------------------
  // The bound is reached
  // ---------------------------------------------------------------------

  /** The i-th code hash of the schedule below. */
  function HashName(i: nat): TokenHash {
    seq(i, _ => 'c')
  }

  /** A schedule prefix after which issuances lo..hi of `u` are in flight and `live` codes are live. */
  ghost predicate Scheduled(acts: seq<Action>, u: UserId, k: nat, live: nat, lo: nat, hi: nat) {
    var s := Run(Initial(0, 0), acts);
    && InFlightAtMost(Initial(0, 0), acts, u, k)
    && s.clock == 0 && |Live(s, u)| == live && lo <= hi && |Issuing(s, u)| == hi - lo
    && (forall i :: i in s.issuing <==> lo <= i < hi)
    && (forall i :: i in s.issuing ==> s.issuing[i] == u)
    && (forall h :: h in s.db.tokens ==> |h| < lo)
  }

  lemma InFlightAppend(s: Sys, acts: seq<Action>, a: Action, u: UserId, k: nat)
    requires InFlightAtMost(s, acts, u, k) && |Issuing(Run(s, acts + [a]), u)| <= k
    ensures InFlightAtMost(s, acts + [a], u, k)
  {
    forall i | 0 <= i <= |acts + [a]| ensures |Issuing(Run(s, (acts + [a])[..i]), u)| <= k {
      if i <= |acts| {
        assert (acts + [a])[..i] == acts[..i];
      } else {
        assert (acts + [a])[..i] == acts + [a];
      }
    }
  }

  lemma ScheduleCount(acts: seq<Action>, u: UserId, k: nat, live: nat, lo: nat, hi: nat) returns (acts': seq<Action>)
    requires Scheduled(acts, u, k, live, lo, hi) && live < MAX_ACTIVE_CODES && hi - lo < k
    ensures Scheduled(acts', u, k, live, lo, hi + 1)
  {
    hide Run, InFlightAtMost, NextTx, Commit, InsertOne, Beat, ReadyToCommit;
    acts' := acts + [CountCodes(hi, u)];
    var s, s' := Run(Initial(0, 0), acts), Run(Initial(0, 0), acts');
    RunAppend(Initial(0, 0), acts, CountCodes(hi, u));
    assert Issuing(s', u) == Issuing(s, u) + {hi} && hi !in Issuing(s, u);
    InFlightAppend(Initial(0, 0), acts, CountCodes(hi, u), u, k);
  }

  lemma ScheduleInsert(acts: seq<Action>, u: UserId, k: nat, live: nat, lo: nat, hi: nat) returns (acts': seq<Action>)
    requires Scheduled(acts, u, k, live, lo, hi) && lo < hi
    ensures Scheduled(acts', u, k, live + 1, lo + 1, hi)
  {
    var a := InsertCode(lo, HashName(lo), 1);
    acts' := acts + [a];
    var s, s' := Run(Initial(0, 0), acts), Run(Initial(0, 0), acts');
    RunAppend(Initial(0, 0), acts, a);
    assert HashName(lo) !in s.db.tokens;
    assert Live(s', u) == Live(s, u) + {HashName(lo)};
    assert Issuing(s', u) == Issuing(s, u) - {lo} && lo in Issuing(s, u);
    assert |Issuing(s, u)| <= k by { assert acts[..|acts|] == acts; }
    InFlightAppend(Initial(0, 0), acts, a, u, k);
  }

  /** For every k > 0 some run with at most k issuances in flight does reach 4 + k live codes. */
  lemma BoundIsReached(u: UserId, k: nat) returns (acts: seq<Action>)
    requires k > 0
    ensures InFlightAtMost(Initial(0, 0), acts, u, k)
    ensures |Live(Run(Initial(0, 0), acts), u)| == 4 + k
  {
    acts := [];
    var n := 0;
    while n < MAX_ACTIVE_CODES - 1
      invariant 0 <= n <= MAX_ACTIVE_CODES - 1 && Scheduled(acts, u, k, n, n, n)
    {
      acts := ScheduleCount(acts, u, k, n, n, n);
      acts := ScheduleInsert(acts, u, k, n, n, n + 1);
      n := n + 1;
    }
    var hi := n;
    while hi < n + k
      invariant n <= hi <= n + k && Scheduled(acts, u, k, n, n, hi)
    {
      acts := ScheduleCount(acts, u, k, n, n, hi);
      hi := hi + 1;
    }
    var lo := n;
    while lo < hi
      invariant n <= lo <= hi == n + k && Scheduled(acts, u, k, lo, lo, hi)
    {
      acts := ScheduleInsert(acts, u, k, lo, lo, hi);
      lo := lo + 1;
    }
  }

  /** The intended cap of five holds in every run exactly when issuance is serial. */
  lemma CapHoldsIffSerial(u: UserId, k: nat)
    ensures (forall owner, clock, acts :: InFlightAtMost(Initial(owner, clock), acts, u, k) ==>
               |Live(Run(Initial(owner, clock), acts), u)| <= 5)
            <==> k <= 1
  {
    if k <= 1 {
      forall owner, clock, acts | InFlightAtMost(Initial(owner, clock), acts, u, k)
        ensures |Live(Run(Initial(owner, clock), acts), u)| <= 5
      {
        LiveCodesBounded(owner, clock, acts, u, k);
      }
    } else {
      var acts := BoundIsReached(u, k);
    }
  }
}
