/** Device pairing over whole runs: how a pairing moves, and how its token is
    handed out. */
module Pairings {
  import opened Wrappers
  import opened Text
  import opened AuthTables
  import opened AuthInvariant

  // This call is the claim of a pairing with this code, in time.
  predicate ClaimsInTime(op: Op, now: int, p: Pairing) {
    op.ClaimPairing? && Upper(Strip(op.code)) == p.userCode && !IsExpired(p.expiresAt, now)
  }

  predicate PollsKey(hash: Hash, op: Op, key: string) {
    op.PollPairing? && hash(op.device) == key
  }

  /** How one call may change a pairing: not at all; from pending to claimed, by a
      claim with its code before it expires; or from a stored token to none, by a
      poll that returns the token. */
  lemma PairingMoves(hash: Hash, t: Tables, op: Op, now: int, key: string)
    requires key in t.pairings
    ensures var r := Step(hash, t, op, now);
            var p := t.pairings[key];
            && key in r.tables.pairings
            && var p' := r.tables.pairings[key];
               || p' == p
               || (p.status == PairingPending && ClaimsInTime(op, now, p) && r.outcome == Done
                   && p' == p.(status := PairingClaimed, userId := Some(op.userId), issuedToken := Some(op.token), claimedAt := Some(now)))
               || (p.status == PairingClaimed && p.issuedToken.Some? && PollsKey(hash, op, key)
                   && r.outcome == Delivered(p.issuedToken) && p' == p.(issuedToken := None))
  {
    hide Strip, Upper, LoginStep, RedeemStep, FindUser, NormalizeEmail, Touch, Claimed;
    if op.Redeem? {
      RedeemLeavesPairings(hash, t, op.code, op.suffix, op.token, now);
    } else if op.Signup? {
      LoginLeavesPairings(hash, t, NormalizeEmail(Some(op.address)), op.suffix, op.token, now);
    }
  }

  lemma LoginLeavesPairings(hash: Hash, t: Tables, email: Option<string>, suffix: string, token: string, now: int)
    ensures LoginStep(hash, t, email, suffix, token, now).tables.pairings == t.pairings
    ensures !LoginStep(hash, t, email, suffix, token, now).outcome.Delivered?
  {
  }

  lemma RedeemLeavesPairings(hash: Hash, t: Tables, code: string, suffix: string, token: string, now: int)
    ensures RedeemStep(hash, t, code, suffix, token, now).tables.pairings == t.pairings
    ensures !RedeemStep(hash, t, code, suffix, token, now).outcome.Delivered?
  {
  }

  // ---------- conservation of tokens ----------

  function Holds(t: Tables, key: string): nat {
    if key in t.pairings && t.pairings[key].issuedToken.Some? then 1 else 0
  }

  function IsClaimed(t: Tables, key: string): nat {
    if key in t.pairings && t.pairings[key].status == PairingClaimed then 1 else 0
  }

  // This call hands a token to a poll of the device under `key`.
  predicate Delivers(hash: Hash, op: Op, outcome: Outcome, key: string) {
    PollsKey(hash, op, key) && outcome.Delivered? && outcome.delivered.Some?
  }

  /** How many polls of one device code were answered with a token. */
  ghost function Deliveries(hash: Hash, t: Tables, calls: seq<Call>, key: string): nat
    decreases |calls|
  {
    if calls == [] then 0
    else
      var r := Step(hash, t, calls[0].op, calls[0].now);
      (if Delivers(hash, calls[0].op, r.outcome, key) then 1 else 0) + Deliveries(hash, r.tables, calls[1..], key)
  }

  // A pairing that is not claimed holds no token.
  predicate TokensAreClaimed(t: Tables) {
    forall key :: key in t.pairings && t.pairings[key].issuedToken.Some? ==> t.pairings[key].status == PairingClaimed
  }

  lemma InvTokensAreClaimed(t: Tables)
    requires Inv(t)
    ensures TokensAreClaimed(t)
  {
    assert forall key :: key in t.pairings ==> PairingOk(t, t.pairings[key]);
  }

  lemma StepConservesTokens(hash: Hash, t: Tables, op: Op, now: int, key: string)
    requires TokensAreClaimed(t)
    ensures var r := Step(hash, t, op, now);
            Holds(t, key) + IsClaimed(r.tables, key)
            == Holds(r.tables, key) + IsClaimed(t, key) + (if Delivers(hash, op, r.outcome, key) then 1 else 0)
  {
    hide Step, Strip, Upper;
    if key in t.pairings {
      PairingMoves(hash, t, op, now, key);
      DeliveryTakesTheToken(hash, t, op, now, key);
    } else {
      NewPairingIsPending(hash, t, op, now, key);
    }
  }

  lemma DeliveryTakesTheToken(hash: Hash, t: Tables, op: Op, now: int, key: string)
    requires key in t.pairings && TokensAreClaimed(t)
    ensures var r := Step(hash, t, op, now);
            Delivers(hash, op, r.outcome, key) <==>
              PollsKey(hash, op, key) && t.pairings[key].issuedToken.Some?
    ensures var r := Step(hash, t, op, now);
            Delivers(hash, op, r.outcome, key) ==>
              r.outcome.delivered == t.pairings[key].issuedToken && key in r.tables.pairings
              && r.tables.pairings[key].issuedToken == None
  {
    hide Strip, Upper, LoginStep, RedeemStep, FindUser, FindPairing, FirstFree, NormalizeEmail, Touch, Claimed;
  }

  lemma NewPairingIsPending(hash: Hash, t: Tables, op: Op, now: int, key: string)
    requires key !in t.pairings
    ensures var r := Step(hash, t, op, now);
            && !Delivers(hash, op, r.outcome, key)
            && (key in r.tables.pairings ==>
                  r.tables.pairings[key].status == PairingPending && r.tables.pairings[key].issuedToken == None)
  {
    hide Strip, Upper, LoginStep, RedeemStep, FindUser, FirstFree, NormalizeEmail, Touch, Claimed;
    if op.Redeem? {
      RedeemLeavesPairings(hash, t, op.code, op.suffix, op.token, now);
    } else if op.Signup? {
      LoginLeavesPairings(hash, t, NormalizeEmail(Some(op.address)), op.suffix, op.token, now);
    }
  }

  /** Over any run the token of a pairing is neither lost nor doubled: a claim makes
      one, and it is either still stored or was delivered once. */
  lemma {:induction false} TokensAreConserved(hash: Hash, t: Tables, calls: seq<Call>, key: string)
    requires Inv(t) && RunAdmissible(hash, t, calls)
    ensures var t' := Run(hash, t, calls);
            Holds(t, key) + IsClaimed(t', key) == Holds(t', key) + IsClaimed(t, key) + Deliveries(hash, t, calls, key)
    decreases |calls|
  {
    hide Inv, Step, Holds, IsClaimed, Delivers, Admissible;
    if calls != [] {
      InvTokensAreClaimed(t);
      StepConservesTokens(hash, t, calls[0].op, calls[0].now, key);
      StepKeepsInv(hash, t, calls[0].op, calls[0].now);
      TokensAreConserved(hash, Step(hash, t, calls[0].op, calls[0].now).tables, calls[1..], key);
    }
  }

  /** From the empty store: all polls of one device code together return a token at
      most once, and exactly once for a claimed pairing whose token is gone. */
  lemma TokenIsDeliveredOnce(hash: Hash, calls: seq<Call>, key: string)
    requires RunAdmissible(hash, EMPTY, calls)
    ensures var t := Run(hash, EMPTY, calls);
            && Deliveries(hash, EMPTY, calls, key) == IsClaimed(t, key) - Holds(t, key)
            && Deliveries(hash, EMPTY, calls, key) <= 1
  {
    hide Inv, Deliveries, Run, RunAdmissible;
    EmptyIsOk();
    TokensAreConserved(hash, EMPTY, calls, key);
  }

  // ---------- the life of a pairing ----------

  // This call turns the pairing under `key` from pending to claimed.
  ghost predicate Claims(hash: Hash, t: Tables, call: Call, key: string) {
    && IsClaimed(t, key) == 0
    && IsClaimed(Step(hash, t, call.op, call.now).tables, key) == 1
  }

  ghost function ClaimCount(hash: Hash, t: Tables, calls: seq<Call>, key: string): nat
    decreases |calls|
  {
    if calls == [] then 0
    else (if Claims(hash, t, calls[0], key) then 1 else 0)
         + ClaimCount(hash, Step(hash, t, calls[0].op, calls[0].now).tables, calls[1..], key)
  }

  /** A pairing that is claimed stays claimed by the same user, with the same code;
      so no pairing is claimed twice in any run. */
  lemma {:induction false} ClaimedAtMostOnce(hash: Hash, t: Tables, calls: seq<Call>, key: string)
    ensures ClaimCount(hash, t, calls, key) + IsClaimed(t, key) == IsClaimed(Run(hash, t, calls), key)
    ensures key in t.pairings ==>
              key in Run(hash, t, calls).pairings
              && var (p, p') := (t.pairings[key], Run(hash, t, calls).pairings[key]);
                 && p'.userCode == p.userCode && p'.expiresAt == p.expiresAt
                 && (p.status == PairingClaimed ==> p'.status == PairingClaimed && p'.userId == p.userId && p'.claimedAt == p.claimedAt)
    decreases |calls|
  {
    hide Step, ClaimsInTime, PollsKey;
    if calls != [] {
      var next := Step(hash, t, calls[0].op, calls[0].now).tables;
      if key in t.pairings {
        PairingMoves(hash, t, calls[0].op, calls[0].now, key);
      } else {
        NewPairingIsPending(hash, t, calls[0].op, calls[0].now, key);
      }
      ClaimedAtMostOnce(hash, next, calls[1..], key);
    }
  }

  /** Every claim goes through a claim call with the pairing's code, before it
      expires, and stores that call's user and token. */
  lemma ClaimPassedTheChecks(hash: Hash, t: Tables, call: Call, key: string)
    requires Claims(hash, t, call, key)
    ensures key in t.pairings && t.pairings[key].status == PairingPending
    ensures ClaimsInTime(call.op, call.now, t.pairings[key])
    ensures var p' := Step(hash, t, call.op, call.now).tables.pairings[key];
            p'.userId == Some(call.op.userId) && p'.issuedToken == Some(call.op.token) && p'.claimedAt == Some(call.now)
  {
    hide Step, Strip, Upper;
    if key in t.pairings {
      PairingMoves(hash, t, call.op, call.now, key);
    } else {
      NewPairingIsPending(hash, t, call.op, call.now, key);
    }
  }

  predicate NoEarlierThan(calls: seq<Call>, now: int) {
    forall i :: 0 <= i < |calls| ==> now <= calls[i].now
  }

  /** Every poll of this device code in the run is refused because the pairing expired. */
  ghost predicate EveryPollExpired(hash: Hash, t: Tables, calls: seq<Call>, key: string)
    decreases |calls|
  {
    calls == []
    || (var r := Step(hash, t, calls[0].op, calls[0].now);
        (PollsKey(hash, calls[0].op, key) ==> r.outcome == Failed(PairingExpired))
        && EveryPollExpired(hash, r.tables, calls[1..], key))
  }

  /** With a clock that does not go back, a pairing that has expired unclaimed stays
      exactly as it is for ever, and every poll of it fails as expired. */
  lemma {:induction false} ExpiredStaysPending(hash: Hash, t: Tables, calls: seq<Call>, key: string, now: int)
    requires key in t.pairings && t.pairings[key].status == PairingPending
    requires IsExpired(t.pairings[key].expiresAt, now) && NoEarlierThan(calls, now)
    requires t.pairings[key].issuedToken.None?
    ensures key in Run(hash, t, calls).pairings && Run(hash, t, calls).pairings[key] == t.pairings[key]
    ensures EveryPollExpired(hash, t, calls, key)
    decreases |calls|
  {
    hide Step, Strip, Upper;
    if calls != [] {
      var next := Step(hash, t, calls[0].op, calls[0].now).tables;
      PairingMoves(hash, t, calls[0].op, calls[0].now, key);
      ExpiredPollFails(hash, t, calls[0].op, calls[0].now, key);
      ExpiredStaysPending(hash, next, calls[1..], key, now);
    }
  }

  lemma ExpiredPollFails(hash: Hash, t: Tables, op: Op, now: int, key: string)
    requires key in t.pairings && t.pairings[key].status == PairingPending && IsExpired(t.pairings[key].expiresAt, now)
    ensures PollsKey(hash, op, key) ==> Step(hash, t, op, now).outcome == Failed(PairingExpired)
  {
    hide Strip, Upper, LoginStep, RedeemStep, FindUser, FindPairing, FirstFree, NormalizeEmail, Touch, Claimed;
  }
}
