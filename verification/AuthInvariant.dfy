/** What every reachable state of the auth store satisfies. */
module AuthInvariant {
  import opened Wrappers
  import opened Text
  import opened AuthTables

  // An address in the form in which it is stored.
  predicate StoredEmail(email: Option<string>) {
    email.Some? ==> email.value != "" && Trimmed(email.value) && Lower(email.value) == email.value
  }

  predicate EmailsStored(t: Tables) {
    && (forall id :: id in t.users ==> StoredEmail(t.users[id].email))
    && (forall key :: key in t.invites ==> StoredEmail(t.invites[key].email))
  }

  /** At most one user has any given address. */
  predicate EmailsUnique(users: map<string, User>) {
    forall a, b :: a in users && b in users && users[a].email.Some? && users[a].email == users[b].email ==> a == b
  }

  /** Sessions and redeemed invites point to users. */
  predicate NoDanglingUsers(t: Tables) {
    && "" !in t.users
    && (forall key :: key in t.sessions ==> t.sessions[key].userId in t.users)
    && (forall key :: key in t.invites && t.invites[key].redeemedBy.Some? ==>
          t.invites[key].redeemedBy.value in t.users)
  }

  predicate PairingOk(t: Tables, p: Pairing) {
    && IsPairingCode(p.userCode)
    && (p.status == PairingPending ==> p.userId.None? && p.issuedToken.None? && p.claimedAt.None?)
    && (p.status == PairingClaimed ==> p.userId.Some? && p.userId.value in t.users && p.claimedAt.Some?
                                       && p.claimedAt.value < p.expiresAt)
  }

  predicate PairingsOk(t: Tables) {
    forall key :: key in t.pairings ==> PairingOk(t, t.pairings[key])
  }

  /** No two pairings have the same code. */
  predicate CodesDistinct(pairings: map<string, Pairing>) {
    forall a, b :: a in pairings && b in pairings && pairings[a].userCode == pairings[b].userCode ==> a == b
  }

  predicate Inv(t: Tables) {
    EmailsStored(t) && EmailsUnique(t.users) && NoDanglingUsers(t) && PairingsOk(t) && CodesDistinct(t.pairings)
  }

  /** What the callers of the store guarantee: a device is claimed by an existing
      user, and pairing codes are drawn from the alphabet. */
  predicate Admissible(t: Tables, op: Op) {
    match op
    case ClaimPairing(_, userId, _) => userId in t.users
    case CreatePairing(_, attempts) =>
      |attempts| == CODE_ATTEMPTS && forall i :: 0 <= i < |attempts| ==> IsPairingCode(attempts[i])
    case _ => true
  }

  lemma NormalizedIsStored(email: Option<string>)
    ensures StoredEmail(NormalizeEmail(email))
  {
    if NormalizeEmail(email).Some? {
      var s := Strip(email.value);
      LowerKeepsTrimmed(s);
    }
  }

  lemma LowerKeepsTrimmed(s: string)
    requires Trimmed(s)
    ensures Trimmed(Lower(s)) && Lower(Lower(s)) == Lower(s)
  {
  }

  lemma StoredIsNormal(email: Option<string>)
    requires StoredEmail(email)
    ensures NormalizeEmail(email) == email
  {
  }

  // A user under a new id, with an address nobody has.
  lemma NewUser(t: Tables, id: string, email: Option<string>, now: int)
    requires Inv(t) && id !in t.users && id != "" && StoredEmail(email) && FindUser(t.users, email).None?
    ensures Inv(t.(users := t.users[id := User(email, now, now)]))
  {
    hide Lower, Strip, Trimmed, IsPairingCode;
    StoredIsNormal(email);
    if email.Some? {
      forall a | a in t.users ensures t.users[a].email != email {
        assert !HasEmail(t.users, a, email.value);
      }
    }
  }

  lemma TouchedUser(t: Tables, id: string, now: int)
    requires Inv(t) && id in t.users
    ensures Inv(t.(users := Touch(t.users, id, now)))
    ensures Touch(t.users, id, now).Keys == t.users.Keys
  {
    hide Lower, Trimmed, IsPairingCode;
  }

  lemma RedeemedInvite(t: Tables, key: string, id: string, now: int)
    requires Inv(t) && id in t.users && key in t.invites
    ensures Inv(MarkRedeemed(t, key, id, now))
  {
    hide Lower, Trimmed, IsPairingCode;
  }

  lemma OpenedSession(hash: Hash, before: Tables, after: Tables, id: string, email: Option<string>, token: string, now: int)
    requires Inv(before) && Inv(after) && id in after.users
    ensures Inv(OpenSession(hash, before, after, id, email, token, now).tables)
  {
    hide StoredEmail, IsPairingCode;
  }

  lemma EmailUserKeepsInv(t: Tables, email: Option<string>, suffix: string, now: int)
    requires Inv(t) && StoredEmail(email)
    ensures var r := EmailUser(t, email, suffix, now);
            if r.Ok? then Inv(r.value.tables) && r.value.id in r.value.tables.users else r.error == IntegrityViolation
  {
    hide Inv, StoredEmail, Touch;
    match FindUser(t.users, email)
    case Some(id) => TouchedUser(t, id, now);
    case None =>
      if UserId(suffix) !in t.users {
        NewIdIsNotEmpty(suffix);
        NewUser(t, UserId(suffix), email, now);
      }
  }

  lemma NewIdIsNotEmpty(suffix: string)
    ensures UserId(suffix) != ""
  {
  }

  lemma InviteUserKeepsInv(t: Tables, key: string, suffix: string, now: int)
    requires Inv(t) && key in t.invites
    ensures var r := InviteUser(t, key, suffix, now);
            if r.Ok? then Inv(r.value.tables) && r.value.id in r.value.tables.users else r.error == IntegrityViolation
  {
    hide Inv, StoredEmail, Touch, EmailUser;
    InvParts(t, key);
    var invite := t.invites[key];
    if Redeemed(invite) {
      TouchedUser(t, invite.redeemedBy.value, now);
    } else {
      EmailUserKeepsInv(t, invite.email, suffix, now);
      var bound := EmailUser(t, invite.email, suffix, now);
      if bound.Ok? {
        RedeemedInvite(bound.value.tables, key, bound.value.id, now);
      }
    }
  }

  lemma InvParts(t: Tables, key: string)
    requires Inv(t) && key in t.invites
    ensures StoredEmail(t.invites[key].email)
    ensures t.invites[key].redeemedBy.Some? ==> t.invites[key].redeemedBy.value in t.users
  {
  }

  lemma LoginKeepsInv(hash: Hash, t: Tables, email: Option<string>, suffix: string, token: string, now: int)
    requires Inv(t) && StoredEmail(email)
    ensures Inv(LoginStep(hash, t, email, suffix, token, now).tables)
    ensures LoginStep(hash, t, email, suffix, token, now).outcome != Failed(InviteIsInvalid)
  {
    hide Inv, StoredEmail, EmailUser;
    EmailUserKeepsInv(t, email, suffix, now);
    var bound := EmailUser(t, email, suffix, now);
    if bound.Ok? {
      OpenedSession(hash, t, bound.value.tables, bound.value.id, bound.value.email, token, now);
    }
  }

  lemma RedeemKeepsInv(hash: Hash, t: Tables, code: string, suffix: string, token: string, now: int)
    requires Inv(t)
    ensures Inv(RedeemStep(hash, t, code, suffix, token, now).tables)
    ensures RedeemStep(hash, t, code, suffix, token, now).outcome != Failed(InviteIsInvalid)
  {
    hide Inv, Strip, InviteUser;
    var key := hash(Strip(code));
    if Strip(code) != "" && key in t.invites {
      InviteUserKeepsInv(t, key, suffix, now);
      var bound := InviteUser(t, key, suffix, now);
      if bound.Ok? {
        OpenedSession(hash, t, bound.value.tables, bound.value.id, bound.value.email, token, now);
      }
    }
  }

  lemma CreatePairingKeepsInv(hash: Hash, t: Tables, device: string, attempts: seq<string>, now: int)
    requires Inv(t) && Admissible(t, CreatePairing(device, attempts))
    ensures Inv(CreatePairingStep(hash, t, device, attempts, now).tables)
  {
    hide StoredEmail, IsPairingCode;
    var k := FirstFree(t.pairings, hash(device), attempts);
    if k < |attempts| {
      assert forall d :: d in t.pairings ==> t.pairings[d].userCode != attempts[k];
    }
  }

  lemma ClaimPairingKeepsInv(hash: Hash, t: Tables, code: string, userId: string, token: string, now: int)
    requires Inv(t) && userId in t.users
    ensures Inv(ClaimPairingStep(hash, t, code, userId, token, now).tables)
  {
    hide StoredEmail, IsPairingCode, Upper, Strip;
  }

  lemma PollPairingKeepsInv(hash: Hash, t: Tables, device: string, now: int)
    requires Inv(t)
    ensures Inv(PollPairingStep(hash, t, device, now).tables)
  {
    hide StoredEmail, IsPairingCode;
  }

  lemma SessionsKeepInv(t: Tables, sessions: map<string, Session>)
    requires Inv(t) && forall key :: key in sessions ==> sessions[key].userId in t.users
    ensures Inv(t.(sessions := sessions))
  {
    hide StoredEmail, IsPairingCode;
  }

  lemma UserForTokenKeepsInv(hash: Hash, t: Tables, token: string, now: int)
    requires Inv(t)
    ensures Inv(UserForTokenStep(hash, t, token, now).tables)
  {
    hide EmailsStored, EmailsUnique, PairingsOk, CodesDistinct, Touch;
    var key := hash(token);
    if token != "" && key in t.sessions && t.sessions[key].userId in t.users {
      var id := t.sessions[key].userId;
      var touched := t.(users := Touch(t.users, id, now));
      TouchedUser(t, id, now);
      SessionsKeepInv(touched, t.sessions[key := t.sessions[key].(lastSeenAt := now)]);
    }
  }

  lemma DeleteSessionKeepsInv(hash: Hash, t: Tables, token: string)
    requires Inv(t)
    ensures Inv(DeleteSessionStep(hash, t, token).tables)
  {
    hide EmailsStored, EmailsUnique, PairingsOk, CodesDistinct;
    SessionsKeepInv(t, t.sessions - {hash(token)});
  }

  lemma CreateInviteKeepsInv(hash: Hash, t: Tables, code: string, email: Option<string>, now: int)
    requires Inv(t)
    ensures Inv(CreateInviteStep(hash, t, code, email, now).tables)
  {
    hide StoredEmail, IsPairingCode;
    NormalizedIsStored(email);
  }

  lemma OwnersKeepInv(t: Tables, sessionOwners: map<string, Owner>, nodeOwners: map<string, Owner>)
    requires Inv(t)
    ensures Inv(t.(sessionOwners := sessionOwners)) && Inv(t.(nodeOwners := nodeOwners))
  {
    hide StoredEmail, IsPairingCode;
  }

  /** Every call keeps the invariant, and no call ever finds a redeemed invite
      without its user. */
  lemma StepKeepsInv(hash: Hash, t: Tables, op: Op, now: int)
    requires Inv(t) && Admissible(t, op)
    ensures Inv(Step(hash, t, op, now).tables)
    ensures Step(hash, t, op, now).outcome != Failed(InviteIsInvalid)
  {
    hide Inv, StoredEmail, IsPairingCode, Strip, FindUser, FindPairing, LoginStep, RedeemStep, Touch, Claimed;
    match op
    case CreateInvite(code, email) => CreateInviteKeepsInv(hash, t, code, email, now);
    case Signup(address, code, expected, suffix, token) =>
      var email := NormalizeEmail(Some(address));
      NormalizedIsStored(Some(address));
      LoginKeepsInv(hash, t, email, suffix, token, now);
    case Redeem(code, suffix, token) => RedeemKeepsInv(hash, t, code, suffix, token, now);
    case UserForToken(token) => UserForTokenKeepsInv(hash, t, token, now);
    case DeleteSession(token) => DeleteSessionKeepsInv(hash, t, token);
    case CreatePairing(device, attempts) => CreatePairingKeepsInv(hash, t, device, attempts, now);
    case ClaimPairing(code, userId, token) => ClaimPairingKeepsInv(hash, t, code, userId, token, now);
    case PollPairing(device) => PollPairingKeepsInv(hash, t, device, now);
    case ClaimSession(userId, sessionId) => OwnersKeepInv(t, Claimed(t.sessionOwners, sessionId, userId, now), t.nodeOwners);
    case ClaimNode(userId, nodeId) => OwnersKeepInv(t, t.sessionOwners, Claimed(t.nodeOwners, nodeId, userId, now));
  }

  // ---------- runs ----------

  datatype Call = Call(op: Op, now: int)

  ghost function Run(hash: Hash, t: Tables, calls: seq<Call>): Tables
    decreases |calls|
  {
    if calls == [] then t else Run(hash, Step(hash, t, calls[0].op, calls[0].now).tables, calls[1..])
  }

  ghost predicate RunAdmissible(hash: Hash, t: Tables, calls: seq<Call>)
    decreases |calls|
  {
    calls == [] || (Admissible(t, calls[0].op)
                    && RunAdmissible(hash, Step(hash, t, calls[0].op, calls[0].now).tables, calls[1..]))
  }

  lemma {:induction false} RunKeepsInv(hash: Hash, t: Tables, calls: seq<Call>)
    requires Inv(t) && RunAdmissible(hash, t, calls)
    ensures Inv(Run(hash, t, calls))
    decreases |calls|
  {
    hide Inv, Admissible, Step;
    if calls != [] {
      StepKeepsInv(hash, t, calls[0].op, calls[0].now);
      RunKeepsInv(hash, Step(hash, t, calls[0].op, calls[0].now).tables, calls[1..]);
    }
  }

  lemma EmptyIsOk()
    ensures Inv(EMPTY)
  {
  }

  /** Every state reached from the empty store: addresses are unique, sessions and
      redeemed invites point to users, and whatever is called next, the invite
      error is not raised. */
  lemma ReachableStatesAreSound(hash: Hash, calls: seq<Call>, op: Op, now: int)
    requires RunAdmissible(hash, EMPTY, calls)
    ensures var t := Run(hash, EMPTY, calls);
            && EmailsUnique(t.users) && NoDanglingUsers(t)
            && (Admissible(t, op) ==> Step(hash, t, op, now).outcome != Failed(InviteIsInvalid))
  {
    hide Admissible, Step, EmailsUnique, NoDanglingUsers, EmailsStored, PairingsOk, CodesDistinct;
    EmptyIsOk();
    RunKeepsInv(hash, EMPTY, calls);
    var t := Run(hash, EMPTY, calls);
    if Admissible(t, op) {
      StepKeepsInv(hash, t, op, now);
    }
  }
}
