/** What no later call can change: owners, the user behind a redeemed invite. */
module AuthStability {
  import opened Wrappers
  import opened Text
  import opened AuthTables
  import opened AuthInvariant

  predicate OwnersKept(t: Tables, t': Tables) {
    && (forall id :: id in t.sessionOwners ==> id in t'.sessionOwners && t'.sessionOwners[id] == t.sessionOwners[id])
    && (forall id :: id in t.nodeOwners ==> id in t'.nodeOwners && t'.nodeOwners[id] == t.nodeOwners[id])
  }

  // Users stay, under the address they came with.
  predicate UsersKept(users: map<string, User>, users': map<string, User>) {
    forall id :: id in users ==> id in users' && users'[id].email == users[id].email
  }

  // Redeemed invites stay redeemed by the same user, but for the ones created anew.
  predicate RedeemersKept(invites: map<string, Invite>, invites': map<string, Invite>, recreated: set<string>) {
    forall key :: key in invites && key !in recreated && Redeemed(invites[key]) ==>
      key in invites' && invites'[key].redeemedBy == invites[key].redeemedBy
  }

  predicate Kept(t: Tables, t': Tables, recreated: set<string>) {
    OwnersKept(t, t') && UsersKept(t.users, t'.users) && RedeemersKept(t.invites, t'.invites, recreated)
  }

  // The invites that this call creates anew.
  function Recreated(hash: Hash, op: Op): set<string> {
    if op.CreateInvite? then {hash(op.code)} else {}
  }

  lemma OpenSessionKeeps(hash: Hash, before: Tables, after: Tables, id: string, email: Option<string>, token: string, now: int)
    requires Kept(before, after, {})
    ensures Kept(before, OpenSession(hash, before, after, id, email, token, now).tables, {})
  {
  }

  lemma TouchKeeps(t: Tables, id: string, now: int)
    requires id in t.users
    ensures Kept(t, t.(users := Touch(t.users, id, now)), {})
  {
  }

  lemma MarkKeeps(t: Tables, t': Tables, key: string, id: string, now: int)
    requires Kept(t, t', {}) && t'.invites == t.invites && key in t.invites && !Redeemed(t.invites[key])
    ensures Kept(t, MarkRedeemed(t', key, id, now), {})
  {
  }

  lemma NewUserKeeps(t: Tables, id: string, user: User)
    requires id !in t.users
    ensures Kept(t, t.(users := t.users[id := user]), {})
  {
  }

  lemma SameIsKept(t: Tables)
    ensures Kept(t, t, {})
  {
  }

  lemma EmailUserKeeps(t: Tables, email: Option<string>, suffix: string, now: int)
    ensures var r := EmailUser(t, email, suffix, now); r.Ok? ==> Kept(t, r.value.tables, {})
  {
    hide Kept, Touch;
    match FindUser(t.users, email)
    case Some(id) => TouchKeeps(t, id, now);
    case None =>
      if UserId(suffix) !in t.users {
        NewUserKeeps(t, UserId(suffix), User(email, now, now));
      }
  }

  lemma InviteUserKeeps(t: Tables, key: string, suffix: string, now: int)
    requires key in t.invites
    ensures var r := InviteUser(t, key, suffix, now); r.Ok? ==> Kept(t, r.value.tables, {})
  {
    hide Kept, Touch, EmailUser, MarkRedeemed;
    var invite := t.invites[key];
    if Redeemed(invite) {
      if invite.redeemedBy.value in t.users {
        TouchKeeps(t, invite.redeemedBy.value, now);
      }
    } else {
      EmailUserKeeps(t, invite.email, suffix, now);
      var bound := EmailUser(t, invite.email, suffix, now);
      if bound.Ok? {
        MarkKeeps(t, bound.value.tables, key, bound.value.id, now);
      }
    }
  }

  lemma LoginKeeps(hash: Hash, t: Tables, email: Option<string>, suffix: string, token: string, now: int)
    ensures Kept(t, LoginStep(hash, t, email, suffix, token, now).tables, {})
  {
    hide Kept, EmailUser, OpenSession;
    SameIsKept(t);
    EmailUserKeeps(t, email, suffix, now);
    var bound := EmailUser(t, email, suffix, now);
    if bound.Ok? {
      OpenSessionKeeps(hash, t, bound.value.tables, bound.value.id, bound.value.email, token, now);
    }
  }

  lemma RedeemKeeps(hash: Hash, t: Tables, code: string, suffix: string, token: string, now: int)
    ensures Kept(t, RedeemStep(hash, t, code, suffix, token, now).tables, {})
  {
    hide Kept, InviteUser, Strip, OpenSession;
    SameIsKept(t);
    var key := hash(Strip(code));
    if Strip(code) != "" && key in t.invites {
      InviteUserKeeps(t, key, suffix, now);
      var bound := InviteUser(t, key, suffix, now);
      if bound.Ok? {
        OpenSessionKeeps(hash, t, bound.value.tables, bound.value.id, bound.value.email, token, now);
      }
    }
  }

  // Pairing calls and deleted sessions leave these tables as they are.
  lemma PairingCallsKeep(hash: Hash, t: Tables, op: Op, now: int)
    requires op.CreatePairing? || op.ClaimPairing? || op.PollPairing? || op.DeleteSession?
    ensures Kept(t, Step(hash, t, op, now).tables, {})
  {
    hide Kept, Strip, Upper, FindPairing, FirstFree;
    var t' := Step(hash, t, op, now).tables;
    SameRowsAreKept(t, t');
  }

  lemma SameRowsAreKept(t: Tables, t': Tables)
    requires t'.users == t.users && t'.invites == t.invites
    requires t'.sessionOwners == t.sessionOwners && t'.nodeOwners == t.nodeOwners
    ensures Kept(t, t', {})
  {
  }

  lemma OtherCallsKeep(hash: Hash, t: Tables, op: Op, now: int)
    requires op.CreateInvite? || op.UserForToken? || op.ClaimSession? || op.ClaimNode?
    ensures Kept(t, Step(hash, t, op, now).tables, Recreated(hash, op))
  {
    hide NormalizeEmail;
  }

  lemma StepKeeps(hash: Hash, t: Tables, op: Op, now: int)
    ensures Kept(t, Step(hash, t, op, now).tables, Recreated(hash, op))
  {
    hide Kept, LoginStep, RedeemStep, NormalizeEmail, Strip;
    if op.Redeem? {
      RedeemKeeps(hash, t, op.code, op.suffix, op.token, now);
    } else if op.Signup? {
      LoginKeeps(hash, t, NormalizeEmail(Some(op.address)), op.suffix, op.token, now);
      SameIsKept(t);
    } else if op.CreatePairing? || op.ClaimPairing? || op.PollPairing? || op.DeleteSession? {
      PairingCallsKeep(hash, t, op, now);
    } else {
      OtherCallsKeep(hash, t, op, now);
    }
  }

  predicate NeverRecreated(hash: Hash, calls: seq<Call>, key: string) {
    forall i :: 0 <= i < |calls| ==> key !in Recreated(hash, calls[i].op)
  }

  // What a whole run keeps: owners, users, and the redeemer of an invite that is
  // not created anew.
  lemma {:induction false} RunKeeps(hash: Hash, t: Tables, calls: seq<Call>, key: string)
    ensures var t' := Run(hash, t, calls);
            && OwnersKept(t, t') && UsersKept(t.users, t'.users)
            && (NeverRecreated(hash, calls, key) && key in t.invites && Redeemed(t.invites[key]) ==>
                  key in t'.invites && t'.invites[key].redeemedBy == t.invites[key].redeemedBy)
    decreases |calls|
  {
    hide Step, Recreated;
    if calls != [] {
      StepKeeps(hash, t, calls[0].op, calls[0].now);
      RunKeeps(hash, Step(hash, t, calls[0].op, calls[0].now).tables, calls[1..], key);
    }
  }

  /** Once a session or an executor node has an owner, no run changes it. */
  lemma OwnersNeverChange(hash: Hash, t: Tables, calls: seq<Call>, id: string)
    ensures var t' := Run(hash, t, calls);
            && (id in t.sessionOwners ==> id in t'.sessionOwners && t'.sessionOwners[id] == t.sessionOwners[id])
            && (id in t.nodeOwners ==> id in t'.nodeOwners && t'.nodeOwners[id] == t.nodeOwners[id])
  {
    hide Run, UsersKept, Recreated;
    RunKeeps(hash, t, calls, "");
  }

  /** The first claim of a session decides its owner: a later claim of the same
      session by anybody leaves that owner. */
  lemma FirstClaimWins(hash: Hash, t: Tables, userId: string, sessionId: string, now: int, calls: seq<Call>)
    requires sessionId !in t.sessionOwners
    ensures var first := Step(hash, t, ClaimSession(userId, sessionId), now).tables;
            var later := Run(hash, first, calls);
            sessionId in later.sessionOwners && later.sessionOwners[sessionId].userId == userId
  {
    hide Run;
    OwnersNeverChange(hash, Step(hash, t, ClaimSession(userId, sessionId), now).tables, calls, sessionId);
  }

  // ---------- redeemed invites ----------

  predicate RedeemedBy(t: Tables, key: string, userId: string) {
    key in t.invites && t.invites[key].redeemedBy == Some(userId)
  }

  lemma RedeemMarks(hash: Hash, t: Tables, code: string, suffix: string, token: string, now: int)
    requires Inv(t)
    ensures var r := RedeemStep(hash, t, code, suffix, token, now);
            r.outcome.LoggedIn? ==>
              RedeemedBy(r.tables, hash(Strip(code)), r.outcome.userId) && r.outcome.userId != ""
              && r.outcome.userId in r.tables.users
  {
    hide Strip, Lower, Trimmed, IsPairingCode, EmailsUnique, EmailsStored, PairingsOk, CodesDistinct;
    NewIdIsNotEmpty(suffix);
  }

  /** Redeeming a code again gives the same user, whatever happens in between, unless
      the invite is created again; it then fails only if the new token collides. */
  lemma RedeemIsStable(hash: Hash, t: Tables, code: string, suffix: string, token: string, now: int,
                       calls: seq<Call>, suffix': string, token': string, now': int)
    requires Inv(t) && RedeemStep(hash, t, code, suffix, token, now).outcome.LoggedIn?
    requires RunAdmissible(hash, RedeemStep(hash, t, code, suffix, token, now).tables, calls)
    requires NeverRecreated(hash, calls, hash(Strip(code)))
    ensures var first := RedeemStep(hash, t, code, suffix, token, now);
            var later := Run(hash, first.tables, calls);
            var again := RedeemStep(hash, later, code, suffix', token', now').outcome;
            if hash(token') in later.sessions then again == Failed(IntegrityViolation)
            else again.LoggedIn? && again.userId == first.outcome.userId && again.token == token'
  {
    hide Strip, Step, FindUser, EmailsUnique, EmailsStored, PairingsOk, CodesDistinct;
    var first := RedeemStep(hash, t, code, suffix, token, now);
    var userId := first.outcome.userId;
    RedeemMarks(hash, t, code, suffix, token, now);
    RedeemKeepsInv(hash, t, code, suffix, token, now);
    RunKeepsInv(hash, first.tables, calls);
    RunKeeps(hash, first.tables, calls, hash(Strip(code)));
  }

  // ---------- users ----------

  lemma LoginLeavesAddress(hash: Hash, t: Tables, email: Option<string>, suffix: string, token: string, now: int)
    requires Inv(t) && StoredEmail(email) && email.Some?
    ensures var r := LoginStep(hash, t, email, suffix, token, now);
            r.outcome.LoggedIn? ==>
              r.outcome.userId in r.tables.users && r.tables.users[r.outcome.userId].email == email
  {
    hide Strip, Lower, Trimmed, IsPairingCode, PairingsOk, CodesDistinct, EmailsUnique;
    StoredIsNormal(email);
  }

  /** Two logins with the same address, whatever happens in between, are logins of
      the same user. */
  lemma SameAddressSameUser(hash: Hash, t: Tables, email: Option<string>, suffix: string, token: string, now: int,
                            calls: seq<Call>, suffix': string, token': string, now': int)
    requires Inv(t) && StoredEmail(email) && email.Some?
    requires LoginStep(hash, t, email, suffix, token, now).outcome.LoggedIn?
    requires RunAdmissible(hash, LoginStep(hash, t, email, suffix, token, now).tables, calls)
    ensures var first := LoginStep(hash, t, email, suffix, token, now);
            var later := Run(hash, first.tables, calls);
            var again := LoginStep(hash, later, email, suffix', token', now').outcome;
            if hash(token') in later.sessions then again == Failed(IntegrityViolation)
            else again.LoggedIn? && again.userId == first.outcome.userId
  {
    hide Strip, Lower, Trimmed, Step, LoginStep, IsPairingCode, PairingsOk, CodesDistinct, NoDanglingUsers, RunAdmissible;
    var first := LoginStep(hash, t, email, suffix, token, now);
    var later := Run(hash, first.tables, calls);
    LoginKeepsInv(hash, t, email, suffix, token, now);
    LoginLeavesAddress(hash, t, email, suffix, token, now);
    RunKeepsInv(hash, first.tables, calls);
    RunKeeps(hash, first.tables, calls, "");
    LoginFindsAddress(hash, later, first.outcome.userId, email, suffix', token', now');
  }

  lemma LoginFindsAddress(hash: Hash, t: Tables, id: string, email: Option<string>, suffix: string, token: string, now: int)
    requires Inv(t) && StoredEmail(email) && email.Some? && id in t.users && t.users[id].email == email
    ensures var again := LoginStep(hash, t, email, suffix, token, now).outcome;
            if hash(token) in t.sessions then again == Failed(IntegrityViolation)
            else again.LoggedIn? && again.userId == id
  {
    hide Strip, Lower, Trimmed, IsPairingCode, PairingsOk, CodesDistinct, NoDanglingUsers;
    StoredIsNormal(email);
    assert HasEmail(t.users, id, email.value);
  }
}
