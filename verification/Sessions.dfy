/** Logins and what comes of them: the token of a login finds its user until it is
    deleted, and codes and invites let in exactly whom they should. */
module Sessions {
  import opened Wrappers
  import opened Text
  import opened AuthTables
  import opened AuthInvariant
  import opened AuthStability

  // ---------- the life of a session ----------

  // A session of this user under this key.
  predicate OpenFor(t: Tables, key: string, id: string) {
    key in t.sessions && t.sessions[key].userId == id && id in t.users
  }

  predicate Deletes(hash: Hash, op: Op, key: string) {
    op.DeleteSession? && op.token != "" && hash(op.token) == key
  }

  // The calls that make a session under the hash of a token of their own.
  predicate Opens(hash: Hash, op: Op, key: string) {
    (op.Signup? || op.Redeem? || op.ClaimPairing?) && hash(op.token) == key
  }

  predicate NeverDeleted(hash: Hash, calls: seq<Call>, key: string) {
    forall i :: 0 <= i < |calls| ==> !Deletes(hash, calls[i].op, key)
  }

  predicate NeverOpened(hash: Hash, calls: seq<Call>, key: string) {
    forall i :: 0 <= i < |calls| ==> !Opens(hash, calls[i].op, key)
  }

  // What a login leaves of the sessions: one more row, or the same rows.
  lemma LoginSessions(hash: Hash, t: Tables, email: Option<string>, suffix: string, token: string, now: int)
    ensures var r := LoginStep(hash, t, email, suffix, token, now);
            if r.outcome.LoggedIn? then
              hash(token) !in t.sessions
              && r.tables.sessions == t.sessions[hash(token) := Session(r.outcome.userId, now, now)]
              && r.outcome.token == token && r.outcome.userId in r.tables.users
              && r.tables.users[r.outcome.userId].email == r.outcome.email
            else r.tables == t
  {
    hide FindUser;
  }

  lemma RedeemSessions(hash: Hash, t: Tables, code: string, suffix: string, token: string, now: int)
    ensures var r := RedeemStep(hash, t, code, suffix, token, now);
            if r.outcome.LoggedIn? then
              hash(token) !in t.sessions
              && r.tables.sessions == t.sessions[hash(token) := Session(r.outcome.userId, now, now)]
              && r.outcome.token == token && r.outcome.userId in r.tables.users
              && r.tables.users[r.outcome.userId].email == r.outcome.email
            else r.tables == t
  {
    hide FindUser, Strip;
  }

  // Signups and redeems are the calls answered with a login.
  lemma LoginLeavesSession(hash: Hash, t: Tables, op: Op, now: int)
    ensures var r := Step(hash, t, op, now);
            if op.Signup? || op.Redeem? then
              (if r.outcome.LoggedIn? then
                 hash(op.token) !in t.sessions
                 && r.tables.sessions == t.sessions[hash(op.token) := Session(r.outcome.userId, now, now)]
                 && r.outcome.token == op.token && OpenFor(r.tables, hash(op.token), r.outcome.userId)
                 && r.tables.users[r.outcome.userId].email == r.outcome.email
               else r.tables == t)
            else !r.outcome.LoggedIn?
  {
    hide LoginStep, RedeemStep, Strip, Upper, FindPairing, FirstFree, NormalizeEmail;
    if op.Signup? {
      LoginSessions(hash, t, NormalizeEmail(Some(op.address)), op.suffix, op.token, now);
    } else if op.Redeem? {
      RedeemSessions(hash, t, op.code, op.suffix, op.token, now);
    }
  }

  lemma ClaimLeavesSession(hash: Hash, t: Tables, code: string, userId: string, token: string, now: int)
    ensures var r := ClaimPairingStep(hash, t, code, userId, token, now);
            && r.tables.users == t.users
            && if r.outcome == Done then
                 hash(token) !in t.sessions && r.tables.sessions == t.sessions[hash(token) := Session(userId, now, now)]
               else r.tables == t
  {
    hide Strip, Upper, FindPairing;
  }

  lemma StepKeepsSession(hash: Hash, t: Tables, op: Op, now: int, key: string, id: string)
    ensures OpenFor(t, key, id) && !Deletes(hash, op, key) ==> OpenFor(Step(hash, t, op, now).tables, key, id)
    ensures key !in t.sessions && !Opens(hash, op, key) ==> key !in Step(hash, t, op, now).tables.sessions
  {
    hide LoginStep, RedeemStep, ClaimPairingStep, SignupStep, FirstFree, Strip, Upper, NormalizeEmail, Recreated, OwnersKept, RedeemersKept;
    StepKeeps(hash, t, op, now);
    if op.Signup? || op.Redeem? {
      LoginLeavesSession(hash, t, op, now);
    } else if op.ClaimPairing? {
      ClaimLeavesSession(hash, t, op.code, op.userId, op.token, now);
    }
  }

  lemma {:induction false} RunKeepsSession(hash: Hash, t: Tables, calls: seq<Call>, key: string, id: string)
    ensures OpenFor(t, key, id) && NeverDeleted(hash, calls, key) ==> OpenFor(Run(hash, t, calls), key, id)
    ensures key !in t.sessions && NeverOpened(hash, calls, key) ==> key !in Run(hash, t, calls).sessions
    decreases |calls|
  {
    hide Step, OpenFor, Deletes, Opens;
    if calls != [] {
      StepKeepsSession(hash, t, calls[0].op, calls[0].now, key, id);
      RunKeepsSession(hash, Step(hash, t, calls[0].op, calls[0].now).tables, calls[1..], key, id);
    }
  }

  // A lookup finds the user of the session, and no one without a session or a token.
  lemma LookupFinds(hash: Hash, t: Tables, token: string, now: int, id: string)
    ensures Step(hash, t, UserForToken(token), now).outcome == FoundUser(Some(id)) <==> token != "" && OpenFor(t, hash(token), id)
    ensures hash(token) !in t.sessions ==> Step(hash, t, UserForToken(token), now).outcome == FoundUser(None)
  {
  }

  /** The token of a signup or redeem finds the user who logged in, after any run that
      deletes no session under its hash. */
  lemma LoginIsFoundLater(hash: Hash, t: Tables, op: Op, now: int, calls: seq<Call>, later: int)
    requires (op.Signup? || op.Redeem?) && op.token != ""
    requires Step(hash, t, op, now).outcome.LoggedIn? && NeverDeleted(hash, calls, hash(op.token))
    ensures var r := Step(hash, t, op, now);
            && r.outcome.token == op.token
            && Step(hash, Run(hash, r.tables, calls), UserForToken(op.token), later).outcome == FoundUser(Some(r.outcome.userId))
  {
    hide Step, Run, OpenFor, NeverDeleted;
    var r := Step(hash, t, op, now);
    LoginLeavesSession(hash, t, op, now);
    RunKeepsSession(hash, r.tables, calls, hash(op.token), r.outcome.userId);
    LookupFinds(hash, Run(hash, r.tables, calls), op.token, later, r.outcome.userId);
  }

  /** The token of a claimed pairing finds the user who claimed it, in the same way. */
  lemma ClaimIsFoundLater(hash: Hash, t: Tables, op: Op, now: int, calls: seq<Call>, later: int)
    requires op.ClaimPairing? && op.token != "" && op.userId in t.users
    requires Step(hash, t, op, now).outcome == Done && NeverDeleted(hash, calls, hash(op.token))
    ensures Step(hash, Run(hash, Step(hash, t, op, now).tables, calls), UserForToken(op.token), later).outcome == FoundUser(Some(op.userId))
  {
    hide Run, NeverDeleted, ClaimPairingStep;
    var r := Step(hash, t, op, now);
    ClaimLeavesSession(hash, t, op.code, op.userId, op.token, now);
    RunKeepsSession(hash, r.tables, calls, hash(op.token), op.userId);
    LookupFinds(hash, Run(hash, r.tables, calls), op.token, later, op.userId);
  }

  /** A deleted token finds nobody, after any run that opens no session under its hash. */
  lemma DeletedIsNotFound(hash: Hash, t: Tables, token: string, now: int, calls: seq<Call>, later: int)
    requires NeverOpened(hash, calls, hash(token))
    ensures var deleted := Step(hash, t, DeleteSession(token), now).tables;
            Step(hash, Run(hash, deleted, calls), UserForToken(token), later).outcome == FoundUser(None)
  {
    hide Run, NeverOpened;
    var deleted := Step(hash, t, DeleteSession(token), now).tables;
    if token != "" {
      assert hash(token) !in deleted.sessions;
      RunKeepsSession(hash, deleted, calls, hash(token), "");
      LookupFinds(hash, Run(hash, deleted, calls), token, later, "");
    }
  }

  // ---------- when a user was seen ----------

  // This answer names the user.
  predicate Answers(outcome: Outcome, id: string) {
    (outcome.LoggedIn? && outcome.userId == id) || outcome == FoundUser(Some(id))
  }

  /** When the user was last named in an answer, if in this run. */
  ghost function LastAnswer(hash: Hash, t: Tables, calls: seq<Call>, id: string): Option<int>
    decreases |calls|
  {
    if calls == [] then None
    else
      var r := Step(hash, t, calls[0].op, calls[0].now);
      var later := LastAnswer(hash, r.tables, calls[1..], id);
      if later.Some? then later else if Answers(r.outcome, id) then Some(calls[0].now) else None
  }

  // A user named in the answer was seen now, and nobody else's row changed.
  predicate Seen(t: Tables, r: Reply, now: int, id: string) {
    && (Answers(r.outcome, id) ==> id in r.tables.users && r.tables.users[id].lastSeenAt == now)
    && (!Answers(r.outcome, id) ==> (id in r.tables.users <==> id in t.users))
    && (!Answers(r.outcome, id) && id in t.users ==> r.tables.users[id] == t.users[id])
  }

  // One row of the users changed: the user was seen now, or came now.
  predicate RowNow(users: map<string, User>, users': map<string, User>, id: string, now: int) {
    && id in users' && users' == users[id := users'[id]] && users'[id].lastSeenAt == now
    && if id in users then users'[id] == users[id].(lastSeenAt := now) else "user-" <= id && users'[id].createdAt == now
  }

  lemma EmailUserRow(t: Tables, email: Option<string>, suffix: string, now: int)
    ensures var r := EmailUser(t, email, suffix, now);
            r.Ok? ==> r.value.tables == t.(users := r.value.tables.users) && RowNow(t.users, r.value.tables.users, r.value.id, now)
  {
    hide FindUser;
  }

  lemma InviteUserRow(t: Tables, key: string, suffix: string, now: int)
    requires key in t.invites
    ensures var r := InviteUser(t, key, suffix, now);
            r.Ok? ==> r.value.tables == t.(users := r.value.tables.users, invites := r.value.tables.invites)
                      && RowNow(t.users, r.value.tables.users, r.value.id, now)
  {
    hide EmailUser, RowNow;
    EmailUserRow(t, t.invites[key].email, suffix, now);
    if Redeemed(t.invites[key]) && t.invites[key].redeemedBy.value in t.users {
      TouchedRow(t.users, t.invites[key].redeemedBy.value, now);
    }
  }

  lemma TouchedRow(users: map<string, User>, id: string, now: int)
    requires id in users
    ensures RowNow(users, Touch(users, id, now), id, now)
  {
  }

  lemma LoginRow(hash: Hash, t: Tables, email: Option<string>, suffix: string, token: string, now: int)
    ensures var r := LoginStep(hash, t, email, suffix, token, now);
            if r.outcome.LoggedIn? then RowNow(t.users, r.tables.users, r.outcome.userId, now) else r.tables == t && r.outcome.Failed?
    ensures var t' := LoginStep(hash, t, email, suffix, token, now).tables;
            t'.invites == t.invites && t'.sessionOwners == t.sessionOwners && t'.nodeOwners == t.nodeOwners
  {
    hide EmailUser, RowNow;
    EmailUserRow(t, email, suffix, now);
  }

  lemma RedeemRow(hash: Hash, t: Tables, code: string, suffix: string, token: string, now: int)
    ensures var r := RedeemStep(hash, t, code, suffix, token, now);
            if r.outcome.LoggedIn? then RowNow(t.users, r.tables.users, r.outcome.userId, now) else r.tables == t && r.outcome.Failed?
    ensures var t' := RedeemStep(hash, t, code, suffix, token, now).tables;
            t'.sessionOwners == t.sessionOwners && t'.nodeOwners == t.nodeOwners
  {
    hide InviteUser, RowNow, Strip;
    if hash(Strip(code)) in t.invites {
      InviteUserRow(t, hash(Strip(code)), suffix, now);
    }
  }

  lemma RowSeen(t: Tables, r: Reply, now: int, id: string)
    requires if r.outcome.LoggedIn? then RowNow(t.users, r.tables.users, r.outcome.userId, now) else r.tables == t && r.outcome.Failed?
    ensures Seen(t, r, now, id) && UsersStamped(t, r.tables, now)
  {
  }

  lemma StepSeen(hash: Hash, t: Tables, op: Op, now: int, id: string)
    ensures Seen(t, Step(hash, t, op, now), now, id)
  {
    hide LoginStep, RedeemStep, RowNow, UsersStamped, FirstFree, FindPairing, Strip, Upper, NormalizeEmail;
    var r := Step(hash, t, op, now);
    if op.Redeem? {
      RedeemRow(hash, t, op.code, op.suffix, op.token, now);
      RowSeen(t, r, now, id);
    } else if op.Signup? {
      LoginRow(hash, t, NormalizeEmail(Some(op.address)), op.suffix, op.token, now);
      RowSeen(t, r, now, id);
    }
  }

  /** Over any run, a user was last seen when last named in an answer; a user nobody
      was answered with is as before. */
  lemma {:induction false} LastSeenIsLastAnswer(hash: Hash, t: Tables, calls: seq<Call>, id: string)
    ensures var t' := Run(hash, t, calls);
            match LastAnswer(hash, t, calls, id)
            case Some(when) => id in t'.users && t'.users[id].lastSeenAt == when
            case None => (id in t'.users <==> id in t.users) && (id in t.users ==> t'.users[id] == t.users[id])
    decreases |calls|
  {
    hide Step, Answers;
    if calls != [] {
      StepSeen(hash, t, calls[0].op, calls[0].now, id);
      LastSeenIsLastAnswer(hash, Step(hash, t, calls[0].op, calls[0].now).tables, calls[1..], id);
    }
  }

  // ---------- whom a code lets in ----------

  /** A signup gets as far as its login exactly with an address and with the configured
      code, white space around them apart; it logs in under that address, and fails
      then only for a collision of fresh secrets. */
  lemma SignupNeedsTheCode(hash: Hash, t: Tables, address: string, code: string, expected: string, suffix: string, token: string, now: int)
    requires Inv(t)
    ensures var outcome := Step(hash, t, Signup(address, code, expected, suffix, token), now).outcome;
            && (outcome.LoggedIn? || outcome == Failed(IntegrityViolation) <==>
                  NormalizeEmail(Some(address)).Some? && Strip(code) != "" && Strip(code) == Strip(expected))
            && (outcome.LoggedIn? ==> outcome.email == NormalizeEmail(Some(address)))
            && (outcome == Failed(IntegrityViolation) ==> hash(token) in t.sessions || UserId(suffix) in t.users)
            && (outcome == Failed(EmailRequired) <==> NormalizeEmail(Some(address)).None?)
            && (outcome == Failed(InvitationCodeRequired) <==> NormalizeEmail(Some(address)).Some? && Strip(code) == "")
            && (outcome == Failed(SignupNotConfigured) <==>
                  NormalizeEmail(Some(address)).Some? && Strip(code) != "" && Strip(expected) == "")
            && (outcome == Failed(WrongInvitationCode) <==>
                  NormalizeEmail(Some(address)).Some? && Strip(code) != "" && Strip(expected) != "" && Strip(code) != Strip(expected))
  {
    hide Strip, Lower, Trimmed, IsPairingCode, PairingsOk, CodesDistinct, EmailsUnique, NoDanglingUsers, NormalizeEmail;
    NormalizedIsStored(Some(address));
    var email := NormalizeEmail(Some(address));
    if email.Some? {
      StoredIsNormal(email);
      LoginOutcome(hash, t, email, suffix, token, now);
    }
  }

  lemma LoginOutcome(hash: Hash, t: Tables, email: Option<string>, suffix: string, token: string, now: int)
    requires Inv(t) && StoredEmail(email)
    ensures var outcome := LoginStep(hash, t, email, suffix, token, now).outcome;
            if outcome.LoggedIn? then outcome.email == email && outcome.token == token
            else outcome == Failed(IntegrityViolation) && (hash(token) in t.sessions || UserId(suffix) in t.users)
  {
    hide Strip, Lower, Trimmed, IsPairingCode, PairingsOk, CodesDistinct, EmailsUnique, NoDanglingUsers;
    StoredIsNormal(email);
  }

  // The user behind a redeemed invite has the address of the invite.
  predicate AddressesMatch(t: Tables) {
    forall key :: key in t.invites && Redeemed(t.invites[key]) ==>
      t.invites[key].redeemedBy.value in t.users && t.users[t.invites[key].redeemedBy.value].email == t.invites[key].email
  }

  lemma MatchStays(t: Tables, t': Tables)
    requires AddressesMatch(t) && UsersKept(t.users, t'.users)
    requires forall key :: key in t'.invites && Redeemed(t'.invites[key]) ==> key in t.invites && t'.invites[key] == t.invites[key]
    ensures AddressesMatch(t')
  {
  }

  lemma EmailUserMatches(t: Tables, email: Option<string>, suffix: string, now: int)
    requires Inv(t) && StoredEmail(email)
    ensures var r := EmailUser(t, email, suffix, now);
            r.Ok? ==> r.value.email == email && r.value.id in r.value.tables.users && r.value.tables.users[r.value.id].email == email
                      && r.value.id != "" && r.value.tables.invites == t.invites
  {
    hide Strip, Lower, Trimmed, IsPairingCode, PairingsOk, CodesDistinct, EmailsUnique;
    StoredIsNormal(email);
    NewIdIsNotEmpty(suffix);
  }

  lemma RedeemMatches(hash: Hash, t: Tables, code: string, suffix: string, token: string, now: int)
    requires Inv(t) && AddressesMatch(t)
    ensures var r := RedeemStep(hash, t, code, suffix, token, now);
            && AddressesMatch(r.tables)
            && (r.outcome.LoggedIn? ==> hash(Strip(code)) in t.invites && r.outcome.email == t.invites[hash(Strip(code))].email)
  {
    hide Strip, EmailUser, StoredEmail, Inv, Touch;
    var key := hash(Strip(code));
    RedeemKeeps(hash, t, code, suffix, token, now);
    if Strip(code) != "" && key in t.invites {
      InvParts(t, key);
      var invite := t.invites[key];
      if !Redeemed(invite) {
        EmailUserMatches(t, invite.email, suffix, now);
        EmailUserKeeps(t, invite.email, suffix, now);
      } else {
        TouchKeeps(t, invite.redeemedBy.value, now);
      }
    }
  }

  lemma StepKeepsMatch(hash: Hash, t: Tables, op: Op, now: int)
    requires Inv(t) && AddressesMatch(t)
    ensures AddressesMatch(Step(hash, t, op, now).tables)
  {
    hide LoginStep, RedeemStep, AddressesMatch, Inv, FirstFree, FindPairing, Strip, Upper, NormalizeEmail, Recreated, OwnersKept, RedeemersKept,
      UsersKept;
    var t' := Step(hash, t, op, now).tables;
    StepKeeps(hash, t, op, now);
    if op.Redeem? {
      RedeemMatches(hash, t, op.code, op.suffix, op.token, now);
    } else {
      if op.Signup? {
        LoginLeavesInvites(hash, t, NormalizeEmail(Some(op.address)), op.suffix, op.token, now);
      }
      MatchStays(t, t');
    }
  }

  lemma LoginLeavesInvites(hash: Hash, t: Tables, email: Option<string>, suffix: string, token: string, now: int)
    ensures LoginStep(hash, t, email, suffix, token, now).tables.invites == t.invites
  {
  }

  lemma {:induction false} RunKeepsMatch(hash: Hash, t: Tables, calls: seq<Call>)
    requires Inv(t) && AddressesMatch(t) && RunAdmissible(hash, t, calls)
    ensures AddressesMatch(Run(hash, t, calls))
    decreases |calls|
  {
    hide Inv, AddressesMatch, Step, Admissible;
    if calls != [] {
      StepKeepsInv(hash, t, calls[0].op, calls[0].now);
      StepKeepsMatch(hash, t, calls[0].op, calls[0].now);
      RunKeepsMatch(hash, Step(hash, t, calls[0].op, calls[0].now).tables, calls[1..]);
    }
  }

  // The invite under this key, created with this address and not anew since.
  predicate InvitedAs(t: Tables, key: string, email: Option<string>) {
    key in t.invites && t.invites[key].email == email
  }

  lemma {:induction false} RunKeepsInvited(hash: Hash, t: Tables, calls: seq<Call>, key: string, email: Option<string>)
    requires InvitedAs(t, key, email) && NeverRecreated(hash, calls, key)
    ensures InvitedAs(Run(hash, t, calls), key, email)
    decreases |calls|
  {
    hide Step, Recreated;
    if calls != [] {
      StepKeepsInvited(hash, t, calls[0].op, calls[0].now, key, email);
      RunKeepsInvited(hash, Step(hash, t, calls[0].op, calls[0].now).tables, calls[1..], key, email);
    }
  }

  lemma StepKeepsInvited(hash: Hash, t: Tables, op: Op, now: int, key: string, email: Option<string>)
    requires InvitedAs(t, key, email) && key !in Recreated(hash, op)
    ensures InvitedAs(Step(hash, t, op, now).tables, key, email)
  {
    hide LoginStep, RedeemStep, FirstFree, FindPairing, Strip, Upper, NormalizeEmail;
    if op.Signup? {
      LoginLeavesInvites(hash, t, NormalizeEmail(Some(op.address)), op.suffix, op.token, now);
    } else if op.Redeem? {
      RedeemLeavesEmails(hash, t, op.code, op.suffix, op.token, now, key);
    }
  }

  lemma RedeemLeavesEmails(hash: Hash, t: Tables, code: string, suffix: string, token: string, now: int, key: string)
    requires key in t.invites
    ensures var t' := RedeemStep(hash, t, code, suffix, token, now).tables; key in t'.invites && t'.invites[key].email == t.invites[key].email
  {
    hide Strip, FindUser;
  }

  /** An invite created for an address lets in a user with that address: whatever runs
      since its creation, short of creating it anew, redeeming its code logs such a user
      in, and fails only for a collision of fresh secrets. */
  lemma InviteLetsIn(hash: Hash, before: seq<Call>, code: string, email: Option<string>, created: int, calls: seq<Call>,
                     typed: string, suffix: string, token: string, now: int)
    requires RunAdmissible(hash, EMPTY, before)
    requires RunAdmissible(hash, Step(hash, Run(hash, EMPTY, before), CreateInvite(code, email), created).tables, calls)
    requires NeverRecreated(hash, calls, hash(code)) && Strip(typed) == code && code != ""
    ensures var t := Run(hash, Step(hash, Run(hash, EMPTY, before), CreateInvite(code, email), created).tables, calls);
            var outcome := Step(hash, t, Redeem(typed, suffix, token), now).outcome;
            if outcome.LoggedIn? then outcome.email == NormalizeEmail(email) && outcome.token == token
            else outcome == Failed(IntegrityViolation) && (hash(token) in t.sessions || UserId(suffix) in t.users)
  {
    hide Run, Inv, AddressesMatch, RunAdmissible, NeverRecreated, NormalizeEmail, Strip, RedeemStep;
    var t0 := Run(hash, EMPTY, before);
    EmptyIsOk();
    assert AddressesMatch(EMPTY) by { EmptyMatches(); }
    RunKeepsInv(hash, EMPTY, before);
    RunKeepsMatch(hash, EMPTY, before);
    var t1 := Step(hash, t0, CreateInvite(code, email), created).tables;
    StepKeepsInv(hash, t0, CreateInvite(code, email), created);
    StepKeepsMatch(hash, t0, CreateInvite(code, email), created);
    RunKeepsInv(hash, t1, calls);
    RunKeepsMatch(hash, t1, calls);
    RunKeepsInvited(hash, t1, calls, hash(code), NormalizeEmail(email));
    var t := Run(hash, t1, calls);
    RedeemMatches(hash, t, typed, suffix, token, now);
    RedeemOutcome(hash, t, typed, suffix, token, now);
  }

  lemma EmptyMatches()
    ensures AddressesMatch(EMPTY)
  {
  }

  lemma RedeemOutcome(hash: Hash, t: Tables, code: string, suffix: string, token: string, now: int)
    requires Inv(t) && Strip(code) != "" && hash(Strip(code)) in t.invites
    ensures var outcome := RedeemStep(hash, t, code, suffix, token, now).outcome;
            if outcome.LoggedIn? then outcome.token == token
            else outcome == Failed(IntegrityViolation) && (hash(token) in t.sessions || UserId(suffix) in t.users)
  {
    hide Strip, FindUser, Inv;
    InvParts(t, hash(Strip(code)));
  }

  /** A code that no invite was created for lets nobody in. */
  lemma UnknownCodeLetsNobodyIn(hash: Hash, t: Tables, code: string, suffix: string, token: string, now: int)
    ensures var outcome := Step(hash, t, Redeem(code, suffix, token), now).outcome;
            && (outcome == Failed(InviteCodeRequired) <==> Strip(code) == "")
            && (outcome == Failed(UnknownInviteCode) <==> Strip(code) != "" && hash(Strip(code)) !in t.invites)
  {
    hide Strip, FindUser;
  }

  // ---------- times of rows ----------

  // New users are called so, and came and were seen now; the others came when they came.
  predicate UsersStamped(t: Tables, t': Tables, now: int) {
    forall id :: id in t'.users ==>
      if id in t.users then t'.users[id].createdAt == t.users[id].createdAt
      else "user-" <= id && t'.users[id].createdAt == now && t'.users[id].lastSeenAt == now
  }

  // New sessions were opened and seen now; of the others, the one whose token was looked up.
  predicate SessionsStamped(t: Tables, t': Tables, seen: set<string>, now: int) {
    forall key :: key in t'.sessions ==>
      if key !in t.sessions then t'.sessions[key].createdAt == now && t'.sessions[key].lastSeenAt == now
      else if key in seen then t'.sessions[key] == t.sessions[key].(lastSeenAt := now)
      else t'.sessions[key] == t.sessions[key]
  }

  // New owners own from now on.
  predicate OwnersStamped(owners: map<string, Owner>, owners': map<string, Owner>, now: int) {
    forall id :: id in owners' ==> if id in owners then owners'[id] == owners[id] else owners'[id].createdAt == now
  }

  // An invite is created now and unredeemed, or is as it was but for being redeemed now.
  predicate InvitesStamped(t: Tables, t': Tables, created: set<string>, now: int) {
    forall key :: key in t'.invites ==>
      if key in created || key !in t.invites then t'.invites[key] == Invite(t'.invites[key].email, now, None, None)
      else t'.invites[key] == t.invites[key]
           || t'.invites[key] == t.invites[key].(redeemedBy := t'.invites[key].redeemedBy, redeemedAt := Some(now))
  }

  // The session that a lookup finds.
  function LookedUp(hash: Hash, op: Op, outcome: Outcome): set<string> {
    if op.UserForToken? && outcome.FoundUser? && outcome.found.Some? then {hash(op.token)} else {}
  }

  predicate Stamped(hash: Hash, t: Tables, op: Op, r: Reply, now: int) {
    && UsersStamped(t, r.tables, now) && SessionsStamped(t, r.tables, LookedUp(hash, op, r.outcome), now)
    && OwnersStamped(t.sessionOwners, r.tables.sessionOwners, now) && OwnersStamped(t.nodeOwners, r.tables.nodeOwners, now)
    && InvitesStamped(t, r.tables, Recreated(hash, op), now)
  }

  lemma RedeemInvitesStamped(hash: Hash, t: Tables, code: string, suffix: string, token: string, now: int)
    ensures InvitesStamped(t, RedeemStep(hash, t, code, suffix, token, now).tables, {}, now)
  {
    hide FindUser, Strip, EmailUser, Touch;
    var key := hash(Strip(code));
    if Strip(code) != "" && key in t.invites {
      EmailUserKeepsInvites(t, t.invites[key].email, suffix, now);
    }
  }

  lemma EmailUserKeepsInvites(t: Tables, email: Option<string>, suffix: string, now: int)
    ensures var r := EmailUser(t, email, suffix, now); r.Ok? ==> r.value.tables.invites == t.invites
  {
    hide FindUser, Touch;
  }

  // What signups and redeems leave, table by table.
  lemma LoginRowsAreStamped(hash: Hash, t: Tables, op: Op, now: int)
    requires op.Signup? || op.Redeem?
    ensures Stamped(hash, t, op, Step(hash, t, op, now), now)
  {
    hide LoginStep, RedeemStep, UsersStamped, InvitesStamped, RowNow, Seen, Strip, NormalizeEmail;
    var r := Step(hash, t, op, now);
    LoginLeavesSession(hash, t, op, now);
    if op.Redeem? {
      RedeemRow(hash, t, op.code, op.suffix, op.token, now);
      RedeemInvitesStamped(hash, t, op.code, op.suffix, op.token, now);
    } else {
      LoginRow(hash, t, NormalizeEmail(Some(op.address)), op.suffix, op.token, now);
      SameInvites(t, r.tables, now);
    }
    RowSeen(t, r, now, "");
  }

  lemma SameInvites(t: Tables, t': Tables, now: int)
    requires t'.invites == t.invites
    ensures InvitesStamped(t, t', {}, now)
  {
  }

  // Calls that touch neither users nor invites.
  lemma OthersKeepTables(hash: Hash, t: Tables, op: Op, now: int)
    requires op.CreatePairing? || op.ClaimPairing? || op.PollPairing? || op.ClaimSession? || op.ClaimNode? || op.DeleteSession?
    ensures var t' := Step(hash, t, op, now).tables;
            && t'.users == t.users && t'.invites == t.invites
            && SessionsStamped(t, t', {}, now)
            && OwnersStamped(t.sessionOwners, t'.sessionOwners, now) && OwnersStamped(t.nodeOwners, t'.nodeOwners, now)
  {
    hide ClaimPairingStep, CreatePairingStep, PollPairingStep, OwnersStamped, Claimed;
    SameOwners(t.sessionOwners, now);
    SameOwners(t.nodeOwners, now);
    match op
    case ClaimPairing(code, userId, token) => ClaimTouchesNoOthers(hash, t, code, userId, token, now);
    case CreatePairing(device, attempts) => PairingsOnly(hash, t, device, attempts, now);
    case PollPairing(device) => PairingsOnly(hash, t, device, [], now);
    case ClaimSession(userId, id) => NewOwner(t.sessionOwners, id, userId, now);
    case ClaimNode(userId, id) => NewOwner(t.nodeOwners, id, userId, now);
    case _ =>
  }

  lemma SameOwners(owners: map<string, Owner>, now: int)
    ensures OwnersStamped(owners, owners, now)
  {
  }

  lemma NewOwner(owners: map<string, Owner>, id: string, userId: string, now: int)
    ensures OwnersStamped(owners, Claimed(owners, id, userId, now), now)
  {
  }

  lemma PairingsOnly(hash: Hash, t: Tables, device: string, attempts: seq<string>, now: int)
    ensures CreatePairingStep(hash, t, device, attempts, now).tables
            == t.(pairings := CreatePairingStep(hash, t, device, attempts, now).tables.pairings)
    ensures PollPairingStep(hash, t, device, now).tables == t.(pairings := PollPairingStep(hash, t, device, now).tables.pairings)
  {
    hide FirstFree;
  }

  lemma ClaimTouchesNoOthers(hash: Hash, t: Tables, code: string, userId: string, token: string, now: int)
    ensures var t' := ClaimPairingStep(hash, t, code, userId, token, now).tables;
            && t'.users == t.users && t'.invites == t.invites && t'.sessionOwners == t.sessionOwners && t'.nodeOwners == t.nodeOwners
            && SessionsStamped(t, t', {}, now)
  {
    hide Strip, Upper, FindPairing;
  }

  lemma SameUsers(t: Tables, t': Tables, now: int)
    requires t'.users == t.users
    ensures UsersStamped(t, t', now)
  {
  }

  lemma PairingRowsAreStamped(hash: Hash, t: Tables, op: Op, now: int)
    requires op.CreatePairing? || op.ClaimPairing? || op.PollPairing? || op.ClaimSession? || op.ClaimNode? || op.DeleteSession?
    ensures Stamped(hash, t, op, Step(hash, t, op, now), now)
  {
    hide Step, UsersStamped, SessionsStamped, OwnersStamped, InvitesStamped;
    var t' := Step(hash, t, op, now).tables;
    OthersKeepTables(hash, t, op, now);
    SameUsers(t, t', now);
    SameInvites(t, t', now);
  }

  /** Every call stamps the rows it makes or redeems or looks up with its own time, and
      no others. */
  lemma RowsAreStamped(hash: Hash, t: Tables, op: Op, now: int)
    ensures Stamped(hash, t, op, Step(hash, t, op, now), now)
  {
    hide Step, Stamped;
    if op.Signup? || op.Redeem? {
      LoginRowsAreStamped(hash, t, op, now);
    } else if op.CreateInvite? {
      InviteRowsAreStamped(hash, t, op, now);
    } else if op.UserForToken? {
      LookupRowsAreStamped(hash, t, op, now);
    } else {
      PairingRowsAreStamped(hash, t, op, now);
    }
  }

  lemma InviteRowsAreStamped(hash: Hash, t: Tables, op: Op, now: int)
    requires op.CreateInvite?
    ensures Stamped(hash, t, op, Step(hash, t, op, now), now)
  {
    hide NormalizeEmail;
  }

  lemma LookupRowsAreStamped(hash: Hash, t: Tables, op: Op, now: int)
    requires op.UserForToken?
    ensures Stamped(hash, t, op, Step(hash, t, op, now), now)
  {
  }
}
