/** The auth store itself: an object whose methods change its tables in place. Each
    method is one call under the lock; on an integrity error the transaction is
    rolled back. Every method is proved to make exactly its step. */
module AuthStore {
  import opened Wrappers
  import opened Text
  import opened AuthTables
  import opened AuthInvariant

  class PublicAuthStore {
    const hash: Hash
    var invites: map<string, Invite>
    var users: map<string, User>
    var sessions: map<string, Session>
    var pairings: map<string, Pairing>
    var sessionOwners: map<string, Owner>
    var nodeOwners: map<string, Owner>

    ghost function View(): Tables
      reads this
    {
      Tables(invites, users, sessions, pairings, sessionOwners, nodeOwners)
    }

    ghost predicate Valid()
      reads this
    {
      Inv(View())
    }

    constructor (hash: Hash)
      ensures Valid() && View() == EMPTY && this.hash == hash
    {
      this.hash := hash;
      invites, users, sessions, pairings, sessionOwners, nodeOwners := map[], map[], map[], map[], map[], map[];
      new;
      EmptyIsOk();
    }

    // ---------- queries and inserts ----------

    // The SELECT for a user by address.
    method FindExistingUser(email: Option<string>) returns (found: Option<string>)
      requires Valid()
      ensures found == FindUser(users, email)
    {
      hide Strip, Lower, Trimmed, PairingsOk, CodesDistinct, NoDanglingUsers;
      var wanted := NormalizeEmail(email);
      if wanted.None? {
        return None;
      }
      var rest := users.Keys;
      while rest != {}
        invariant rest <= users.Keys
        invariant forall id :: id in users && id !in rest ==> !HasEmail(users, id, wanted.value)
        decreases rest
      {
        var id :| id in rest;
        if users[id].email.Some? && Lower(users[id].email.value) == wanted.value {
          assert HasEmail(users, id, wanted.value);
          return Some(id);
        }
        rest := rest - {id};
      }
      return None;
    }

    // The SELECT for a pairing by its unique code.
    method FindPairingRow(code: string) returns (found: Option<string>)
      requires Valid()
      ensures found == FindPairing(pairings, code)
    {
      hide PairingsOk, EmailsStored, EmailsUnique, NoDanglingUsers;
      var rest := pairings.Keys;
      while rest != {}
        invariant rest <= pairings.Keys
        invariant forall device :: device in pairings && device !in rest ==> !HasCode(pairings, device, code)
        decreases rest
      {
        var device :| device in rest;
        if pairings[device].userCode == code {
          assert HasCode(pairings, device, code);
          return Some(device);
        }
        rest := rest - {device};
      }
      return None;
    }

    // The INSERT of a session; its primary key is the hash of the token.
    method InsertSession(token: string, userId: string, now: int) returns (ok: bool)
      modifies this`sessions
      ensures ok <==> hash(token) !in old(sessions)
      ensures sessions == if ok then old(sessions)[hash(token) := Session(userId, now, now)] else old(sessions)
    {
      if hash(token) in sessions {
        return false;
      }
      sessions := sessions[hash(token) := Session(userId, now, now)];
      return true;
    }

    // The user with this address, seen now, or else a new user.
    method FindOrInsertUser(email: Option<string>, suffix: string, now: int)
      returns (ok: bool, id: string, address: Option<string>)
      requires Valid()
      modifies this`users
      ensures if ok then Ok(Bound(View(), id, address)) == EmailUser(old(View()), email, suffix, now)
              else View() == old(View()) && EmailUser(old(View()), email, suffix, now) == Err(IntegrityViolation)
    {
      hide Inv, FindUser;
      var found := FindExistingUser(email);
      if found.Some? {
        id, address := found.value, users[found.value].email;
        users := users[id := users[id].(lastSeenAt := now)];
        return true, id, address;
      }
      id := UserId(suffix);
      if id in users {
        return false, id, email;
      }
      users := users[id := User(email, now, now)];
      return true, id, email;
    }

    // The user behind an invite, who has redeemed it from now on. That the user of
    // a redeemed invite is missing, which the source answers with an error, cannot
    // happen in a valid store.
    method BindInvite(key: string, suffix: string, now: int) returns (ok: bool, id: string, address: Option<string>)
      requires Valid() && key in invites
      modifies this`users, this`invites
      ensures if ok then Ok(Bound(View(), id, address)) == InviteUser(old(View()), key, suffix, now)
              else View() == old(View()) && InviteUser(old(View()), key, suffix, now) == Err(IntegrityViolation)
    {
      hide Inv, EmailUser;
      InviteUserKeepsInv(View(), key, suffix, now);
      var invite := invites[key];
      if invite.redeemedBy.Some? && invite.redeemedBy.value != "" {
        id := invite.redeemedBy.value;
        address := users[id].email;
        users := users[id := users[id].(lastSeenAt := now)];
        return true, id, address;
      }
      ok, id, address := FindOrInsertUser(invite.email, suffix, now);
      if ok {
        invites := invites[key := invite.(redeemedBy := Some(id), redeemedAt := Some(now))];
      }
    }

    // ---------- the calls ----------

    method CreateInvite(code: string, email: Option<string>, now: int) returns (outcome: Outcome)
      requires Valid()
      modifies this
      ensures Valid() && Reply(View(), outcome) == Step(hash, old(View()), Op.CreateInvite(code, email), now)
    {
      hide NormalizeEmail, Inv;
      CreateInviteKeepsInv(hash, View(), code, email, now);
      invites := invites[hash(code) := Invite(NormalizeEmail(email), now, None, None)];
      return Done;
    }

    method CreateUserSession(email: Option<string>, suffix: string, token: string, now: int) returns (outcome: Outcome)
      requires Valid() && StoredEmail(email)
      modifies this
      ensures Valid() && Reply(View(), outcome) == LoginStep(hash, old(View()), email, suffix, token, now)
    {
      hide Inv, StoredEmail, FindUser;
      LoginKeepsInv(hash, View(), email, suffix, token, now);
      var saved := users;
      var ok, id, address := FindOrInsertUser(email, suffix, now);
      if !ok {
        return Failed(IntegrityViolation);
      }
      ok := InsertSession(token, id, now);
      if !ok {
        users := saved;
        return Failed(IntegrityViolation);
      }
      return LoggedIn(id, address, token);
    }

    method SignupWithFixedCode(address: string, code: string, expected: string, suffix: string, token: string, now: int)
      returns (outcome: Outcome)
      requires Valid()
      modifies this
      ensures Valid() && Reply(View(), outcome) == Step(hash, old(View()), Op.Signup(address, code, expected, suffix, token), now)
    {
      hide Inv, StoredEmail, LoginStep, Strip;
      var email := NormalizeEmail(Some(address));
      NormalizedIsStored(Some(address));
      if email.None? {
        return Failed(EmailRequired);
      }
      if Strip(code) == "" {
        return Failed(InvitationCodeRequired);
      }
      if Strip(expected) == "" {
        return Failed(SignupNotConfigured);
      }
      if Strip(code) != Strip(expected) {
        return Failed(WrongInvitationCode);
      }
      outcome := CreateUserSession(email, suffix, token, now);
    }

    method RedeemInvite(code: string, suffix: string, token: string, now: int) returns (outcome: Outcome)
      requires Valid()
      modifies this
      ensures Valid() && Reply(View(), outcome) == Step(hash, old(View()), Op.Redeem(code, suffix, token), now)
      ensures outcome != Failed(InviteIsInvalid)
    {
      hide Inv, StoredEmail, FindUser, Strip;
      RedeemKeepsInv(hash, View(), code, suffix, token, now);
      var normalized := Strip(code);
      if normalized == "" {
        return Failed(InviteCodeRequired);
      }
      var key := hash(normalized);
      if key !in invites {
        return Failed(UnknownInviteCode);
      }
      var savedUsers, savedInvites := users, invites;
      var ok, id, address := BindInvite(key, suffix, now);
      if !ok {
        return Failed(IntegrityViolation);
      }
      ok := InsertSession(token, id, now);
      if !ok {
        users, invites := savedUsers, savedInvites;
        return Failed(IntegrityViolation);
      }
      return LoggedIn(id, address, token);
    }

    method UserForToken(token: string, now: int) returns (outcome: Outcome)
      requires Valid()
      modifies this
      ensures Valid() && Reply(View(), outcome) == Step(hash, old(View()), Op.UserForToken(token), now)
    {
      hide Inv;
      UserForTokenKeepsInv(hash, View(), token, now);
      if token == "" {
        return FoundUser(None);
      }
      var key := hash(token);
      if key !in sessions || sessions[key].userId !in users {
        return FoundUser(None);
      }
      var id := sessions[key].userId;
      sessions := sessions[key := sessions[key].(lastSeenAt := now)];
      users := users[id := users[id].(lastSeenAt := now)];
      return FoundUser(Some(id));
    }

    method DeleteBrowserSession(token: string, now: int) returns (outcome: Outcome)
      requires Valid()
      modifies this
      ensures Valid() && Reply(View(), outcome) == Step(hash, old(View()), Op.DeleteSession(token), now)
    {
      hide Inv;
      DeleteSessionKeepsInv(hash, View(), token);
      if token != "" {
        sessions := sessions - {hash(token)};
      }
      return Done;
    }

    method CreateDevicePairing(device: string, attempts: seq<string>, now: int) returns (outcome: Outcome)
      requires Valid() && Admissible(View(), CreatePairing(device, attempts))
      modifies this
      ensures Valid() && Reply(View(), outcome) == Step(hash, old(View()), CreatePairing(device, attempts), now)
    {
      hide Inv, Admissible;
      CreatePairingKeepsInv(hash, View(), device, attempts, now);
      var key := hash(device);
      for k := 0 to |attempts|
        invariant View() == old(View())
        invariant k <= FirstFree(pairings, key, attempts)
      {
        if key !in pairings && !CodeTaken(attempts[k]) {
          pairings := pairings[key := NewPairing(attempts[k], now)];
          return PairingStarted(device, attempts[k], now + PAIRING_TTL);
        }
      }
      return Failed(NoPairingCodeLeft);
    }

    // The unique index on codes.
    predicate CodeTaken(code: string)
      reads this`pairings
      ensures CodeTaken(code) <==> CodeInUse(pairings, code)
    {
      exists device :: device in pairings && pairings[device].userCode == code
    }

    method ClaimDevicePairing(code: string, userId: string, token: string, now: int) returns (outcome: Outcome)
      requires Valid()
      modifies this
      ensures userId in old(users) ==> Valid()
      ensures Reply(View(), outcome) == Step(hash, old(View()), ClaimPairing(code, userId, token), now)
    {
      hide Inv, Strip, Upper, FindPairing;
      if userId in users {
        ClaimPairingKeepsInv(hash, View(), code, userId, token, now);
      }
      var normalized := Upper(Strip(code));
      var found := FindPairingRow(normalized);
      if found.None? {
        return Failed(InvalidPairingCode);
      }
      var row := pairings[found.value];
      if row.status != PairingPending {
        return Failed(PairingAlreadyUsed);
      }
      if IsExpired(row.expiresAt, now) {
        return Failed(PairingExpired);
      }
      var ok := InsertSession(token, userId, now);
      if !ok {
        return Failed(IntegrityViolation);
      }
      pairings := pairings[found.value := row.(status := PairingClaimed, userId := Some(userId), issuedToken := Some(token),
                                               claimedAt := Some(now))];
      return Done;
    }

    method PollDevicePairing(device: string, now: int) returns (outcome: Outcome)
      requires Valid()
      modifies this
      ensures Valid() && Reply(View(), outcome) == Step(hash, old(View()), PollPairing(device), now)
    {
      hide Inv;
      PollPairingKeepsInv(hash, View(), device, now);
      var key := hash(device);
      if key !in pairings {
        return Failed(UnknownPairing);
      }
      var row := pairings[key];
      if row.status == PairingPending {
        if IsExpired(row.expiresAt, now) {
          return Failed(PairingExpired);
        }
        return StillPending;
      }
      var token := row.issuedToken;
      if token.Some? {
        pairings := pairings[key := row.(issuedToken := None)];
      }
      return Delivered(token);
    }

    method ClaimSession(userId: string, sessionId: string, now: int) returns (outcome: Outcome)
      requires Valid()
      modifies this
      ensures Valid() && Reply(View(), outcome) == Step(hash, old(View()), Op.ClaimSession(userId, sessionId), now)
    {
      hide Inv;
      if sessionId !in sessionOwners {
        OwnersKeepInv(View(), sessionOwners[sessionId := Owner(userId, now)], nodeOwners);
        sessionOwners := sessionOwners[sessionId := Owner(userId, now)];
      }
      return Done;
    }

    method ClaimExecutorNode(userId: string, nodeId: string, now: int) returns (outcome: Outcome)
      requires Valid()
      modifies this
      ensures Valid() && Reply(View(), outcome) == Step(hash, old(View()), ClaimNode(userId, nodeId), now)
    {
      hide Inv;
      if nodeId !in nodeOwners {
        OwnersKeepInv(View(), sessionOwners, nodeOwners[nodeId := Owner(userId, now)]);
        nodeOwners := nodeOwners[nodeId := Owner(userId, now)];
      }
      return Done;
    }
  }
}
