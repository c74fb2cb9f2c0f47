/** The tables of the public auth store and what each operation does to them.
    A step is atomic: the store holds one lock per operation, and an error rolls the
    transaction back, so a failed step leaves the tables as they were. Secrets
    appear only under a hash, which may be any function. Times are in seconds. */
module AuthTables {
  import opened Wrappers
  import opened Text

  datatype Invite = Invite(email: Option<string>, createdAt: int, redeemedBy: Option<string>, redeemedAt: Option<int>)

  datatype User = User(email: Option<string>, createdAt: int, lastSeenAt: int)

  datatype Session = Session(userId: string, createdAt: int, lastSeenAt: int)

  datatype Owner = Owner(userId: string, createdAt: int)

  datatype PairingStatus = PairingPending | PairingClaimed

  datatype Pairing = Pairing(
    userCode: string,
    userId: Option<string>,
    issuedToken: Option<string>,
    status: PairingStatus,
    createdAt: int,
    expiresAt: int,
    claimedAt: Option<int>)

  datatype Tables = Tables(
    invites: map<string, Invite>,
    users: map<string, User>,
    sessions: map<string, Session>,
    pairings: map<string, Pairing>,
    sessionOwners: map<string, Owner>,
    nodeOwners: map<string, Owner>)

  const EMPTY: Tables := Tables(map[], map[], map[], map[], map[], map[])

  datatype AuthError =
    | EmailRequired
    | InvitationCodeRequired
    | SignupNotConfigured
    | WrongInvitationCode
    | InviteCodeRequired
    | UnknownInviteCode
    | InviteIsInvalid
    | NoPairingCodeLeft
    | InvalidPairingCode
    | PairingAlreadyUsed
    | PairingExpired
    | UnknownPairing
    | IntegrityViolation

  datatype Outcome =
    | Done
    | LoggedIn(userId: string, email: Option<string>, token: string)
    | FoundUser(found: Option<string>)
    | PairingStarted(deviceCode: string, userCode: string, expiresAt: int)
    | StillPending
    | Delivered(delivered: Option<string>)
    | Failed(error: AuthError)

  datatype Reply = Reply(tables: Tables, outcome: Outcome)

  /** One call of the store. What the source draws at random or reads from a clock
      or the environment is part of the call. */
  datatype Op =
    | CreateInvite(code: string, email: Option<string>)
    | Signup(address: string, code: string, expected: string, suffix: string, token: string)
    | Redeem(code: string, suffix: string, token: string)
    | UserForToken(token: string)
    | DeleteSession(token: string)
    | CreatePairing(device: string, attempts: seq<string>)
    | ClaimPairing(code: string, userId: string, token: string)
    | PollPairing(device: string)
    | ClaimSession(userId: string, sessionId: string)
    | ClaimNode(userId: string, nodeId: string)

  type Hash = string -> string

  const ALPHABET := "ABCDEFGHJKLMNPQRSTUVWXYZ23456789"
  const CODE_LENGTH := 4
  const CODE_ATTEMPTS := 10
  const PAIRING_TTL := 600

  predicate IsPairingCode(code: string) {
    |code| == CODE_LENGTH && forall i :: 0 <= i < |code| ==> code[i] in ALPHABET
  }

  function NormalizeEmail(value: Option<string>): Option<string> {
    if value.None? || Lower(Strip(value.value)) == "" then None else Some(Lower(Strip(value.value)))
  }

  predicate IsExpired(expiresAt: int, now: int) {
    expiresAt <= now
  }

  // ---------- finding rows ----------

  predicate HasEmail(users: map<string, User>, id: string, email: string) {
    id in users && users[id].email.Some? && Lower(users[id].email.value) == email
  }

  /** The user with this address, if any. The source sorts several matches by
      activity; there never are several. */
  ghost function FindUser(users: map<string, User>, email: Option<string>): (r: Option<string>)
    ensures r.Some? ==> NormalizeEmail(email).Some? && HasEmail(users, r.value, NormalizeEmail(email).value)
    ensures r.None? && NormalizeEmail(email).Some? ==> forall id :: !HasEmail(users, id, NormalizeEmail(email).value)
  {
    var wanted := NormalizeEmail(email);
    if wanted.Some? && exists id :: HasEmail(users, id, wanted.value) then
      var id :| HasEmail(users, id, wanted.value);
      Some(id)
    else None
  }

  predicate HasCode(pairings: map<string, Pairing>, device: string, code: string) {
    device in pairings && pairings[device].userCode == code
  }

  ghost function FindPairing(pairings: map<string, Pairing>, code: string): (r: Option<string>)
    ensures r.Some? ==> HasCode(pairings, r.value, code)
    ensures r.None? ==> forall device :: !HasCode(pairings, device, code)
  {
    if exists device :: HasCode(pairings, device, code) then
      var device :| HasCode(pairings, device, code);
      Some(device)
    else None
  }

  predicate CodeInUse(pairings: map<string, Pairing>, code: string) {
    exists device :: device in pairings && pairings[device].userCode == code
  }

  // ---------- parts of steps ----------

  function Touch(users: map<string, User>, id: string, now: int): map<string, User>
    requires id in users
  {
    users[id := users[id].(lastSeenAt := now)]
  }

  // The last part of every login: a session row under the hash of a new token.
  function OpenSession(hash: Hash, before: Tables, after: Tables, userId: string, email: Option<string>, token: string, now: int): Reply {
    if hash(token) in after.sessions then Reply(before, Failed(IntegrityViolation))
    else Reply(after.(sessions := after.sessions[hash(token) := Session(userId, now, now)]), LoggedIn(userId, email, token))
  }

  function UserId(suffix: string): string {
    "user-" + suffix
  }

  // ---------- the steps ----------

  function CreateInviteStep(hash: Hash, t: Tables, code: string, email: Option<string>, now: int): Reply {
    Reply(t.(invites := t.invites[hash(code) := Invite(NormalizeEmail(email), now, None, None)]), Done)
  }

  /** A user who is about to get a session, and the tables by then. */
  datatype Bound = Bound(tables: Tables, id: string, email: Option<string>)

  // The user with this address, seen now, or else a new user.
  ghost function EmailUser(t: Tables, email: Option<string>, suffix: string, now: int): (r: Result<Bound, AuthError>)
    ensures r.Ok? ==> r.value.tables == t.(users := r.value.tables.users)
  {
    match FindUser(t.users, email)
    case Some(id) => Ok(Bound(t.(users := Touch(t.users, id, now)), id, t.users[id].email))
    case None =>
      var id := UserId(suffix);
      if id in t.users then Err(IntegrityViolation)
      else Ok(Bound(t.(users := t.users[id := User(email, now, now)]), id, email))
  }

  ghost function LoginStep(hash: Hash, t: Tables, email: Option<string>, suffix: string, token: string, now: int): Reply {
    var bound := EmailUser(t, email, suffix, now);
    if bound.Err? then Reply(t, Failed(bound.error))
    else OpenSession(hash, t, bound.value.tables, bound.value.id, bound.value.email, token, now)
  }

  ghost function SignupStep(hash: Hash, t: Tables, address: string, code: string, expected: string, suffix: string,
                            token: string, now: int): Reply {
    var email := NormalizeEmail(Some(address));
    if email.None? then Reply(t, Failed(EmailRequired))
    else if Strip(code) == "" then Reply(t, Failed(InvitationCodeRequired))
    else if Strip(expected) == "" then Reply(t, Failed(SignupNotConfigured))
    else if Strip(code) != Strip(expected) then Reply(t, Failed(WrongInvitationCode))
    else LoginStep(hash, t, email, suffix, token, now)
  }

  function MarkRedeemed(t: Tables, key: string, userId: string, now: int): Tables
    requires key in t.invites
  {
    t.(invites := t.invites[key := t.invites[key].(redeemedBy := Some(userId), redeemedAt := Some(now))])
  }

  predicate Redeemed(invite: Invite) {
    invite.redeemedBy.Some? && invite.redeemedBy.value != ""
  }

  // The user behind an invite: the one who redeemed it, or else the one with its
  // address, who has redeemed it from now on.
  ghost function InviteUser(t: Tables, key: string, suffix: string, now: int): Result<Bound, AuthError>
    requires key in t.invites
  {
    var invite := t.invites[key];
    if Redeemed(invite) then
      var id := invite.redeemedBy.value;
      if id !in t.users then Err(InviteIsInvalid)
      else Ok(Bound(t.(users := Touch(t.users, id, now)), id, t.users[id].email))
    else
      var bound :- EmailUser(t, invite.email, suffix, now);
      Ok(bound.(tables := MarkRedeemed(bound.tables, key, bound.id, now)))
  }

  ghost function RedeemStep(hash: Hash, t: Tables, code: string, suffix: string, token: string, now: int): Reply {
    var key := hash(Strip(code));
    if Strip(code) == "" then Reply(t, Failed(InviteCodeRequired))
    else if key !in t.invites then Reply(t, Failed(UnknownInviteCode))
    else
      var bound := InviteUser(t, key, suffix, now);
      if bound.Err? then Reply(t, Failed(bound.error))
      else OpenSession(hash, t, bound.value.tables, bound.value.id, bound.value.email, token, now)
  }

  function UserForTokenStep(hash: Hash, t: Tables, token: string, now: int): Reply {
    var key := hash(token);
    if token == "" || key !in t.sessions || t.sessions[key].userId !in t.users then Reply(t, FoundUser(None))
    else
      var id := t.sessions[key].userId;
      Reply(t.(sessions := t.sessions[key := t.sessions[key].(lastSeenAt := now)], users := Touch(t.users, id, now)),
            FoundUser(Some(id)))
  }

  function DeleteSessionStep(hash: Hash, t: Tables, token: string): Reply {
    if token == "" then Reply(t, Done) else Reply(t.(sessions := t.sessions - {hash(token)}), Done)
  }

  // The first attempt that neither unique index refuses.
  function FirstFree(pairings: map<string, Pairing>, key: string, attempts: seq<string>): (k: nat)
    ensures k <= |attempts|
    ensures forall i :: 0 <= i < k ==> key in pairings || CodeInUse(pairings, attempts[i])
    ensures k < |attempts| ==> key !in pairings && !CodeInUse(pairings, attempts[k])
  {
    if attempts == [] || (key !in pairings && !CodeInUse(pairings, attempts[0])) then 0
    else 1 + FirstFree(pairings, key, attempts[1..])
  }

  function NewPairing(code: string, now: int): Pairing {
    Pairing(code, None, None, PairingPending, now, now + PAIRING_TTL, None)
  }

  function CreatePairingStep(hash: Hash, t: Tables, device: string, attempts: seq<string>, now: int): Reply {
    var k := FirstFree(t.pairings, hash(device), attempts);
    if k == |attempts| then Reply(t, Failed(NoPairingCodeLeft))
    else Reply(t.(pairings := t.pairings[hash(device) := NewPairing(attempts[k], now)]),
               PairingStarted(device, attempts[k], now + PAIRING_TTL))
  }

  ghost function ClaimPairingStep(hash: Hash, t: Tables, code: string, userId: string, token: string, now: int): Reply {
    var found := FindPairing(t.pairings, Upper(Strip(code)));
    if found.None? then Reply(t, Failed(InvalidPairingCode))
    else
      var p := t.pairings[found.value];
      if p.status != PairingPending then Reply(t, Failed(PairingAlreadyUsed))
      else if IsExpired(p.expiresAt, now) then Reply(t, Failed(PairingExpired))
      else if hash(token) in t.sessions then Reply(t, Failed(IntegrityViolation))
      else
        var claimed := p.(status := PairingClaimed, userId := Some(userId), issuedToken := Some(token), claimedAt := Some(now));
        Reply(t.(sessions := t.sessions[hash(token) := Session(userId, now, now)],
                 pairings := t.pairings[found.value := claimed]), Done)
  }

  function PollPairingStep(hash: Hash, t: Tables, device: string, now: int): Reply {
    var key := hash(device);
    if key !in t.pairings then Reply(t, Failed(UnknownPairing))
    else
      var p := t.pairings[key];
      if p.status == PairingPending then
        Reply(t, if IsExpired(p.expiresAt, now) then Failed(PairingExpired) else StillPending)
      else if p.issuedToken.Some? then
        Reply(t.(pairings := t.pairings[key := p.(issuedToken := None)]), Delivered(p.issuedToken))
      else Reply(t, Delivered(None))
  }

  // `INSERT OR IGNORE`: the first owner stays.
  function Claimed(owners: map<string, Owner>, id: string, userId: string, now: int): map<string, Owner> {
    if id in owners then owners else owners[id := Owner(userId, now)]
  }

  ghost function Step(hash: Hash, t: Tables, op: Op, now: int): Reply {
    match op
    case CreateInvite(code, email) => CreateInviteStep(hash, t, code, email, now)
    case Signup(address, code, expected, suffix, token) => SignupStep(hash, t, address, code, expected, suffix, token, now)
    case Redeem(code, suffix, token) => RedeemStep(hash, t, code, suffix, token, now)
    case UserForToken(token) => UserForTokenStep(hash, t, token, now)
    case DeleteSession(token) => DeleteSessionStep(hash, t, token)
    case CreatePairing(device, attempts) => CreatePairingStep(hash, t, device, attempts, now)
    case ClaimPairing(code, userId, token) => ClaimPairingStep(hash, t, code, userId, token, now)
    case PollPairing(device) => PollPairingStep(hash, t, device, now)
    case ClaimSession(userId, sessionId) => Reply(t.(sessionOwners := Claimed(t.sessionOwners, sessionId, userId, now)), Done)
    case ClaimNode(userId, nodeId) => Reply(t.(nodeOwners := Claimed(t.nodeOwners, nodeId, userId, now)), Done)
  }
}
