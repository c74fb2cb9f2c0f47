/** What every call on a pairing is answered with, and that a pairing completes: the
    code that was started can be claimed in time, and the claimed token reaches the
    device. */
module PairingFlow {
  import opened Wrappers
  import opened Text
  import opened AuthTables
  import opened AuthInvariant
  import PairingCodes
  import opened Pairings

  // In a store whose codes are distinct, a code finds the pairing that has it.
  lemma CodeFinds(t: Tables, key: string)
    requires CodesDistinct(t.pairings) && key in t.pairings
    ensures FindPairing(t.pairings, t.pairings[key].userCode) == Some(key)
  {
    assert HasCode(t.pairings, key, t.pairings[key].userCode);
  }

  /** A claim is answered by what stands under its code: used, expired, or claimed now,
      but for a collision of the fresh token. */
  lemma ClaimIsAnswered(hash: Hash, t: Tables, key: string, code: string, userId: string, token: string, now: int)
    requires Inv(t) && key in t.pairings && Upper(Strip(code)) == t.pairings[key].userCode
    ensures var p := t.pairings[key];
            var r := Step(hash, t, ClaimPairing(code, userId, token), now);
            if p.status == PairingClaimed then r == Reply(t, Failed(PairingAlreadyUsed))
            else if p.expiresAt <= now then r == Reply(t, Failed(PairingExpired))
            else if hash(token) in t.sessions then r == Reply(t, Failed(IntegrityViolation))
            else r.outcome == Done && key in r.tables.pairings && r.tables.pairings[key].status == PairingClaimed
                 && r.tables.pairings[key].userId == Some(userId) && r.tables.pairings[key].issuedToken == Some(token)
  {
    hide Strip, Upper, FindPairing, EmailsStored, EmailsUnique, NoDanglingUsers, PairingsOk;
    CodeFinds(t, key);
  }

  /** A code that no pairing has is refused, and nothing changes. */
  lemma UnknownCodeIsRefused(hash: Hash, t: Tables, code: string, userId: string, token: string, now: int)
    requires forall key :: key in t.pairings ==> t.pairings[key].userCode != Upper(Strip(code))
    ensures Step(hash, t, ClaimPairing(code, userId, token), now) == Reply(t, Failed(InvalidPairingCode))
  {
    hide Strip, Upper;
  }

  /** A poll is answered by the state of the device's own pairing. */
  lemma PollIsAnswered(hash: Hash, t: Tables, device: string, now: int)
    ensures var outcome := Step(hash, t, PollPairing(device), now).outcome;
            if hash(device) !in t.pairings then outcome == Failed(UnknownPairing)
            else
              var p := t.pairings[hash(device)];
              if p.status == PairingClaimed then outcome == Delivered(p.issuedToken)
              else outcome == if p.expiresAt <= now then Failed(PairingExpired) else StillPending
  {
  }

  /** A started pairing is pending under its device and code, for ten minutes. */
  lemma StartedIsPending(hash: Hash, t: Tables, device: string, attempts: seq<string>, now: int)
    ensures var r := Step(hash, t, CreatePairing(device, attempts), now);
            match r.outcome
            case PairingStarted(d, code, expiresAt) =>
              && d == device && code in attempts && expiresAt == now + 600
              && (forall key :: key in t.pairings ==> t.pairings[key].userCode != code && key != hash(device))
              && hash(device) in r.tables.pairings
              && r.tables.pairings[hash(device)] == Pairing(code, None, None, PairingPending, now, expiresAt, None)
              && forall key :: key in t.pairings ==> key in r.tables.pairings && r.tables.pairings[key] == t.pairings[key]
            case Failed(error) => r == Reply(t, Failed(NoPairingCodeLeft))
            case _ => false
  {
  }

  // This call claims by this code.
  predicate ClaimsCode(op: Op, code: string) {
    op.ClaimPairing? && Upper(Strip(op.code)) == code
  }

  predicate NeverClaimed(calls: seq<Call>, code: string) {
    forall i :: 0 <= i < |calls| ==> !ClaimsCode(calls[i].op, code)
  }

  predicate NeverPolled(hash: Hash, calls: seq<Call>, key: string) {
    forall i :: 0 <= i < |calls| ==> !PollsKey(hash, calls[i].op, key)
  }

  lemma {:induction false} PendingStays(hash: Hash, t: Tables, calls: seq<Call>, key: string)
    requires key in t.pairings && t.pairings[key].status == PairingPending && NeverClaimed(calls, t.pairings[key].userCode)
    ensures key in Run(hash, t, calls).pairings && Run(hash, t, calls).pairings[key] == t.pairings[key]
    decreases |calls|
  {
    hide Step, Strip, Upper;
    if calls != [] {
      PairingMoves(hash, t, calls[0].op, calls[0].now, key);
      PendingStays(hash, Step(hash, t, calls[0].op, calls[0].now).tables, calls[1..], key);
    }
  }

  lemma {:induction false} ClaimedStays(hash: Hash, t: Tables, calls: seq<Call>, key: string)
    requires key in t.pairings && t.pairings[key].status == PairingClaimed && NeverPolled(hash, calls, key)
    ensures key in Run(hash, t, calls).pairings && Run(hash, t, calls).pairings[key] == t.pairings[key]
    decreases |calls|
  {
    hide Step, Strip, Upper;
    if calls != [] {
      PairingMoves(hash, t, calls[0].op, calls[0].now, key);
      ClaimedStays(hash, Step(hash, t, calls[0].op, calls[0].now).tables, calls[1..], key);
    }
  }

  /** A pairing completes: after a device started one, and any run that does not claim
      its code, a claim of the code before it expires is done (or its fresh token
      collides); and after any run that does not poll for the device, the poll of the
      device delivers the claimed token, and the next poll delivers none. */
  lemma PairingCompletes(hash: Hash, t: Tables, device: string, attempts: seq<string>, now: int, waiting: seq<Call>,
                         typed: string, userId: string, token: string, claimedAt: int, meanwhile: seq<Call>, polledAt: int, again: int)
    requires Inv(t) && Admissible(t, CreatePairing(device, attempts))
    requires Step(hash, t, CreatePairing(device, attempts), now).outcome.PairingStarted?
    requires var r := Step(hash, t, CreatePairing(device, attempts), now);
             && RunAdmissible(hash, r.tables, waiting) && NeverClaimed(waiting, r.outcome.userCode)
             && Upper(Strip(typed)) == r.outcome.userCode && claimedAt < r.outcome.expiresAt
             && hash(token) !in Run(hash, r.tables, waiting).sessions
    requires NeverPolled(hash, meanwhile, hash(device))
    ensures var asked := Run(hash, Step(hash, t, CreatePairing(device, attempts), now).tables, waiting);
            var claim := Step(hash, asked, ClaimPairing(typed, userId, token), claimedAt);
            var poll := Step(hash, Run(hash, claim.tables, meanwhile), PollPairing(device), polledAt);
            && claim.outcome == Done && poll.outcome == Delivered(Some(token))
            && Step(hash, poll.tables, PollPairing(device), again).outcome == Delivered(None)
  {
    hide Step, Run, Inv, Strip, Upper, RunAdmissible, Admissible, NeverClaimed, NeverPolled;
    var key := hash(device);
    var r := Step(hash, t, CreatePairing(device, attempts), now);
    StartedIsPending(hash, t, device, attempts, now);
    StepKeepsInv(hash, t, CreatePairing(device, attempts), now);
    RunKeepsInv(hash, r.tables, waiting);
    PendingStays(hash, r.tables, waiting, key);
    var asked := Run(hash, r.tables, waiting);
    ClaimIsAnswered(hash, asked, key, typed, userId, token, claimedAt);
    var claim := Step(hash, asked, ClaimPairing(typed, userId, token), claimedAt);
    ClaimedStays(hash, claim.tables, meanwhile, key);
    var later := Run(hash, claim.tables, meanwhile);
    PollIsAnswered(hash, later, device, polledAt);
    PolledOnce(hash, later, device, polledAt);
    PollIsAnswered(hash, Step(hash, later, PollPairing(device), polledAt).tables, device, again);
  }

  lemma PolledOnce(hash: Hash, t: Tables, device: string, now: int)
    requires hash(device) in t.pairings && t.pairings[hash(device)].status == PairingClaimed
    ensures var t' := Step(hash, t, PollPairing(device), now).tables;
            && hash(device) in t'.pairings && t'.pairings[hash(device)].status == PairingClaimed
            && t'.pairings[hash(device)].issuedToken == None
  {
  }

  // The code as somebody may type it: any of its letters in lower case.
  predicate TypedAs(typed: string, code: string) {
    |typed| == |code|
    && forall i :: 0 <= i < |code| ==> typed[i] == code[i] || ('A' <= code[i] <= 'Z' && typed[i] as int == code[i] as int + 32)
  }

  /** A pairing code is recognised in either case and with white space around it. */
  lemma TypedCodeIsRecognised(before: string, typed: string, after: string, code: string)
    requires IsPairingCode(code) && TypedAs(typed, code) && AllSpace(before) && AllSpace(after)
    ensures Upper(Strip(before + typed + after)) == code
  {
    hide Strip, IsSpace;
    CodeLetters(code);
    forall i | 0 <= i < |code| ensures UpperChar(typed[i]) == code[i] && !IsSpace(typed[i]) {
      TypedLetter(typed[i], code[i]);
    }
    StripCore(before, typed, after);
    assert Upper(typed) == code;
  }

  lemma CodeLetters(code: string)
    requires IsPairingCode(code)
    ensures forall i :: 0 <= i < |code| ==> 'A' <= code[i] <= 'Z' || '2' <= code[i] <= '9'
  {
    assert forall i :: 0 <= i < |ALPHABET| ==> 'A' <= ALPHABET[i] <= 'Z' || '2' <= ALPHABET[i] <= '9';
  }

  lemma TypedLetter(typed: char, letter: char)
    requires 'A' <= letter <= 'Z' || '2' <= letter <= '9'
    requires typed == letter || ('A' <= letter <= 'Z' && typed as int == letter as int + 32)
    ensures UpperChar(typed) == letter && !IsSpace(typed)
  {
  }

  /** Ten codes are drawn for a pairing, each of four letters or digits, without those
      that are easily mistaken. */
  lemma DrawnCodes(t: Tables, device: string, attempts: seq<string>)
    ensures Admissible(t, CreatePairing(device, attempts)) <==>
            |attempts| == 10
            && forall i :: 0 <= i < 10 ==>
                 |attempts[i]| == 4
                 && forall j :: 0 <= j < 4 ==>
                      ('A' <= attempts[i][j] <= 'Z' && attempts[i][j] !in {'I', 'O'}) || '2' <= attempts[i][j] <= '9'
  {
    hide IsPairingCode;
    forall i | 0 <= i < |attempts| ensures IsPairingCode(attempts[i]) <==> CodeWord(attempts[i]) {
      CodeByLetters(attempts[i]);
    }
    assert forall i :: 0 <= i < |attempts| ==> (CodeWord(attempts[i]) <==> IsPairingCode(attempts[i]));
  }

  predicate CodeWord(code: string) {
    |code| == 4 && forall j :: 0 <= j < 4 ==> ('A' <= code[j] <= 'Z' && code[j] !in {'I', 'O'}) || '2' <= code[j] <= '9'
  }

  lemma CodeByLetters(code: string)
    ensures IsPairingCode(code) <==> CodeWord(code)
  {
    PairingCodes.AlphabetLetters();
    forall c: char ensures c in ALPHABET <==> ('A' <= c <= 'Z' && c !in {'I', 'O'}) || '2' <= c <= '9' {
      LetterIsDrawn(ALPHABET, c);
    }
  }

  lemma LetterIsDrawn(alphabet: string, c: char)
    requires |alphabet| == 32 && forall i :: 0 <= i < 32 ==> alphabet[i] as int == PairingCodes.LetterAt(i)
    ensures c in alphabet <==> ('A' <= c <= 'Z' && c !in {'I', 'O'}) || '2' <= c <= '9'
  {
    var n := c as int;
    if 'A' <= c <= 'H' {
      assert alphabet[n - 65] == c;
    } else if 'J' <= c <= 'N' {
      assert alphabet[n - 66] == c;
    } else if 'P' <= c <= 'Z' {
      assert alphabet[n - 67] == c;
    } else if '2' <= c <= '9' {
      assert alphabet[n - 26] == c;
    }
  }
}
