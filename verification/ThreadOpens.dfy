/** Opening threads while earlier opens are still under way. The shell is an object
    that the steps change; between two steps of one open, any other step may run.
    Functions on its state say what each step does, and runs of them what any
    interleaving leads to. */
module ThreadOpens {
  import opened Wrappers
  import opened ShellLists

  /** The persona and thread of an open: what requests in flight are told apart by. */
  datatype Key = Key(persona: string, thread: string)

  datatype State = State(
    latest: Option<Key>,
    inFlight: set<Key>,
    opening: Option<string>,
    openError: Option<string>,
    threads: seq<Thread>,
    turns: seq<Turn>,
    pages: map<string, PageInfo>)

  const INITIAL: State := State(None, {}, None, None, [], [], map[])

  datatype Event =
    | Open(key: Key)
    | Reply(key: Key, reply: Result<TimelinePage, string>)
    | Elsewhere(threads: seq<Thread>, turns: seq<Turn>, pages: map<string, PageInfo>)

  // ---------- the steps ----------

  // Up to the request: nothing more when the same open is already in flight.
  function OpenStep(s: State, key: Key): State {
    var shown := s.(latest := Some(key), opening := Some(key.thread), openError := None);
    if key in s.inFlight then shown
    else shown.(inFlight := s.inFlight + {key}, threads := MarkThread(s.threads, key.thread, Loading, None))
  }

  // What the reply is allowed to change: nothing when a later open superseded it.
  function ActOn(s: State, key: Key, reply: Result<TimelinePage, string>): State {
    if s.latest != Some(key) then s
    else match reply
      case Ok(page) =>
        s.(threads := UpsertThread(s.threads, page.thread), turns := ReplaceTurns(s.turns, key.thread, page.turns),
           pages := s.pages[key.thread := page.info])
      case Err(message) =>
        s.(threads := MarkThread(s.threads, key.thread, LoadFailed, Some(message)), openError := Some(message))
  }

  // The end of every open, whichever way it went.
  function Finish(s: State, key: Key): State {
    s.(inFlight := s.inFlight - {key}, opening := if s.opening == Some(key.thread) then None else s.opening)
  }

  function Next(s: State, e: Event): State {
    match e
    case Open(key) => OpenStep(s, key)
    case Reply(key, reply) => Finish(ActOn(s, key, reply), key)
    case Elsewhere(threads, turns, pages) => s.(threads := threads, turns := turns, pages := pages)
  }

  // A reply comes only for a request in flight.
  predicate Possible(s: State, e: Event) {
    e.Reply? ==> e.key in s.inFlight
  }

  function Run(s: State, events: seq<Event>): State
    decreases |events|
  {
    if events == [] then s else Run(Next(s, events[0]), events[1..])
  }

  predicate PossibleRun(s: State, events: seq<Event>)
    decreases |events|
  {
    events == [] || (Possible(s, events[0]) && PossibleRun(Next(s, events[0]), events[1..]))
  }

  // ---------- the shell ----------

  class Shell {
    var latestKey: Option<Key>
    var inFlight: set<Key>
    var openingThread: Option<string>
    var openError: Option<string>
    var threads: seq<Thread>
    var turns: seq<Turn>
    var pages: map<string, PageInfo>

    function View(): State
      reads this
    {
      State(latestKey, inFlight, openingThread, openError, threads, turns, pages)
    }

    constructor ()
      ensures View() == INITIAL
    {
      latestKey, inFlight, openingThread, openError, threads, turns, pages := None, {}, None, None, [], [], map[];
    }

    method BeginThreadOpen(key: Key) returns (begun: bool)
      modifies this`inFlight
      ensures begun <==> key !in old(inFlight)
      ensures inFlight == old(inFlight) + {key}
    {
      if key in inFlight {
        return false;
      }
      inFlight := inFlight + {key};
      return true;
    }

    method OpenRuntimeBroThread(key: Key) returns (requested: bool)
      modifies this
      ensures View() == Next(old(View()), Open(key))
      ensures requested <==> key !in old(inFlight)
    {
      latestKey := Some(key);
      openingThread := Some(key.thread);
      openError := None;
      requested := BeginThreadOpen(key);
      if requested {
        threads := MarkThread(threads, key.thread, Loading, None);
      }
    }

    method OpenReplied(key: Key, reply: Result<TimelinePage, string>)
      modifies this
      ensures View() == Next(old(View()), Reply(key, reply))
    {
      if latestKey == Some(key) {
        match reply {
          case Ok(page) =>
            threads := UpsertThread(threads, page.thread);
            turns := ReplaceTurns(turns, key.thread, page.turns);
            pages := pages[key.thread := page.info];
          case Err(message) =>
            threads := MarkThread(threads, key.thread, LoadFailed, Some(message));
            openError := Some(message);
        }
      }
      inFlight := inFlight - {key};
      if openingThread == Some(key.thread) {
        openingThread := None;
      }
    }
  }

  // ---------- what always holds ----------

  /** What is shown as opening is the thread of the latest open, whose request is in
      flight. */
  predicate OpeningIsInFlight(s: State) {
    s.opening.Some? ==> s.latest.Some? && s.latest.value.thread == s.opening.value && s.latest.value in s.inFlight
  }

  lemma {:induction false} OpeningStaysInFlight(s: State, events: seq<Event>)
    requires OpeningIsInFlight(s)
    ensures OpeningIsInFlight(Run(s, events))
    decreases |events|
  {
    if events != [] {
      OpeningStaysInFlight(Next(s, events[0]), events[1..]);
    }
  }

  /** In every interleaving, with anything else changing the lists in between: what
      is shown as opening is in flight, so nothing is once no request is. */
  lemma NothingOpensForEver(events: seq<Event>)
    ensures OpeningIsInFlight(Run(INITIAL, events))
    ensures Run(INITIAL, events).inFlight == {} ==> Run(INITIAL, events).opening == None
  {
    OpeningStaysInFlight(INITIAL, events);
  }

  // Every key names the one persona its thread belongs to.
  ghost predicate OnePersonaEach(owner: string -> string, s: State, events: seq<Event>) {
    && (s.latest.Some? ==> s.latest.value.persona == owner(s.latest.value.thread))
    && (forall i :: 0 <= i < |events| && !events[i].Elsewhere? ==> events[i].key.persona == owner(events[i].key.thread))
  }

  predicate ShownWhileInFlight(s: State) {
    s.latest.Some? && s.latest.value in s.inFlight ==> s.opening == Some(s.latest.value.thread)
  }

  /** When a thread belongs to one persona, the latest open is shown as opening
      exactly as long as its request is in flight. */
  lemma {:induction false} LatestIsShown(owner: string -> string, s: State, events: seq<Event>)
    requires OnePersonaEach(owner, s, events) && OpeningIsInFlight(s) && ShownWhileInFlight(s)
    ensures var s' := Run(s, events);
            s'.latest.Some? ==> (s'.opening == Some(s'.latest.value.thread) <==> s'.latest.value in s'.inFlight)
    decreases |events|
  {
    if events != [] {
      LatestIsShown(owner, Next(s, events[0]), events[1..]);
    }
  }

  /** Two runs that differ in nothing but what the replies to superseded opens say. */
  predicate SameButSuperseded(s: State, a: seq<Event>, b: seq<Event>)
    decreases |a|
  {
    |a| == |b|
    && (a == []
        || ((a[0] == b[0] || (a[0].Reply? && b[0].Reply? && a[0].key == b[0].key && s.latest != Some(a[0].key)))
            && SameButSuperseded(Next(s, a[0]), a[1..], b[1..])))
  }

  /** What the replies to superseded opens say has no influence on any state: pages or
      errors, runs that differ only there end alike. */
  lemma {:induction false} SupersededRepliesAreIgnored(s: State, a: seq<Event>, b: seq<Event>)
    requires SameButSuperseded(s, a, b)
    ensures Run(s, a) == Run(s, b)
    decreases |a|
  {
    if a != [] {
      SupersededRepliesAreIgnored(Next(s, a[0]), a[1..], b[1..]);
    }
  }

  /** A reply, acted on or not, ends its own request and only that; its thread is not
      shown as opening any more, and what else is shown as opening stays. */
  lemma ReplyEndsOpening(s: State, key: Key, reply: Result<TimelinePage, string>)
    ensures var s' := Next(s, Reply(key, reply));
            && s'.inFlight == s.inFlight - {key} && s'.latest == s.latest
            && s'.opening != Some(key.thread)
            && (s.opening != Some(key.thread) ==> s'.opening == s.opening)
            && (s.opening == Some(key.thread) ==> s'.opening == None)
  {
  }

  // ---------- at rest ----------

  predicate NoOpen(events: seq<Event>) {
    forall i :: 0 <= i < |events| ==> !events[i].Open?
  }

  predicate NothingElsewhere(events: seq<Event>) {
    forall i :: 0 <= i < |events| ==> !events[i].Elsewhere?
  }

  lemma {:induction false} RunInParts(s: State, a: seq<Event>, b: seq<Event>)
    ensures Run(s, a + b) == Run(Run(s, a), b)
    ensures PossibleRun(s, a + b) <==> PossibleRun(s, a) && PossibleRun(Run(s, a), b)
    decreases |a|
  {
    hide Next, Possible;
    if a == [] {
      assert a + b == b;
    } else {
      RunInParts(Next(s, a[0]), a[1..], b);
      assert (a + b)[1..] == a[1..] + b;
    }
  }

  // Without a further open, the latest key stays, and once its request is answered
  // no reply is acted on any more.
  lemma {:induction false} QuietAfterReply(s: State, key: Key, events: seq<Event>)
    requires s.latest == Some(key) && key !in s.inFlight
    requires NoOpen(events) && NothingElsewhere(events) && PossibleRun(s, events)
    ensures var s' := Run(s, events);
            SameLists(s', s) && s'.latest == s.latest && key !in s'.inFlight
    decreases |events|
  {
    if events != [] {
      QuietAfterReply(Next(s, events[0]), key, events[1..]);
    }
  }

  predicate NoReplyOf(events: seq<Event>, key: Key) {
    forall i :: 0 <= i < |events| && events[i].Reply? ==> events[i].key != key
  }

  // Where the request of the latest open is answered first, if it is.
  lemma {:induction false} LatestIsAnswered(s: State, key: Key, events: seq<Event>) returns (i: nat)
    requires s.latest == Some(key) && key in s.inFlight
    requires NoOpen(events) && PossibleRun(s, events) && key !in Run(s, events).inFlight
    ensures i < |events| && events[i].Reply? && events[i].key == key && NoReplyOf(events[..i], key)
    ensures var found := Run(s, events[..i]);
            found.latest == Some(key) && key in found.inFlight && found.openError == s.openError
    decreases |events|
  {
    if events[0].Reply? && events[0].key == key {
      assert events[..0] == [];
      return 0;
    }
    var k := LatestIsAnswered(Next(s, events[0]), key, events[1..]);
    assert events[..k + 1][1..] == events[1..][..k];
    var (first, rest) := (events[..k + 1], events[1..][..k]);
    assert first == [events[0]] + rest;
    return k + 1;
  }

  // Without a further open no reply is acted on once the latest is answered, whatever
  // happens elsewhere.
  lemma {:induction false} ErrorStaysAfterReply(s: State, key: Key, events: seq<Event>)
    requires s.latest == Some(key) && key !in s.inFlight
    requires NoOpen(events) && PossibleRun(s, events)
    ensures Run(s, events).openError == s.openError
    ensures events == [] || NoReplyOf(events, key)
    decreases |events|
  {
    if events != [] {
      ErrorStaysAfterReply(Next(s, events[0]), key, events[1..]);
      assert forall i :: 0 < i < |events| ==> events[i] == events[1..][i - 1];
    }
  }

  // At rest, the last opened thread's own reply was acted on and was the last for it.
  lemma LastReplyIsActedOn(before: seq<Event>, key: Key, after: seq<Event>) returns (i: nat)
    requires PossibleRun(INITIAL, before + [Open(key)] + after) && NoOpen(after)
    requires Run(INITIAL, before + [Open(key)] + after).inFlight == {}
    ensures i < |after| && after[i].Reply? && after[i].key == key
    ensures NoReplyOf(after[..i], key) && NoReplyOf(after[i + 1..], key)
    ensures var found := Run(INITIAL, before + [Open(key)] + after[..i]);
            var answered := Run(INITIAL, before + [Open(key)] + after[..i + 1]);
            var end := Run(INITIAL, before + [Open(key)] + after);
            var acted := ActOn(found, key, after[i].reply);
            && found.latest == Some(key) && found.openError == None
            && SameLists(answered, acted) && (NothingElsewhere(after[i + 1..]) ==> SameLists(end, acted))
            && end.openError == acted.openError && end.opening == None
  {
    hide Next, Possible;
    var start := before + [Open(key)];
    var s := Run(INITIAL, start);
    RunInParts(INITIAL, before, [Open(key)]);
    RunInParts(INITIAL, start, after);
    assert s == Next(Run(INITIAL, before), Open(key)) by { assert [Open(key)][1..] == []; }
    OpenedIsInFlight(Run(INITIAL, before), key);
    i := LatestIsAnswered(s, key, after);
    RunInParts(INITIAL, start, after[..i]);
    RunInParts(s, after[..i], after[i..]);
    assert after == after[..i] + after[i..];
    var found := Run(s, after[..i]);
    assert after[i..][0] == after[i] && after[i..][1..] == after[i + 1..];
    ReplyEnds(found, key, after[i].reply);
    assert PossibleRun(found, after[i..]);
    var rest := after[i + 1..];
    ErrorStaysAfterReply(Next(found, after[i]), key, rest);
    if NothingElsewhere(rest) {
      QuietAfterReply(Next(found, after[i]), key, rest);
    }
    AnsweredRun(INITIAL, start, after, i);
    NothingOpensForEver(start + after);
  }

  // The threads with this id have this status and error, and are otherwise as before,
  // as are all other threads.
  predicate Marked(before: seq<Thread>, after: seq<Thread>, threadId: string, status: TimelineStatus, error: Option<string>) {
    && |after| == |before|
    && forall k :: 0 <= k < |before| ==>
         after[k] == if before[k].threadId == threadId then Thread(threadId, before[k].title, status, error) else before[k]
  }

  // The thread stands where one with its id stood, or else in front; all other threads
  // are as before, in their order.
  predicate Listed(before: seq<Thread>, after: seq<Thread>, thread: Thread) {
    if exists k :: 0 <= k < |before| && before[k].threadId == thread.threadId then
      |after| == |before|
      && forall k :: 0 <= k < |before| ==> after[k] == if before[k].threadId == thread.threadId then thread else before[k]
    else after == [thread] + before
  }

  /** What a failed request leaves: its message on the thread and in front of the user,
      and nothing else. */
  predicate ShowsFailure(found: State, answered: State, key: Key, message: string) {
    && answered.openError == Some(message)
    && Marked(found.threads, answered.threads, key.thread, LoadFailed, Some(message))
    && answered.turns == found.turns && answered.pages == found.pages
  }

  /** What a page leaves: its thread, its cursor, and no error. */
  ghost predicate ShowsPage(found: State, answered: State, key: Key, page: TimelinePage) {
    && answered.openError == None
    && Listed(found.threads, answered.threads, page.thread)
    && answered.pages == found.pages[key.thread := page.info]
    && (AllOf(page.turns, key.thread) ==>
          forall u :: TurnsOf(answered.turns, u) == if u == key.thread then page.turns else TurnsOf(found.turns, u))
  }

  ghost predicate ShowsReply(found: State, answered: State, key: Key, reply: Result<TimelinePage, string>) {
    match reply
    case Ok(page) => ShowsPage(found, answered, key, page)
    case Err(message) => ShowsFailure(found, answered, key, message)
  }

  lemma ActedShowsReply(found: State, answered: State, key: Key, reply: Result<TimelinePage, string>)
    requires found.latest == Some(key) && found.openError == None
    requires var acted := ActOn(found, key, reply); SameLists(answered, acted) && answered.openError == acted.openError
    ensures ShowsReply(found, answered, key, reply)
  {
    hide TurnsOf;
    match reply
    case Ok(page) =>
      UpsertedIsListed(found.threads, page.thread);
      if AllOf(page.turns, key.thread) {
        forall u ensures TurnsOf(answered.turns, u) == if u == key.thread then page.turns else TurnsOf(found.turns, u) {
          ReplacedTurns(found.turns, key.thread, page.turns, u);
        }
      }
    case Err(message) =>
  }

  lemma UpsertedIsListed(threads: seq<Thread>, thread: Thread)
    ensures Listed(threads, UpsertThread(threads, thread), thread)
  {
  }

  /** Once nothing is in flight, the last opened thread's own reply, given after that
      open, decides what is shown: a failure its message, on the thread and as the open
      error; a page its thread, its turns and its cursor, and no error. The error shown
      stays for the rest of the run, and so do the lists unless something other than
      opens changes them. */
  lemma LastOpenIsWhatIsShown(before: seq<Event>, key: Key, after: seq<Event>) returns (i: nat)
    requires PossibleRun(INITIAL, before + [Open(key)] + after) && NoOpen(after)
    requires Run(INITIAL, before + [Open(key)] + after).inFlight == {}
    ensures i < |after| && after[i].Reply? && after[i].key == key
    ensures NoReplyOf(after[..i], key) && NoReplyOf(after[i + 1..], key)
    ensures var found := Run(INITIAL, before + [Open(key)] + after[..i]);
            var answered := Run(INITIAL, before + [Open(key)] + after[..i + 1]);
            var end := Run(INITIAL, before + [Open(key)] + after);
            && ShowsReply(found, answered, key, after[i].reply)
            && end.openError == answered.openError && end.opening == None
            && (NothingElsewhere(after[i + 1..]) ==> SameLists(end, answered))
  {
    hide Run, PossibleRun, ActOn, ShowsReply, NothingElsewhere;
    i := LastReplyIsActedOn(before, key, after);
    var found := Run(INITIAL, before + [Open(key)] + after[..i]);
    var answered := Run(INITIAL, before + [Open(key)] + after[..i + 1]);
    assert answered.openError == ActOn(found, key, after[i].reply).openError by {
      AnsweredRun(INITIAL, before + [Open(key)], after, i);
      ReplyEnds(found, key, after[i].reply);
    }
    ActedShowsReply(found, answered, key, after[i].reply);
  }

  /** An open shows its thread as opening, without an error; unless it is in flight
      already, every listed thread with its id is marked as loading. */
  lemma OpenShowsLoading(s: State, key: Key)
    ensures var s' := Next(s, Open(key));
            && s'.opening == Some(key.thread) && s'.openError == None && s'.turns == s.turns && s'.pages == s.pages
            && if key in s.inFlight then s'.threads == s.threads else Marked(s.threads, s'.threads, key.thread, Loading, None)
  {
  }

  predicate SameLists(s: State, t: State) {
    s.turns == t.turns && s.threads == t.threads && s.pages == t.pages
  }

  lemma AnsweredRun(s: State, start: seq<Event>, after: seq<Event>, i: nat)
    requires i < |after|
    ensures Run(s, start + after[..i + 1]) == Next(Run(s, start + after[..i]), after[i])
  {
    hide Next;
    RunInParts(s, start + after[..i], [after[i]]);
    assert start + after[..i + 1] == start + after[..i] + [after[i]];
    assert [after[i]][1..] == [];
  }

  lemma OpenedIsInFlight(s: State, key: Key)
    ensures var s' := Next(s, Open(key)); s'.latest == Some(key) && key in s'.inFlight && s'.openError == None
  {
  }

  lemma ReplyEnds(s: State, key: Key, reply: Result<TimelinePage, string>)
    ensures var s' := Next(s, Reply(key, reply));
            var acted := ActOn(s, key, reply);
            && key !in s'.inFlight && s'.latest == s.latest
            && SameLists(s', acted) && s'.openError == acted.openError
  {
  }

  /** In particular a successful last open leaves exactly its page as the turns of its
      thread, and they stay so unless something else than an open changes them. */
  lemma LastOpenedPageIsStored(before: seq<Event>, key: Key, after: seq<Event>) returns (i: nat)
    requires PossibleRun(INITIAL, before + [Open(key)] + after) && NoOpen(after)
    requires Run(INITIAL, before + [Open(key)] + after).inFlight == {}
    ensures i < |after| && after[i].Reply? && after[i].key == key
    ensures after[i].reply.Ok? && AllOf(after[i].reply.value.turns, key.thread) ==>
              && TurnsOf(Run(INITIAL, before + [Open(key)] + after[..i + 1]).turns, key.thread) == after[i].reply.value.turns
              && (NothingElsewhere(after[i + 1..]) ==>
                    TurnsOf(Run(INITIAL, before + [Open(key)] + after).turns, key.thread) == after[i].reply.value.turns)
  {
    hide Run, PossibleRun, TurnsOf;
    i := LastOpenIsWhatIsShown(before, key, after);
  }
}
