/** Full loads of the shell session and refreshes of the bro list, started and
    answered in any order. Sequence numbers decide which answers are applied. */
module LoadOrder {
  import opened Wrappers

  /** What the bro list was last set from: a full load, or a refresh that began when
      `since` loads had been started. */
  datatype Source = FromLoad(number: nat) | FromRefresh(number: nat, since: nat)

  // What an awaiting refresh remembers from its start.
  datatype Ticket = Ticket(session: string, active: Option<string>, since: nat)

  /** The shell: its two counters, its session, the calls that await an answer, and
      the sources applied so far, oldest first. */
  datatype State = State(
    loadSequence: nat,
    refreshSequence: nat,
    session: Option<string>,
    loads: map<nat, string>,
    refreshes: map<nat, Ticket>,
    applied: seq<Source>)

  const INITIAL: State := State(0, 0, None, map[], map[], [])

  datatype Event =
    | StartLoad(session: string)
    | LoadAnswered(number: nat, ok: bool)
    | StartRefresh(session: string)
    | RefreshAnswered(number: nat, ok: bool)

  function Next(s: State, e: Event): State {
    match e
    case StartLoad(session) =>
      s.(loadSequence := s.loadSequence + 1, loads := s.loads[s.loadSequence + 1 := session])
    case LoadAnswered(number, ok) =>
      if number !in s.loads then s
      else
        var rest := s.(loads := s.loads - {number});
        if ok && s.loadSequence == number then
          rest.(session := Some(s.loads[number]), applied := s.applied + [FromLoad(number)])
        else rest
    case StartRefresh(session) =>
      s.(refreshSequence := s.refreshSequence + 1,
         refreshes := s.refreshes[s.refreshSequence + 1 := Ticket(session, s.session, s.loadSequence)])
    case RefreshAnswered(number, ok) =>
      if number !in s.refreshes then s
      else
        var ticket := s.refreshes[number];
        var rest := s.(refreshes := s.refreshes - {number});
        if ok && ticket.active == Some(ticket.session) && s.loadSequence == ticket.since && s.refreshSequence == number then
          rest.(applied := s.applied + [FromRefresh(number, ticket.since)])
        else rest
  }

  function Run(s: State, events: seq<Event>): State
    decreases |events|
  {
    if events == [] then s else Run(Next(s, events[0]), events[1..])
  }

  // ---------- the shell ----------

  class Loader {
    var loadSequence: nat
    var refreshSequence: nat
    var session: Option<string>
    var loads: map<nat, string>
    var refreshes: map<nat, Ticket>
    ghost var applied: seq<Source>

    ghost function View(): State
      reads this
    {
      State(loadSequence, refreshSequence, session, loads, refreshes, applied)
    }

    constructor ()
      ensures View() == INITIAL
    {
      loadSequence, refreshSequence, session, loads, refreshes, applied := 0, 0, None, map[], map[], [];
    }

    method LoadShellSession(sessionId: string) returns (number: nat)
      modifies this
      ensures View() == Next(old(View()), StartLoad(sessionId)) && number == loadSequence
    {
      loadSequence := loadSequence + 1;
      number := loadSequence;
      loads := loads[number := sessionId];
    }

    method LoadReturned(number: nat, ok: bool) returns (apply: bool)
      requires number in loads
      modifies this
      ensures View() == Next(old(View()), LoadAnswered(number, ok))
      ensures apply <==> applied != old(applied)
    {
      var sessionId := loads[number];
      loads := loads - {number};
      if !ok || loadSequence != number {
        return false;
      }
      session := Some(sessionId);
      applied := applied + [FromLoad(number)];
      return true;
    }

    method RefreshBroList(sessionId: string) returns (number: nat)
      modifies this
      ensures View() == Next(old(View()), StartRefresh(sessionId)) && number == refreshSequence
    {
      refreshSequence := refreshSequence + 1;
      number := refreshSequence;
      refreshes := refreshes[number := Ticket(sessionId, session, loadSequence)];
    }

    method RefreshReturned(number: nat, ok: bool) returns (apply: bool)
      requires number in refreshes
      modifies this
      ensures View() == Next(old(View()), RefreshAnswered(number, ok))
      ensures apply <==> applied != old(applied)
    {
      var ticket := refreshes[number];
      refreshes := refreshes - {number};
      if !ok || ticket.active != Some(ticket.session) || loadSequence != ticket.since || refreshSequence != number {
        return false;
      }
      applied := applied + [FromRefresh(number, ticket.since)];
      return true;
    }
  }

  // ---------- the order of what is applied ----------

  predicate LoadsIncrease(applied: seq<Source>) {
    forall i, j :: 0 <= i < j < |applied| && applied[i].FromLoad? && applied[j].FromLoad? ==>
      applied[i].number < applied[j].number
  }

  predicate RefreshesIncrease(applied: seq<Source>) {
    forall i, j :: 0 <= i < j < |applied| && applied[i].FromRefresh? && applied[j].FromRefresh? ==>
      applied[i].number < applied[j].number
  }

  /** A refresh applied after a load began no earlier than that load. */
  predicate NoStaleRefresh(applied: seq<Source>) {
    forall i, j :: 0 <= i < j < |applied| && applied[i].FromLoad? && applied[j].FromRefresh? ==>
      applied[i].number <= applied[j].since
  }

  /** Neither does a load that was under way when a refresh began, and is not the
      newest by then, come to be applied after it. */
  predicate NoStaleLoad(applied: seq<Source>) {
    forall i, j :: 0 <= i < j < |applied| && applied[i].FromRefresh? && applied[j].FromLoad? ==>
      applied[i].since <= applied[j].number
  }

  predicate InOrder(applied: seq<Source>) {
    LoadsIncrease(applied) && RefreshesIncrease(applied) && NoStaleRefresh(applied) && NoStaleLoad(applied)
  }

  // Nothing applied is newer than the counters; what is pending was not applied.
  predicate Bounded(s: State) {
    && (forall i :: 0 <= i < |s.applied| ==> AppliedBounded(s, s.applied[i]))
    && (forall n :: n in s.loads ==> n <= s.loadSequence)
    && (forall n :: n in s.refreshes ==> n <= s.refreshSequence && s.refreshes[n].since <= s.loadSequence)
  }

  predicate AppliedBounded(s: State, source: Source) {
    match source
    case FromLoad(n) => n <= s.loadSequence && n !in s.loads
    case FromRefresh(n, since) => n <= s.refreshSequence && n !in s.refreshes && since <= s.loadSequence
  }

  lemma AppliedOneMore(applied: seq<Source>, source: Source)
    requires InOrder(applied)
    requires forall i :: 0 <= i < |applied| ==> Before(applied[i], source)
    ensures InOrder(applied + [source])
  {
  }

  predicate Before(a: Source, b: Source) {
    match (a, b)
    case (FromLoad(m), FromLoad(n)) => m < n
    case (FromRefresh(m, _), FromRefresh(n, _)) => m < n
    case (FromLoad(m), FromRefresh(_, since)) => m <= since
    case (FromRefresh(_, since), FromLoad(n)) => since <= n
  }

  lemma StepKeepsBounded(s: State, e: Event)
    requires Bounded(s)
    ensures Bounded(Next(s, e))
  {
  }

  lemma StepKeepsOrder(s: State, e: Event)
    requires Bounded(s) && InOrder(s.applied)
    ensures InOrder(Next(s, e).applied)
  {
    hide LoadsIncrease, RefreshesIncrease, NoStaleRefresh, NoStaleLoad;
    var s' := Next(s, e);
    if s'.applied != s.applied {
      var source := s'.applied[|s.applied|];
      forall i | 0 <= i < |s.applied| ensures Before(s.applied[i], source) {
        assert AppliedBounded(s, s.applied[i]);
      }
      AppliedOneMore(s.applied, source);
    }
  }

  lemma {:induction false} RunKeepsOrder(s: State, events: seq<Event>)
    requires Bounded(s) && InOrder(s.applied)
    ensures Bounded(Run(s, events)) && InOrder(Run(s, events).applied)
    decreases |events|
  {
    hide Next, Bounded, InOrder;
    if events != [] {
      StepKeepsBounded(s, events[0]);
      StepKeepsOrder(s, events[0]);
      RunKeepsOrder(Next(s, events[0]), events[1..]);
    }
  }

  /** In every interleaving of loads and refreshes: applied load numbers increase,
      applied refresh numbers increase, and no refresh is applied over a load that
      began after it. */
  lemma AppliedInOrder(events: seq<Event>)
    ensures var applied := Run(INITIAL, events).applied;
            LoadsIncrease(applied) && RefreshesIncrease(applied) && NoStaleRefresh(applied) && NoStaleLoad(applied)
  {
    RunKeepsOrder(INITIAL, events);
  }

  // ---------- exactly what is applied, told from the events ----------

  function Loads(events: seq<Event>): nat {
    if events == [] then 0 else Loads(events[..|events| - 1]) + if events[|events| - 1].StartLoad? then 1 else 0
  }

  function Refreshes(events: seq<Event>): nat {
    if events == [] then 0 else Refreshes(events[..|events| - 1]) + if events[|events| - 1].StartRefresh? then 1 else 0
  }

  /** Event `j` started load `n`, and nothing has answered it since. */
  predicate LoadAwaited(events: seq<Event>, j: nat, n: nat) {
    && j < |events| && events[j].StartLoad? && Loads(events[..j]) + 1 == n
    && forall i :: j < i < |events| && events[i].LoadAnswered? ==> events[i].number != n
  }

  /** Event `j` started refresh `n`, and nothing has answered it since. */
  predicate RefreshAwaited(events: seq<Event>, j: nat, n: nat) {
    && j < |events| && events[j].StartRefresh? && Refreshes(events[..j]) + 1 == n
    && forall i :: j < i < |events| && events[i].RefreshAnswered? ==> events[i].number != n
  }

  lemma {:induction false} RunOneMore(s: State, events: seq<Event>, e: Event)
    ensures Run(s, events + [e]) == Next(Run(s, events), e)
    decreases |events|
  {
    hide Next;
    if events == [] {
      RunFirst(s, e, []);
      assert [e] + [] == [e];
    } else {
      RunOneMore(Next(s, events[0]), events[1..], e);
      assert (events + [e])[1..] == events[1..] + [e];
    }
  }

  // Event `j` started the awaited load `n` for this session.
  predicate LoadIs(events: seq<Event>, j: nat, n: nat, session: string) {
    LoadAwaited(events, j, n) && events[j].session == session
  }

  // Event `j` started the awaited refresh `n`, which remembers this.
  predicate RefreshIs(events: seq<Event>, j: nat, n: nat, ticket: Ticket) {
    RefreshAwaited(events, j, n) && ticket == Ticket(events[j].session, Run(INITIAL, events[..j]).session, Loads(events[..j]))
  }

  // What the state remembers of the events that led to it.
  ghost predicate Remembers(events: seq<Event>, s: State) {
    && s.loadSequence == Loads(events) && s.refreshSequence == Refreshes(events)
    && (forall n :: n in s.loads ==> exists j: nat :: LoadIs(events, j, n, s.loads[n]))
    && (forall n :: n in s.refreshes ==> exists j: nat :: RefreshIs(events, j, n, s.refreshes[n]))
    && (forall j: nat, n: nat, session :: LoadIs(events, j, n, session) ==> n in s.loads && s.loads[n] == session)
    && (forall j: nat, n: nat, ticket :: RefreshIs(events, j, n, ticket) ==> n in s.refreshes && s.refreshes[n] == ticket)
  }

  lemma CountOneMore(events: seq<Event>, e: Event)
    ensures Loads(events + [e]) == Loads(events) + if e.StartLoad? then 1 else 0
    ensures Refreshes(events + [e]) == Refreshes(events) + if e.StartRefresh? then 1 else 0
  {
    assert (events + [e])[..|events|] == events;
  }

  lemma {:induction false} EarlierNumbers(events: seq<Event>, j: nat)
    requires j < |events|
    ensures events[j].StartLoad? ==> Loads(events[..j]) < Loads(events)
    ensures events[j].StartRefresh? ==> Refreshes(events[..j]) < Refreshes(events)
    decreases |events|
  {
    var n := |events| - 1;
    if j < n {
      EarlierNumbers(events[..n], j);
      assert events[..n][..j] == events[..j];
    }
  }

  lemma AwaitedOneMore(events: seq<Event>, e: Event, j: nat, n: nat, session: string, ticket: Ticket)
    ensures LoadIs(events + [e], j, n, session) <==>
            (LoadIs(events, j, n, session) && !(e.LoadAnswered? && e.number == n))
            || (j == |events| && e == StartLoad(session) && n == Loads(events) + 1)
    ensures RefreshIs(events + [e], j, n, ticket) <==>
            (RefreshIs(events, j, n, ticket) && !(e.RefreshAnswered? && e.number == n))
            || (j == |events| && e == StartRefresh(ticket.session) && n == Refreshes(events) + 1
                && ticket.active == Run(INITIAL, events).session && ticket.since == Loads(events))
  {
    hide Run, Loads, Refreshes;
    var all := events + [e];
    if j <= |events| {
      assert all[..j] == events[..j];
    }
    if j == |events| {
      assert all[..j] == events;
    }
    if j < |events| {
      assert all[j] == events[j] && all[|events|] == e;
      assert forall i :: j < i < |events| ==> all[i] == events[i];
    }
  }

  // An awaited call has a number that was given.
  lemma AwaitedStarts(events: seq<Event>, j: nat, n: nat)
    ensures LoadAwaited(events, j, n) ==> j < |events| && events[j].StartLoad? && n <= Loads(events)
    ensures RefreshAwaited(events, j, n) ==> j < |events| && events[j].StartRefresh? && n <= Refreshes(events)
  {
    if j < |events| {
      EarlierNumbers(events, j);
    }
  }

  lemma StepRemembersLoads(events: seq<Event>, s: State, e: Event)
    requires Remembers(events, s) && s == Run(INITIAL, events)
    ensures var all, s' := events + [e], Next(s, e);
            && (forall n :: n in s'.loads ==> exists j: nat :: LoadIs(all, j, n, s'.loads[n]))
            && (forall j: nat, n: nat, session :: LoadIs(all, j, n, session) ==> n in s'.loads && s'.loads[n] == session)
  {
    hide Run, Loads, Refreshes, LoadIs, RefreshIs;
    var all, s' := events + [e], Next(s, e);
    var any := Ticket("", None, 0);
    forall j: nat, n: nat, session | LoadIs(all, j, n, session) ensures n in s'.loads && s'.loads[n] == session {
      AwaitedOneMore(events, e, j, n, session, any);
      LoadNumber(events, j, n, session);
    }
    forall n | n in s'.loads ensures exists j: nat :: LoadIs(all, j, n, s'.loads[n]) {
      var j: nat := |events|;
      if n in s.loads && !(e.StartLoad? && n == s.loadSequence + 1) {
        j :| LoadIs(events, j, n, s.loads[n]);
      }
      AwaitedOneMore(events, e, j, n, s'.loads[n], any);
    }
  }

  lemma LoadNumber(events: seq<Event>, j: nat, n: nat, session: string)
    ensures LoadIs(events, j, n, session) ==> n <= Loads(events)
  {
    hide Loads;
    AwaitedStarts(events, j, n);
  }

  lemma RefreshNumber(events: seq<Event>, j: nat, n: nat, ticket: Ticket)
    ensures RefreshIs(events, j, n, ticket) ==> n <= Refreshes(events)
  {
    hide Refreshes, Run;
    AwaitedStarts(events, j, n);
  }

  lemma StepRemembersRefreshes(events: seq<Event>, s: State, e: Event)
    requires Remembers(events, s) && s == Run(INITIAL, events)
    ensures var all, s' := events + [e], Next(s, e);
            && (forall n :: n in s'.refreshes ==> exists j: nat :: RefreshIs(all, j, n, s'.refreshes[n]))
            && (forall j: nat, n: nat, ticket :: RefreshIs(all, j, n, ticket) ==> n in s'.refreshes && s'.refreshes[n] == ticket)
  {
    hide Run, Loads, Refreshes, LoadIs, RefreshIs;
    var all, s' := events + [e], Next(s, e);
    forall j: nat, n: nat, ticket | RefreshIs(all, j, n, ticket) ensures n in s'.refreshes && s'.refreshes[n] == ticket {
      AwaitedOneMore(events, e, j, n, "", ticket);
      RefreshNumber(events, j, n, ticket);
    }
    forall n | n in s'.refreshes ensures exists j: nat :: RefreshIs(all, j, n, s'.refreshes[n]) {
      var j: nat := |events|;
      if n in s.refreshes && !(e.StartRefresh? && n == s.refreshSequence + 1) {
        j :| RefreshIs(events, j, n, s.refreshes[n]);
      }
      AwaitedOneMore(events, e, j, n, "", s'.refreshes[n]);
    }
  }

  lemma StepCounts(events: seq<Event>, s: State, e: Event)
    requires s.loadSequence == Loads(events) && s.refreshSequence == Refreshes(events)
    ensures Next(s, e).loadSequence == Loads(events + [e]) && Next(s, e).refreshSequence == Refreshes(events + [e])
  {
    hide Loads, Refreshes;
    CountOneMore(events, e);
  }

  lemma StepRemembers(events: seq<Event>, s: State, e: Event)
    requires Remembers(events, s) && s == Run(INITIAL, events)
    ensures Remembers(events + [e], Next(s, e))
  {
    hide Run, Loads, Refreshes, LoadIs, RefreshIs, Next;
    StepCounts(events, s, e);
    StepRemembersLoads(events, s, e);
    StepRemembersRefreshes(events, s, e);
  }

  lemma {:induction false} RunRemembers(events: seq<Event>)
    ensures Remembers(events, Run(INITIAL, events))
    decreases |events|
  {
    hide Next, Remembers;
    if events == [] {
      NothingToRemember();
    } else {
      var n := |events| - 1;
      RunRemembers(events[..n]);
      assert events == events[..n] + [events[n]];
      RunOneMore(INITIAL, events[..n], events[n]);
      StepRemembers(events[..n], Run(INITIAL, events[..n]), events[n]);
    }
  }

  lemma NothingToRemember()
    ensures Remembers([], INITIAL)
  {
    assert Loads([]) == 0 && Refreshes([]) == 0;
  }

  /** After any events, the answer to a load is applied exactly when it succeeded, the
      load was awaited, and no load was started after it; its session is the active one
      from then on. Any other answer changes neither list nor session. */
  lemma LoadIsAppliedExactly(events: seq<Event>, n: nat, ok: bool)
    ensures var s, s' := Run(INITIAL, events), Run(INITIAL, events + [LoadAnswered(n, ok)]);
            if ok && Loads(events) == n && exists j: nat, session :: LoadIs(events, j, n, session) then
              && s'.applied == s.applied + [FromLoad(n)]
              && forall j: nat, session :: LoadIs(events, j, n, session) ==> s'.session == Some(session)
            else s'.applied == s.applied && s'.session == s.session
  {
    hide Run, Loads, Refreshes, LoadIs, RefreshIs;
    RunRemembers(events);
    RunOneMore(INITIAL, events, LoadAnswered(n, ok));
  }

  // Event `j` started the awaited refresh `n` for the session that was active then, and
  // no load was started since.
  predicate RefreshStands(events: seq<Event>, j: nat, n: nat) {
    && RefreshAwaited(events, j, n)
    && Run(INITIAL, events[..j]).session == Some(events[j].session)
    && Loads(events) == Loads(events[..j])
  }

  lemma StandsByTicket(events: seq<Event>, j: nat, n: nat, ticket: Ticket)
    ensures RefreshIs(events, j, n, ticket) ==>
              (RefreshStands(events, j, n) <==> ticket.active == Some(ticket.session) && ticket.since == Loads(events))
    ensures RefreshStands(events, j, n) ==>
              exists other :: RefreshIs(events, j, n, other) && other.active == Some(other.session) && other.since == Loads(events)
  {
    hide Run, Loads, Refreshes;
    if RefreshStands(events, j, n) {
      assert RefreshIs(events, j, n, Ticket(events[j].session, Run(INITIAL, events[..j]).session, Loads(events[..j])));
    }
  }

  /** After any events, the answer to a refresh is applied exactly when it succeeded,
      the refresh was awaited and is the newest, it was asked for the session that was
      active when it began, and no load was started since. */
  lemma RefreshIsAppliedExactly(events: seq<Event>, n: nat, ok: bool)
    ensures var s, s' := Run(INITIAL, events), Run(INITIAL, events + [RefreshAnswered(n, ok)]);
            && s'.session == s.session
            && s'.applied == s.applied
                             + if ok && Refreshes(events) == n && exists j: nat :: RefreshStands(events, j, n)
                               then [FromRefresh(n, Loads(events))] else []
  {
    hide Run, Loads, Refreshes, LoadIs, RefreshIs, RefreshStands;
    RunRemembers(events);
    RunOneMore(INITIAL, events, RefreshAnswered(n, ok));
    var s := Run(INITIAL, events);
    if n in s.refreshes {
      var j: nat :| RefreshIs(events, j, n, s.refreshes[n]);
      StandsByTicket(events, j, n, s.refreshes[n]);
    }
    if j: nat :| RefreshStands(events, j, n) {
      StandsByTicket(events, j, n, Ticket("", None, 0));
    }
  }

  // ---------- when an older load still lands ----------

  // No pending load is newer than the counter.
  predicate PendingLoadsOk(s: State) {
    forall n :: n in s.loads ==> n <= s.loadSequence
  }

  /** A load that had begun by the state `s` is applied by one of these events. */
  predicate OlderLoadLands(s: State, events: seq<Event>) {
    var applied := Run(s, events).applied;
    exists i :: |s.applied| <= i < |applied| && applied[i].FromLoad? && applied[i].number <= s.loadSequence
  }

  // From `from` on, every load applied is newer than `bound`.
  predicate OnlyNewer(applied: seq<Source>, from: nat, bound: nat) {
    from <= |applied| && forall i :: from <= i < |applied| && applied[i].FromLoad? ==> applied[i].number > bound
  }

  // Load `bound` is answered, or superseded by a newer one.
  predicate Settled(s: State, bound: nat) {
    bound <= s.loadSequence && PendingLoadsOk(s) && (bound in s.loads ==> bound < s.loadSequence)
  }

  lemma {:induction false} OnlyNewerLands(s: State, events: seq<Event>, from: nat, bound: nat)
    requires Settled(s, bound) && OnlyNewer(s.applied, from, bound)
    ensures OnlyNewer(Run(s, events).applied, from, bound)
    decreases |events|
  {
    if events != [] {
      OnlyNewerLands(Next(s, events[0]), events[1..], from, bound);
    }
  }

  /** In any state, whatever was applied to it last: some continuation applies a load
      that had begun by now exactly if the newest load is still unanswered, and no
      continuation applies any other. So over an applied refresh one load begun before
      it may still land, and when that is, the shell can tell. */
  lemma OlderLoadLandsExactly(s: State)
    requires PendingLoadsOk(s)
    ensures (exists events :: OlderLoadLands(s, events)) <==> s.loadSequence in s.loads
    ensures s.loadSequence > 0 ==> forall events :: OnlyNewer(Run(s, events).applied, |s.applied|, s.loadSequence - 1)
  {
    if s.loadSequence > 0 {
      forall events ensures OnlyNewer(Run(s, events).applied, |s.applied|, s.loadSequence - 1) {
        OnlyNewerLands(s, events, |s.applied|, s.loadSequence - 1);
      }
    }
    if s.loadSequence in s.loads {
      var answer := LoadAnswered(s.loadSequence, true);
      RunFirst(s, answer, []);
      assert [answer] + [] == [answer];
      assert Next(s, answer).applied[|s.applied|] == FromLoad(s.loadSequence);
      assert OlderLoadLands(s, [answer]);
    } else {
      forall events ensures !OlderLoadLands(s, events) {
        OnlyNewerLands(s, events, |s.applied|, s.loadSequence);
      }
    }
  }

  /** The same in every state that the shell can reach: after any run. */
  lemma OlderLoadLandsAfterRun(before: seq<Event>)
    ensures var s := Run(INITIAL, before);
            (exists events :: OlderLoadLands(s, events)) <==> s.loadSequence in s.loads
  {
    hide Run, OlderLoadLands;
    RunKeepsOrder(INITIAL, before);
    OlderLoadLandsExactly(Run(INITIAL, before));
  }

  /** Such a state is reached behind an applied refresh: the second load, begun before
      the refresh, lands over it. */
  lemma LoadLandsOverLaterRefresh()
    ensures var events := [StartLoad("s"), LoadAnswered(1, true), StartLoad("s"), StartRefresh("s"), RefreshAnswered(1, true)];
            var s := Run(INITIAL, events);
            && s.applied == [FromLoad(1), FromRefresh(1, 2)]
            && Run(s, [LoadAnswered(2, true)]).applied == [FromLoad(1), FromRefresh(1, 2), FromLoad(2)]
  {
  }

  lemma RunFirst(s: State, e: Event, rest: seq<Event>)
    ensures Run(s, [e] + rest) == Run(Next(s, e), rest)
  {
    hide Next;
    assert ([e] + rest)[1..] == rest;
  }
}
