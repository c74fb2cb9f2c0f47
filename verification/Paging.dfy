/** Opening threads and loading older pages: the stored turns of a thread stay a
    contiguous end of its log. */
module Paging {
  import opened Wrappers
  import opened ShellLists

  type Logs = map<string, seq<Turn>>

  /** Every thread has one log; a turn is in one place of one log. */
  predicate LogsOk(logs: Logs) {
    && (forall t :: t in logs ==> AllOf(logs[t], t))
    && (forall t, u, i, j | t in logs && u in logs && 0 <= i < |logs[t]| && 0 <= j < |logs[u]| ::
          logs[t][i].turnId == logs[u][j].turnId ==> t == u && i == j)
  }

  // Every stored turn is a turn of some log.
  predicate FromLogs(turns: seq<Turn>, logs: Logs) {
    forall i :: 0 <= i < |turns| ==> turns[i].threadId in logs && turns[i] in logs[turns[i].threadId]
  }

  /** What is stored of a thread is its log from position `start` on. */
  predicate StoredFrom(turns: seq<Turn>, logs: Logs, t: string, start: nat)
    requires t in logs
  {
    start <= |logs[t]| && TurnsOf(turns, t) == logs[t][start..]
  }

  /** What is stored of a thread is a contiguous end of its log, in order. */
  predicate StoredEnd(turns: seq<Turn>, logs: Logs, t: string)
    requires t in logs
  {
    exists start :: 0 <= start <= |logs[t]| && StoredFrom(turns, logs, t, start)
  }

  // ---------- one older page ----------

  lemma {:induction false} InTurnsOf(turns: seq<Turn>, t: string, turn: Turn)
    ensures turn in TurnsOf(turns, t) <==> turn in turns && turn.threadId == t
  {
    if turns != [] {
      InTurnsOf(turns[1..], t, turn);
    }
  }

  // A turn of the log is seen exactly when it is stored.
  lemma SeenFromStart(turns: seq<Turn>, logs: Logs, t: string, start: nat, i: nat)
    requires LogsOk(logs) && FromLogs(turns, logs) && t in logs && StoredFrom(turns, logs, t, start) && i < |logs[t]|
    ensures Seen(turns, logs[t][i].turnId) <==> start <= i
  {
    var log := logs[t];
    if start <= i {
      assert log[start..][i - start] == log[i];
      InTurnsOf(turns, t, log[i]);
    }
    if Seen(turns, log[i].turnId) {
      var k :| 0 <= k < |turns| && turns[k].turnId == log[i].turnId;
      var u := turns[k].threadId;
      var j :| 0 <= j < |logs[u]| && logs[u][j] == turns[k];
      assert u == t && j == i;
      InTurnsOf(turns, t, turns[k]);
      var m :| 0 <= m < |log[start..]| && log[start..][m] == turns[k];
      assert log[start + m].turnId == log[i].turnId;
    }
  }

  // The part of a page before what is stored is what it adds.
  lemma {:induction false} UnseenOfPage(turns: seq<Turn>, logs: Logs, t: string, start: nat, p: nat, q: nat)
    requires LogsOk(logs) && FromLogs(turns, logs) && t in logs && StoredFrom(turns, logs, t, start)
    requires p <= q <= |logs[t]|
    ensures Unseen(turns, logs[t][p..q]) == logs[t][p..q][..if q <= start then q - p else if p < start then start - p else 0]
    decreases q - p
  {
    hide LogsOk, FromLogs, StoredFrom, Seen;
    var log := logs[t];
    if p < q {
      SeenFromStart(turns, logs, t, start, p);
      UnseenOfPage(turns, logs, t, start, p + 1, q);
      assert log[p..q][0] == log[p] && log[p..q][1..] == log[p + 1..q];
    }
  }

  lemma {:induction false} UnseenAreOfPage(turns: seq<Turn>, page: seq<Turn>)
    ensures forall turn :: turn in Unseen(turns, page) ==> turn in page
  {
    hide Seen;
    if page != [] {
      UnseenAreOfPage(turns, page[1..]);
    }
  }

  // Whatever is stored, a page goes in front of it and adds turns of its own thread only.
  lemma PagePrepends(turns: seq<Turn>, logs: Logs, t: string, p: nat, q: nat)
    requires LogsOk(logs) && FromLogs(turns, logs) && t in logs && p <= q <= |logs[t]|
    ensures var more := Unseen(turns, logs[t][p..q]);
            var turns' := PrependTurns(turns, logs[t][p..q]);
            && TurnsOf(turns', t) == more + TurnsOf(turns, t)
            && FromLogs(turns', logs)
            && forall u :: u != t ==> TurnsOf(turns', u) == TurnsOf(turns, u)
  {
    hide LogsOk, Unseen;
    var page := logs[t][p..q];
    var more := Unseen(turns, page);
    LogIsOf(logs, t);
    UnseenAreOfPage(turns, page);
    forall i | 0 <= i < |more| ensures more[i] in logs[t] {
      assert more[i] in page;
      var j :| 0 <= j < |page| && page[j] == more[i];
      assert logs[t][p + j] == page[j];
    }
    assert AllOf(more, t);
    forall u ensures TurnsOf(more + turns, u) == (if u == t then more else []) + TurnsOf(turns, u) {
      TurnsOfConcat(more, turns, u);
      TurnsOfAll(more, t, u);
    }
    forall u | u != t ensures TurnsOf(more + turns, u) == TurnsOf(turns, u) {
      assert [] + TurnsOf(turns, u) == TurnsOf(turns, u);
    }
  }

  // What a page adds is the part of it before what is stored.
  lemma PageAdds(turns: seq<Turn>, logs: Logs, t: string, start: nat, p: nat, q: nat)
    requires LogsOk(logs) && FromLogs(turns, logs) && t in logs && StoredFrom(turns, logs, t, start)
    requires p <= q <= |logs[t]|
    ensures var more := logs[t][p..q][..if q <= start then q - p else if p < start then start - p else 0];
            var turns' := PrependTurns(turns, logs[t][p..q]);
            && TurnsOf(turns', t) == more + logs[t][start..]
            && FromLogs(turns', logs)
            && forall u :: u != t ==> TurnsOf(turns', u) == TurnsOf(turns, u)
  {
    hide LogsOk, Unseen, FromLogs, PrependTurns;
    UnseenOfPage(turns, logs, t, start, p, q);
    PagePrepends(turns, logs, t, p, q);
  }

  lemma LogIsOf(logs: Logs, t: string)
    requires LogsOk(logs) && t in logs
    ensures AllOf(logs[t], t)
  {
  }

  /** Somewhere a stored turn is followed by something else than in the log. */
  predicate Broken(stored: seq<Turn>, log: seq<Turn>) {
    exists k, i :: 0 <= k < |stored| && 0 <= i < |log| && stored[k] == log[i] && stored[k + 1..] != log[i + 1..]
  }

  predicate DistinctTurns(log: seq<Turn>) {
    forall i, j :: 0 <= i < |log| && 0 <= j < |log| && log[i].turnId == log[j].turnId ==> i == j
  }

  lemma EndIsNotBroken(log: seq<Turn>, b: nat)
    requires DistinctTurns(log) && b <= |log|
    ensures !Broken(log[b..], log)
  {
    var end := log[b..];
    forall k, i | 0 <= k < |end| && 0 <= i < |log| && end[k] == log[i] ensures end[k + 1..] == log[i + 1..] {
      assert end[k] == log[b + k];
      assert i == b + k;
    }
  }

  lemma GapBreaks(log: seq<Turn>, p: nat, q: nat, start: nat)
    requires p < q < start <= |log|
    ensures Broken(log[p..q] + log[start..], log)
  {
    var gapped := log[p..q] + log[start..];
    var k := q - p - 1;
    assert gapped[k] == log[q - 1];
    assert gapped[k + 1..] == log[start..];
    assert |log[start..]| < |log[q..]|;
  }

  lemma BrokenStays(more: seq<Turn>, stored: seq<Turn>, log: seq<Turn>)
    requires Broken(stored, log)
    ensures Broken(more + stored, log)
  {
    var k, i :| 0 <= k < |stored| && 0 <= i < |log| && stored[k] == log[i] && stored[k + 1..] != log[i + 1..];
    var all := more + stored;
    assert all[|more| + k] == stored[k];
    assert all[|more| + k + 1..] == stored[k + 1..];
  }

  lemma LogIsDistinct(logs: Logs, t: string)
    requires LogsOk(logs) && t in logs
    ensures DistinctTurns(logs[t])
  {
  }

  /** An older page keeps a thread's turns a contiguous end of its log exactly when it
      touches or overlaps what is stored, or is empty; otherwise it leaves a gap. */
  lemma PageKeepsEndExactly(turns: seq<Turn>, logs: Logs, t: string, start: nat, p: nat, q: nat)
    requires LogsOk(logs) && FromLogs(turns, logs) && t in logs && StoredFrom(turns, logs, t, start)
    requires p <= q <= |logs[t]|
    ensures StoredEnd(PrependTurns(turns, logs[t][p..q]), logs, t) <==> start <= q || p == q
    ensures var turns' := PrependTurns(turns, logs[t][p..q]);
            if p == q || start <= p then StoredFrom(turns', logs, t, start)
            else if start <= q then StoredFrom(turns', logs, t, p)
            else Broken(TurnsOf(turns', t), logs[t])
  {
    hide LogsOk, FromLogs, PrependTurns, TurnsOf, Broken;
    var log := logs[t];
    PageAdds(turns, logs, t, start, p, q);
    LogIsDistinct(logs, t);
    var turns' := PrependTurns(turns, log[p..q]);
    if start <= q || p == q {
      var b := if p == q || start <= p then start else p;
      var more := log[p..q][..if q <= start then q - p else if p < start then start - p else 0];
      assert more + log[start..] == log[b..];
      assert StoredFrom(turns', logs, t, b);
    } else {
      assert log[p..q][..q - p] == log[p..q];
      GapBreaks(log, p, q, start);
      BrokenIsNotStored(turns', logs, t);
    }
  }

  lemma BrokenIsNotStored(turns: seq<Turn>, logs: Logs, t: string)
    requires LogsOk(logs) && t in logs && Broken(TurnsOf(turns, t), logs[t])
    ensures !StoredEnd(turns, logs, t)
  {
    hide TurnsOf, LogsOk, Broken;
    LogIsDistinct(logs, t);
    forall b: nat | b <= |logs[t]| ensures TurnsOf(turns, t) != logs[t][b..] {
      EndIsNotBroken(logs[t], b);
    }
  }

  // ---------- opens and requests for older pages ----------

  /** A request for an older page remembers the cursor it was made with: the position
      in the log at which the page with the cursor starts. */
  datatype Request = Request(t: string, cursor: nat)

  /** The stored turns, the cursor of each thread's last page (nothing is before
      position 0, so that one stands for no cursor), and the requests that await a
      page, under the order in which they were made. */
  datatype State = State(turns: seq<Turn>, cursors: map<string, nat>, asked: map<nat, Request>, made: nat)

  const INITIAL: State := State([], map[], map[], 0)

  /** The page of an open arrives; an older page is asked for; it arrives, from the
      position `from` on up to the cursor; or it does not. */
  datatype Event = Opened(t: string, from: nat) | Ask(t: string) | Came(id: nat, from: nat) | Lost(id: nat)

  // A page is a stretch of the thread's log; an older one ends at its cursor.
  predicate FromServer(logs: Logs, s: State, e: Event) {
    match e
    case Opened(t, from) => t in logs && from <= |logs[t]|
    case Came(id, from) => id in s.asked && s.asked[id].t in logs && from <= s.asked[id].cursor <= |logs[s.asked[id].t]|
    case _ => true
  }

  function Next(logs: Logs, s: State, e: Event): State {
    if !FromServer(logs, s, e) then s
    else match e
      case Opened(t, from) => s.(turns := ReplaceTurns(s.turns, t, logs[t][from..]), cursors := s.cursors[t := from])
      case Ask(t) =>
        if t !in s.cursors || s.cursors[t] == 0 then s
        else s.(asked := s.asked[s.made := Request(t, s.cursors[t])], made := s.made + 1)
      case Came(id, from) =>
        var r := s.asked[id];
        s.(turns := PrependTurns(s.turns, logs[r.t][from..r.cursor]), cursors := s.cursors[r.t := from], asked := s.asked - {id})
      case Lost(id) => s.(asked := s.asked - {id})
  }

  function Run(logs: Logs, s: State, events: seq<Event>): State
    decreases |events|
  {
    if events == [] then s else Run(logs, Next(logs, s, events[0]), events[1..])
  }

  /** The reply to a request for an older page keeps the thread's turns a contiguous
      end of its log exactly when what is stored by then starts no later than the
      cursor the request was made with, or the page is empty. */
  lemma ReplyKeepsEndExactly(logs: Logs, s: State, id: nat, from: nat, start: nat)
    requires LogsOk(logs) && FromLogs(s.turns, logs) && FromServer(logs, s, Came(id, from))
    requires StoredFrom(s.turns, logs, s.asked[id].t, start)
    ensures var r := s.asked[id];
            StoredEnd(Next(logs, s, Came(id, from)).turns, logs, r.t) <==> start <= r.cursor || from == r.cursor
  {
    hide LogsOk, FromLogs, PrependTurns, StoredFrom, StoredEnd;
    var r := s.asked[id];
    PageKeepsEndExactly(s.turns, logs, r.t, start, from, r.cursor);
  }

  /** An older page is asked for, with the cursor of the thread's last page, exactly when
      there is one; and an answer, whichever it is, ends its request and no other. */
  lemma RequestsAndAnswers(logs: Logs, s: State, t: string, id: nat, from: nat)
    requires forall other :: other in s.asked ==> other < s.made
    ensures var s' := Next(logs, s, Ask(t));
            && s'.turns == s.turns && s'.cursors == s.cursors
            && if t in s.cursors && s.cursors[t] > 0 then
                 s'.asked.Keys == s.asked.Keys + {s.made} && s'.asked[s.made] == Request(t, s.cursors[t]) && s'.made == s.made + 1
                 && forall other :: other in s.asked ==> s'.asked[other] == s.asked[other]
               else s' == s
    ensures id in s.asked ==> Next(logs, s, Lost(id)) == s.(asked := s.asked - {id})
    ensures FromServer(logs, s, Came(id, from)) ==>
              var s' := Next(logs, s, Came(id, from));
              s'.asked == s.asked - {id} && s'.made == s.made && s'.cursors == s.cursors[s.asked[id].t := from]
  {
    hide PrependTurns;
  }

  // ---------- runs ----------

  // Where the stored turns of a thread start in its log; none once they have a gap.
  type Start = Option<nat>

  predicate Stored(turns: seq<Turn>, logs: Logs, t: string, start: Start)
    requires t in logs
  {
    if start.Some? then StoredFrom(turns, logs, t, start.value) else Broken(TurnsOf(turns, t), logs[t])
  }

  // An open starts anew; an older page leaves a gap when it ends before the start, and
  // no older page closes it.
  function NextStart(logs: Logs, s: State, t: string, start: Start, e: Event): Start {
    if !FromServer(logs, s, e) then start
    else match e
      case Opened(u, from) => if u == t then Some(from) else start
      case Came(id, from) =>
        var r := s.asked[id];
        if r.t != t || from == r.cursor || start.None? || start.value <= from then start
        else if start.value <= r.cursor then Some(from)
        else None
      case _ => start
  }

  function RunStart(logs: Logs, s: State, t: string, start: Start, events: seq<Event>): Start
    decreases |events|
  {
    if events == [] then start
    else RunStart(logs, Next(logs, s, events[0]), t, NextStart(logs, s, t, start, events[0]), events[1..])
  }

  lemma {:induction false} InTurnsNotOf(turns: seq<Turn>, t: string, turn: Turn)
    ensures turn in TurnsNotOf(turns, t) ==> turn in turns
  {
    if turns != [] {
      InTurnsNotOf(turns[1..], t, turn);
    }
  }

  lemma OpenedFromLogs(turns: seq<Turn>, logs: Logs, t: string, from: nat)
    requires LogsOk(logs) && FromLogs(turns, logs) && t in logs && from <= |logs[t]|
    ensures FromLogs(ReplaceTurns(turns, t, logs[t][from..]), logs)
    ensures StoredFrom(ReplaceTurns(turns, t, logs[t][from..]), logs, t, from)
    ensures forall u :: u != t ==> TurnsOf(ReplaceTurns(turns, t, logs[t][from..]), u) == TurnsOf(turns, u)
  {
    hide LogsOk, TurnsOf;
    var kept, page := TurnsNotOf(turns, t), logs[t][from..];
    LogIsOf(logs, t);
    assert AllOf(page, t);
    forall u ensures TurnsOf(ReplaceTurns(turns, t, page), u) == if u == t then page else TurnsOf(turns, u) {
      ReplacedTurns(turns, t, page, u);
    }
    forall i | 0 <= i < |kept + page|
      ensures var turn: Turn := (kept + page)[i]; turn.threadId in logs && turn in logs[turn.threadId]
    {
      if i < |kept| {
        assert kept[i] in kept;
        InTurnsNotOf(turns, t, kept[i]);
      } else {
        assert page[i - |kept|] == logs[t][from + (i - |kept|)];
      }
    }
  }

  // The thread whose turns a step may change.
  predicate Touches(s: State, e: Event, t: string) {
    match e
    case Opened(u, _) => u == t
    case Came(id, _) => id in s.asked && s.asked[id].t == t
    case _ => false
  }

  lemma StepKeepsStored(logs: Logs, s: State, t: string, start: Start, e: Event)
    requires LogsOk(logs) && FromLogs(s.turns, logs) && t in logs && Stored(s.turns, logs, t, start)
    ensures var s' := Next(logs, s, e);
            && FromLogs(s'.turns, logs) && Stored(s'.turns, logs, t, NextStart(logs, s, t, start, e))
            && (!Touches(s, e, t) ==> TurnsOf(s'.turns, t) == TurnsOf(s.turns, t))
  {
    hide LogsOk, FromLogs, TurnsOf, PrependTurns, ReplaceTurns, Broken;
    if FromServer(logs, s, e) {
      match e
      case Opened(u, from) =>
        OpenedFromLogs(s.turns, logs, u, from);
      case Came(id, from) =>
        var r := s.asked[id];
        PagePrepends(s.turns, logs, r.t, from, r.cursor);
        if r.t == t {
          PageComes(logs, s.turns, t, start, from, r.cursor);
        }
      case _ =>
    }
  }

  lemma PageComes(logs: Logs, turns: seq<Turn>, t: string, start: Start, from: nat, cursor: nat)
    requires LogsOk(logs) && FromLogs(turns, logs) && t in logs && Stored(turns, logs, t, start) && from <= cursor <= |logs[t]|
    ensures Stored(PrependTurns(turns, logs[t][from..cursor]), logs, t,
                   if from == cursor || start.None? || start.value <= from then start
                   else if start.value <= cursor then Some(from) else None)
  {
    hide LogsOk, FromLogs, TurnsOf, PrependTurns, Broken, Unseen;
    if start.Some? {
      PageKeepsEndExactly(turns, logs, t, start.value, from, cursor);
    } else {
      PagePrepends(turns, logs, t, from, cursor);
      BrokenStays(Unseen(turns, logs[t][from..cursor]), TurnsOf(turns, t), logs[t]);
    }
  }

  lemma {:induction false} RunKeepsStored(logs: Logs, s: State, t: string, start: Start, events: seq<Event>)
    requires LogsOk(logs) && FromLogs(s.turns, logs) && t in logs && Stored(s.turns, logs, t, start)
    ensures Stored(Run(logs, s, events).turns, logs, t, RunStart(logs, s, t, start, events))
    decreases |events|
  {
    hide LogsOk, FromLogs, Stored, Next, NextStart;
    if events != [] {
      StepKeepsStored(logs, s, t, start, events[0]);
      RunKeepsStored(logs, Next(logs, s, events[0]), t, NextStart(logs, s, t, start, events[0]), events[1..]);
    }
  }

  lemma NothingStored(logs: Logs, t: string)
    requires t in logs
    ensures FromLogs([], logs) && StoredFrom([], logs, t, |logs[t]|)
  {
  }

  /** After any run from the empty shell, a thread's stored turns are a contiguous end
      of its log, in order, exactly when no reply since its last open left a gap. */
  lemma StoredTurnsAreEndsExactly(logs: Logs, events: seq<Event>, t: string)
    requires LogsOk(logs) && t in logs
    ensures var start := RunStart(logs, INITIAL, t, Some(|logs[t]|), events);
            && (StoredEnd(Run(logs, INITIAL, events).turns, logs, t) <==> start.Some?)
            && (start.Some? ==> StoredFrom(Run(logs, INITIAL, events).turns, logs, t, start.value))
  {
    hide LogsOk, FromLogs, Run, RunStart, Broken, TurnsOf;
    NothingStored(logs, t);
    RunKeepsStored(logs, INITIAL, t, Some(|logs[t]|), events);
    if RunStart(logs, INITIAL, t, Some(|logs[t]|), events).None? {
      BrokenIsNotStored(Run(logs, INITIAL, events).turns, logs, t);
    }
  }

  // ---------- when there is no gap ----------

  // No open of a thread comes back while an older page of it is awaited.
  predicate Undisturbed(logs: Logs, s: State, events: seq<Event>)
    decreases |events|
  {
    events == []
    || ((events[0].Opened? ==> forall id :: id in s.asked ==> s.asked[id].t != events[0].t)
        && Undisturbed(logs, Next(logs, s, events[0]), events[1..]))
  }

  // What is stored starts no later than any cursor of the thread that may be used.
  predicate CursorsTouch(s: State, t: string, start: Start) {
    && start.Some?
    && (t in s.cursors ==> start.value <= s.cursors[t])
    && (forall id :: id in s.asked && s.asked[id].t == t ==> start.value <= s.asked[id].cursor)
  }

  lemma {:induction false} CursorsKeepTouching(logs: Logs, s: State, t: string, start: Start, events: seq<Event>)
    requires CursorsTouch(s, t, start) && Undisturbed(logs, s, events)
    ensures RunStart(logs, s, t, start, events).Some?
    decreases |events|
  {
    hide PrependTurns, ReplaceTurns;
    if events != [] {
      CursorsKeepTouching(logs, Next(logs, s, events[0]), t, NextStart(logs, s, t, start, events[0]), events[1..]);
    }
  }

  /** When no open of a thread comes back while an older page of it is awaited, the
      stored turns of every thread are a contiguous end of its log, in order. */
  lemma UndisturbedRunsKeepEnds(logs: Logs, events: seq<Event>)
    requires LogsOk(logs) && Undisturbed(logs, INITIAL, events)
    ensures forall t :: t in logs ==> StoredEnd(Run(logs, INITIAL, events).turns, logs, t)
  {
    hide LogsOk, Run, RunStart, Undisturbed, StoredFrom, StoredEnd;
    forall t | t in logs ensures StoredEnd(Run(logs, INITIAL, events).turns, logs, t) {
      CursorsKeepTouching(logs, INITIAL, t, Some(|logs[t]|), events);
      StoredTurnsAreEndsExactly(logs, events, t);
    }
  }

  /** A thread that is neither opened nor asked for keeps its stored turns. */
  lemma {:induction false} OtherThreadsUntouched(logs: Logs, s: State, events: seq<Event>, u: string)
    requires LogsOk(logs) && FromLogs(s.turns, logs)
    requires forall id :: id in s.asked ==> s.asked[id].t != u
    requires forall i :: 0 <= i < |events| ==> events[i] != Ask(u) && !(events[i].Opened? && events[i].t == u)
    ensures TurnsOf(Run(logs, s, events).turns, u) == TurnsOf(s.turns, u)
    decreases |events|
  {
    hide LogsOk, FromLogs, TurnsOf, PrependTurns, ReplaceTurns;
    if events != [] {
      StepTouchesOne(logs, s, events[0], u);
      OtherThreadsUntouched(logs, Next(logs, s, events[0]), events[1..], u);
    }
  }

  lemma StepTouchesOne(logs: Logs, s: State, e: Event, u: string)
    requires LogsOk(logs) && FromLogs(s.turns, logs)
    ensures FromLogs(Next(logs, s, e).turns, logs)
    ensures !Touches(s, e, u) ==> TurnsOf(Next(logs, s, e).turns, u) == TurnsOf(s.turns, u)
  {
    hide LogsOk, FromLogs, TurnsOf, PrependTurns, ReplaceTurns;
    if FromServer(logs, s, e) {
      match e
      case Opened(t, from) => OpenedFromLogs(s.turns, logs, t, from);
      case Came(id, from) => PagePrepends(s.turns, logs, s.asked[id].t, from, s.asked[id].cursor);
      case _ =>
    }
  }

  // ---------- a run with a gap ----------

  /** In any thread with three positions p < q < start, the shell reaches a gap: the
      thread is opened, an older page comes, a second one is asked for, the thread is
      opened again, and then the second page comes. */
  lemma LatePageLeavesGap(logs: Logs, t: string, p: nat, q: nat, start: nat)
    requires LogsOk(logs) && t in logs && p < q < start <= |logs[t]|
    ensures var before := [Opened(t, start), Ask(t), Came(0, q), Ask(t), Opened(t, start)];
            && StoredFrom(Run(logs, INITIAL, before).turns, logs, t, start)
            && FromServer(logs, Run(logs, INITIAL, before), Came(1, p))
            && !StoredEnd(Next(logs, Run(logs, INITIAL, before), Came(1, p)).turns, logs, t)
  {
    hide LogsOk, FromLogs, PrependTurns, ReplaceTurns, StoredFrom, StoredEnd, Run, TurnsOf;
    var s1 := Next(logs, INITIAL, Opened(t, start));
    var s2 := Next(logs, s1, Ask(t));
    assert s2.asked == map[0 := Request(t, start)] && s2.cursors[t] == start;
    var s3 := Next(logs, s2, Came(0, q));
    assert s3.asked == map[] && s3.cursors[t] == q;
    var s4 := Next(logs, s3, Ask(t));
    assert s4.asked == map[1 := Request(t, q)];
    var s5 := Next(logs, s4, Opened(t, start));
    NothingStored(logs, t);
    StepTouchesOne(logs, INITIAL, Opened(t, start), t);
    StepTouchesOne(logs, s1, Ask(t), t);
    StepTouchesOne(logs, s2, Came(0, q), t);
    StepTouchesOne(logs, s3, Ask(t), t);
    OpenedFromLogs(s4.turns, logs, t, start);
    RunFive(logs, INITIAL, Opened(t, start), Ask(t), Came(0, q), Ask(t), Opened(t, start));
    ReplyKeepsEndExactly(logs, s5, 1, p, start);
  }

  lemma RunFirst(logs: Logs, s: State, e: Event, rest: seq<Event>)
    ensures Run(logs, s, [e] + rest) == Run(logs, Next(logs, s, e), rest)
    ensures Run(logs, s, []) == s
  {
    hide Next;
    assert ([e] + rest)[1..] == rest;
  }

  lemma RunFive(logs: Logs, s: State, a: Event, b: Event, c: Event, d: Event, e: Event)
    ensures Run(logs, s, [a, b, c, d, e]) == Next(logs, Next(logs, Next(logs, Next(logs, Next(logs, s, a), b), c), d), e)
  {
    hide Next, Run;
    assert [a, b, c, d, e] == [a] + ([b] + ([c] + ([d] + ([e] + []))));
    RunFirst(logs, s, a, [b] + ([c] + ([d] + ([e] + []))));
    var s1 := Next(logs, s, a);
    RunFirst(logs, s1, b, [c] + ([d] + ([e] + [])));
    var s2 := Next(logs, s1, b);
    RunFirst(logs, s2, c, [d] + ([e] + []));
    var s3 := Next(logs, s2, c);
    RunFirst(logs, s3, d, [e] + []);
    var s4 := Next(logs, s3, d);
    RunFirst(logs, s4, e, []);
    RunFirst(logs, Next(logs, s4, e), e, []);
  }
}
