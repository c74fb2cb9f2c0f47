/** The timeline of a thread: the turns the server knows, and behind them the turns
    submitted here that it has not acknowledged yet. */
module Timeline {
  import opened Wrappers

  datatype Modality = Text | Audio

  datatype LocalStatus = Recording | Sending | Sent | LocalFailed

  datatype TurnStatus = Pending | Running | Failed | Completed

  /** A turn submitted in this client. A creation time that is missing or cannot be
      parsed is `None`. */
  datatype LocalTurn = LocalTurn(id: string, broId: string, threadId: Option<string>, text: string, createdAt: Option<int>,
                                 status: LocalStatus)

  datatype TimelineTurn = TimelineTurn(turnId: string, threadId: string, personaId: string, clientRequestId: Option<string>,
                                       modality: Modality, text: string, createdAt: Option<int>, updatedAt: Option<int>,
                                       status: TurnStatus, optimistic: bool)

  // ---------- local turns ----------

  function TurnIndex(turns: seq<LocalTurn>, id: string): (k: nat)
    ensures k <= |turns|
    ensures forall i :: 0 <= i < k ==> turns[i].id != id
    ensures k < |turns| ==> turns[k].id == id
  {
    if turns == [] || turns[0].id == id then 0 else 1 + TurnIndex(turns[1..], id)
  }

  function Upserted(turns: seq<LocalTurn>, turn: LocalTurn): seq<LocalTurn> {
    var k := TurnIndex(turns, turn.id);
    if k == |turns| then turns + [turn] else turns[k := turn]
  }

  function Removed(turns: seq<LocalTurn>, id: string): seq<LocalTurn> {
    if turns == [] then []
    else if turns[0].id == id then Removed(turns[1..], id)
    else [turns[0]] + Removed(turns[1..], id)
  }

  datatype Drafts = Drafts(texts: seq<LocalTurn>, audios: seq<LocalTurn>)

  datatype LocalOp = UpsertText(turn: LocalTurn) | UpsertAudio(turn: LocalTurn) | RemoveAudio(id: string)

  function Apply(d: Drafts, op: LocalOp): Drafts {
    match op
    case UpsertText(turn) => d.(texts := Upserted(d.texts, turn))
    case UpsertAudio(turn) => d.(audios := Upserted(d.audios, turn))
    case RemoveAudio(id) => d.(audios := Removed(d.audios, id))
  }

  function ApplyAll(d: Drafts, ops: seq<LocalOp>): Drafts
    decreases |ops|
  {
    if ops == [] then d else ApplyAll(Apply(d, ops[0]), ops[1..])
  }

  class Artboard {
    var textTurns: seq<LocalTurn>
    var audioTurns: seq<LocalTurn>

    function View(): Drafts
      reads this
    {
      Drafts(textTurns, audioTurns)
    }

    constructor ()
      ensures View() == Drafts([], [])
    {
      textTurns, audioTurns := [], [];
    }

    method UpsertTextTurn(turn: LocalTurn)
      modifies this
      ensures View() == Apply(old(View()), UpsertText(turn))
      ensures PutsIn(old(textTurns), textTurns, turn)
    {
      var existing := TurnIndex(textTurns, turn.id);
      if existing == |textTurns| {
        textTurns := textTurns + [turn];
      } else {
        textTurns := textTurns[existing := turn];
      }
      assert textTurns[existing] == turn;
    }

    method UpsertAudioTurn(turn: LocalTurn)
      modifies this
      ensures View() == Apply(old(View()), UpsertAudio(turn))
      ensures PutsIn(old(audioTurns), audioTurns, turn)
    {
      var existing := TurnIndex(audioTurns, turn.id);
      if existing == |audioTurns| {
        audioTurns := audioTurns + [turn];
      } else {
        audioTurns := audioTurns[existing := turn];
      }
      assert audioTurns[existing] == turn;
    }

    /** Keeps the turns at the positions `at`, in their order: all but those with the id. */
    method RemoveAudioTurn(id: string) returns (ghost at: seq<nat>)
      modifies this`audioTurns
      ensures View() == Apply(old(View()), RemoveAudio(id))
      ensures KeepsOthers(old(audioTurns), audioTurns, at, id)
    {
      var current := audioTurns;
      var kept: seq<LocalTurn> := [];
      at := [];
      for i := 0 to |current|
        invariant kept == Removed(current[..i], id) && KeepsOthers(current[..i], kept, at, id)
      {
        RemovedOneMore(current, i, id);
        assert current[..i + 1] == current[..i] + [current[i]];
        if current[i].id != id {
          OneMoreKept(current[..i], kept, at, id, current[i]);
          kept := kept + [current[i]];
          at := at + [i];
        } else {
          OneMoreDropped(current[..i], kept, at, id, current[i]);
        }
      }
      assert current[..|current|] == current;
      audioTurns := kept;
    }
  }

  /** The turn is in the list, at the end when its id is new; no turn with another id
      has moved or changed. */
  predicate PutsIn(before: seq<LocalTurn>, after: seq<LocalTurn>, turn: LocalTurn) {
    && turn in after
    && |after| == |before| + (if HasId(before, turn.id) then 0 else 1)
    && (forall i :: 0 <= i < |before| && before[i].id != turn.id ==> after[i] == before[i])
    && (DistinctIds(before) ==> DistinctIds(after))
  }

  /** What is kept are the turns at these positions, which are those without the id. */
  predicate KeepsOthers(turns: seq<LocalTurn>, kept: seq<LocalTurn>, at: seq<nat>, id: string) {
    && |kept| == |at| && Positions(at, |turns|)
    && (forall k :: 0 <= k < |at| ==> kept[k] == turns[at[k]])
    && (forall i :: 0 <= i < |turns| ==> (i in at <==> turns[i].id != id))
  }

  lemma OneMoreKept(turns: seq<LocalTurn>, kept: seq<LocalTurn>, at: seq<nat>, id: string, turn: LocalTurn)
    requires KeepsOthers(turns, kept, at, id) && turn.id != id
    ensures KeepsOthers(turns + [turn], kept + [turn], at + [|turns|], id)
  {
  }

  lemma OneMoreDropped(turns: seq<LocalTurn>, kept: seq<LocalTurn>, at: seq<nat>, id: string, turn: LocalTurn)
    requires KeepsOthers(turns, kept, at, id) && turn.id == id
    ensures KeepsOthers(turns + [turn], kept, at, id)
  {
    assert |turns| !in at;
  }

  lemma {:induction false} RemovedConcat(a: seq<LocalTurn>, b: seq<LocalTurn>, id: string)
    ensures Removed(a + b, id) == Removed(a, id) + Removed(b, id)
  {
    if a == [] {
      assert a + b == b;
    } else {
      RemovedConcat(a[1..], b, id);
      assert (a + b)[1..] == a[1..] + b && (a + b)[0] == a[0];
    }
  }

  lemma RemovedOneMore(turns: seq<LocalTurn>, i: nat, id: string)
    requires i < |turns|
    ensures Removed(turns[..i + 1], id) == Removed(turns[..i], id) + if turns[i].id == id then [] else [turns[i]]
  {
    RemovedConcat(turns[..i], [turns[i]], id);
    assert turns[..i + 1] == turns[..i] + [turns[i]];
    assert [turns[i]][1..] == [];
  }

  predicate DistinctIds(turns: seq<LocalTurn>) {
    forall i, j :: 0 <= i < j < |turns| ==> turns[i].id != turns[j].id
  }

  predicate HasId(turns: seq<LocalTurn>, id: string) {
    exists i :: 0 <= i < |turns| && turns[i].id == id
  }

  lemma {:induction false} RemovedKeeps(turns: seq<LocalTurn>, id: string)
    ensures forall t :: t in Removed(turns, id) <==> t in turns && t.id != id
    ensures DistinctIds(turns) ==> DistinctIds(Removed(turns, id))
  {
    if turns != [] {
      RemovedKeeps(turns[1..], id);
      assert turns == [turns[0]] + turns[1..];
      var rest := Removed(turns[1..], id);
      if DistinctIds(turns) && turns[0].id != id {
        forall j | 0 <= j < |rest| ensures rest[j].id != turns[0].id {
          assert rest[j] in turns[1..];
        }
      }
    }
  }

  // Every submitted turn has an id of its own, also across text and audio.
  predicate OwnIds(d: Drafts, texts: set<string>) {
    && DistinctIds(d.texts) && DistinctIds(d.audios)
    && (forall i :: 0 <= i < |d.texts| ==> d.texts[i].id in texts)
    && (forall i :: 0 <= i < |d.audios| ==> d.audios[i].id !in texts)
  }

  // Client request ids of text turns come from `texts`, those of audio turns do not.
  predicate OwnOps(ops: seq<LocalOp>, texts: set<string>) {
    forall i :: 0 <= i < |ops| ==>
      (ops[i].UpsertText? ==> ops[i].turn.id in texts) && (ops[i].UpsertAudio? ==> ops[i].turn.id !in texts)
  }

  lemma {:induction false} RunKeepsOwnIds(d: Drafts, ops: seq<LocalOp>, texts: set<string>)
    requires OwnIds(d, texts) && OwnOps(ops, texts)
    ensures OwnIds(ApplyAll(d, ops), texts)
    decreases |ops|
  {
    if ops != [] {
      var d' := Apply(d, ops[0]);
      if ops[0].RemoveAudio? {
        RemovedKeeps(d.audios, ops[0].id);
        forall i | 0 <= i < |d'.audios| ensures d'.audios[i].id !in texts {
          assert d'.audios[i] in d.audios;
        }
      }
      RunKeepsOwnIds(d', ops[1..], texts);
    }
  }

  // ---------- the merge ----------

  function OptimisticTurn(turn: LocalTurn, modality: Modality): TimelineTurn {
    TimelineTurn("optimistic:" + turn.id, if turn.threadId.Some? then turn.threadId.value else "", turn.broId, Some(turn.id), modality,
                 turn.text, turn.createdAt, turn.createdAt,
                 if turn.status == LocalFailed then Failed else if turn.status == Sent then Running else Pending, true)
  }

  predicate MatchesThread(turn: TimelineTurn, broId: string, threadId: Option<string>) {
    turn.personaId == broId && threadId.Some? && turn.threadId == threadId.value
  }

  predicate IsVisible(turn: LocalTurn, broId: string, threadId: Option<string>) {
    && turn.broId == broId
    && if threadId.None? then turn.threadId.None? || turn.threadId.value == "" else turn.threadId == threadId
  }

  function Visible(turns: seq<LocalTurn>, broId: string, threadId: Option<string>): seq<LocalTurn> {
    if turns == [] then []
    else if IsVisible(turns[0], broId, threadId) then [turns[0]] + Visible(turns[1..], broId, threadId)
    else Visible(turns[1..], broId, threadId)
  }

  function Canonical(turns: seq<TimelineTurn>, broId: string, threadId: Option<string>): seq<TimelineTurn> {
    if turns == [] then []
    else if MatchesThread(turns[0], broId, threadId) then [turns[0]] + Canonical(turns[1..], broId, threadId)
    else Canonical(turns[1..], broId, threadId)
  }

  // A server turn of this list answers the request with this id.
  predicate Acknowledged(canonical: seq<TimelineTurn>, id: string) {
    id != "" && exists i :: 0 <= i < |canonical| && canonical[i].clientRequestId == Some(id)
  }

  function Unacknowledged(turns: seq<LocalTurn>, canonical: seq<TimelineTurn>, modality: Modality): seq<TimelineTurn> {
    if turns == [] then []
    else if Acknowledged(canonical, turns[0].id) then Unacknowledged(turns[1..], canonical, modality)
    else [OptimisticTurn(turns[0], modality)] + Unacknowledged(turns[1..], canonical, modality)
  }

  // ---------- the order of optimistic turns ----------

  // How the platform compares two strings in its locale: negative, zero or positive.
  type Collation = (string, string) -> int

  ghost predicate IsCollation(collate: Collation) {
    && (forall a, b :: collate(a, b) < 0 <==> collate(b, a) > 0)
    && (forall a, b, c :: collate(a, b) <= 0 && collate(b, c) <= 0 ==> collate(a, c) <= 0)
  }

  function Time(turn: TimelineTurn): Option<int> {
    if turn.createdAt.Some? then turn.createdAt else turn.updatedAt
  }

  /** The comparison the turns are sorted by. A missing time counts as minus infinity;
      the difference of two missing times is not a number, which the sort takes for
      equality whatever the ids are. */
  function Compare(collate: Collation, l: TimelineTurn, r: TimelineTurn): int {
    match (Time(l), Time(r))
    case (None, None) => 0
    case (None, Some(_)) => -1
    case (Some(_), None) => 1
    case (Some(a), Some(b)) => if a != b then a - b else collate(l.turnId, r.turnId)
  }

  // A stable sort: a turn goes in front of the first later one that is not smaller.
  function Insert(collate: Collation, turn: TimelineTurn, sorted: seq<TimelineTurn>): seq<TimelineTurn> {
    if sorted == [] || Compare(collate, turn, sorted[0]) <= 0 then [turn] + sorted
    else [sorted[0]] + Insert(collate, turn, sorted[1..])
  }

  function Sort(collate: Collation, turns: seq<TimelineTurn>): seq<TimelineTurn> {
    if turns == [] then [] else Insert(collate, turns[0], Sort(collate, turns[1..]))
  }

  predicate Sorted(collate: Collation, turns: seq<TimelineTurn>) {
    forall i, j :: 0 <= i < j < |turns| ==> Compare(collate, turns[i], turns[j]) <= 0
  }

  lemma CompareIsOrder(collate: Collation, a: TimelineTurn, b: TimelineTurn, c: TimelineTurn)
    requires IsCollation(collate)
    ensures Compare(collate, a, b) < 0 <==> Compare(collate, b, a) > 0
    ensures Compare(collate, a, b) <= 0 && Compare(collate, b, c) <= 0 ==> Compare(collate, a, c) <= 0
  {
  }

  lemma {:induction false} InsertKeeps(collate: Collation, turn: TimelineTurn, sorted: seq<TimelineTurn>)
    requires IsCollation(collate) && Sorted(collate, sorted)
    ensures Sorted(collate, Insert(collate, turn, sorted))
    ensures multiset(Insert(collate, turn, sorted)) == multiset{turn} + multiset(sorted)
  {
    hide Compare, IsCollation;
    if sorted == [] {
    } else if Compare(collate, turn, sorted[0]) <= 0 {
      forall j | 0 <= j < |sorted| ensures Compare(collate, turn, sorted[j]) <= 0 {
        CompareIsOrder(collate, turn, sorted[0], sorted[j]);
      }
    } else {
      InsertKeeps(collate, turn, sorted[1..]);
      var rest := Insert(collate, turn, sorted[1..]);
      assert sorted == [sorted[0]] + sorted[1..];
      forall j | 0 <= j < |rest| ensures Compare(collate, sorted[0], rest[j]) <= 0 {
        assert rest[j] in multiset(rest);
        CompareIsOrder(collate, sorted[0], turn, turn);
        if rest[j] != turn {
          assert rest[j] in sorted[1..];
        }
      }
    }
  }

  lemma {:induction false} SortSorts(collate: Collation, turns: seq<TimelineTurn>)
    requires IsCollation(collate)
    ensures Sorted(collate, Sort(collate, turns))
    ensures multiset(Sort(collate, turns)) == multiset(turns)
  {
    hide Compare, IsCollation, Insert;
    if turns != [] {
      SortSorts(collate, turns[1..]);
      InsertKeeps(collate, turns[0], Sort(collate, turns[1..]));
      assert turns == [turns[0]] + turns[1..];
    }
  }

  // No two different turns compare as equal.
  predicate TellsApart(collate: Collation, turns: seq<TimelineTurn>) {
    forall i, j :: 0 <= i < |turns| && 0 <= j < |turns| && Compare(collate, turns[i], turns[j]) == 0 ==> turns[i] == turns[j]
  }

  // The smallest turn comes first in every sorted arrangement.
  lemma SameFirst(collate: Collation, a: seq<TimelineTurn>, b: seq<TimelineTurn>)
    requires IsCollation(collate) && Sorted(collate, a) && Sorted(collate, b) && multiset(a) == multiset(b)
    requires TellsApart(collate, a) && a != [] && b != []
    ensures a[0] == b[0]
  {
    hide Compare, IsCollation;
    assert a[0] in multiset(b) && b[0] in multiset(a);
    var i :| 0 <= i < |b| && b[i] == a[0];
    var j :| 0 <= j < |a| && a[j] == b[0];
    CompareIsOrder(collate, a[0], b[0], b[0]);
    CompareIsOrder(collate, b[0], a[0], a[0]);
    assert i > 0 ==> Compare(collate, b[0], b[i]) <= 0;
    assert j > 0 ==> Compare(collate, a[0], a[j]) <= 0;
  }

  lemma WithoutFirst(turns: seq<TimelineTurn>)
    requires turns != []
    ensures multiset(turns[1..]) == multiset(turns) - multiset{turns[0]}
  {
    assert turns == [turns[0]] + turns[1..];
  }

  /** Where the comparison tells turns apart there is one sorted arrangement, so it does
      not matter how the platform sorts. */
  lemma {:induction false} SortIsUnique(collate: Collation, a: seq<TimelineTurn>, b: seq<TimelineTurn>)
    requires IsCollation(collate) && Sorted(collate, a) && Sorted(collate, b) && multiset(a) == multiset(b)
    requires TellsApart(collate, a)
    ensures a == b
  {
    hide Compare, IsCollation;
    assert |a| == |multiset(a)| && |b| == |multiset(b)|;
    if a != [] {
      SameFirst(collate, a, b);
      WithoutFirst(a);
      WithoutFirst(b);
      SortIsUnique(collate, a[1..], b[1..]);
      assert a == [a[0]] + a[1..] && b == [b[0]] + b[1..];
    }
  }

  // ---------- the timeline ----------

  /** What is shown for a thread of a bro. */
  function BuildTimeline(collate: Collation, server: seq<TimelineTurn>, texts: seq<LocalTurn>, audios: seq<LocalTurn>, broId: string,
                         threadId: Option<string>): seq<TimelineTurn> {
    var canonical := Canonical(server, broId, threadId);
    canonical + Sort(collate, Unacknowledged(texts, canonical, Text) + Unacknowledged(audios, canonical, Audio))
  }

  function Shown(collate: Collation, server: seq<TimelineTurn>, d: Drafts, broId: string, threadId: Option<string>): seq<TimelineTurn> {
    BuildTimeline(collate, server, Visible(d.texts, broId, threadId), Visible(d.audios, broId, threadId), broId, threadId)
  }

  // ---------- each turn once ----------

  /** How many entries stand for the request with this id. */
  function Count(turns: seq<TimelineTurn>, id: string): nat {
    if turns == [] then 0 else (if turns[0].clientRequestId == Some(id) then 1 else 0) + Count(turns[1..], id)
  }

  lemma {:induction false} CountConcat(a: seq<TimelineTurn>, b: seq<TimelineTurn>, id: string)
    ensures Count(a + b, id) == Count(a, id) + Count(b, id)
  {
    if a == [] {
      assert a + b == b;
    } else {
      CountConcat(a[1..], b, id);
      assert (a + b)[1..] == a[1..] + b;
    }
  }

  lemma {:induction false} CountInsert(collate: Collation, turn: TimelineTurn, sorted: seq<TimelineTurn>, id: string)
    ensures Count(Insert(collate, turn, sorted), id) == Count([turn] + sorted, id)
  {
    hide Compare;
    if sorted != [] && Compare(collate, turn, sorted[0]) > 0 {
      CountInsert(collate, turn, sorted[1..], id);
      assert ([turn] + sorted)[1..] == sorted;
      assert ([turn] + sorted[1..])[1..] == sorted[1..];
    }
  }

  lemma {:induction false} CountSort(collate: Collation, turns: seq<TimelineTurn>, id: string)
    ensures Count(Sort(collate, turns), id) == Count(turns, id)
  {
    hide Insert;
    if turns != [] {
      CountSort(collate, turns[1..], id);
      CountInsert(collate, turns[0], Sort(collate, turns[1..]), id);
      assert ([turns[0]] + Sort(collate, turns[1..]))[1..] == Sort(collate, turns[1..]);
    }
  }

  lemma {:induction false} CountUnacknowledged(turns: seq<LocalTurn>, canonical: seq<TimelineTurn>, modality: Modality, id: string)
    requires DistinctIds(turns)
    ensures Count(Unacknowledged(turns, canonical, modality), id) == if HasId(turns, id) && !Acknowledged(canonical, id) then 1 else 0
  {
    hide Acknowledged;
    if turns != [] {
      CountUnacknowledged(turns[1..], canonical, modality, id);
      assert turns == [turns[0]] + turns[1..];
      assert HasId(turns, id) <==> turns[0].id == id || HasId(turns[1..], id);
      if HasId(turns[1..], id) {
        var i :| 0 <= i < |turns| - 1 && turns[1..][i].id == id;
        assert turns[i + 1].id == id;
      }
    }
  }

  lemma {:induction false} CountAcknowledged(canonical: seq<TimelineTurn>, id: string)
    ensures id != "" ==> (Count(canonical, id) > 0 <==> Acknowledged(canonical, id))
  {
    if canonical != [] {
      CountAcknowledged(canonical[1..], id);
      assert canonical == [canonical[0]] + canonical[1..];
    }
  }

  lemma {:induction false} VisibleKeeps(turns: seq<LocalTurn>, broId: string, threadId: Option<string>)
    ensures forall t :: t in Visible(turns, broId, threadId) <==> t in turns && IsVisible(t, broId, threadId)
    ensures DistinctIds(turns) ==> DistinctIds(Visible(turns, broId, threadId))
  {
    hide IsVisible;
    if turns != [] {
      VisibleKeeps(turns[1..], broId, threadId);
      assert turns == [turns[0]] + turns[1..];
      var rest := Visible(turns[1..], broId, threadId);
      if DistinctIds(turns) {
        forall j | 0 <= j < |rest| ensures rest[j].id != turns[0].id {
          assert rest[j] in turns[1..];
        }
      }
    }
  }

  // The client has a visible turn with this id.
  predicate Submitted(d: Drafts, broId: string, threadId: Option<string>, id: string) {
    HasId(Visible(d.texts, broId, threadId), id) || HasId(Visible(d.audios, broId, threadId), id)
  }

  lemma NotInBoth(d: Drafts, texts: set<string>, broId: string, threadId: Option<string>, id: string)
    requires OwnIds(d, texts)
    ensures HasId(Visible(d.texts, broId, threadId), id) ==> id in texts
    ensures HasId(Visible(d.audios, broId, threadId), id) ==> id !in texts
  {
    hide IsVisible, Visible;
    VisibleKeeps(d.texts, broId, threadId);
    VisibleKeeps(d.audios, broId, threadId);
    if HasId(Visible(d.texts, broId, threadId), id) {
      var i :| 0 <= i < |Visible(d.texts, broId, threadId)| && Visible(d.texts, broId, threadId)[i].id == id;
      assert Visible(d.texts, broId, threadId)[i] in d.texts;
    }
    if HasId(Visible(d.audios, broId, threadId), id) {
      var i :| 0 <= i < |Visible(d.audios, broId, threadId)| && Visible(d.audios, broId, threadId)[i].id == id;
      assert Visible(d.audios, broId, threadId)[i] in d.audios;
    }
  }

  /** After any run of local upserts and removals a submitted turn is shown once,
      before its acknowledgement as itself and after it as the server's turn; and a
      request shows nothing when neither side has it. */
  lemma EachTurnOnce(collate: Collation, server: seq<TimelineTurn>, ops: seq<LocalOp>, texts: set<string>, broId: string,
                     threadId: Option<string>, id: string)
    requires OwnOps(ops, texts) && id != ""
    requires Count(Canonical(server, broId, threadId), id) <= 1
    ensures var d := ApplyAll(Drafts([], []), ops);
            Count(Shown(collate, server, d, broId, threadId), id)
            == if Acknowledged(Canonical(server, broId, threadId), id) || Submitted(d, broId, threadId, id) then 1 else 0
  {
    hide Visible, Canonical, ApplyAll, Unacknowledged, Sort, Acknowledged, HasId;
    var d := ApplyAll(Drafts([], []), ops);
    RunKeepsOwnIds(Drafts([], []), ops, texts);
    var canonical := Canonical(server, broId, threadId);
    var (t, a) := (Visible(d.texts, broId, threadId), Visible(d.audios, broId, threadId));
    VisibleKeeps(d.texts, broId, threadId);
    VisibleKeeps(d.audios, broId, threadId);
    NotInBoth(d, texts, broId, threadId, id);
    var (ut, ua) := (Unacknowledged(t, canonical, Text), Unacknowledged(a, canonical, Audio));
    CountConcat(canonical, Sort(collate, ut + ua), id);
    CountSort(collate, ut + ua, id);
    CountConcat(ut, ua, id);
    CountUnacknowledged(t, canonical, Text, id);
    CountUnacknowledged(a, canonical, Audio, id);
    CountAcknowledged(canonical, id);
  }

  // Where the server's turns of the thread stand among all its turns.
  lemma {:induction false} CanonicalAt(server: seq<TimelineTurn>, broId: string, threadId: Option<string>) returns (at: seq<nat>)
    ensures |at| == |Canonical(server, broId, threadId)| && Positions(at, |server|)
    ensures forall k :: 0 <= k < |at| ==> Canonical(server, broId, threadId)[k] == server[at[k]]
    ensures forall i :: 0 <= i < |server| ==> (i in at <==> MatchesThread(server[i], broId, threadId))
  {
    hide MatchesThread;
    at := [];
    if server != [] {
      var n := |server| - 1;
      at := CanonicalAt(server[..n], broId, threadId);
      CanonicalConcat(server[..n], [server[n]], broId, threadId);
      assert server == server[..n] + [server[n]];
      assert [server[n]][1..] == [];
      assert forall i :: 0 <= i < n ==> server[..n][i] == server[i];
      assert n !in at;
      if MatchesThread(server[n], broId, threadId) {
        at := at + [n];
      }
    }
  }

  lemma {:induction false} CanonicalConcat(a: seq<TimelineTurn>, b: seq<TimelineTurn>, broId: string, threadId: Option<string>)
    ensures Canonical(a + b, broId, threadId) == Canonical(a, broId, threadId) + Canonical(b, broId, threadId)
  {
    hide MatchesThread;
    if a == [] {
      assert a + b == b;
    } else {
      CanonicalConcat(a[1..], b, broId, threadId);
      assert (a + b)[1..] == a[1..] + b;
    }
  }

  /** A server turn of this bro and thread answers the request with this id. */
  predicate Answered(server: seq<TimelineTurn>, broId: string, threadId: Option<string>, id: string) {
    id != "" && exists i :: 0 <= i < |server| && server[i].personaId == broId && Some(server[i].threadId) == threadId
                            && server[i].clientRequestId == Some(id)
  }

  lemma AcknowledgedIsAnswered(server: seq<TimelineTurn>, broId: string, threadId: Option<string>, id: string)
    ensures Acknowledged(Canonical(server, broId, threadId), id) <==> Answered(server, broId, threadId, id)
  {
    hide Canonical;
    var at := CanonicalAt(server, broId, threadId);
    var canonical := Canonical(server, broId, threadId);
    if Answered(server, broId, threadId, id) {
      var i :| 0 <= i < |server| && server[i].personaId == broId && Some(server[i].threadId) == threadId
               && server[i].clientRequestId == Some(id);
      var k :| 0 <= k < |at| && at[k] == i;
      assert canonical[k].clientRequestId == Some(id);
    }
    if Acknowledged(canonical, id) {
      var k :| 0 <= k < |canonical| && canonical[k].clientRequestId == Some(id);
      assert at[k] in at && server[at[k]].clientRequestId == Some(id);
    }
  }

  /** The entry shown for a local turn: its text, modality and time, under ids of its
      own, failed or running when the turn is, and pending otherwise. */
  predicate EntryOf(turn: LocalTurn, modality: Modality, entry: TimelineTurn) {
    && entry.turnId == "optimistic:" + turn.id && entry.clientRequestId == Some(turn.id) && entry.optimistic
    && entry.personaId == turn.broId && (entry.threadId == "" || Some(entry.threadId) == turn.threadId)
    && (turn.threadId.Some? ==> Some(entry.threadId) == turn.threadId)
    && entry.text == turn.text && entry.modality == modality
    && entry.createdAt == turn.createdAt && entry.updatedAt == turn.createdAt
    && (entry.status == Failed <==> turn.status == LocalFailed)
    && (entry.status == Running <==> turn.status == Sent)
    && (entry.status == Pending <==> turn.status == Recording || turn.status == Sending)
  }

  lemma EntryIsOptimisticTurn(turn: LocalTurn, modality: Modality, entry: TimelineTurn)
    ensures EntryOf(turn, modality, entry) <==> OptimisticTurn(turn, modality) == entry
  {
  }

  /** The turn belongs to this bro and thread; without a thread, it has none. */
  predicate BelongsTo(turn: LocalTurn, broId: string, threadId: Option<string>) {
    turn.broId == broId && (turn.threadId == threadId || (threadId.None? && turn.threadId == Some("")))
  }

  lemma VisibleBelongs(turn: LocalTurn, broId: string, threadId: Option<string>)
    ensures BelongsTo(turn, broId, threadId) <==> IsVisible(turn, broId, threadId)
  {
  }

  /** The entry of a local turn that belongs here and is not answered yet. */
  predicate StandsForLocal(server: seq<TimelineTurn>, turns: seq<LocalTurn>, modality: Modality, broId: string, threadId: Option<string>,
                           entry: TimelineTurn) {
    exists i :: 0 <= i < |turns| && BelongsTo(turns[i], broId, threadId) && !Answered(server, broId, threadId, turns[i].id)
                && EntryOf(turns[i], modality, entry)
  }

  lemma {:induction false} UnacknowledgedIs(turns: seq<LocalTurn>, canonical: seq<TimelineTurn>, modality: Modality, entry: TimelineTurn)
    ensures entry in Unacknowledged(turns, canonical, modality) <==>
            exists i :: 0 <= i < |turns| && !Acknowledged(canonical, turns[i].id) && OptimisticTurn(turns[i], modality) == entry
  {
    hide Acknowledged, OptimisticTurn;
    if turns != [] {
      UnacknowledgedIs(turns[1..], canonical, modality, entry);
      assert forall i :: 0 <= i < |turns| - 1 ==> turns[1..][i] == turns[i + 1];
      assert forall i :: 0 < i < |turns| ==> turns[i] == turns[1..][i - 1];
    }
  }

  lemma LocalEntries(server: seq<TimelineTurn>, turns: seq<LocalTurn>, modality: Modality, broId: string, threadId: Option<string>,
                     entry: TimelineTurn)
    ensures entry in Unacknowledged(Visible(turns, broId, threadId), Canonical(server, broId, threadId), modality) <==>
            StandsForLocal(server, turns, modality, broId, threadId, entry)
  {
    hide Unacknowledged, Acknowledged, Answered, IsVisible, Visible, Canonical, OptimisticTurn, BelongsTo, EntryOf;
    var visible, canonical := Visible(turns, broId, threadId), Canonical(server, broId, threadId);
    UnacknowledgedIs(visible, canonical, modality, entry);
    VisibleKeeps(turns, broId, threadId);
    forall id ensures Acknowledged(canonical, id) <==> Answered(server, broId, threadId, id) {
      AcknowledgedIsAnswered(server, broId, threadId, id);
    }
    forall turn ensures BelongsTo(turn, broId, threadId) <==> IsVisible(turn, broId, threadId) {
      VisibleBelongs(turn, broId, threadId);
    }
    forall turn ensures EntryOf(turn, modality, entry) <==> OptimisticTurn(turn, modality) == entry {
      EntryIsOptimisticTurn(turn, modality, entry);
    }
    if entry in Unacknowledged(visible, canonical, modality) {
      var i :| 0 <= i < |visible| && !Acknowledged(canonical, visible[i].id) && OptimisticTurn(visible[i], modality) == entry;
      assert visible[i] in turns;
    }
    if StandsForLocal(server, turns, modality, broId, threadId, entry) {
      var i :| 0 <= i < |turns| && BelongsTo(turns[i], broId, threadId) && !Answered(server, broId, threadId, turns[i].id)
               && EntryOf(turns[i], modality, entry);
      assert turns[i] in visible;
    }
  }

  // The tail of what is shown is a sorted arrangement of the local entries.
  lemma ShownInTwoParts(collate: Collation, server: seq<TimelineTurn>, d: Drafts, broId: string, threadId: Option<string>)
    requires IsCollation(collate)
    ensures var canonical := Canonical(server, broId, threadId);
            var shown := Shown(collate, server, d, broId, threadId);
            && |canonical| <= |shown| && shown[..|canonical|] == canonical
            && Sorted(collate, shown[|canonical|..])
            && multiset(shown[|canonical|..])
               == multiset(Unacknowledged(Visible(d.texts, broId, threadId), canonical, Text)
                           + Unacknowledged(Visible(d.audios, broId, threadId), canonical, Audio))
  {
    hide Visible, Canonical, Unacknowledged, Sort, Compare, IsCollation;
    var canonical := Canonical(server, broId, threadId);
    var local := Unacknowledged(Visible(d.texts, broId, threadId), canonical, Text)
                 + Unacknowledged(Visible(d.audios, broId, threadId), canonical, Audio);
    SortSorts(collate, local);
    assert (canonical + Sort(collate, local))[|canonical|..] == Sort(collate, local);
  }

  /** The first entry may stand before the second: it has no time, or both have one and
      it is older, or as old and not behind it by id. */
  predicate MayPrecede(collate: Collation, a: TimelineTurn, b: TimelineTurn) {
    && (a.createdAt.Some? ==> b.createdAt.Some?)
    && (a.createdAt.Some? && b.createdAt.Some? ==>
          a.createdAt.value < b.createdAt.value || (a.createdAt == b.createdAt && collate(a.turnId, b.turnId) <= 0))
  }

  lemma ComparedMayPrecede(collate: Collation, a: TimelineTurn, b: TimelineTurn)
    requires a.updatedAt == a.createdAt && b.updatedAt == b.createdAt && Compare(collate, a, b) <= 0
    ensures MayPrecede(collate, a, b)
  {
  }

  lemma LocalTimes(server: seq<TimelineTurn>, turns: seq<LocalTurn>, modality: Modality, broId: string, threadId: Option<string>,
                   entry: TimelineTurn)
    requires StandsForLocal(server, turns, modality, broId, threadId, entry)
    ensures entry.updatedAt == entry.createdAt
  {
    hide BelongsTo, Answered;
  }

  /** The shown timeline is first the server's turns of this bro and thread, each as it
      is and in their order (at the positions `at`), and then exactly the entries of the
      local turns of this bro and thread that no such server turn answers: those without
      a time first, then from the oldest to the newest, and by id at the same time. */
  lemma TimelineIsCanonicalThenLocal(collate: Collation, server: seq<TimelineTurn>, d: Drafts, broId: string, threadId: Option<string>)
    returns (at: seq<nat>)
    requires IsCollation(collate)
    ensures var shown := Shown(collate, server, d, broId, threadId);
            && |at| <= |shown| && Positions(at, |server|)
            && (forall k :: 0 <= k < |at| ==> shown[k] == server[at[k]])
            && (forall i :: 0 <= i < |server| ==> (i in at <==> server[i].personaId == broId && Some(server[i].threadId) == threadId))
            && (forall entry :: entry in shown[|at|..] <==>
                  StandsForLocal(server, d.texts, Text, broId, threadId, entry)
                  || StandsForLocal(server, d.audios, Audio, broId, threadId, entry))
            && (forall i, j :: |at| <= i < j < |shown| ==> MayPrecede(collate, shown[i], shown[j]))
  {
    hide Shown, Visible, Canonical, Unacknowledged, Compare, IsCollation, StandsForLocal, MayPrecede;
    at := CanonicalAt(server, broId, threadId);
    ShownInTwoParts(collate, server, d, broId, threadId);
    var shown, canonical := Shown(collate, server, d, broId, threadId), Canonical(server, broId, threadId);
    assert forall k :: 0 <= k < |at| ==> shown[k] == shown[..|canonical|][k];
    var texts, audios := Unacknowledged(Visible(d.texts, broId, threadId), canonical, Text),
                         Unacknowledged(Visible(d.audios, broId, threadId), canonical, Audio);
    var local := shown[|at|..];
    forall entry ensures entry in local <==>
                  StandsForLocal(server, d.texts, Text, broId, threadId, entry)
                  || StandsForLocal(server, d.audios, Audio, broId, threadId, entry) {
      assert entry in local <==> entry in multiset(local);
      assert entry in texts + audios <==> entry in multiset(texts + audios);
      LocalEntries(server, d.texts, Text, broId, threadId, entry);
      LocalEntries(server, d.audios, Audio, broId, threadId, entry);
    }
    forall entry | entry in local ensures entry.updatedAt == entry.createdAt {
      if StandsForLocal(server, d.texts, Text, broId, threadId, entry) {
        LocalTimes(server, d.texts, Text, broId, threadId, entry);
      } else {
        LocalTimes(server, d.audios, Audio, broId, threadId, entry);
      }
    }
    forall i, j | |at| <= i < j < |shown| ensures MayPrecede(collate, shown[i], shown[j]) {
      assert shown[i] == local[i - |at|] && shown[j] == local[j - |at|];
      assert Compare(collate, local[i - |at|], local[j - |at|]) <= 0;
      ComparedMayPrecede(collate, shown[i], shown[j]);
    }
  }

  // ---------- turns without a time ----------

  function Timeless(turns: seq<TimelineTurn>): seq<TimelineTurn> {
    if turns == [] then []
    else if turns[0].createdAt.None? && turns[0].updatedAt.None? then [turns[0]] + Timeless(turns[1..])
    else Timeless(turns[1..])
  }

  lemma {:induction false} TimelessConcat(a: seq<TimelineTurn>, b: seq<TimelineTurn>)
    ensures Timeless(a + b) == Timeless(a) + Timeless(b)
  {
    if a == [] {
      assert a + b == b;
    } else {
      TimelessConcat(a[1..], b);
      assert (a + b)[1..] == a[1..] + b && (a + b)[0] == a[0];
    }
  }

  lemma {:induction false} InsertKeepsTimeless(collate: Collation, turn: TimelineTurn, sorted: seq<TimelineTurn>)
    ensures Timeless(Insert(collate, turn, sorted)) == Timeless([turn]) + Timeless(sorted)
  {
    TimelessConcat([turn], sorted);
    if sorted != [] && Compare(collate, turn, sorted[0]) > 0 {
      InsertKeepsTimeless(collate, turn, sorted[1..]);
      var rest := Insert(collate, turn, sorted[1..]);
      TimelessConcat([sorted[0]], rest);
      TimelessConcat([sorted[0]], sorted[1..]);
      assert sorted == [sorted[0]] + sorted[1..];
      assert [turn][1..] == [] && [sorted[0]][1..] == [];
    }
  }

  lemma {:induction false} SortKeepsTimeless(collate: Collation, turns: seq<TimelineTurn>)
    ensures Timeless(Sort(collate, turns)) == Timeless(turns)
  {
    hide Insert, Timeless;
    if turns != [] {
      SortKeepsTimeless(collate, turns[1..]);
      InsertKeepsTimeless(collate, turns[0], Sort(collate, turns[1..]));
      TimelessConcat([turns[0]], turns[1..]);
      assert turns == [turns[0]] + turns[1..];
    } else {
      assert Sort(collate, turns) == turns;
    }
  }

  /** Local turns without a time are not told apart by their ids: they are shown in the
      order in which they were submitted, texts before audios. */
  lemma TimelessKeepOrder(collate: Collation, server: seq<TimelineTurn>, d: Drafts, broId: string, threadId: Option<string>)
    ensures var canonical := Canonical(server, broId, threadId);
            var shown := Shown(collate, server, d, broId, threadId);
            |canonical| <= |shown|
            && Timeless(shown[|canonical|..])
               == Timeless(Unacknowledged(Visible(d.texts, broId, threadId), canonical, Text))
                  + Timeless(Unacknowledged(Visible(d.audios, broId, threadId), canonical, Audio))
  {
    hide Visible, Canonical, Unacknowledged, Sort, Timeless;
    var canonical := Canonical(server, broId, threadId);
    var texts, audios := Unacknowledged(Visible(d.texts, broId, threadId), canonical, Text),
                         Unacknowledged(Visible(d.audios, broId, threadId), canonical, Audio);
    SortKeepsTimeless(collate, texts + audios);
    TimelessConcat(texts, audios);
    assert (canonical + Sort(collate, texts + audios))[|canonical|..] == Sort(collate, texts + audios);
  }
}
