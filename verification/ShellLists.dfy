/** The lists of the shell: threads and timeline turns, and the functions that make
    new lists from old ones. */
module ShellLists {
  import opened Wrappers

  datatype TimelineStatus = NotLoaded | Loading | Loaded | LoadFailed

  datatype Thread = Thread(threadId: string, title: string, status: TimelineStatus, error: Option<string>)

  datatype Turn = Turn(turnId: string, threadId: string, body: string)

  datatype PageInfo = PageInfo(nextCursor: Option<string>)

  datatype TimelinePage = TimelinePage(thread: Thread, turns: seq<Turn>, info: PageInfo)

  // ---------- threads ----------

  predicate HasThread(threads: seq<Thread>, threadId: string) {
    exists i :: 0 <= i < |threads| && threads[i].threadId == threadId
  }

  function ReplaceThread(threads: seq<Thread>, thread: Thread): (r: seq<Thread>)
    ensures |r| == |threads|
    ensures forall i :: 0 <= i < |r| ==> r[i] == if threads[i].threadId == thread.threadId then thread else threads[i]
  {
    seq(|threads|, i requires 0 <= i < |threads| => if threads[i].threadId == thread.threadId then thread else threads[i])
  }

  function UpsertThread(threads: seq<Thread>, thread: Thread): seq<Thread> {
    if HasThread(threads, thread.threadId) then ReplaceThread(threads, thread) else [thread] + threads
  }

  function MarkThread(threads: seq<Thread>, threadId: string, status: TimelineStatus, error: Option<string>): (r: seq<Thread>)
    ensures |r| == |threads|
    ensures forall i :: 0 <= i < |r| ==>
              r[i] == if threads[i].threadId == threadId then threads[i].(status := status, error := error) else threads[i]
  {
    seq(|threads|, i requires 0 <= i < |threads| =>
      if threads[i].threadId == threadId then threads[i].(status := status, error := error) else threads[i])
  }

  // The page's threads that are not yet listed, behind the listed ones.
  function AppendThreads(threads: seq<Thread>, page: seq<Thread>): seq<Thread> {
    threads + Unlisted(threads, page)
  }

  function Unlisted(threads: seq<Thread>, page: seq<Thread>): (r: seq<Thread>)
    ensures forall t :: t in r ==> t in page && !HasThread(threads, t.threadId)
  {
    if page == [] then []
    else if HasThread(threads, page[0].threadId) then Unlisted(threads, page[1..])
    else [page[0]] + Unlisted(threads, page[1..])
  }

  predicate DistinctThreads(threads: seq<Thread>) {
    forall i, j :: 0 <= i < j < |threads| ==> threads[i].threadId != threads[j].threadId
  }

  /** An upserted thread is listed with its new content; every other thread stays as it
      was and where it was, behind the new one when that was not listed. */
  lemma UpsertedThread(threads: seq<Thread>, thread: Thread)
    ensures thread in UpsertThread(threads, thread)
    ensures var at := if exists k :: 0 <= k < |threads| && threads[k].threadId == thread.threadId then 0 else 1;
            && |UpsertThread(threads, thread)| == at + |threads|
            && forall k :: 0 <= k < |threads| ==>
                 UpsertThread(threads, thread)[at + k] == if threads[k].threadId == thread.threadId then thread else threads[k]
  {
    if k :| 0 <= k < |threads| && threads[k].threadId == thread.threadId {
      assert UpsertThread(threads, thread)[k] == thread;
    }
  }

  lemma {:induction false} UnlistedConcat(threads: seq<Thread>, a: seq<Thread>, b: seq<Thread>)
    ensures Unlisted(threads, a + b) == Unlisted(threads, a) + Unlisted(threads, b)
  {
    hide HasThread;
    if a == [] {
      assert a + b == b;
    } else {
      UnlistedConcat(threads, a[1..], b);
      assert (a + b)[1..] == a[1..] + b && (a + b)[0] == a[0];
    }
  }

  /** These are the page's threads that are not listed yet, at these positions. */
  predicate NewOnes(threads: seq<Thread>, page: seq<Thread>, added: seq<Thread>, at: seq<nat>) {
    && |at| == |added| && Positions(at, |page|)
    && (forall k :: 0 <= k < |at| ==> added[k] == page[at[k]])
    && (forall i :: 0 <= i < |page| ==> (i in at <==> !HasThread(threads, page[i].threadId)))
  }

  lemma OneMoreNew(threads: seq<Thread>, page: seq<Thread>, added: seq<Thread>, at: seq<nat>, thread: Thread)
    requires NewOnes(threads, page, added, at)
    ensures if HasThread(threads, thread.threadId) then NewOnes(threads, page + [thread], added, at)
            else NewOnes(threads, page + [thread], added + [thread], at + [|page|])
  {
    hide HasThread;
    assert |page| !in at;
  }

  lemma {:induction false} UnlistedAt(threads: seq<Thread>, page: seq<Thread>) returns (at: seq<nat>)
    ensures NewOnes(threads, page, Unlisted(threads, page), at)
  {
    hide HasThread, Unlisted;
    at := [];
    if page == [] {
      NothingUnlisted(threads);
      assert NewOnes(threads, page, [], at);
    } else {
      var n := |page| - 1;
      at := UnlistedAt(threads, page[..n]);
      UnlistedConcat(threads, page[..n], [page[n]]);
      OneUnlisted(threads, page[n]);
      assert page == page[..n] + [page[n]];
      OneMoreNew(threads, page[..n], Unlisted(threads, page[..n]), at, page[n]);
      assert Unlisted(threads, page[..n]) + [] == Unlisted(threads, page[..n]);
      if !HasThread(threads, page[n].threadId) {
        at := at + [n];
      }
    }
  }

  lemma NothingUnlisted(threads: seq<Thread>)
    ensures Unlisted(threads, []) == []
  {
  }

  lemma OneUnlisted(threads: seq<Thread>, thread: Thread)
    ensures Unlisted(threads, [thread]) == if HasThread(threads, thread.threadId) then [] else [thread]
  {
    hide HasThread;
    assert [thread][1..] == [];
  }

  /** Loading more threads keeps those listed, in front and as they are, and adds behind
      them exactly the page's threads that were not listed, in the page's order; so
      every thread of the page is listed afterwards. */
  lemma AppendedThreads(threads: seq<Thread>, page: seq<Thread>) returns (at: seq<nat>)
    ensures var all := AppendThreads(threads, page);
            && threads <= all && NewOnes(threads, page, all[|threads|..], at)
            && forall i :: 0 <= i < |page| ==> HasThread(all, page[i].threadId)
  {
    hide Unlisted;
    at := UnlistedAt(threads, page);
    var all := AppendThreads(threads, page);
    assert all[|threads|..] == Unlisted(threads, page);
    forall i | 0 <= i < |page| ensures HasThread(all, page[i].threadId) {
      if i in at {
        var k :| 0 <= k < |at| && at[k] == i;
        assert all[|threads| + k] == page[i];
      } else {
        var k :| 0 <= k < |threads| && threads[k].threadId == page[i].threadId;
        assert all[k] == threads[k];
      }
    }
  }

  /** Upserting and marking keep thread ids distinct; so does loading more threads
      from a page without repeats. */
  lemma ThreadIdsStayDistinct(threads: seq<Thread>, thread: Thread, threadId: string, status: TimelineStatus, error: Option<string>,
                              page: seq<Thread>)
    requires DistinctThreads(threads) && DistinctThreads(page)
    ensures DistinctThreads(UpsertThread(threads, thread))
    ensures DistinctThreads(MarkThread(threads, threadId, status, error))
    ensures DistinctThreads(AppendThreads(threads, page))
  {
    UnlistedDistinct(threads, page);
    var more := Unlisted(threads, page);
    forall i, j | 0 <= i < |threads| && 0 <= j < |more| ensures threads[i].threadId != more[j].threadId {
      assert more[j] in more;
    }
  }

  lemma {:induction false} UnlistedDistinct(threads: seq<Thread>, page: seq<Thread>)
    requires DistinctThreads(page)
    ensures DistinctThreads(Unlisted(threads, page))
  {
    if page != [] {
      UnlistedDistinct(threads, page[1..]);
      var rest := Unlisted(threads, page[1..]);
      forall j | 0 <= j < |rest| ensures rest[j].threadId != page[0].threadId {
        assert rest[j] in page[1..];
      }
    }
  }

  // ---------- turns ----------

  function TurnsOf(turns: seq<Turn>, threadId: string): seq<Turn> {
    if turns == [] then []
    else if turns[0].threadId == threadId then [turns[0]] + TurnsOf(turns[1..], threadId)
    else TurnsOf(turns[1..], threadId)
  }

  function TurnsNotOf(turns: seq<Turn>, threadId: string): seq<Turn> {
    if turns == [] then []
    else if turns[0].threadId == threadId then TurnsNotOf(turns[1..], threadId)
    else [turns[0]] + TurnsNotOf(turns[1..], threadId)
  }

  function ReplaceTurns(turns: seq<Turn>, threadId: string, next: seq<Turn>): seq<Turn> {
    TurnsNotOf(turns, threadId) + next
  }

  predicate Seen(turns: seq<Turn>, turnId: string) {
    exists i :: 0 <= i < |turns| && turns[i].turnId == turnId
  }

  function Unseen(turns: seq<Turn>, next: seq<Turn>): seq<Turn> {
    if next == [] then []
    else if Seen(turns, next[0].turnId) then Unseen(turns, next[1..])
    else [next[0]] + Unseen(turns, next[1..])
  }

  function PrependTurns(turns: seq<Turn>, next: seq<Turn>): seq<Turn> {
    Unseen(turns, next) + turns
  }

  predicate AllOf(turns: seq<Turn>, threadId: string) {
    forall i :: 0 <= i < |turns| ==> turns[i].threadId == threadId
  }

  lemma {:induction false} TurnsOfConcat(a: seq<Turn>, b: seq<Turn>, threadId: string)
    ensures TurnsOf(a + b, threadId) == TurnsOf(a, threadId) + TurnsOf(b, threadId)
  {
    if a == [] {
      assert a + b == b;
    } else {
      TurnsOfConcat(a[1..], b, threadId);
      assert (a + b)[1..] == a[1..] + b;
    }
  }

  lemma {:induction false} TurnsOfAll(turns: seq<Turn>, threadId: string, other: string)
    requires AllOf(turns, threadId)
    ensures TurnsOf(turns, other) == if other == threadId then turns else []
  {
    if turns != [] {
      TurnsOfAll(turns[1..], threadId, other);
    }
  }

  lemma {:induction false} TurnsOfRest(turns: seq<Turn>, threadId: string, other: string)
    ensures TurnsOf(TurnsNotOf(turns, threadId), other) == if other == threadId then [] else TurnsOf(turns, other)
  {
    if turns != [] {
      TurnsOfRest(turns[1..], threadId, other);
    }
  }

  /** Replacing a thread's turns sets that thread's turns and no other's. */
  lemma ReplacedTurns(turns: seq<Turn>, threadId: string, next: seq<Turn>, other: string)
    requires AllOf(next, threadId)
    ensures TurnsOf(ReplaceTurns(turns, threadId, next), other) == if other == threadId then next else TurnsOf(turns, other)
  {
    TurnsOfConcat(TurnsNotOf(turns, threadId), next, other);
    TurnsOfRest(turns, threadId, other);
    TurnsOfAll(next, threadId, other);
  }
}
