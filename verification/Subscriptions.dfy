/** The blackboard's subscription manager: every subscriber has a queue of its own,
    and a publication puts the event into every subscribed queue. The queues are
    objects shared with their subscribers; they are unbounded, so a put never
    suspends and a publication is one step. */
module Subscriptions {

  // ---------- the bus as a value ----------

  /** Queues are told apart by the order of their creation. A queue has what was taken
      from it and what still waits in it. */
  datatype Bus<E> = Bus(taken: seq<seq<E>>, waiting: seq<seq<E>>, subscribed: seq<nat>)

  datatype Op<E> = Subscribe | Unsubscribe(id: nat) | Publish(event: E) | Consume(id: nat)

  predicate BusOk<E>(b: Bus<E>) {
    && |b.taken| == |b.waiting|
    && (forall id :: id in b.subscribed ==> id < |b.waiting|)
    && Distinct(b.subscribed)
  }

  predicate Distinct(ids: seq<nat>) {
    forall i, j :: 0 <= i < j < |ids| ==> ids[i] != ids[j]
  }

  function Without(ids: seq<nat>, id: nat): (r: seq<nat>)
    ensures forall k :: k in r ==> k in ids
    ensures id !in ids ==> r == ids
  {
    if ids == [] then [] else if ids[0] == id then ids[1..] else [ids[0]] + Without(ids[1..], id)
  }

  function Next<E>(b: Bus<E>, op: Op<E>): Bus<E>
    requires BusOk(b)
  {
    match op
    case Subscribe => Bus(b.taken + [[]], b.waiting + [[]], b.subscribed + [|b.waiting|])
    case Unsubscribe(id) => b.(subscribed := Without(b.subscribed, id))
    case Publish(event) =>
      b.(waiting := seq(|b.waiting|, id requires 0 <= id < |b.waiting| =>
                          if id in b.subscribed then b.waiting[id] + [event] else b.waiting[id]))
    case Consume(id) =>
      if id < |b.waiting| && b.waiting[id] != [] then
        b.(taken := b.taken[id := b.taken[id] + [b.waiting[id][0]]], waiting := b.waiting[id := b.waiting[id][1..]])
      else b
  }

  lemma {:induction false} WithoutIs(ids: seq<nat>, id: nat)
    requires Distinct(ids)
    ensures forall k :: k in Without(ids, id) <==> k in ids && k != id
    ensures Distinct(Without(ids, id))
  {
    if ids != [] {
      WithoutIs(ids[1..], id);
      assert ids == [ids[0]] + ids[1..];
      assert ids[0] !in ids[1..];
      var rest := Without(ids[1..], id);
      assert forall j :: 0 <= j < |rest| ==> rest[j] in rest;
    }
  }

  lemma StepKeepsOk<E>(b: Bus<E>, op: Op<E>)
    requires BusOk(b)
    ensures BusOk(Next(b, op))
  {
    hide Distinct;
    if op.Unsubscribe? {
      WithoutIs(b.subscribed, op.id);
    } else if op.Subscribe? {
      OneMore(b.subscribed, |b.waiting|);
    }
  }

  lemma OneMore(ids: seq<nat>, id: nat)
    requires Distinct(ids) && id !in ids
    ensures Distinct(ids + [id])
  {
  }

  function Run<E>(b: Bus<E>, ops: seq<Op<E>>): Bus<E>
    requires BusOk(b)
    decreases |ops|
  {
    StepKeepsOk(b, if ops == [] then Subscribe else ops[0]);
    if ops == [] then b else Run(Next(b, ops[0]), ops[1..])
  }

  // ---------- the manager ----------

  class Queue<E> {
    var items: seq<E>
    ghost var taken: seq<E>

    constructor ()
      ensures items == [] && taken == []
    {
      items, taken := [], [];
    }

    method Put(event: E)
      modifies this
      ensures items == old(items) + [event] && taken == old(taken)
    {
      items := items + [event];
    }

    method Get() returns (event: E)
      requires items != []
      modifies this
      ensures event == old(items)[0] && items == old(items)[1..] && taken == old(taken) + [event]
    {
      event := items[0];
      items := items[1..];
      taken := taken + [event];
    }
  }

  class SubscriptionManager<E> {
    var queues: seq<Queue<E>>
    ghost var made: seq<Queue<E>>
    ghost var ids: seq<nat>

    ghost predicate Valid()
      reads this
    {
      && |ids| == |queues|
      && (forall i :: 0 <= i < |ids| ==> ids[i] < |made| && queues[i] == made[ids[i]])
      && Distinct(ids)
      && (forall i, j :: 0 <= i < j < |made| ==> made[i] != made[j])
    }

    ghost function View(): Bus<E>
      reads this, made
    {
      Bus(seq(|made|, i requires 0 <= i < |made| reads this, made => made[i].taken),
          seq(|made|, i requires 0 <= i < |made| reads this, made => made[i].items), ids)
    }

    constructor ()
      ensures Valid() && View() == Bus([], [], [])
    {
      queues, made, ids := [], [], [];
    }

    lemma ViewIsOk()
      requires Valid()
      ensures BusOk(View())
    {
    }

    method SubscribeQueue() returns (queue: Queue<E>)
      requires Valid()
      modifies this
      ensures Valid() && fresh(queue) && made == old(made) + [queue]
      ensures BusOk(old(View())) && View() == Next(old(View()), Subscribe)
    {
      queue := new Queue<E>();
      ids := ids + [|made|];
      queues := queues + [queue];
      made := made + [queue];
    }

    // A queue that is not subscribed, or not this manager's, is left alone.
    method UnsubscribeQueue(queue: Queue<E>)
      requires Valid()
      modifies this
      ensures Valid() && made == old(made) && BusOk(old(View()))
      ensures forall id :: 0 <= id < |made| && made[id] == queue ==> View() == Next(old(View()), Unsubscribe(id))
      ensures queue !in made ==> View() == old(View())
    {
      hide View, Next, BusOk;
      ViewIsOk();
      var i := 0;
      while i < |queues| && queues[i] != queue
        invariant i <= |queues|
        invariant forall j :: 0 <= j < i ==> queues[j] != queue
      {
        i := i + 1;
      }
      if i < |queues| {
        assert queues[i] in made;
        assert forall id: nat :: id < |made| && made[id] == queue ==> id == ids[i];
        RemoveAt(i);
      } else {
        forall id | 0 <= id < |made| && made[id] == queue ensures View() == Next(View(), Unsubscribe(id)) {
          NotSubscribed(id);
        }
      }
    }

    // A queue that no entry of the list stands for.
    lemma NotSubscribed(id: nat)
      requires Valid() && id < |made| && forall j :: 0 <= j < |queues| ==> queues[j] != made[id]
      ensures BusOk(View()) && Next(View(), Unsubscribe(id)) == View()
    {
      ViewIsOk();
      assert id !in ids;
    }

    /** A subscriber takes the next event from its queue, subscribed or not any more. */
    method TakeFrom(queue: Queue<E>) returns (event: E)
      requires Valid() && queue in made && queue.items != []
      modifies queue
      ensures Valid() && made == old(made) && queues == old(queues) && event == old(queue.items)[0]
      ensures BusOk(old(View()))
      ensures forall id :: 0 <= id < |made| && made[id] == queue ==> View() == Next(old(View()), Consume(id))
    {
      ViewIsOk();
      event := queue.Get();
    }

    method RemoveAt(i: nat)
      requires Valid() && i < |queues|
      modifies this
      ensures Valid() && made == old(made)
      ensures BusOk(old(View())) && View() == Next(old(View()), Unsubscribe(old(ids)[i]))
    {
      ViewIsOk();
      WithoutAt(ids, i);
      WithoutIs(ids, ids[i]);
      queues := queues[..i] + queues[i + 1..];
      ids := ids[..i] + ids[i + 1..];
    }

    method PublishEvent(event: E)
      requires Valid()
      modifies made
      ensures Valid() && made == old(made) && queues == old(queues)
      ensures BusOk(old(View())) && View() == Next(old(View()), Publish(event))
    {
      ViewIsOk();
      var snapshot := queues;
      for i := 0 to |snapshot|
        invariant forall k :: 0 <= k < |made| ==>
                    made[k].taken == old(made[k].taken)
                    && made[k].items == if k in ids[..i] then old(made[k].items) + [event] else old(made[k].items)
      {
        assert ids[i] !in ids[..i];
        assert ids[..i + 1] == ids[..i] + [ids[i]];
        snapshot[i].Put(event);
      }
      assert ids[..|snapshot|] == ids;
    }
  }

  lemma {:induction false} WithoutAt(ids: seq<nat>, i: nat)
    requires i < |ids| && forall j :: 0 <= j < i ==> ids[j] != ids[i]
    ensures Without(ids, ids[i]) == ids[..i] + ids[i + 1..]
  {
    if i > 0 {
      WithoutAt(ids[1..], i - 1);
    }
  }

  // ---------- what a subscriber gets ----------

  /** What was published to a queue while it was subscribed, told from the calls alone:
      the queue is the one made by the call of `Subscribe` with its number. */
  function PublishedTo<E>(ops: seq<Op<E>>, id: nat, made: nat, on: bool): seq<E>
    decreases |ops|
  {
    if ops == [] then []
    else match ops[0]
      case Subscribe => PublishedTo(ops[1..], id, made + 1, on || made == id)
      case Unsubscribe(other) => PublishedTo(ops[1..], id, made, on && other != id)
      case Publish(event) => (if on then [event] else []) + PublishedTo(ops[1..], id, made, on)
      case Consume(_) => PublishedTo(ops[1..], id, made, on)
  }

  /** What was taken from a queue and then what still waits in it. */
  function Received<E>(b: Bus<E>, id: nat): seq<E>
    requires BusOk(b)
  {
    if id < |b.waiting| then b.taken[id] + b.waiting[id] else []
  }

  lemma StepReceives<E>(b: Bus<E>, op: Op<E>, id: nat)
    requires BusOk(b)
    ensures BusOk(Next(b, op))
    ensures Received(Next(b, op), id)
            == Received(b, id) + if op.Publish? && id in b.subscribed then [op.event] else []
    ensures op.Subscribe? ==> (id in Next(b, op).subscribed <==> id in b.subscribed || id == |b.waiting|)
    ensures op.Unsubscribe? ==> (id in Next(b, op).subscribed <==> id in b.subscribed && id != op.id)
    ensures op.Publish? || op.Consume? ==> Next(b, op).subscribed == b.subscribed
    ensures |Next(b, op).waiting| == |b.waiting| + if op.Subscribe? then 1 else 0
  {
    StepKeepsOk(b, op);
    match op
    case Unsubscribe(other) => WithoutIs(b.subscribed, other);
    case Consume(other) =>
      if other == id && id < |b.waiting| && b.waiting[id] != [] {
        assert b.waiting[id] == [b.waiting[id][0]] + b.waiting[id][1..];
      }
    case _ =>
  }

  lemma {:induction false} ReceivedIsPublished<E>(b: Bus<E>, ops: seq<Op<E>>, id: nat)
    requires BusOk(b)
    ensures BusOk(Run(b, ops))
    ensures Received(Run(b, ops), id) == Received(b, id) + PublishedTo(ops, id, |b.waiting|, id in b.subscribed)
    decreases |ops|
  {
    hide Next, BusOk, Received;
    if ops == [] {
      assert PublishedTo(ops, id, |b.waiting|, id in b.subscribed) == [];
    } else {
      StepReceives(b, ops[0], id);
      ReceivedIsPublished(Next(b, ops[0]), ops[1..], id);
    }
  }

  /** For every sequence of calls: what a subscriber consumed and then what is queued
      for it is exactly what was published while it was subscribed, in order and once
      each, whatever other subscribers do. */
  lemma SubscriberGetsWhatWasPublished<E>(ops: seq<Op<E>>, id: nat)
    ensures BusOk(Run(Bus([], [], []), ops))
    ensures Received(Run(Bus([], [], []), ops), id) == PublishedTo(ops, id, 0, false)
  {
    ReceivedIsPublished(Bus([], [], []), ops, id);
  }
}
