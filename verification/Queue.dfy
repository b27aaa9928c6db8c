/**
 * The in-memory queue of src/kernel-impl/memory/queue.ts: what each operation does to one
 * queue's array of messages, and the class that keeps an array per queue name.
 */
module Queues {
  import opened Wrappers
  import opened Sorting

  type Id = nat  // a random UUID: all that matters is that a new one was never used before

  datatype Priority = High | Normal | Low

  datatype Lifecycle = Pending | Processing | Completed | DeadLetter

  /** The parts of a message the queue only carries. */
  datatype Body = Body(tenantId: string, kind: string, payload: string, scheduledAt: Option<int>,
                       metadata: Option<string>)

  datatype Message = Message(
    id: Id, body: Body, priority: Priority, idempotencyKey: Option<string>,
    attempts: nat, maxAttempts: int, createdAt: int,
    state: Lifecycle, visibleAfter: int, processingDeadline: Option<int>)

  /** What a consumer sees of a message. */
  datatype PublicMessage = PublicMessage(
    id: Id, body: Body, priority: Priority, idempotencyKey: Option<string>,
    attempts: nat, maxAttempts: int, createdAt: int)

  datatype EnqueueOptions = EnqueueOptions(
    priority: Option<Priority>, delay: Option<int>, idempotencyKey: Option<string>, maxAttempts: Option<int>)

  /** A message as handed to `enqueue`, with the call's options. */
  datatype Request = Request(
    body: Body, priority: Option<Priority>, maxAttempts: Option<int>, options: EnqueueOptions)

  function Rank(p: Priority): int {
    match p case High => 0 case Normal => 1 case Low => 2
  }

  function Public(m: Message): PublicMessage {
    PublicMessage(m.id, m.body, m.priority, m.idempotencyKey, m.attempts, m.maxAttempts, m.createdAt)
  }

  function Or<T>(a: Option<T>, b: Option<T>, c: T): T {
    if a.Some? then a.value else b.GetOr(c)
  }

  predicate IsActive(m: Message) {
    m.state.Pending? || m.state.Processing?
  }

  predicate Visible(m: Message, now: int) {
    m.state.Pending? && m.visibleAfter <= now
  }

  // ---------- Operations on one queue ----------

  /** The first position that `p` accepts, |q| if there is none. */
  function Find(q: seq<Message>, p: Message -> bool): (i: nat)
    ensures i <= |q| && (i < |q| ==> p(q[i])) && forall k :: 0 <= k < i ==> !p(q[k])
  {
    if q == [] || p(q[0]) then 0 else 1 + Find(q[1..], p)
  }

  function FindId(q: seq<Message>, id: Id): nat {
    Find(q, (m: Message) => m.id == id)
  }

  /** A non-empty key; the empty string counts as no key. */
  function DedupKey(r: Request): Option<string> {
    if r.options.idempotencyKey == Some("") then None else r.options.idempotencyKey
  }

  predicate Duplicates(m: Message, r: Request) {
    DedupKey(r).Some? && m.idempotencyKey == DedupKey(r) && IsActive(m)
  }

  function NewMessage(r: Request, newId: Id, now: int): Message {
    Message(newId, r.body, Or(r.options.priority, r.priority, Normal), r.options.idempotencyKey,
            0, Or(r.options.maxAttempts, r.maxAttempts, 3), now, Pending, now + r.options.delay.GetOr(0), None)
  }

  function Enqueue(q: seq<Message>, r: Request, newId: Id, now: int): (seq<Message>, Id) {
    var i := Find(q, (m: Message) => Duplicates(m, r));
    if i < |q| then (q, q[i].id) else (q + [NewMessage(r, newId, now)], newId)
  }

  function SortKey(q: seq<Message>): Key {
    (i: nat) => if i < |q| then (Rank(q[i].priority), q[i].createdAt) else (0, 0)
  }

  /** Filter, sort, take the head. */
  function Next(q: seq<Message>, now: int): Option<nat> {
    var sorted := StableSort(Positions(|q|, (i: nat) => i < |q| && Visible(q[i], now)), SortKey(q));
    if sorted == [] then None else Some(sorted[0])
  }

  function Taken(m: Message, now: int, timeout: Option<int>): Message {
    m.(state := Processing, attempts := m.attempts + 1, processingDeadline := Some(now + timeout.GetOr(30_000)))
  }

  function Dequeue(q: seq<Message>, now: int, timeout: Option<int>): (r: (seq<Message>, Option<PublicMessage>))
    ensures |r.0| == |q|
  {
    NextIsLeast(q, now);
    match Next(q, now)
    case None => (q, None)
    case Some(i) => (q[i := Taken(q[i], now, timeout)], Some(Public(Taken(q[i], now, timeout))))
  }

  function Ack(q: seq<Message>, id: Id): (r: seq<Message>)
    ensures |r| == |q|
  {
    var i := FindId(q, id);
    if i < |q| then q[i := q[i].(state := Completed)] else q
  }

  function Nacked(m: Message, now: int, delay: Option<int>): Message {
    if m.attempts >= m.maxAttempts then m.(state := DeadLetter)
    else m.(state := Pending, visibleAfter := now + delay.GetOr(1000))
  }

  function Nack(q: seq<Message>, id: Id, now: int, delay: Option<int>): (r: seq<Message>)
    ensures |r| == |q|
  {
    var i := FindId(q, id);
    if i < |q| then q[i := Nacked(q[i], now, delay)] else q
  }

  function Depth(q: seq<Message>): nat {
    |Positions(|q|, (i: nat) => i < |q| && q[i].state.Pending?)|
  }

  /** The positions `purge` keeps. */
  function Kept(q: seq<Message>): (k: seq<nat>)
    ensures forall j :: 0 <= j < |k| ==> k[j] < |q|
  {
    Positions(|q|, (i: nat) => i < |q| && !q[i].state.Pending?)
  }

  function Purge(q: seq<Message>): (r: seq<Message>)
    ensures |r| == |Kept(q)| && forall j :: 0 <= j < |r| ==> r[j] == q[Kept(q)[j]]
  {
    var k := Kept(q);
    seq(|k|, (j: nat) requires j < |k| => q[k[j]])
  }

  function FindDead(q: seq<Message>, id: Id): nat {
    Find(q, (m: Message) => m.id == id && m.state.DeadLetter?)
  }

  function Replay(q: seq<Message>, id: Id, now: int): (r: seq<Message>)
    ensures |r| == |q|
  {
    var i := FindDead(q, id);
    if i < |q| then q[i := q[i].(state := Pending, attempts := 0, visibleAfter := now)] else q
  }

  // ---------- Dequeue refines a minimum ----------

  /** High before normal before low. */
  predicate MoreUrgent(a: Priority, b: Priority) {
    (a.High? && !b.High?) || (a.Normal? && b.Low?)
  }

  /** i is visible and precedes every other visible message by (priority, age, position). */
  ghost predicate IsLeast(q: seq<Message>, now: int, i: nat) {
    && i < |q| && Visible(q[i], now)
    && forall j :: 0 <= j < |q| && j != i && Visible(q[j], now) ==>
         || MoreUrgent(q[i].priority, q[j].priority)
         || (q[i].priority == q[j].priority && q[i].createdAt < q[j].createdAt)
         || (q[i].priority == q[j].priority && q[i].createdAt == q[j].createdAt && i < j)
  }

  lemma NextIsLeast(q: seq<Message>, now: int)
    ensures match Next(q, now)
      case None => forall i :: 0 <= i < |q| ==> !Visible(q[i], now)
      case Some(i) => IsLeast(q, now, i)
  {
    var keep := (i: nat) => i < |q| && Visible(q[i], now);
    SortedHead(|q|, keep, SortKey(q));
    if Next(q, now).None? {
      forall i | 0 <= i < |q| ensures !Visible(q[i], now) {
        assert !keep(i);
      }
    } else {
      var i := Next(q, now).value;
      assert keep(i);
      forall j | 0 <= j < |q| && j != i && Visible(q[j], now)
        ensures Before(SortKey(q), i, j)
      {
        assert keep(j);
      }
    }
  }

  lemma NextIsVisible(q: seq<Message>, now: int)
    requires Next(q, now).Some?
    ensures var i := Next(q, now).value; i < |q| && Visible(q[i], now)
  {
    NextIsLeast(q, now);
  }

  /** At most one position is least, so `IsLeast` alone determines what `dequeue` takes. */
  lemma LeastIsUnique(q: seq<Message>, now: int, i: nat)
    requires IsLeast(q, now, i)
    ensures Next(q, now) == Some(i)
  {
    NextIsLeast(q, now);
  }

  /** What purge removes is what it counts. */
  lemma DepthAndKept(q: seq<Message>)
    ensures Depth(q) + |Purge(q)| == |q|
  {
    var pending := (i: nat) => i < |q| && q[i].state.Pending?;
    var kept := (i: nat) => i < |q| && !q[i].state.Pending?;
    PositionsPartition(|q|, pending, kept);
  }

  // ---------- The class ----------

  class MemoryQueueBackend {
    var queues: map<string, seq<Message>>
    var subscriptions: map<string, seq<bool>>  // per queue, which subscribers are still active

    constructor ()
      ensures queues == map[] && subscriptions == map[]
    {
      queues, subscriptions := map[], map[];
    }

    function Contents(queue: string): seq<Message>
      reads this`queues
    {
      if queue in queues then queues[queue] else []
    }

    method GetQueue(queue: string) returns (q: seq<Message>)
      modifies this`queues
      ensures q == old(Contents(queue)) && queues == old(queues)[queue := q]
    {
      if queue !in queues {
        queues := queues[queue := []];
      }
      q := queues[queue];
    }

    method EnqueueMessage(queue: string, r: Request, newId: Id, now: int) returns (id: Id)
      modifies this`queues
      ensures queues == old(queues)[queue := Enqueue(old(Contents(queue)), r, newId, now).0]
      ensures id == Enqueue(old(Contents(queue)), r, newId, now).1
    {
      var q := GetQueue(queue);
      var key := r.options.idempotencyKey;
      if key.Some? && key.value != "" {
        var dup := Find(q, (m: Message) => Duplicates(m, r));
        if dup < |q| {
          return q[dup].id;
        }
      }
      var delay := r.options.delay.GetOr(0);
      var visibleAfter := if delay != 0 then now + delay else now;
      var msg := Message(newId, r.body, Or(r.options.priority, r.priority, Normal), key,
                         0, Or(r.options.maxAttempts, r.maxAttempts, 3), now, Pending, visibleAfter, None);
      queues := queues[queue := q + [msg]];
      id := newId;
    }

    /** Takes the least visible message, and changes nothing else. */
    method DequeueMessage(queue: string, now: int, timeout: Option<int>) returns (m: Option<PublicMessage>)
      modifies this`queues
      ensures queues == old(queues)[queue := Dequeue(old(Contents(queue)), now, timeout).0]
      ensures m == Dequeue(old(Contents(queue)), now, timeout).1
      ensures var q := old(Contents(queue));
        if m.None? then Contents(queue) == q && forall i :: 0 <= i < |q| ==> !Visible(q[i], now)
        else exists i: nat :: IsLeast(q, now, i) && m.value == Public(Taken(q[i], now, timeout))
                              && Contents(queue) == q[i := Taken(q[i], now, timeout)]
      ensures m.Some? ==> forall j :: 0 <= j < |old(Contents(queue))| && Visible(old(Contents(queue))[j], now) ==>
        && (old(Contents(queue))[j].priority.High? ==> m.value.priority.High?)
        && (m.value.priority.Low? ==> old(Contents(queue))[j].priority.Low?)
    {
      var q := GetQueue(queue);
      NextIsLeast(q, now);
      var sortedPending := StableSort(Positions(|q|, (i: nat) => i < |q| && Visible(q[i], now)), SortKey(q));
      if sortedPending == [] {
        return None;
      }
      var i := sortedPending[0];
      assert Next(q, now) == Some(i);
      var msg := q[i].(state := Processing);
      msg := msg.(attempts := msg.attempts + 1);
      msg := msg.(processingDeadline := Some(now + timeout.GetOr(30_000)));
      queues := queues[queue := q[i := msg]];
      m := Some(Public(msg));
    }

    method AckMessage(queue: string, id: Id)
      modifies this`queues
      ensures queues == old(queues)[queue := Ack(old(Contents(queue)), id)]
    {
      var q := GetQueue(queue);
      var i := FindId(q, id);
      if i < |q| {
        queues := queues[queue := q[i := q[i].(state := Completed)]];
      }
    }

    method NackMessage(queue: string, id: Id, now: int, delay: Option<int>)
      modifies this`queues
      ensures queues == old(queues)[queue := Nack(old(Contents(queue)), id, now, delay)]
    {
      var q := GetQueue(queue);
      var i := FindId(q, id);
      if i >= |q| {
        return;
      }
      var msg := q[i];
      if msg.attempts >= msg.maxAttempts {
        msg := msg.(state := DeadLetter);
      } else {
        msg := msg.(state := Pending);
        msg := msg.(visibleAfter := now + delay.GetOr(1000));
      }
      queues := queues[queue := q[i := msg]];
    }

    method GetQueueDepth(queue: string) returns (n: nat)
      modifies this`queues
      ensures queues == old(queues)[queue := old(Contents(queue))]
      ensures n == Depth(old(Contents(queue)))
    {
      var q := GetQueue(queue);
      n := |Positions(|q|, (i: nat) => i < |q| && q[i].state.Pending?)|;
    }

    method PurgeQueue(queue: string) returns (count: nat)
      modifies this`queues
      ensures queues == old(queues)[queue := Purge(old(Contents(queue)))]
      ensures count == Depth(old(Contents(queue))) == |old(Contents(queue))| - |Contents(queue)|
    {
      var q := GetQueue(queue);
      DepthAndKept(q);
      count := |Positions(|q|, (i: nat) => i < |q| && q[i].state.Pending?)|;
      queues := queues[queue := Purge(q)];
    }

    method ReplayDeadLetter(queue: string, id: Id, now: int)
      modifies this`queues
      ensures queues == old(queues)[queue := Replay(old(Contents(queue)), id, now)]
    {
      var q := GetQueue(queue);
      var i := FindDead(q, id);
      if i >= |q| {
        return;
      }
      var msg := q[i].(state := Pending);
      msg := msg.(attempts := 0);
      msg := msg.(visibleAfter := now);
      queues := queues[queue := q[i := msg]];
    }

    method Subscribe(queue: string) returns (entry: nat)
      modifies this`subscriptions
      ensures var subs := if queue in old(subscriptions) then old(subscriptions)[queue] else [];
        entry == |subs| && subscriptions == old(subscriptions)[queue := subs + [true]]
    {
      var subs := if queue in subscriptions then subscriptions[queue] else [];
      entry := |subs|;
      subscriptions := subscriptions[queue := subs + [true]];
    }

    method Unsubscribe(queue: string, entry: nat)
      requires queue in subscriptions && entry < |subscriptions[queue]|
      modifies this`subscriptions
      ensures subscriptions == old(subscriptions)[queue := old(subscriptions)[queue][entry := false]]
    {
      subscriptions := subscriptions[queue := subscriptions[queue][entry := false]];
    }

    predicate HasSubscriber(queue: string)
      reads this`subscriptions
    {
      queue in subscriptions && true in subscriptions[queue]
    }

    /** A subscriber round up to the handler call: without an active subscriber nothing is taken. */
    method BeginRound(queue: string, now: int) returns (m: Option<PublicMessage>)
      modifies this`queues
      ensures if queue in subscriptions && exists k :: 0 <= k < |subscriptions[queue]| && subscriptions[queue][k]
        then queues == old(queues)[queue := Dequeue(old(Contents(queue)), now, None).0]
             && m == Dequeue(old(Contents(queue)), now, None).1
        else queues == old(queues) && m == None
    {
      if queue in subscriptions {
        SomeActive(subscriptions[queue]);
      }
      if !HasSubscriber(queue) {
        return None;
      }
      m := DequeueMessage(queue, now, None);
    }

    /** The rest of the round, once the handler has resolved or thrown. */
    method EndRound(queue: string, id: Id, ok: bool, now: int)
      modifies this`queues
      ensures queues == old(queues)[queue := Settle(old(Contents(queue)), id, ok, now)]
    {
      if ok {
        AckMessage(queue, id);
      } else {
        NackMessage(queue, id, now, None);
      }
    }
  }

  lemma SomeActive(subs: seq<bool>)
    ensures true in subs <==> exists k :: 0 <= k < |subs| && subs[k]
  {
    if exists k :: 0 <= k < |subs| && subs[k] {
      var k :| 0 <= k < |subs| && subs[k];
      assert subs[k] in subs;
    }
  }

  /** How a subscriber round ends. */
  function Settle(q: seq<Message>, id: Id, ok: bool, now: int): seq<Message> {
    if ok then Ack(q, id) else Nack(q, id, now, None)
  }

  // ---------- What the operations make of a message ----------

  /** A new message carries what the caller gave, options first, and may be taken once its delay has passed. */
  lemma NewMessageSays(r: Request, newId: Id, now: int)
    ensures var m := NewMessage(r, newId, now); var o := r.options;
      && m.id == newId && m.body == r.body && m.idempotencyKey == o.idempotencyKey
      && m.attempts == 0 && m.createdAt == now && m.state == Pending && m.processingDeadline == None
      && (o.priority.Some? ==> m.priority == o.priority.value)
      && (o.priority.None? && r.priority.Some? ==> m.priority == r.priority.value)
      && (o.priority.None? && r.priority.None? ==> m.priority == Normal)
      && (o.maxAttempts.Some? ==> m.maxAttempts == o.maxAttempts.value)
      && (o.maxAttempts.None? && r.maxAttempts.Some? ==> m.maxAttempts == r.maxAttempts.value)
      && (o.maxAttempts.None? && r.maxAttempts.None? ==> m.maxAttempts == 3)
      && forall t :: Visible(m, t) <==> now + (if o.delay.Some? then o.delay.value else 0) <= t
  {
  }

  /** Taking the next message marks it, counts the attempt and sets its deadline; the rest of it stays. */
  lemma TakenSays(q: seq<Message>, now: int, timeout: Option<int>)
    requires Next(q, now).Some?
    ensures var (v, m) := Dequeue(q, now, timeout); var i := Next(q, now).value;
      && i < |q| && |v| == |q| && (forall k :: 0 <= k < |q| && k != i ==> v[k] == q[k])
      && v[i].state == Processing && v[i].attempts == q[i].attempts + 1
      && v[i].processingDeadline == Some(now + (if timeout.Some? then timeout.value else 30_000))
      && v[i].id == q[i].id && v[i].body == q[i].body && v[i].priority == q[i].priority
      && v[i].idempotencyKey == q[i].idempotencyKey && v[i].maxAttempts == q[i].maxAttempts
      && v[i].createdAt == q[i].createdAt && v[i].visibleAfter == q[i].visibleAfter
      && m.Some? && m.value.id == v[i].id && m.value.body == v[i].body && m.value.priority == v[i].priority
      && m.value.attempts == v[i].attempts && m.value.maxAttempts == v[i].maxAttempts
      && m.value.idempotencyKey == v[i].idempotencyKey && m.value.createdAt == v[i].createdAt
  {
    NextIsVisible(q, now);
  }

  /** `ack`, `nack` and `replayDeadLetter` act on the first message with the id, or change nothing. */
  ghost predicate ChangesFirst(q: seq<Message>, v: seq<Message>, id: Id, i: nat) {
    && i < |q| && |v| == |q| && q[i].id == id
    && (forall k :: 0 <= k < |q| && k != i ==> v[k] == q[k])
    && v[i].id == id && v[i].body == q[i].body && v[i].priority == q[i].priority
    && v[i].idempotencyKey == q[i].idempotencyKey && v[i].maxAttempts == q[i].maxAttempts
    && v[i].createdAt == q[i].createdAt
  }

  lemma AckSays(q: seq<Message>, id: Id)
    ensures var v := Ack(q, id);
      || (v == q && forall k :: 0 <= k < |q| ==> q[k].id != id)
      || exists i: nat :: ChangesFirst(q, v, id, i) && (forall k :: 0 <= k < i ==> q[k].id != id)
                          && v[i].state == Completed && v[i].attempts == q[i].attempts
  {
    var i := FindId(q, id);
    if i < |q| {
      assert ChangesFirst(q, Ack(q, id), id, i);
    }
  }

  lemma NackSays(q: seq<Message>, id: Id, now: int, delay: Option<int>)
    ensures var v := Nack(q, id, now, delay);
      || (v == q && forall k :: 0 <= k < |q| ==> q[k].id != id)
      || exists i: nat ::
           && ChangesFirst(q, v, id, i) && (forall k :: 0 <= k < i ==> q[k].id != id)
           && v[i].attempts == q[i].attempts
           && (if q[i].attempts >= q[i].maxAttempts then v[i].state == DeadLetter
               else v[i].state == Pending
                    && v[i].visibleAfter == now + (if delay.Some? then delay.value else 1000))
  {
    var i := FindId(q, id);
    if i < |q| {
      assert ChangesFirst(q, Nack(q, id, now, delay), id, i);
    }
  }

  lemma ReplaySays(q: seq<Message>, id: Id, now: int)
    ensures var v := Replay(q, id, now);
      || (v == q && forall k :: 0 <= k < |q| ==> !(q[k].id == id && q[k].state == DeadLetter))
      || exists i: nat ::
           && ChangesFirst(q, v, id, i) && q[i].state == DeadLetter
           && (forall k :: 0 <= k < i ==> !(q[k].id == id && q[k].state == DeadLetter))
           && v[i].state == Pending && v[i].attempts == 0 && v[i].visibleAfter == now
  {
    var i := FindDead(q, id);
    if i < |q| {
      assert ChangesFirst(q, Replay(q, id, now), id, i);
    }
  }

  /** A round acknowledges what was handled and rejects, with the default delay, what was not. */
  lemma RoundEndSays(q: seq<Message>, id: Id, ok: bool, now: int)
    ensures ok ==> Settle(q, id, ok, now) == Ack(q, id)
    ensures !ok ==> Settle(q, id, ok, now) == Nack(q, id, now, Some(1000))
  {
  }

  /** The depth counts the pending messages, and purging takes out just these. */
  lemma {:induction false} DepthOfFront(q: seq<Message>)
    requires q != []
    ensures Depth(q) == Depth(q[..|q| - 1]) + if q[|q| - 1].state == Pending then 1 else 0
  {
    var n := |q| - 1;
    var all, front := (i: nat) => i < |q| && q[i].state.Pending?, (i: nat) => i < n && q[..n][i].state.Pending?;
    SamePositions(n, all, front);
  }

  lemma {:induction false} PurgeOfFront(q: seq<Message>)
    requires q != []
    ensures Purge(q) == Purge(q[..|q| - 1]) + if q[|q| - 1].state == Pending then [] else [q[|q| - 1]]
  {
    var n := |q| - 1;
    var all, front := (i: nat) => i < |q| && !q[i].state.Pending?, (i: nat) => i < n && !q[..n][i].state.Pending?;
    SamePositions(n, all, front);
    assert Kept(q) == Positions(n, all) + if all(n) then [n] else [];
    assert Kept(q[..n]) == Positions(n, all);
  }
}
