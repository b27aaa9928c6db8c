/**
 * Whole runs of one queue: delivery accounting, first-in-first-out delivery, idempotency
 * keys, and draining by subscriber rounds.
 */
module QueueRuns {
  import opened Wrappers
  import opened Queues

  datatype Op =
    | DoEnqueue(r: Request)
    | DoDequeue(timeout: Option<int>)
    | DoAck(id: Id)
    | DoNack(id: Id, delay: Option<int>)
    | DoPurge
    | DoReplay(id: Id)

  function Apply(q: seq<Message>, op: Op, now: int, newId: Id): seq<Message> {
    match op
    case DoEnqueue(r) => Enqueue(q, r, newId, now).0
    case DoDequeue(timeout) => Dequeue(q, now, timeout).0
    case DoAck(id) => Ack(q, id)
    case DoNack(id, delay) => Nack(q, id, now, delay)
    case DoPurge => Purge(q)
    case DoReplay(id) => Replay(q, id, now)
  }

  /** The queue, and how often each message was ever delivered and replayed. */
  datatype World = World(q: seq<Message>, clock: int, nextId: Id, deliveries: map<Id, nat>, replays: map<Id, nat>)

  /** An operation and the time that passes before it. */
  datatype Event = Event(op: Op, dt: nat)

  function Tally(m: map<Id, nat>, id: Id): nat {
    if id in m then m[id] else 0
  }

  function Bump(m: map<Id, nat>, id: Id): map<Id, nat> {
    m[id := Tally(m, id) + 1]
  }

  function Step(w: World, e: Event): World {
    var now := w.clock + e.dt;
    var v := w.(q := Apply(w.q, e.op, now, w.nextId), clock := now);
    match e.op
    case DoEnqueue(_) => v.(nextId := w.nextId + 1)
    case DoDequeue(timeout) =>
      var taken := Dequeue(w.q, now, timeout).1;
      if taken.None? then v else v.(deliveries := Bump(w.deliveries, taken.value.id))
    case DoReplay(id) =>
      if FindDead(w.q, id) < |w.q| then v.(replays := Bump(w.replays, id)) else v
    case _ => v
  }

  function Run(t: int, es: seq<Event>): World {
    if es == [] then World([], t, 0, map[], map[]) else Step(Run(t, es[..|es| - 1]), es[|es| - 1])
  }

  // ---------- Accounting ----------

  /** Every maxAttempts deliveries are paid for by one replay; the rest are the current attempts. */
  ghost predicate Balanced(m: Message, delivered: nat, replayed: nat) {
    && delivered == m.attempts + m.maxAttempts * replayed
    && m.attempts <= m.maxAttempts
    && (m.state.Pending? ==> m.attempts < m.maxAttempts)
    && (m.state.DeadLetter? ==> m.attempts == m.maxAttempts)
  }

  ghost predicate MessageOk(m: Message, delivered: nat, replayed: nat) {
    && (1 <= m.maxAttempts ==> Balanced(m, delivered, replayed))
    && (m.state.DeadLetter? ==> m.maxAttempts <= m.attempts)
  }

  ghost predicate IdsUnique(q: seq<Message>) {
    forall i, j :: 0 <= i < j < |q| ==> q[i].id != q[j].id
  }

  ghost predicate OldestFirst(q: seq<Message>) {
    forall i, j :: 0 <= i < j < |q| ==> q[i].createdAt <= q[j].createdAt
  }

  ghost predicate Inv(w: World) {
    && IdsUnique(w.q) && OldestFirst(w.q)
    && (forall i :: 0 <= i < |w.q| ==>
          && w.q[i].id < w.nextId && w.q[i].createdAt <= w.clock
          && MessageOk(w.q[i], Tally(w.deliveries, w.q[i].id), Tally(w.replays, w.q[i].id)))
    && (forall id :: id in w.deliveries || id in w.replays ==> id < w.nextId)
  }

  lemma {:induction false} ReplayBalances(m: Message, d: nat, r: nat, now: int)
    requires MessageOk(m, d, r) && m.state.DeadLetter?
    ensures MessageOk(m.(state := Pending, attempts := 0, visibleAfter := now), d, r + 1)
  {
    assert m.maxAttempts * (r + 1) == m.maxAttempts * r + m.maxAttempts;
  }

  /** One message replaced by a later version of itself that still balances. */
  lemma {:induction false} ReplaceKeepsInv(w: World, i: nat, m: Message, v: World)
    requires Inv(w) && i < |w.q| && v.q == w.q[i := m] && w.clock <= v.clock && v.nextId == w.nextId
    requires m.id == w.q[i].id && m.createdAt == w.q[i].createdAt
    requires MessageOk(m, Tally(v.deliveries, m.id), Tally(v.replays, m.id))
    requires v.deliveries == w.deliveries || v.deliveries == Bump(w.deliveries, m.id)
    requires v.replays == w.replays || v.replays == Bump(w.replays, m.id)
    ensures Inv(v)
  {
    forall k | 0 <= k < |v.q|
      ensures v.q[k].id < v.nextId && v.q[k].createdAt <= v.clock
      ensures MessageOk(v.q[k], Tally(v.deliveries, v.q[k].id), Tally(v.replays, v.q[k].id))
    {
      if k != i {
        assert v.q[k] == w.q[k] && w.q[k].id != m.id;
      }
    }
  }

  lemma {:induction false} EnqueueKeepsInv(w: World, r: Request, dt: nat)
    requires Inv(w)
    ensures Inv(Step(w, Event(DoEnqueue(r), dt)))
  {
    var v := Step(w, Event(DoEnqueue(r), dt));
    assert v.q == w.q || v.q == w.q + [NewMessage(r, w.nextId, v.clock)];
  }

  lemma {:induction false} TakeBalances(m: Message, d: nat, r: nat, now: int, timeout: Option<int>)
    requires MessageOk(m, d, r) && m.state.Pending?
    ensures MessageOk(Taken(m, now, timeout), d + 1, r)
  {
  }

  lemma {:induction false} TakenKeepsInv(w: World, i: nat, now: int, timeout: Option<int>, v: World)
    requires Inv(w) && i < |w.q| && w.q[i].state.Pending? && w.clock <= now
    requires v == World(w.q[i := Taken(w.q[i], now, timeout)], now, w.nextId, Bump(w.deliveries, w.q[i].id), w.replays)
    ensures Inv(v)
  {
    var m := w.q[i];
    TakeBalances(m, Tally(w.deliveries, m.id), Tally(w.replays, m.id), now, timeout);
    ReplaceKeepsInv(w, i, Taken(m, now, timeout), v);
  }

  lemma {:induction false} DequeueStep(w: World, timeout: Option<int>, dt: nat)
    ensures var now := w.clock + dt; var v := Step(w, Event(DoDequeue(timeout), dt));
      match Next(w.q, now)
      case None => v == w.(clock := now)
      case Some(i) =>
        && i < |w.q| && w.q[i].state.Pending?
        && v == World(w.q[i := Taken(w.q[i], now, timeout)], now, w.nextId, Bump(w.deliveries, w.q[i].id), w.replays)
  {
    var now := w.clock + dt;
    if Next(w.q, now).Some? {
      NextIsVisible(w.q, now);
      var i := Next(w.q, now).value;
      var m := Taken(w.q[i], now, timeout);
      assert Dequeue(w.q, now, timeout) == (w.q[i := m], Some(Public(m)));
    } else {
      assert Dequeue(w.q, now, timeout) == (w.q, None);
    }
  }

  lemma {:induction false} TimePasses(w: World, v: World)
    requires Inv(w) && w.clock <= v.clock && v == w.(clock := v.clock)
    ensures Inv(v)
  {
  }

  lemma {:induction false} DequeueKeepsInv(w: World, timeout: Option<int>, dt: nat)
    requires Inv(w)
    ensures Inv(Step(w, Event(DoDequeue(timeout), dt)))
  {
    DequeueStep(w, timeout, dt);
    match Next(w.q, w.clock + dt)
    case None => TimePasses(w, Step(w, Event(DoDequeue(timeout), dt)));
    case Some(i) => TakenKeepsInv(w, i, w.clock + dt, timeout, Step(w, Event(DoDequeue(timeout), dt)));
  }

  lemma {:induction false} AckNackKeepInv(w: World, e: Event, i: nat, m: Message)
    requires Inv(w) && (e.op.DoAck? || e.op.DoNack?) && i == FindId(w.q, e.op.id) && i < |w.q|
    requires m == if e.op.DoAck? then w.q[i].(state := Completed) else Nacked(w.q[i], w.clock + e.dt, e.op.delay)
    ensures Inv(Step(w, e))
  {
    var v := w.(q := w.q[i := m], clock := w.clock + e.dt);
    assert Step(w, e) == v;
    ReplaceKeepsInv(w, i, m, v);
  }

  lemma {:induction false} ReplayKeepsInv(w: World, id: Id, dt: nat)
    requires Inv(w)
    ensures Inv(Step(w, Event(DoReplay(id), dt)))
  {
    var i := FindDead(w.q, id);
    var now := w.clock + dt;
    if i < |w.q| {
      var m := w.q[i].(state := Pending, attempts := 0, visibleAfter := now);
      var v := w.(q := w.q[i := m], clock := now, replays := Bump(w.replays, id));
      assert Step(w, Event(DoReplay(id), dt)) == v;
      ReplayBalances(w.q[i], Tally(w.deliveries, id), Tally(w.replays, id), now);
      ReplaceKeepsInv(w, i, m, v);
    }
  }

  lemma {:induction false} PurgeKeepsInv(w: World, dt: nat)
    requires Inv(w)
    ensures Inv(Step(w, Event(DoPurge, dt)))
  {
    var v := Step(w, Event(DoPurge, dt));
    var k := Kept(w.q);
    assert forall i, j :: 0 <= i < j < |k| ==> k[i] < k[j];
    assert forall j :: 0 <= j < |v.q| ==> v.q[j] == w.q[k[j]];
  }

  lemma {:induction false} StepKeepsInv(w: World, e: Event)
    requires Inv(w)
    ensures Inv(Step(w, e))
  {
    match e.op
    case DoEnqueue(r) => EnqueueKeepsInv(w, r, e.dt);
    case DoDequeue(timeout) => DequeueKeepsInv(w, timeout, e.dt);
    case DoAck(id) =>
      var i := FindId(w.q, id);
      if i < |w.q| {
        AckNackKeepInv(w, e, i, w.q[i].(state := Completed));
      }
    case DoNack(id, delay) =>
      var i := FindId(w.q, id);
      if i < |w.q| {
        AckNackKeepInv(w, e, i, Nacked(w.q[i], w.clock + e.dt, delay));
      }
    case DoPurge => PurgeKeepsInv(w, e.dt);
    case DoReplay(id) => ReplayKeepsInv(w, id, e.dt);
  }

  lemma {:induction false} EveryRunKeepsInv(t: int, es: seq<Event>)
    ensures Inv(Run(t, es))
  {
    if es != [] {
      EveryRunKeepsInv(t, es[..|es| - 1]);
      StepKeepsInv(Run(t, es[..|es| - 1]), es[|es| - 1]);
    }
  }

  /** Delivery accounting, for any mix of operations on any ids. */
  lemma {:induction false} DeliveriesAccounted(t: int, es: seq<Event>, i: nat)
    requires i < |Run(t, es).q| && 1 <= Run(t, es).q[i].maxAttempts
    ensures var w := Run(t, es);
      Balanced(w.q[i], Tally(w.deliveries, w.q[i].id), Tally(w.replays, w.q[i].id))
  {
    EveryRunKeepsInv(t, es);
  }

  /** The accounting starts out right exactly for messages that allow an attempt. */
  lemma {:induction false} AccountingNeedsAnAttempt(r: Request, newId: Id, now: int)
    ensures Balanced(NewMessage(r, newId, now), 0, 0) <==> 1 <= NewMessage(r, newId, now).maxAttempts
  {
  }

  /**
   * What a run delivers next: nothing visible of the same or a more urgent priority is older,
   * and of two messages of one priority the earlier enqueued goes first.
   */
  lemma {:induction false} NeverOvertaken(t: int, es: seq<Event>, now: int, i: nat, j: nat)
    requires var w := Run(t, es); w.clock <= now && Next(w.q, now) == Some(i) && j < |w.q| && j != i
    requires Visible(Run(t, es).q[j], now)
    ensures var q := Run(t, es).q; i < |q| && (q[j].priority.High? ==> q[i].priority.High?)
    ensures var q := Run(t, es).q; q[i].priority.Low? ==> q[j].priority.Low?
    ensures var q := Run(t, es).q; q[i].priority == q[j].priority ==> i < j
  {
    EveryRunKeepsInv(t, es);
    NextIsLeast(Run(t, es).q, now);
  }

  // ---------- Idempotency keys ----------

  ghost predicate SameKey(a: Message, b: Message) {
    a.idempotencyKey.Some? && a.idempotencyKey.value != "" && a.idempotencyKey == b.idempotencyKey
  }

  /** No two messages that are pending or processing share a key. */
  ghost predicate KeysUnique(q: seq<Message>) {
    forall i, j :: 0 <= i < j < |q| && IsActive(q[i]) && IsActive(q[j]) ==> !SameKey(q[i], q[j])
  }

  /** Another message that is already active has the key of position i. */
  ghost predicate KeyTaken(q: seq<Message>, i: nat)
    requires i < |q|
  {
    exists j :: 0 <= j < |q| && j != i && IsActive(q[j]) && SameKey(q[i], q[j])
  }

  /** The position, if any, that the operation brings back from completed or dead-lettered. */
  ghost function Revived(q: seq<Message>, op: Op): (r: Option<nat>)
    ensures r.Some? ==> r.value < |q| && !IsActive(q[r.value])
  {
    match op
    case DoNack(id, _) =>
      var i := FindId(q, id);
      if i < |q| && !IsActive(q[i]) && q[i].attempts < q[i].maxAttempts then Some(i) else None
    case DoReplay(id) =>
      var i := FindDead(q, id);
      if i < |q| then Some(i) else None
    case _ => None
  }

  ghost predicate Clashes(q: seq<Message>, op: Op) {
    Revived(q, op).Some? && KeyTaken(q, Revived(q, op).value)
  }

  lemma {:induction false} ReviveUnique(q: seq<Message>, i: nat, m: Message)
    requires KeysUnique(q) && i < |q| && !IsActive(q[i]) && IsActive(m) && m.idempotencyKey == q[i].idempotencyKey
    ensures KeysUnique(q[i := m]) <==> !KeyTaken(q, i)
  {
    var r := q[i := m];
    if KeyTaken(q, i) {
      var j :| 0 <= j < |q| && j != i && IsActive(q[j]) && SameKey(q[i], q[j]);
      assert r[i] == m && r[j] == q[j];
      assert if i < j then SameKey(r[i], r[j]) else SameKey(r[j], r[i]);
    } else {
      forall a, b | 0 <= a < b < |r| && IsActive(r[a]) && IsActive(r[b])
        ensures !SameKey(r[a], r[b])
      {
        assert a != i ==> r[a] == q[a];
        assert b != i ==> r[b] == q[b];
      }
    }
  }

  /** Deactivating a message, or replacing an active one by one with its key, keeps keys unique. */
  lemma {:induction false} ReplaceUnique(q: seq<Message>, i: nat, m: Message)
    requires KeysUnique(q) && i < |q| && m.idempotencyKey == q[i].idempotencyKey && (IsActive(m) ==> IsActive(q[i]))
    ensures KeysUnique(q[i := m])
  {
    var r := q[i := m];
    forall a, b | 0 <= a < b < |r| && IsActive(r[a]) && IsActive(r[b])
      ensures !SameKey(r[a], r[b])
    {
      assert a != i ==> r[a] == q[a];
      assert b != i ==> r[b] == q[b];
    }
  }

  /**
   * An operation breaks key uniqueness exactly when it revives a message whose key an active
   * message already has: a nack of a completed message, or a replay.
   */
  lemma {:induction false} KeysStayUniqueExactly(q: seq<Message>, op: Op, now: int, newId: Id)
    requires KeysUnique(q)
    ensures KeysUnique(Apply(q, op, now, newId)) <==> !Clashes(q, op)
  {
    match op
    case DoEnqueue(r) =>
    case DoDequeue(timeout) =>
      NextIsLeast(q, now);
      if Next(q, now).Some? {
        ReplaceUnique(q, Next(q, now).value, Taken(q[Next(q, now).value], now, timeout));
      }
    case DoAck(id) =>
      if FindId(q, id) < |q| {
        ReplaceUnique(q, FindId(q, id), q[FindId(q, id)].(state := Completed));
      }
    case DoNack(id, delay) =>
      var i := FindId(q, id);
      if i < |q| {
        if Revived(q, op).Some? {
          ReviveUnique(q, i, Nacked(q[i], now, delay));
        } else {
          ReplaceUnique(q, i, Nacked(q[i], now, delay));
        }
      }
    case DoPurge =>
    case DoReplay(id) =>
      var i := FindDead(q, id);
      if i < |q| {
        ReviveUnique(q, i, q[i].(state := Pending, attempts := 0, visibleAfter := now));
      }
  }

  /** No step of the run revives a message onto a key that is in use. */
  ghost predicate Disciplined(t: int, es: seq<Event>) {
    es != [] ==> Disciplined(t, es[..|es| - 1]) && !Clashes(Run(t, es[..|es| - 1]).q, es[|es| - 1].op)
  }

  lemma {:induction false} StepKeepsKeysUnique(w: World, e: Event)
    requires KeysUnique(w.q)
    ensures KeysUnique(Step(w, e).q) <==> !Clashes(w.q, e.op)
  {
    KeysStayUniqueExactly(w.q, e.op, w.clock + e.dt, w.nextId);
    assert Step(w, e).q == Apply(w.q, e.op, w.clock + e.dt, w.nextId);
  }

  lemma {:induction false} DisciplinedRunsKeepKeysUnique(t: int, es: seq<Event>)
    requires Disciplined(t, es)
    ensures KeysUnique(Run(t, es).q)
  {
    if es != [] {
      DisciplinedRunsKeepKeysUnique(t, es[..|es| - 1]);
      StepKeepsKeysUnique(Run(t, es[..|es| - 1]), es[|es| - 1]);
    }
  }

  ghost predicate UniqueThroughout(t: int, es: seq<Event>) {
    KeysUnique(Run(t, es).q) && (es != [] ==> UniqueThroughout(t, es[..|es| - 1]))
  }

  /** Keys are unique at every moment of a run exactly when no step revives onto a key in use. */
  lemma {:induction false} UniqueThroughoutExactly(t: int, es: seq<Event>)
    ensures UniqueThroughout(t, es) <==> Disciplined(t, es)
  {
    if es != [] {
      UniqueThroughoutExactly(t, es[..|es| - 1]);
      if UniqueThroughout(t, es[..|es| - 1]) {
        StepKeepsKeysUnique(Run(t, es[..|es| - 1]), es[|es| - 1]);
      }
    }
  }

  lemma {:induction false} RunSnoc(t: int, es: seq<Event>, e: Event)
    ensures Run(t, es + [e]) == Step(Run(t, es), e)
  {
    assert (es + [e])[..|es|] == es;
  }

  lemma {:induction false} RunOfFour(t: int, a: Event, b: Event, c: Event, d: Event)
    ensures Run(t, [a, b, c, d]) == Step(Step(Step(Step(Run(t, []), a), b), c), d)
  {
    RunSnoc(t, [], a);
    RunSnoc(t, [a], b);
    RunSnoc(t, [a, b], c);
    RunSnoc(t, [a, b, c], d);
    assert [] + [a] == [a] && [a] + [b] == [a, b] && [a, b] + [c] == [a, b, c] && [a, b, c] + [d] == [a, b, c, d];
  }

  /** Enqueued under a key, acknowledged, enqueued again, and the completed one rejected: two active messages. */
  function RevivingRun(r: Request): seq<Event> {
    [Event(DoEnqueue(r), 0), Event(DoAck(0), 0), Event(DoEnqueue(r), 0), Event(DoNack(0, None), 0)]
  }

  lemma {:induction false} KeysCanClash(t: int, r: Request)
    requires DedupKey(r).Some? && 1 <= Or(r.options.maxAttempts, r.maxAttempts, 3)
    ensures !KeysUnique(Run(t, RevivingRun(r)).q)
  {
    var e0, e1, e3 := Event(DoEnqueue(r), 0), Event(DoAck(0), 0), Event(DoNack(0, None), 0);
    RunOfFour(t, e0, e1, e0, e3);
    var w1 := Step(Run(t, []), e0);
    var first := NewMessage(r, 0, t);
    assert [] + [first] == [first];
    FromTheAck(w1, r, first);
  }

  lemma {:induction false} FromTheAck(w: World, r: Request, first: Message)
    requires w.q == [first] && first == NewMessage(r, 0, w.clock) && w.nextId == 1
    requires DedupKey(r).Some? && 1 <= first.maxAttempts
    ensures !KeysUnique(Step(Step(Step(w, Event(DoAck(0), 0)), Event(DoEnqueue(r), 0)), Event(DoNack(0, None), 0)).q)
  {
    var done, second := first.(state := Completed), NewMessage(r, 1, w.clock);
    var w2 := Step(w, Event(DoAck(0), 0));
    assert FindId(w.q, 0) == 0 && w2.q == [done];
    var w3 := Step(w2, Event(DoEnqueue(r), 0));
    assert !Duplicates(done, r) && w3.q == [done, second];
    RejectedTogether(w3.q, w.clock);
  }

  /** Rejecting a completed message next to an active one of the same key. */
  lemma {:induction false} RejectedTogether(q: seq<Message>, now: int)
    requires |q| == 2 && q[0].id == 0 && q[0].state.Completed? && q[0].attempts < q[0].maxAttempts
    requires IsActive(q[1]) && SameKey(q[0], q[1])
    ensures !KeysUnique(Nack(q, 0, now, None))
  {
    assert FindId(q, 0) == 0;
    var v := Nack(q, 0, now, None);
    assert v[0] == Nacked(q[0], now, None) && v[1] == q[1];
    assert IsActive(v[0]) && IsActive(v[1]) && SameKey(v[0], v[1]);
  }

  /** A message that waits or is being handled has the key; neither no key nor the empty one counts. */
  predicate InUse(m: Message, key: Option<string>) {
    key.Some? && key.value != "" && m.idempotencyKey == key && (m.state == Pending || m.state == Processing)
  }

  /**
   * Enqueueing under a key that an active message has returns that message's id and changes
   * nothing; under a free key it appends a pending message under the new id.
   */
  lemma {:induction false} RepeatedEnqueue(q: seq<Message>, r: Request, newId: Id, now: int)
    requires KeysUnique(q)
    ensures var (q', id) := Enqueue(q, r, newId, now);
      if exists i :: 0 <= i < |q| && InUse(q[i], r.options.idempotencyKey) then
        q' == q && forall i :: 0 <= i < |q| && InUse(q[i], r.options.idempotencyKey) ==> id == q[i].id
      else
        && id == newId && |q'| == |q| + 1 && q'[..|q|] == q
        && q'[|q|].id == newId && q'[|q|].state.Pending? && q'[|q|].idempotencyKey == r.options.idempotencyKey
  {
    var i := Find(q, (m: Message) => Duplicates(m, r));
    assert forall m :: InUse(m, r.options.idempotencyKey) <==> Duplicates(m, r);
    if i < |q| {
      forall j | 0 <= j < |q| && Duplicates(q[j], r) ensures j == i {
        assert SameKey(q[j], q[i]) && SameKey(q[i], q[j]);
      }
    }
  }

  // ---------- Draining ----------

  /** How many more deliveries a message can get from subscriber rounds; `hand` holds the ids being handled. */
  ghost function Left(m: Message, hand: set<Id>): nat {
    if m.state.Pending? then Max(1, m.maxAttempts - m.attempts)
    else if m.state.Processing? && m.id in hand then Max(0, m.maxAttempts - m.attempts)
    else 0
  }

  ghost function TotalLeft(q: seq<Message>, hand: set<Id>): nat {
    if q == [] then 0 else TotalLeft(q[..|q| - 1], hand) + Left(q[|q| - 1], hand)
  }

  /** Subscriber rounds, which may overlap: taking the next message, and settling one that is in hand. */
  datatype Round = Take(dt: nat) | Done(id: Id, ok: bool, dt: nat)

  datatype Drain = Drain(q: seq<Message>, clock: int, hand: set<Id>, delivered: nat)

  function DrainStep(d: Drain, e: Round): Drain {
    match e
    case Take(dt) =>
      var (q, m) := Dequeue(d.q, d.clock + dt, None);
      if m.None? then d.(clock := d.clock + dt)
      else Drain(q, d.clock + dt, d.hand + {m.value.id}, d.delivered + 1)
    case Done(id, ok, dt) =>
      if id !in d.hand then d.(clock := d.clock + dt)
      else Drain(Settle(d.q, id, ok, d.clock + dt), d.clock + dt, d.hand - {id}, d.delivered)
  }

  function DrainRun(d: Drain, es: seq<Round>): Drain {
    if es == [] then d else DrainStep(DrainRun(d, es[..|es| - 1]), es[|es| - 1])
  }

  ghost predicate DrainInv(d: Drain) {
    IdsUnique(d.q) && forall i :: 0 <= i < |d.q| && d.q[i].id in d.hand ==> d.q[i].state.Processing?
  }

  lemma {:induction false} LeftUpdated(q: seq<Message>, i: nat, m: Message, hand: set<Id>, hand': set<Id>)
    requires i < |q|
    requires forall k :: 0 <= k < |q| && k != i ==> Left(q[k], hand) == Left(q[k], hand')
    ensures TotalLeft(q[i := m], hand') == TotalLeft(q, hand) - Left(q[i], hand) + Left(m, hand')
  {
    var last := |q| - 1;
    if i == last {
      LeftSame(q[..last], hand, hand');
      assert q[i := m][..last] == q[..last];
    } else {
      LeftUpdated(q[..last], i, m, hand, hand');
      assert q[i := m][..last] == q[..last][i := m];
    }
  }

  lemma {:induction false} LeftSame(q: seq<Message>, hand: set<Id>, hand': set<Id>)
    requires forall k :: 0 <= k < |q| ==> Left(q[k], hand) == Left(q[k], hand')
    ensures TotalLeft(q, hand) == TotalLeft(q, hand')
  {
    if q != [] {
      LeftSame(q[..|q| - 1], hand, hand');
    }
  }

  lemma {:induction false} TakeSpends(d: Drain, dt: nat)
    requires DrainInv(d)
    ensures var d' := DrainStep(d, Take(dt));
      DrainInv(d') && d'.delivered - d.delivered + TotalLeft(d'.q, d'.hand) <= TotalLeft(d.q, d.hand)
  {
    var now := d.clock + dt;
    if Next(d.q, now).Some? {
      NextIsVisible(d.q, now);
      var i := Next(d.q, now).value;
      var m := Taken(d.q[i], now, None);
      TakenSpends(d, i, m);
    }
  }

  lemma {:induction false} TakenSpends(d: Drain, i: nat, m: Message)
    requires DrainInv(d) && i < |d.q| && d.q[i].state.Pending?
    requires m.id == d.q[i].id && m.state.Processing?
    requires m.maxAttempts == d.q[i].maxAttempts && m.attempts == d.q[i].attempts + 1
    ensures DrainInv(Drain(d.q[i := m], d.clock, d.hand + {m.id}, d.delivered))
    ensures 1 + TotalLeft(d.q[i := m], d.hand + {m.id}) <= TotalLeft(d.q, d.hand)
  {
    LeftUpdated(d.q, i, m, d.hand, d.hand + {m.id});
  }

  lemma {:induction false} SettleSpends(d: Drain, id: Id, ok: bool, dt: nat)
    requires DrainInv(d) && id in d.hand
    ensures var d' := DrainStep(d, Done(id, ok, dt));
      DrainInv(d') && TotalLeft(d'.q, d'.hand) <= TotalLeft(d.q, d.hand)
  {
    var i := FindId(d.q, id);
    if i < |d.q| {
      var m := if ok then d.q[i].(state := Completed) else Nacked(d.q[i], d.clock + dt, None);
      assert d.q[i].state.Processing?;
      LeftUpdated(d.q, i, m, d.hand, d.hand - {id});
    } else {
      LeftSame(d.q, d.hand, d.hand - {id});
    }
  }

  /** Each delivery uses up one of the deliveries left; settling adds none. */
  lemma {:induction false} DrainStepSpends(d: Drain, e: Round)
    requires DrainInv(d)
    ensures var d' := DrainStep(d, e);
      DrainInv(d') && d'.delivered - d.delivered + TotalLeft(d'.q, d'.hand) <= TotalLeft(d.q, d.hand)
  {
    match e
    case Take(dt) => TakeSpends(d, dt);
    case Done(id, ok, dt) =>
      if id in d.hand {
        SettleSpends(d, id, ok, dt);
      }
  }

  lemma {:induction false} DeliveriesBounded(d: Drain, es: seq<Round>)
    requires DrainInv(d)
    ensures var d' := DrainRun(d, es);
      DrainInv(d') && d'.delivered - d.delivered + TotalLeft(d'.q, d'.hand) <= TotalLeft(d.q, d.hand)
  {
    if es != [] {
      DeliveriesBounded(d, es[..|es| - 1]);
      DrainStepSpends(DrainRun(d, es[..|es| - 1]), es[|es| - 1]);
    }
  }

  /** Σ over the pending messages of the attempts they have left. */
  ghost function PendingAttempts(q: seq<Message>): int {
    if q == [] then 0
    else PendingAttempts(q[..|q| - 1])
         + if q[|q| - 1].state.Pending? then q[|q| - 1].maxAttempts - q[|q| - 1].attempts else 0
  }

  lemma {:induction false} LeftIsPendingAttempts(q: seq<Message>)
    requires forall i :: 0 <= i < |q| && q[i].state.Pending? ==> q[i].attempts < q[i].maxAttempts
    ensures TotalLeft(q, {}) == PendingAttempts(q)
  {
    if q != [] {
      LeftIsPendingAttempts(q[..|q| - 1]);
    }
  }

  /**
   * From any reachable queue whose messages allow an attempt, subscriber rounds, however they
   * overlap and whatever the handlers do, deliver at most the attempts pending messages have left.
   */
  lemma {:induction false} DrainBound(t: int, es: seq<Event>, rounds: seq<Round>)
    requires var q := Run(t, es).q; forall i :: 0 <= i < |q| ==> 1 <= q[i].maxAttempts
    ensures DrainRun(Drain(Run(t, es).q, Run(t, es).clock, {}, 0), rounds).delivered <= PendingAttempts(Run(t, es).q)
  {
    EveryRunKeepsInv(t, es);
    var w := Run(t, es);
    DeliveriesBounded(Drain(w.q, w.clock, {}, 0), rounds);
    forall i | 0 <= i < |w.q| && w.q[i].state.Pending? ensures w.q[i].attempts < w.q[i].maxAttempts {
      DeliveriesAccounted(t, es, i);
    }
    LeftIsPendingAttempts(w.q);
  }

  /** A poll delivers exactly when a pending message is visible. */
  lemma {:induction false} PollDeliversExactly(d: Drain, dt: nat)
    ensures DrainStep(d, Take(dt)).delivered == d.delivered + 1
      <==> exists i :: 0 <= i < |d.q| && Visible(d.q[i], d.clock + dt)
    ensures DrainStep(d, Take(dt)).delivered != d.delivered + 1 ==> DrainStep(d, Take(dt)) == d.(clock := d.clock + dt)
  {
    NextIsLeast(d.q, d.clock + dt);
  }

  // ---------- What a drained queue looks like ----------

  /** Waiting for a subscriber, or with one. */
  ghost predicate Open(m: Message, hand: set<Id>) {
    m.state.Pending? || m.id in hand
  }

  /** What may have become of a message: nothing, unless it was open, and if it is being processed it is in hand. */
  ghost predicate Traced(m: Message, hand: set<Id>, n: Message, hand': set<Id>) {
    && n.id == m.id
    && (n != m || n.id in hand' ==> Open(m, hand))
    && (Open(m, hand) && n.state.Processing? ==> n.id in hand')
  }

  ghost predicate AllTraced(d: Drain, e: Drain) {
    |e.q| == |d.q| && forall i :: 0 <= i < |d.q| ==> Traced(d.q[i], d.hand, e.q[i], e.hand)
  }

  /** Another message changes and its id joins or leaves the hand: those traced before still are. */
  lemma {:induction false} TraceOne(d: Drain, e: Drain, i: nat, f: Drain)
    requires IdsUnique(e.q) && AllTraced(d, e) && i < |e.q|
    requires |f.q| == |e.q| && f.q == e.q[i := f.q[i]] && Traced(d.q[i], d.hand, f.q[i], f.hand)
    requires f.hand == e.hand + {e.q[i].id} || f.hand == e.hand - {e.q[i].id}
    ensures AllTraced(d, f)
  {
    forall k | 0 <= k < |d.q| && k != i ensures Traced(d.q[k], d.hand, f.q[k], f.hand) {
      assert f.q[k] == e.q[k] && e.q[k].id != e.q[i].id;
    }
  }

  lemma {:induction false} TakeTraces(d: Drain, e: Drain, dt: nat)
    requires DrainInv(e) && AllTraced(d, e)
    ensures AllTraced(d, DrainStep(e, Take(dt)))
  {
    var now := e.clock + dt;
    if Next(e.q, now).Some? {
      NextIsVisible(e.q, now);
      TraceOne(d, e, Next(e.q, now).value, DrainStep(e, Take(dt)));
    }
  }

  lemma {:induction false} DoneTraces(d: Drain, e: Drain, id: Id, ok: bool, dt: nat)
    requires DrainInv(e) && AllTraced(d, e)
    ensures AllTraced(d, DrainStep(e, Done(id, ok, dt)))
  {
    var i := FindId(e.q, id);
    if id in e.hand && i < |e.q| {
      assert e.q[i].state.Processing?;
      TraceOne(d, e, i, DrainStep(e, Done(id, ok, dt)));
    }
  }

  lemma {:induction false} RunTraces(d: Drain, es: seq<Round>)
    requires DrainInv(d)
    ensures AllTraced(d, DrainRun(d, es))
  {
    if es != [] {
      var e := DrainRun(d, es[..|es| - 1]);
      RunTraces(d, es[..|es| - 1]);
      DeliveriesBounded(d, es[..|es| - 1]);
      match es[|es| - 1]
      case Take(dt) => TakeTraces(d, e, dt);
      case Done(id, ok, dt) => DoneTraces(d, e, id, ok, dt);
    }
  }

  ghost predicate AllVisible(q: seq<Message>, now: int) {
    forall i :: 0 <= i < |q| && q[i].state.Pending? ==> q[i].visibleAfter <= now
  }

  /** Every message that was open is completed or dead-lettered, and no other has changed. */
  ghost predicate Settled(d: Drain, e: Drain) {
    |e.q| == |d.q| && forall i :: 0 <= i < |d.q| ==>
      if Open(d.q[i], d.hand) then e.q[i].state.Completed? || e.q[i].state.DeadLetter? else e.q[i] == d.q[i]
  }

  lemma {:induction false} NoneOpenIsSettled(d: Drain, es: seq<Round>)
    requires DrainInv(d)
    requires var e := DrainRun(d, es); e.hand == {} && forall i :: 0 <= i < |e.q| ==> !e.q[i].state.Pending?
    ensures Settled(d, DrainRun(d, es))
  {
    RunTraces(d, es);
  }

  /**
   * However rounds overlap and whatever the handlers do: once all delays have passed, no handler
   * is running and a poll finds nothing, every message that was pending, or with a handler, at the
   * start is completed or dead-lettered, and no other message was touched.
   */
  lemma {:induction false} DrainSettles(d: Drain, es: seq<Round>, now: int)
    requires DrainInv(d)
    requires var e := DrainRun(d, es); e.hand == {} && AllVisible(e.q, now) && Next(e.q, now).None?
    ensures Settled(d, DrainRun(d, es))
  {
    var e := DrainRun(d, es);
    NextIsLeast(e.q, now);
    assert forall i :: 0 <= i < |e.q| && e.q[i].state.Pending? ==> Visible(e.q[i], now);
    NoneOpenIsSettled(d, es);
  }

  /** Nothing is left to do. */
  ghost predicate Idle(d: Drain) {
    d.hand == {} && forall i :: 0 <= i < |d.q| ==> !d.q[i].state.Pending?
  }

  /** The polls of a run that deliver something, or come when nothing is left to do. */
  ghost function GoodPolls(d: Drain, es: seq<Round>): nat {
    if es == [] then 0
    else
      var e := DrainRun(d, es[..|es| - 1]);
      var good := es[|es| - 1].Take? && (Idle(e) || DrainRun(d, es).delivered != e.delivered);
      GoodPolls(d, es[..|es| - 1]) + if good then 1 else 0
  }

  lemma {:induction false} IdleStays(d: Drain, e: Round)
    requires Idle(d)
    ensures Idle(DrainStep(d, e))
  {
    match e
    case Take(dt) => PollDeliversExactly(d, dt);
    case Done(_, _, _) =>
  }

  lemma {:induction false} GoodPollsSpend(d: Drain, es: seq<Round>)
    requires DrainInv(d)
    ensures var e := DrainRun(d, es); Idle(e) || GoodPolls(d, es) + TotalLeft(e.q, e.hand) <= TotalLeft(d.q, d.hand)
  {
    if es != [] {
      var e, r := DrainRun(d, es[..|es| - 1]), es[|es| - 1];
      GoodPollsSpend(d, es[..|es| - 1]);
      DeliveriesBounded(d, es[..|es| - 1]);
      if Idle(e) {
        IdleStays(e, r);
      } else {
        DrainStepSpends(e, r);
        OneAtATime(e, r);
      }
    }
  }

  lemma {:induction false} OneAtATime(d: Drain, e: Round)
    ensures d.delivered <= DrainStep(d, e).delivered <= d.delivered + 1
  {
  }

  /**
   * As many polls as there are deliveries left, each finding a message or nothing more to do, drain
   * the queue, however rounds overlap and whatever the handlers do.
   */
  lemma {:induction false} EnoughPollsDrain(d: Drain, es: seq<Round>)
    requires DrainInv(d) && DrainRun(d, es).hand == {} && TotalLeft(d.q, d.hand) <= GoodPolls(d, es)
    ensures Settled(d, DrainRun(d, es))
  {
    var e := DrainRun(d, es);
    GoodPollsSpend(d, es);
    if !Idle(e) {
      NothingLeft(e.q);
    }
    NoneOpenIsSettled(d, es);
  }

  lemma {:induction false} NothingLeft(q: seq<Message>)
    requires TotalLeft(q, {}) == 0
    ensures forall i :: 0 <= i < |q| ==> !q[i].state.Pending?
  {
    if q != [] {
      NothingLeft(q[..|q| - 1]);
    }
  }
}
