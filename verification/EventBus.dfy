/**
 * The in-process event bus of src/kernel-impl/memory/event-bus.ts.
 */
module EventBuses {
  import opened Globs

  /** `once` subscriptions end themselves with the first event they see. */
  datatype Subscriber = Subscriber(id: nat, pattern: string, once: bool)

  /** The subscribers an event reaches. */
  function Active(subs: seq<Subscriber>, eventType: string): seq<Subscriber> {
    if subs == [] then []
    else
      var last := subs[|subs| - 1];
      Active(subs[..|subs| - 1], eventType) + if Subscribed(last.pattern, eventType) then [last] else []
  }

  function Ids(subs: seq<Subscriber>): seq<nat> {
    if subs == [] then [] else Ids(subs[..|subs| - 1]) + [subs[|subs| - 1].id]
  }

  function Called(subs: seq<Subscriber>, eventType: string): seq<nat> {
    Ids(Active(subs, eventType))
  }

  function AfterPublish(subs: seq<Subscriber>, eventType: string): seq<Subscriber> {
    if subs == [] then []
    else
      var last := subs[|subs| - 1];
      AfterPublish(subs[..|subs| - 1], eventType)
      + if last.once && Subscribed(last.pattern, eventType) then [] else [last]
  }

  function Without(subs: seq<Subscriber>, id: nat): seq<Subscriber> {
    if subs == [] then []
    else Without(subs[..|subs| - 1], id) + if subs[|subs| - 1].id == id then [] else [subs[|subs| - 1]]
  }

  /** In order of subscription, each under an id of its own. */
  ghost predicate InOrder(subs: seq<Subscriber>) {
    forall i, j :: 0 <= i < j < |subs| ==> subs[i].id < subs[j].id
  }

  class InProcessEventBus {
    var subscribers: seq<Subscriber>
    var nextId: nat

    ghost predicate Valid()
      reads this
    {
      InOrder(subscribers) && forall k :: 0 <= k < |subscribers| ==> subscribers[k].id < nextId
    }

    constructor ()
      ensures subscribers == [] && nextId == 0 && Valid()
    {
      subscribers, nextId := [], 0;
    }

    method Subscribe(pattern: string) returns (id: nat)
      requires Valid()
      modifies this
      ensures Valid() && id == old(nextId) && nextId == id + 1
      ensures subscribers == old(subscribers) + [Subscriber(id, pattern, false)]
    {
      id := nextId;
      subscribers, nextId := subscribers + [Subscriber(id, pattern, false)], nextId + 1;
    }

    method Once(pattern: string) returns (id: nat)
      requires Valid()
      modifies this
      ensures Valid() && id == old(nextId) && nextId == id + 1
      ensures subscribers == old(subscribers) + [Subscriber(id, pattern, true)]
    {
      id := nextId;
      subscribers, nextId := subscribers + [Subscriber(id, pattern, true)], nextId + 1;
    }

    /** The timer of `once`: the wait is rejected unless the event came first and cleared the timer. */
    method Expire(id: nat) returns (rejected: bool)
      requires Valid()
      modifies this`subscribers
      ensures Valid() && (rejected <==> exists s :: s in old(subscribers) && s.id == id)
      ensures forall s :: s in subscribers <==> s in old(subscribers) && s.id != id
    {
      WithoutExactly(subscribers, id);
      rejected := exists k :: 0 <= k < |subscribers| && subscribers[k].id == id;
      if rejected {
        Unsubscribe(id);
      }
    }

    /** Takes out the subscriber and leaves all others, in their order. */
    method Unsubscribe(id: nat)
      requires Valid()
      modifies this`subscribers
      ensures Valid() && subscribers == Without(old(subscribers), id)
      ensures forall s :: s in subscribers <==> s in old(subscribers) && s.id != id
    {
      var subs, kept := subscribers, [];
      for k := 0 to |subs|
        invariant kept == Without(subs[..k], id)
      {
        if subs[k].id != id {
          kept := kept + [subs[k]];
        }
        assert subs[..k + 1][..k] == subs[..k];
      }
      assert subs[..|subs|] == subs;
      WithoutExactly(subs, id);
      subscribers := kept;
    }

    static method Matching(subs: seq<Subscriber>, eventType: string) returns (active: seq<Subscriber>)
      ensures active == Active(subs, eventType)
    {
      active := [];
      for k := 0 to |subs|
        invariant active == Active(subs[..k], eventType)
      {
        if Subscribed(subs[k].pattern, eventType) {
          active := active + [subs[k]];
        }
        assert subs[..k + 1][..k] == subs[..k];
      }
      assert subs[..|subs|] == subs;
    }

    /** Calls every matching handler once, in the order of subscription; those of `once` unsubscribe. */
    method Publish(eventType: string) returns (called: seq<nat>)
      requires Valid()
      modifies this`subscribers
      ensures Valid() && called == Called(old(subscribers), eventType)
      ensures subscribers == AfterPublish(old(subscribers), eventType)
      ensures forall s :: s in subscribers <==> s in old(subscribers) && !(s.once && Subscribed(s.pattern, eventType))
    {
      var active := Matching(subscribers, eventType);
      AllSubscribed(subscribers, eventType);
      called := CallAll(active);
      AllDropped(old(subscribers), eventType, subscribers);
    }

    /** The handlers run one after the other; the list they were picked from no longer matters. */
    method CallAll(active: seq<Subscriber>) returns (called: seq<nat>)
      requires Valid() && AllIn(active, subscribers)
      modifies this`subscribers
      ensures Valid() && called == Ids(active) && LeftOver(old(subscribers), active, subscribers)
    {
      called := [];
      for k := 0 to |active|
        invariant Valid() && called == Ids(active[..k]) && LeftOver(old(subscribers), active[..k], subscribers)
      {
        var x := active[k];
        called := called + [x.id];
        assert active[..k + 1] == active[..k] + [x] && active[..k + 1][..k] == active[..k];
        DropOne(old(subscribers), active[..k], x, subscribers);
        if x.once {
          Unsubscribe(x.id);
        }
      }
      assert active[..|active|] == active;
    }
  }

  ghost predicate AllIn(some: seq<Subscriber>, subs: seq<Subscriber>) {
    forall k :: 0 <= k < |some| ==> some[k] in subs
  }

  lemma {:induction false} WithoutExactly(subs: seq<Subscriber>, id: nat)
    requires InOrder(subs)
    ensures InOrder(Without(subs, id)) && forall s :: s in Without(subs, id) <==> s in subs && s.id != id
  {
    if subs != [] {
      WithoutExactly(subs[..|subs| - 1], id);
      assert subs == subs[..|subs| - 1] + [subs[|subs| - 1]];
    }
  }

  lemma {:induction false} ActiveExactly(subs: seq<Subscriber>, eventType: string)
    ensures forall s :: s in Active(subs, eventType) <==> s in subs && Subscribed(s.pattern, eventType)
  {
    if subs != [] {
      ActiveExactly(subs[..|subs| - 1], eventType);
      assert subs == subs[..|subs| - 1] + [subs[|subs| - 1]];
    }
  }

  lemma AllSubscribed(subs: seq<Subscriber>, eventType: string)
    ensures AllIn(Active(subs, eventType), subs)
  {
    ActiveExactly(subs, eventType);
  }

  /** Of those who subscribed, all are left but the one-shot ones that were called. */
  ghost predicate LeftOver(was: seq<Subscriber>, called: seq<Subscriber>, subs: seq<Subscriber>) {
    InOrder(subs) && forall s :: s in subs <==> s in was && !(s.once && s in called)
  }

  lemma DropOne(was: seq<Subscriber>, called: seq<Subscriber>, x: Subscriber, subs: seq<Subscriber>)
    requires InOrder(was) && x in was && LeftOver(was, called, subs)
    ensures LeftOver(was, called + [x], if x.once then Without(subs, x.id) else subs)
  {
    WithoutExactly(subs, x.id);
    assert forall s :: s in was && s.id == x.id ==> s == x;
  }

  lemma AllDropped(was: seq<Subscriber>, eventType: string, subs: seq<Subscriber>)
    requires InOrder(was) && LeftOver(was, Active(was, eventType), subs)
    ensures subs == AfterPublish(was, eventType)
    ensures forall s :: s in subs <==> s in was && !(s.once && Subscribed(s.pattern, eventType))
  {
    ActiveExactly(was, eventType);
    KeptExactly(was, eventType);
    KeptInOrder(was, eventType);
    InOrderUnique(subs, AfterPublish(was, eventType));
  }

  /** Order and members determine the list. */
  lemma {:induction false} InOrderUnique(a: seq<Subscriber>, b: seq<Subscriber>)
    requires InOrder(a) && InOrder(b) && forall s :: s in a <==> s in b
    ensures a == b
  {
    assert |b| > 0 ==> b[0] in a;
    if a != [] {
      assert a[0] in a && a[0] in b;
      assert b[0] in b && b[0] in a;
      assert a[0] == b[0];
      assert a == [a[0]] + a[1..] && b == [b[0]] + b[1..];
      forall s ensures s in a[1..] <==> s in b[1..] {
        assert s in a[1..] <==> s in a && s != a[0];
        assert s in b[1..] <==> s in b && s != b[0];
      }
      InOrderUnique(a[1..], b[1..]);
    }
  }

  lemma {:induction false} IdsExactly(subs: seq<Subscriber>, id: nat)
    ensures id in Ids(subs) <==> exists s :: s in subs && s.id == id
  {
    if subs != [] {
      IdsExactly(subs[..|subs| - 1], id);
      assert subs == subs[..|subs| - 1] + [subs[|subs| - 1]];
    }
  }

  lemma CalledExactly(subs: seq<Subscriber>, eventType: string, id: nat)
    ensures id in Called(subs, eventType) <==> exists s :: s in subs && s.id == id && Subscribed(s.pattern, eventType)
  {
    ActiveExactly(subs, eventType);
    IdsExactly(Active(subs, eventType), id);
  }

  lemma {:induction false} KeptExactly(subs: seq<Subscriber>, eventType: string)
    ensures forall s :: s in AfterPublish(subs, eventType) <==>
      s in subs && !(s.once && Subscribed(s.pattern, eventType))
  {
    if subs != [] {
      KeptExactly(subs[..|subs| - 1], eventType);
      assert subs == subs[..|subs| - 1] + [subs[|subs| - 1]];
    }
  }

  lemma {:induction false} KeptInOrder(subs: seq<Subscriber>, eventType: string)
    requires InOrder(subs)
    ensures InOrder(AfterPublish(subs, eventType))
  {
    if subs != [] {
      var front := subs[..|subs| - 1];
      var kept := AfterPublish(front, eventType);
      KeptInOrder(front, eventType);
      KeptExactly(front, eventType);
      forall k | 0 <= k < |kept| ensures kept[k].id < subs[|subs| - 1].id {
        assert kept[k] in front;
      }
    }
  }

  function PublishAll(subs: seq<Subscriber>, types: seq<string>): seq<Subscriber> {
    if types == [] then subs else AfterPublish(PublishAll(subs, types[..|types| - 1]), types[|types| - 1])
  }

  /** A one-shot subscription that has been called is not called again, whatever is published. */
  lemma {:induction false} OnceIsOnce(subs: seq<Subscriber>, s: Subscriber, eventType: string, types: seq<string>,
                                      later: string)
    requires s.once && Subscribed(s.pattern, eventType)
    requires forall t :: t in subs && t.id == s.id ==> t == s
    ensures s.id !in Called(PublishAll(AfterPublish(subs, eventType), types), later)
    ensures forall t :: t in PublishAll(AfterPublish(subs, eventType), types) ==> t in subs && t.id != s.id
  {
    var after := PublishAll(AfterPublish(subs, eventType), types);
    forall t | t in after ensures t in subs && t.id != s.id {
      if types == [] {
        KeptExactly(subs, eventType);
      } else {
        OnceIsOnce(subs, s, eventType, types[..|types| - 1], later);
        KeptExactly(PublishAll(AfterPublish(subs, eventType), types[..|types| - 1]), types[|types| - 1]);
      }
    }
    CalledExactly(after, later, s.id);
  }
}
