/**
 * Leader election over the lease table: src/kernel-impl/memory/lock.ts:70-124.
 *
 * A candidacy asks for the lease when it is created but learns the answer only when the
 * call's continuation runs, so `Ask` and `Settle` are separate steps.
 */
module Elections {
  import opened Wrappers
  import opened Locks

  function LeaseKey(group: string): string {
    "leader:" + group
  }

  // ---------- What happens to one candidate ----------

  /** `asked` is the lease obtained, if any; `handle` is what the continuation has stored of it. */
  datatype Candidate = Candidate(
    group: string, ttlMs: int, asked: Option<Token>, settled: bool,
    handle: Option<Token>, leader: bool, renewing: bool,
    renewedAt: int)  // when the lease was last granted or renewed

  /** The continuation of the acquisition, which runs once. */
  function SettledAs(k: Candidate): Candidate {
    if k.settled then k
    else k.(settled := true, handle := k.asked, leader := k.leader || k.asked.Some?,
            renewing := k.renewing || k.asked.Some?)
  }

  /** A renewal tick whose `extend` gives `ok`. */
  function TickedAs(k: Candidate, ok: bool, now: int): Candidate {
    if !k.renewing || k.handle.None? then k
    else if ok then k.(renewedAt := now)
    else k.(leader := false, renewing := false)
  }

  function ResignedAs(k: Candidate): Candidate {
    k.(renewing := false, leader := k.leader && k.handle.None?)
  }

  function TokenOf(h: LockHandle?): Option<Token> {
    if h == null then None else Some(h.token)
  }

  // ---------- The class ----------

  class LeaderElection {
    const backend: InProcessLockBackend
    const group: string
    const ttlMs: int
    const asked: LockHandle?  // what the initial acquisition resolves to
    var leader: bool
    var handle: LockHandle?
    var renewing: bool

    function View(settled: bool, renewedAt: int): Candidate
      reads this
    {
      Candidate(group, ttlMs, TokenOf(asked), settled, TokenOf(handle), leader, renewing, renewedAt)
    }

    /** `electLeader`: the acquisition runs at once, its outcome is not looked at yet. */
    constructor (backend: InProcessLockBackend, group: string, ttlMs: int, token: Token, first: int, second: int)
      modifies backend
      ensures this.backend == backend && this.group == group && this.ttlMs == ttlMs
      ensures View(false, second) == Candidate(group, ttlMs, TokenOf(asked), false, None, false, false, second)
      ensures backend.locks == Attempt(old(backend.locks), LeaseKey(group), ttlMs, token, first, second).0
      ensures View(false, second).asked == if asked == null then None else Some(asked.token)
      ensures asked != null <==> Attempt(old(backend.locks), LeaseKey(group), ttlMs, token, first, second).1.Some?
      ensures asked != null ==>
        asked.key == LeaseKey(group) && asked.token == token && asked.expiresAt == second + ttlMs
    {
      this.backend, this.group, this.ttlMs := backend, group, ttlMs;
      leader, handle, renewing := false, null, false;
      var h := backend.TryAcquire(LeaseKey(group), ttlMs, token, first, second);
      asked := h;
    }

    /** The continuation of the acquisition. */
    method Settle()
      modifies this
      ensures handle == asked
      ensures forall t :: View(true, t) == SettledAs(old(View(false, t)))
    {
      handle := asked;
      if handle != null {
        leader := true;
        renewing := true;
      }
    }

    /** One firing of the renewal interval. */
    method RenewTick(now: int)
      requires renewing
      modifies this, backend, handle
      ensures handle == old(handle)
      ensures handle == null ==> backend.locks == old(backend.locks) && forall s, t :: View(s, t) == old(View(s, t))
      ensures handle != null ==>
        var (locks, ok) := Extend(old(backend.locks), handle.key, handle.token, ttlMs, now);
        && backend.locks == locks
        && handle.expiresAt == (if ok then now + ttlMs else old(handle.expiresAt))
        && forall s, t :: View(s, if ok then now else t) == TickedAs(old(View(s, t)), ok, now)
    {
      if handle != null {
        var ok := backend.ExtendLock(handle, ttlMs, now);
        if !ok {
          leader := false;
          renewing := false;
        }
      }
    }

    method Resign()
      modifies this, backend
      ensures handle == old(handle) && forall s, t :: View(s, t) == ResignedAs(old(View(s, t)))
      ensures backend.locks == if handle == null then old(backend.locks)
                               else Release(old(backend.locks), handle.key, handle.token)
    {
      renewing := false;
      if handle != null {
        backend.ReleaseLock(handle);
        leader := false;
      }
    }
  }

  // ---------- Runs ----------

  type CandidateId = nat

  datatype Electorate = Electorate(lw: Locks.World, cs: map<CandidateId, Candidate>, nextId: CandidateId)

  datatype Event =
    | Ask(group: string, ttlMs: int, dt: nat, skew: nat)
    | Settle(c: CandidateId)
    | Tick(c: CandidateId, dt: nat)
    | Resign(c: CandidateId, dt: nat)
    | Other(e: Locks.Event)  // any other client of the same lock backend

  function Init(t: int): Electorate {
    Electorate(Locks.Init(t), map[], 0)
  }

  /** Other clients use only handles that were given to them. */
  ghost predicate OwnsNothing(w: Electorate, e: Locks.Event) {
    (e.DoRelease? || e.DoExtend?) ==> forall c :: c in w.cs ==> w.cs[c].asked != Some(e.token)
  }

  /** What the step asks of the lease table, if anything. */
  ghost function LeaseEvent(w: Electorate, e: Event): Option<Locks.Event> {
    match e
    case Ask(group, ttlMs, dt, skew) => Some(DoAcquire(LeaseKey(group), ttlMs, dt, skew))
    case Settle(c) => None
    case Tick(c, dt) =>
      if c in w.cs && w.cs[c].renewing && w.cs[c].handle.Some?
      then Some(DoExtend(w.cs[c].handle.value, w.cs[c].ttlMs, dt)) else None
    case Resign(c, dt) =>
      if c in w.cs && w.cs[c].handle.Some? then Some(DoRelease(w.cs[c].handle.value, dt)) else None
    case Other(le) => if OwnsNothing(w, le) then Some(le) else None
  }

  ghost function LeaseStep(w: Electorate, e: Event): Locks.World {
    var le := LeaseEvent(w, e);
    if le.Some? then Locks.Step(w.lw, le.value) else w.lw
  }

  ghost function Step(w: Electorate, e: Event): Electorate {
    var lw := LeaseStep(w, e);
    match e
    case Ask(group, ttlMs, _, _) =>
      var asked := if w.lw.next in lw.handles then Some(w.lw.next) else None;
      var k := Candidate(group, ttlMs, asked, false, None, false, false, lw.clock);
      Electorate(lw, w.cs[w.nextId := k], w.nextId + 1)
    case Settle(c) =>
      if c in w.cs then Electorate(lw, w.cs[c := SettledAs(w.cs[c])], w.nextId) else w
    case Tick(c, _) =>
      if c !in w.cs then w else
      var ok := w.cs[c].handle.Some? && Holds(w.lw, w.cs[c].handle.value);
      Electorate(lw, w.cs[c := TickedAs(w.cs[c], ok, lw.clock)], w.nextId)
    case Resign(c, _) =>
      if c in w.cs then Electorate(lw, w.cs[c := ResignedAs(w.cs[c])], w.nextId) else w
    case Other(_) => w.(lw := lw)
  }

  ghost function Run(w: Electorate, es: seq<Event>): Electorate {
    if es == [] then w else Step(Run(w, es[..|es| - 1]), es[|es| - 1])
  }

  ghost predicate CandidateOk(w: Electorate, c: CandidateId)
    requires c in w.cs
  {
    var k := w.cs[c];
    && (k.handle.Some? ==> k.settled && k.handle == k.asked)
    && (k.leader == k.renewing)
    && (k.leader ==> k.handle.Some?)
    && (k.asked.Some? ==>
          && k.asked.value in w.lw.handles && w.lw.handles[k.asked.value].key == LeaseKey(k.group)
          && (k.leader || !k.settled ==> !w.lw.handles[k.asked.value].released
                                         && w.lw.handles[k.asked.value].expiresAt == k.renewedAt + k.ttlMs))
  }

  ghost predicate Inv(w: Electorate) {
    && Locks.Inv(w.lw)
    && (forall c :: c in w.cs ==> c < w.nextId && CandidateOk(w, c))
    && (forall c, d :: c in w.cs && d in w.cs && c != d && w.cs[c].asked.Some? ==> w.cs[c].asked != w.cs[d].asked)
  }

  lemma {:induction false} LeaseStepKeepsInv(w: Electorate, e: Event)
    requires Locks.Inv(w.lw)
    ensures Locks.Inv(LeaseStep(w, e))
  {
    if LeaseEvent(w, e).Some? {
      Locks.StepKeepsInv(w.lw, LeaseEvent(w, e).value);
    }
  }

  /** The step leaves the lease of every candidate it does not act for as it was. */
  lemma {:induction false} LeaseKept(w: Electorate, e: Event, d: CandidateId)
    requires Inv(w) && d in w.cs && w.cs[d].asked.Some?
    ensures var t := w.cs[d].asked.value; var lw := LeaseStep(w, e);
      && t in lw.handles && lw.handles[t].key == w.lw.handles[t].key
      && (!((e.Tick? || e.Resign?) && e.c == d) ==> lw.handles[t] == w.lw.handles[t])
  {
    assert CandidateOk(w, d);
    if LeaseEvent(w, e).Some? {
      if (e.Tick? || e.Resign?) && e.c in w.cs {
        assert CandidateOk(w, e.c);
      }
      Locks.OtherHandlesKept(w.lw, LeaseEvent(w, e).value, w.cs[d].asked.value);
    }
  }

  lemma {:induction false} BystanderOk(w: Electorate, e: Event, d: CandidateId)
    requires Inv(w) && d in w.cs && ((e.Tick? || e.Resign? || e.Settle?) ==> e.c != d)
    ensures d in Step(w, e).cs && Step(w, e).cs[d] == w.cs[d] && CandidateOk(Step(w, e), d)
  {
    assert CandidateOk(w, d);
    if w.cs[d].asked.Some? {
      LeaseKept(w, e, d);
    }
  }

  lemma {:induction false} ActorOk(w: Electorate, e: Event)
    requires Inv(w) && (e.Tick? || e.Resign? || e.Settle?) && e.c in w.cs
    ensures CandidateOk(Step(w, e), e.c) && Step(w, e).cs[e.c].asked == w.cs[e.c].asked
  {
    assert CandidateOk(w, e.c);
    if w.cs[e.c].asked.Some? {
      LeaseKept(w, e, e.c);
    }
  }

  lemma {:induction false} AskedOk(w: Electorate, e: Event)
    requires Inv(w) && e.Ask?
    ensures CandidateOk(Step(w, e), w.nextId)
    ensures Step(w, e).cs[w.nextId].asked.Some? ==> Step(w, e).cs[w.nextId].asked.value !in w.lw.handles
  {
  }

  lemma {:induction false} StepKeepsInv(w: Electorate, e: Event)
    requires Inv(w)
    ensures Inv(Step(w, e))
  {
    var v := Step(w, e);
    LeaseStepKeepsInv(w, e);
    if e.Ask? {
      AskedOk(w, e);
    } else if (e.Tick? || e.Resign? || e.Settle?) && e.c in w.cs {
      ActorOk(w, e);
    }
    forall d | d in v.cs
      ensures d < v.nextId && CandidateOk(v, d)
      ensures d in w.cs ==> v.cs[d].asked == w.cs[d].asked
    {
      if d in w.cs && ((e.Tick? || e.Resign? || e.Settle?) ==> e.c != d) {
        BystanderOk(w, e, d);
      }
    }
    forall d | d in w.cs && w.cs[d].asked.Some? ensures w.cs[d].asked.value in w.lw.handles {
      assert CandidateOk(w, d);
    }
  }

  lemma {:induction false} RunKeepsInv(w: Electorate, es: seq<Event>)
    requires Inv(w)
    ensures Inv(Run(w, es))
  {
    if es != [] {
      RunKeepsInv(w, es[..|es| - 1]);
      StepKeepsInv(Run(w, es[..|es| - 1]), es[|es| - 1]);
    }
  }

  // ---------- Uniqueness ----------

  predicate IsLeader(w: Electorate, c: CandidateId) {
    c in w.cs && w.cs[c].leader
  }

  /** c calls itself leader and its lease has not run out. */
  predicate LeadsWithLease(w: Electorate, c: CandidateId) {
    IsLeader(w, c) && w.cs[c].handle.Some? && Live(w.lw, w.cs[c].handle.value)
  }

  /** At any time a group has at most one leader with an unexpired lease. */
  lemma {:induction false} OneLeasedLeader(t: int, es: seq<Event>, c: CandidateId, d: CandidateId)
    requires var w := Run(Init(t), es); LeadsWithLease(w, c) && LeadsWithLease(w, d) && w.cs[c].group == w.cs[d].group
    ensures c == d
  {
    RunKeepsInv(Init(t), es);
    var w := Run(Init(t), es);
    assert CandidateOk(w, c) && CandidateOk(w, d);
  }

  /** Every leader has been granted or has renewed its lease within the last ttlMs. */
  predicate Punctual(w: Electorate) {
    forall c :: c in w.cs && w.cs[c].leader ==> w.lw.clock < w.cs[c].renewedAt + w.cs[c].ttlMs
  }

  /** While leaders renew in time, the isLeader flags alone are unique. */
  lemma {:induction false} OneFlaggedLeader(t: int, es: seq<Event>, c: CandidateId, d: CandidateId)
    requires var w := Run(Init(t), es);
      Punctual(w) && IsLeader(w, c) && IsLeader(w, d) && w.cs[c].group == w.cs[d].group
    ensures c == d
  {
    RunKeepsInv(Init(t), es);
    var w := Run(Init(t), es);
    assert CandidateOk(w, c) && CandidateOk(w, d);
    OneLeasedLeader(t, es, c, d);
  }

  /**
   * A renewal tick keeps a leader exactly when its lease is still the recorded one; otherwise
   * (after a takeover, say) it deposes it.
   */
  lemma {:induction false} TickDeposesExactly(t: int, es: seq<Event>, c: CandidateId, dt: nat)
    requires IsLeader(Run(Init(t), es), c)
    ensures var w := Run(Init(t), es); var v := Step(w, Tick(c, dt));
      && w.cs[c].handle.Some?
      && (IsLeader(v, c) <==> Holds(w.lw, w.cs[c].handle.value))
      && (IsLeader(v, c) ==> v.lw.handles[w.cs[c].handle.value].expiresAt == w.lw.clock + dt + w.cs[c].ttlMs)
  {
    RunKeepsInv(Init(t), es);
    assert CandidateOk(Run(Init(t), es), c);
  }

  lemma {:induction false} LostInOneStep(w: Electorate, c: CandidateId, e: Event)
    requires Inv(w) && c in w.cs && w.cs[c].asked.Some? && !Holds(w.lw, w.cs[c].asked.value)
    ensures var v := Step(w, e); c in v.cs && v.cs[c].asked == w.cs[c].asked && !Holds(v.lw, w.cs[c].asked.value)
  {
    assert CandidateOk(w, c);
    if LeaseEvent(w, e).Some? {
      Locks.LostOnce(w.lw, LeaseEvent(w, e).value, w.cs[c].asked.value);
    }
  }

  /** An earlier leader that has lost the lease never holds it again, whoever obtains it: its next tick deposes it. */
  lemma {:induction false} TakeoverIsFinal(w: Electorate, c: CandidateId, es: seq<Event>)
    requires Inv(w) && c in w.cs && w.cs[c].asked.Some? && !Holds(w.lw, w.cs[c].asked.value)
    ensures var v := Run(w, es); c in v.cs && v.cs[c].asked == w.cs[c].asked && !Holds(v.lw, w.cs[c].asked.value)
  {
    if es != [] {
      TakeoverIsFinal(w, c, es[..|es| - 1]);
      RunKeepsInv(w, es[..|es| - 1]);
      LostInOneStep(Run(w, es[..|es| - 1]), c, es[|es| - 1]);
    }
  }

  lemma {:induction false} StepElectsNoSettled(w: Electorate, c: CandidateId, e: Event)
    requires Inv(w) && c in w.cs && w.cs[c].settled && !w.cs[c].leader
    ensures var v := Step(w, e); c in v.cs && v.cs[c].settled && !v.cs[c].leader
  {
    assert CandidateOk(w, c);
  }

  lemma {:induction false} StepElectsNoneRefused(w: Electorate, c: CandidateId, e: Event)
    requires Inv(w) && c in w.cs && w.cs[c].asked.None?
    ensures var v := Step(w, e); c in v.cs && v.cs[c].asked.None?
  {
  }

  /** A candidate whose acquisition has settled and who is not leader is never elected again. */
  lemma {:induction false} NeverElectedTwice(w: Electorate, c: CandidateId, es: seq<Event>)
    requires Inv(w) && c in w.cs && w.cs[c].settled && !w.cs[c].leader
    ensures var v := Run(w, es); c in v.cs && v.cs[c].settled && !v.cs[c].leader
  {
    if es != [] {
      NeverElectedTwice(w, c, es[..|es| - 1]);
      RunKeepsInv(w, es[..|es| - 1]);
      StepElectsNoSettled(Run(w, es[..|es| - 1]), c, es[|es| - 1]);
    }
  }

  /**
   * Resigning takes effect exactly when there is nothing to give up any more after the
   * continuation of the acquisition: a resignation that overtakes it is forgotten.
   */
  lemma {:induction false} ResignationCountsExactly(w: Electorate, c: CandidateId, dt: nat)
    requires Inv(w) && c in w.cs
    ensures var v := Step(w, Resign(c, dt));
      (forall es :: !IsLeader(Run(v, es), c)) <==> w.cs[c].settled || w.cs[c].asked.None?
  {
    var v := Step(w, Resign(c, dt));
    StepKeepsInv(w, Resign(c, dt));
    assert CandidateOk(w, c);
    if w.cs[c].settled {
      forall es ensures !IsLeader(Run(v, es), c) {
        NeverElectedTwice(v, c, es);
      }
    } else if w.cs[c].asked.None? {
      forall es ensures !IsLeader(Run(v, es), c) {
        NeverWithoutLease(v, c, es);
      }
    } else {
      var es := [Settle(c)];
      assert es[..0] == [];
      assert Run(v, es) == Step(v, Settle(c));
      assert IsLeader(Run(v, es), c);
    }
  }

  /** Asked, resigned, and then the acquisition settles: the candidate leads although it has resigned. */
  lemma {:induction false} ResignationForgotten(t: int, group: string, ttlMs: int)
    ensures IsLeader(Run(Init(t), [Ask(group, ttlMs, 0, 0), Resign(0, 0), Settle(0)]), 0)
  {
    var w := Step(Init(t), Ask(group, ttlMs, 0, 0));
    assert w.lw.handles.Keys == {0};
    SettlesAfterResigning(w, 0);
    RunOfThree(Init(t), Ask(group, ttlMs, 0, 0), Resign(0, 0), Settle(0));
  }

  lemma {:induction false} SettlesAfterResigning(w: Electorate, c: CandidateId)
    requires c in w.cs && !w.cs[c].settled && w.cs[c].asked.Some? && w.cs[c].handle.None?
    ensures IsLeader(Step(Step(w, Resign(c, 0)), Settle(c)), c)
  {
    assert Step(w, Resign(c, 0)).cs[c] == ResignedAs(w.cs[c]);
  }

  lemma {:induction false} RunOfThree(w: Electorate, a: Event, b: Event, c: Event)
    ensures Run(w, [a, b, c]) == Step(Step(Step(w, a), b), c)
  {
    RunSnoc(w, [], a);
    RunSnoc(w, [a], b);
    RunSnoc(w, [a, b], c);
    assert [] + [a] == [a] && [a] + [b] == [a, b] && [a, b] + [c] == [a, b, c];
  }

  lemma {:induction false} RunSnoc(w: Electorate, es: seq<Event>, e: Event)
    ensures Run(w, es + [e]) == Step(Run(w, es), e)
  {
    assert (es + [e])[..|es|] == es;
  }

  lemma {:induction false} NeverWithoutLease(w: Electorate, c: CandidateId, es: seq<Event>)
    requires Inv(w) && c in w.cs && w.cs[c].asked.None?
    ensures var v := Run(w, es); c in v.cs && v.cs[c].asked.None? && !v.cs[c].leader
  {
    RunKeepsInv(w, es);
    if es != [] {
      NeverWithoutLease(w, c, es[..|es| - 1]);
      RunKeepsInv(w, es[..|es| - 1]);
      StepElectsNoneRefused(Run(w, es[..|es| - 1]), c, es[|es| - 1]);
    }
    assert CandidateOk(Run(w, es), c);
  }

  // ---------- Groups ----------

  /** Each group has a lease of its own. */
  lemma {:induction false} LeasesApart(g: string, h: string)
    ensures LeaseKey(g) == LeaseKey(h) <==> g == h
    ensures LeaseKey(g) == "leader:" + g
  {
    assert g == ("leader:" + g)[7..] && h == ("leader:" + h)[7..];
  }

  /** The handle t blocks the key at a time: it is recorded for it and has not expired. */
  ghost predicate Blocks(w: Electorate, t: Token, key: string, now: int) {
    Holds(w.lw, t) && w.lw.handles[t].key == key && now < w.lw.handles[t].expiresAt
  }

  ghost predicate AskedBy(w: Electorate, c: CandidateId, t: Token) {
    c in w.cs && w.cs[c].asked == Some(t)
  }

  ghost predicate AnotherClients(w: Electorate, t: Token) {
    forall c :: !AskedBy(w, c, t)
  }

  /**
   * Asking obtains the lease exactly when no unexpired recorded lease belongs to a candidate of the
   * same group, or to another client under the group's key.
   */
  lemma {:induction false} AskObtainsExactly(w: Electorate, group: string, ttlMs: int, dt: nat, skew: nat)
    requires Inv(w)
    ensures var now := w.lw.clock + dt; var v := Step(w, Ask(group, ttlMs, dt, skew));
      && w.nextId in v.cs && v.cs[w.nextId].group == group && !v.cs[w.nextId].leader
      && (v.cs[w.nextId].asked.Some? <==>
            && (forall c, t :: AskedBy(w, c, t) && w.cs[c].group == group ==> !Blocks(w, t, "leader:" + group, now))
            && (forall t :: AnotherClients(w, t) ==> !Blocks(w, t, "leader:" + group, now)))
      && (v.cs[w.nextId].asked.Some? ==>
            && v.cs[w.nextId].asked.value in v.lw.handles
            && v.lw.handles[v.cs[w.nextId].asked.value]
               == Handle("leader:" + group, now + skew + ttlMs, false))
  {
    var now := w.lw.clock + dt;
    var key := "leader:" + group;
    LeasesApart(group, group);
    Locks.GrantedExactlyWhenFree(w.lw, key, ttlMs, dt, skew);
    Locks.GrantLasts(w.lw, key, ttlMs, dt, skew);
    if exists t :: Blocks(w, t, key, now) {
      var t :| Blocks(w, t, key, now);
      if exists c :: AskedBy(w, c, t) {
        var c :| AskedBy(w, c, t);
        assert CandidateOk(w, c);
        LeasesApart(w.cs[c].group, group);
      } else {
        assert AnotherClients(w, t);
      }
    } else {
      assert !exists t :: t in w.lw.handles && Holds(w.lw, t) && w.lw.handles[t].key == key
                          && w.lw.clock + dt < w.lw.handles[t].expiresAt by {
        if t :| t in w.lw.handles && Holds(w.lw, t) && w.lw.handles[t].key == key
                && w.lw.clock + dt < w.lw.handles[t].expiresAt {
          assert Blocks(w, t, key, now);
        }
      }
    }
  }

  lemma {:induction false} RunOfFour(w: Electorate, a: Event, b: Event, c: Event, d: Event)
    ensures Run(w, [a, b, c, d]) == Step(Step(Step(Step(w, a), b), c), d)
  {
    RunOfThree(w, a, b, c);
    RunSnoc(w, [a, b, c], d);
    assert [a, b, c] + [d] == [a, b, c, d];
  }

  /** Two groups elect at the same time, and each gets its leader. */
  lemma {:induction false} BothGroupsLead(t: int, g: string, h: string, ttlMs: int)
    requires g != h
    ensures var w := Run(Init(t), [Ask(g, ttlMs, 0, 0), Ask(h, ttlMs, 0, 0), Settle(0), Settle(1)]);
      IsLeader(w, 0) && IsLeader(w, 1) && w.cs[0].group == g && w.cs[1].group == h
  {
    LeasesApart(g, h);
    RunOfFour(Init(t), Ask(g, ttlMs, 0, 0), Ask(h, ttlMs, 0, 0), Settle(0), Settle(1));
    var u := Step(Init(t), Ask(g, ttlMs, 0, 0));
    assert u.lw.locks.Keys == {LeaseKey(g)} && u.cs.Keys == {0} && u.cs[0].asked == Some(0);
    var w := Step(u, Ask(h, ttlMs, 0, 0));
    assert w.cs.Keys == {0, 1} && w.cs[1].asked == Some(1) && w.cs[0] == u.cs[0];
    BothSettle(w);
  }

  lemma {:induction false} BothSettle(w: Electorate)
    requires 0 in w.cs && 1 in w.cs
    requires forall c :: c == 0 || c == 1 ==> w.cs[c].asked.Some? && !w.cs[c].settled
    ensures var v := Step(Step(w, Settle(0)), Settle(1));
      IsLeader(v, 0) && IsLeader(v, 1) && v.cs[0].group == w.cs[0].group && v.cs[1].group == w.cs[1].group
  {
  }

  /** A renewal tick does nothing to a candidate that does not renew, and nothing to any other. */
  lemma {:induction false} TickTouchesOnly(w: Electorate, c: CandidateId, dt: nat, d: CandidateId)
    requires d in w.cs && (d != c || !w.cs[d].renewing)
    ensures var v := Step(w, Tick(c, dt)); d in v.cs && v.cs[d] == w.cs[d]
  {
  }
}
