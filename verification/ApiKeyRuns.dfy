/**
 * The life cycle of API keys over whole runs, one manager call per step.
 */
module ApiKeyRuns {
  import opened Wrappers
  import opened Storage
  import opened ApiKeys

  /** A raw key that was handed out. */
  datatype Issue = Issue(tenant: string, id: string, input: Input)

  /**
   * Every tenant's rows; who was issued what; which ids were revoked.  `owner` leads from an
   * id back to the raw key it was issued with.
   */
  datatype World = World(rows: map<string, Table>, clock: int, issued: map<string, Issue>,
                         owner: map<string, string>, revoked: set<(string, string)>)

  datatype Op =
    | DoCreate(tenant: string, input: Input, id: string, raw: string)
    | DoValidate(tenant: string, raw: string)
    | DoRevoke(tenant: string, id: string)
    | DoRotate(tenant: string, id: string, newId: string, newRaw: string)

  datatype Event = Event(op: Op, dt: nat)

  function Rows(w: World, tenant: string): Table {
    if tenant in w.rows then w.rows[tenant] else map[]
  }

  /** Ids and raw keys are random: one that is used has not been used before. */
  predicate Unused(w: World, id: string, raw: string) {
    id !in w.owner && raw !in w.issued
  }

  function Issued(hash: Hash, w: World, tenant: string, input: Input, id: string, raw: string, now: int): World {
    w.(rows := w.rows[tenant := Create(Rows(w, tenant), tenant, input, id, hash(raw), now)], clock := now,
       issued := w.issued[raw := Issue(tenant, id, input)], owner := w.owner[id := raw])
  }

  function RevokedIn(w: World, tenant: string, id: string, now: int): World {
    var known := RowKey(id) in Rows(w, tenant);
    w.(rows := w.rows[tenant := Revoke(Rows(w, tenant), id, now)], clock := now,
       revoked := if known then w.revoked + {(tenant, id)} else w.revoked)
  }

  predicate CanRotate(w: World, tenant: string, id: string, newId: string, newRaw: string) {
    RowKey(id) in Rows(w, tenant) && Rows(w, tenant)[RowKey(id)].KeyRow? && Unused(w, newId, newRaw)
  }

  function Step(hash: Hash, w: World, e: Event): World {
    var now := w.clock + e.dt;
    match e.op
    case DoCreate(tenant, input, id, raw) =>
      if Unused(w, id, raw) then Issued(hash, w, tenant, input, id, raw, now) else w.(clock := now)
    case DoValidate(tenant, raw) =>
      w.(rows := w.rows[tenant := AfterValidate(Rows(w, tenant), tenant, hash(raw), now)], clock := now)
    case DoRevoke(tenant, id) => RevokedIn(w, tenant, id, now)
    case DoRotate(tenant, id, newId, newRaw) =>
      if CanRotate(w, tenant, id, newId, newRaw)
      then Issued(hash, RevokedIn(w, tenant, id, now), tenant, InputOf(Rows(w, tenant)[RowKey(id)]), newId, newRaw, now)
      else w.(clock := now)
  }

  function Run(hash: Hash, t: int, es: seq<Event>): World {
    if es == [] then World(map[], t, map[], map[], {}) else Step(hash, Run(hash, t, es[..|es| - 1]), es[|es| - 1])
  }

  /** The hash tells these raw keys apart. */
  ghost predicate Distinguishes(hash: Hash, raws: set<string>) {
    forall a, b :: a in raws && b in raws && hash(a) == hash(b) ==> a == b
  }

  // ---------- The index matches the rows ----------

  ghost predicate RowOk(hash: Hash, w: World, raw: string)
    requires raw in w.issued
  {
    var i := w.issued[raw];
    var t := Rows(w, i.tenant);
    && i.id in w.owner && w.owner[i.id] == raw
    && HashKey(hash(raw)) in t && t[HashKey(hash(raw))] == HashRow(i.id)
    && RowKey(i.id) in t
    && var row := t[RowKey(i.id)];
       row.KeyRow? && row.id == i.id && row.tenantId == i.tenant && row.keyHash == hash(raw)
       && InputOf(row) == i.input && (row.revokedAt.Some? <==> (i.tenant, i.id) in w.revoked)
  }

  /** An index entry exists only for an issued raw key, and points to that key's id. */
  ghost predicate IndexOk(hash: Hash, w: World, tenant: string, h: string) {
    HashKey(h) in Rows(w, tenant) ==>
      var id := Rows(w, tenant)[HashKey(h)].id;
      id in w.owner && hash(w.owner[id]) == h && w.owner[id] in w.issued && w.issued[w.owner[id]].tenant == tenant
  }

  /** A key row exists only for an id issued in that tenant. */
  ghost predicate RowKnown(w: World, tenant: string, id: string) {
    RowKey(id) in Rows(w, tenant) ==>
      id in w.owner && w.owner[id] in w.issued && w.issued[w.owner[id]].tenant == tenant
  }

  ghost predicate OwnerOk(w: World, id: string) {
    id in w.owner ==> w.owner[id] in w.issued && w.issued[w.owner[id]].id == id
  }

  ghost predicate Inv(hash: Hash, w: World) {
    && (forall raw {:trigger RowOk(hash, w, raw)} :: raw in w.issued ==> RowOk(hash, w, raw))
    && (forall t, h :: IndexOk(hash, w, t, h))
    && (forall t, id :: RowKnown(w, t, id))
    && (forall id :: OwnerOk(w, id))
    && (forall p :: p in w.revoked ==> p.1 in w.owner)
  }

  /** The row and the index entry of an id, which is in use only in its own tenant. */
  lemma {:induction false} OwnedRow(hash: Hash, w: World, tenant: string, id: string)
    requires Inv(hash, w) && RowKey(id) in Rows(w, tenant)
    ensures id in w.owner && w.owner[id] in w.issued
    ensures w.issued[w.owner[id]].id == id && w.issued[w.owner[id]].tenant == tenant
    ensures RowOk(hash, w, w.owner[id])
  {
    assert RowKnown(w, tenant, id) && OwnerOk(w, id);
    assert RowOk(hash, w, w.owner[id]);
  }

  lemma {:induction false} IssueKeepsRow(hash: Hash, w: World, tenant: string, input: Input, id: string, raw: string,
                                         now: int, r: string)
    requires Inv(hash, w) && Unused(w, id, raw) && Distinguishes(hash, w.issued.Keys + {raw})
    requires r in w.issued || r == raw
    ensures RowOk(hash, Issued(hash, w, tenant, input, id, raw, now), r)
  {
    if r == raw {
      KeysApart(id, hash(raw));
    } else {
      assert RowOk(hash, w, r);
      assert hash(r) != hash(raw) && w.issued[r].id != id;
      KeysApart(id, hash(r));
      KeysApart(w.issued[r].id, hash(raw));
      SameKey(hash(r), hash(raw));
      SameKey(w.issued[r].id, id);
    }
  }

  lemma {:induction false} IssueKeepsIndex(hash: Hash, w: World, tenant: string, input: Input, id: string, raw: string,
                                           now: int, t: string, h: string)
    requires Inv(hash, w) && Unused(w, id, raw)
    ensures IndexOk(hash, Issued(hash, w, tenant, input, id, raw, now), t, h)
  {
    assert IndexOk(hash, w, t, h);
    KeysApart(id, h);
    SameKey(h, hash(raw));
  }

  lemma {:induction false} IssueKeepsKnown(hash: Hash, w: World, tenant: string, input: Input, id: string, raw: string,
                                           now: int, t: string, i: string)
    requires Inv(hash, w) && Unused(w, id, raw)
    ensures RowKnown(Issued(hash, w, tenant, input, id, raw, now), t, i)
  {
    assert RowKnown(w, t, i);
    KeysApart(i, hash(raw));
    SameKey(i, id);
  }

  lemma {:induction false} IssueKeepsInv(hash: Hash, w: World, tenant: string, input: Input, id: string, raw: string,
                                         now: int)
    requires Inv(hash, w) && Unused(w, id, raw) && Distinguishes(hash, w.issued.Keys + {raw})
    ensures Inv(hash, Issued(hash, w, tenant, input, id, raw, now))
  {
    var v := Issued(hash, w, tenant, input, id, raw, now);
    forall r | r in v.issued ensures RowOk(hash, v, r) {
      IssueKeepsRow(hash, w, tenant, input, id, raw, now, r);
    }
    forall t, h ensures IndexOk(hash, v, t, h) {
      IssueKeepsIndex(hash, w, tenant, input, id, raw, now, t, h);
    }
    forall t, i ensures RowKnown(v, t, i) {
      IssueKeepsKnown(hash, w, tenant, input, id, raw, now, t, i);
    }
    forall i ensures OwnerOk(v, i) {
      assert OwnerOk(w, i);
    }
  }

  /** A row overwritten by a version of itself, perhaps revoked. */
  ghost predicate Overwrites(w: World, v: World, tenant: string, id: string, row': Row) {
    && RowKey(id) in Rows(w, tenant)
    && (var row := Rows(w, tenant)[RowKey(id)];
        && row.KeyRow? && row'.KeyRow? && row'.id == row.id && row'.tenantId == row.tenantId
        && row'.keyHash == row.keyHash
        && InputOf(row') == InputOf(row) && (row.revokedAt.Some? ==> row'.revokedAt.Some?)
        && v.revoked == if row'.revokedAt.Some? && row.revokedAt.None? then w.revoked + {(tenant, id)} else w.revoked)
    && v.rows == w.rows[tenant := Rows(w, tenant)[RowKey(id) := row']]
    && v.issued == w.issued && v.owner == w.owner
  }

  lemma {:induction false} OverwriteKeepsRow(hash: Hash, w: World, v: World, tenant: string, id: string, row': Row,
                                             r: string)
    requires Inv(hash, w) && Overwrites(w, v, tenant, id, row') && r in w.issued
    ensures RowOk(hash, v, r)
  {
    OwnedRow(hash, w, tenant, id);
    assert RowOk(hash, w, r);
    KeysApart(id, hash(r));
    SameKey(w.issued[r].id, id);
  }

  lemma {:induction false} OverwriteKeepsIndex(hash: Hash, w: World, v: World, tenant: string, id: string, row': Row,
                                               t: string, h: string)
    requires Inv(hash, w) && Overwrites(w, v, tenant, id, row')
    ensures IndexOk(hash, v, t, h)
  {
    assert IndexOk(hash, w, t, h);
    KeysApart(id, h);
  }

  lemma {:induction false} OverwriteKeepsKnown(hash: Hash, w: World, v: World, tenant: string, id: string, row': Row,
                                               t: string, i: string)
    requires Inv(hash, w) && Overwrites(w, v, tenant, id, row')
    ensures RowKnown(v, t, i) && OwnerOk(v, i)
  {
    assert RowKnown(w, t, i) && OwnerOk(w, i);
  }

  lemma {:induction false} OverwriteKeepsRevoked(hash: Hash, w: World, v: World, tenant: string, id: string, row': Row,
                                                 p: (string, string))
    requires Inv(hash, w) && Overwrites(w, v, tenant, id, row') && p in v.revoked
    ensures p.1 in v.owner
  {
    OwnedRow(hash, w, tenant, id);
  }

  lemma {:induction false} OverwriteKeepsInv(hash: Hash, w: World, v: World, tenant: string, id: string, row': Row)
    requires Inv(hash, w) && Overwrites(w, v, tenant, id, row')
    ensures Inv(hash, v)
  {
    forall r | r in v.issued ensures RowOk(hash, v, r) {
      OverwriteKeepsRow(hash, w, v, tenant, id, row', r);
    }
    forall t, h ensures IndexOk(hash, v, t, h) {
      OverwriteKeepsIndex(hash, w, v, tenant, id, row', t, h);
    }
    forall t, i ensures RowKnown(v, t, i) {
      OverwriteKeepsKnown(hash, w, v, tenant, id, row', t, i);
    }
    forall i ensures OwnerOk(v, i) {
      OverwriteKeepsKnown(hash, w, v, tenant, id, row', tenant, i);
    }
    forall p | p in v.revoked ensures p.1 in v.owner {
      OverwriteKeepsRevoked(hash, w, v, tenant, id, row', p);
    }
  }

  /** Only the clock changed. */
  lemma {:induction false} SameRowsKeepInv(hash: Hash, w: World, v: World)
    requires Inv(hash, w) && forall t :: Rows(v, t) == Rows(w, t)
    requires v.issued == w.issued && v.owner == w.owner && v.revoked == w.revoked
    ensures Inv(hash, v)
  {
    forall r | r in v.issued ensures RowOk(hash, v, r) {
      assert RowOk(hash, w, r);
    }
    forall t, h ensures IndexOk(hash, v, t, h) {
      assert IndexOk(hash, w, t, h);
    }
    forall t, i ensures RowKnown(v, t, i) {
      assert RowKnown(w, t, i);
    }
    forall i ensures OwnerOk(v, i) {
      assert OwnerOk(w, i);
    }
  }

  lemma {:induction false} RevokeKeepsInv(hash: Hash, w: World, tenant: string, id: string, now: int)
    requires Inv(hash, w)
    ensures Inv(hash, RevokedIn(w, tenant, id, now))
  {
    var v := RevokedIn(w, tenant, id, now);
    if RowKey(id) !in Rows(w, tenant) {
      SameRowsKeepInv(hash, w, v);
    } else {
      OwnedRow(hash, w, tenant, id);
      var row := Rows(w, tenant)[RowKey(id)];
      if row.revokedAt.None? {
        OverwriteKeepsInv(hash, w, v, tenant, id, row.(revokedAt := Some(now)));
      } else {
        assert w.revoked + {(tenant, id)} == w.revoked;
        SameRowsKeepInv(hash, w, v);
      }
    }
  }

  /** What a raw key's hash resolves to: its own row, in its own tenant, and nothing otherwise. */
  lemma {:induction false} ResolvesToOwn(hash: Hash, w: World, tenant: string, raw: string)
    requires Inv(hash, w) && Distinguishes(hash, w.issued.Keys + {raw})
    ensures Resolves(Rows(w, tenant), tenant, hash(raw)) <==> raw in w.issued && w.issued[raw].tenant == tenant
    ensures Resolves(Rows(w, tenant), tenant, hash(raw)) ==>
      RowKey(w.issued[raw].id) in Rows(w, tenant)
      && Resolved(Rows(w, tenant), tenant, hash(raw)) == Rows(w, tenant)[RowKey(w.issued[raw].id)]
  {
    assert IndexOk(hash, w, tenant, hash(raw));
    if raw in w.issued {
      assert RowOk(hash, w, raw);
    }
  }

  /** Whoever validates, even with a raw key that was never issued, the invariant stays. */
  lemma {:induction false} ValidateKeepsInv(hash: Hash, w: World, tenant: string, h: string, now: int)
    requires Inv(hash, w)
    ensures Inv(hash, w.(rows := w.rows[tenant := AfterValidate(Rows(w, tenant), tenant, h, now)], clock := now))
  {
    var v := w.(rows := w.rows[tenant := AfterValidate(Rows(w, tenant), tenant, h, now)], clock := now);
    if Verdict(Rows(w, tenant), tenant, h, now).Valid? {
      var id := Rows(w, tenant)[HashKey(h)].id;
      OwnedRow(hash, w, tenant, id);
      OverwriteKeepsInv(hash, w, v, tenant, id, Touched(Rows(w, tenant)[RowKey(id)], now));
    } else {
      SameRowsKeepInv(hash, w, v);
    }
  }

  lemma {:induction false} RotateIsTwoSteps(hash: Hash, w: World, tenant: string, id: string, newId: string,
                                            newRaw: string, dt: nat)
    requires CanRotate(w, tenant, id, newId, newRaw)
    ensures var v := Step(hash, w, Event(DoRotate(tenant, id, newId, newRaw), dt));
      var u := RevokedIn(w, tenant, id, w.clock + dt);
      && v == Issued(hash, u, tenant, InputOf(Rows(w, tenant)[RowKey(id)]), newId, newRaw, w.clock + dt)
      && v.issued.Keys == u.issued.Keys + {newRaw} && Unused(u, newId, newRaw)
  {
  }

  lemma {:induction false} RotateKeepsInv(hash: Hash, w: World, tenant: string, id: string, newId: string,
                                          newRaw: string, dt: nat)
    requires Inv(hash, w) && CanRotate(w, tenant, id, newId, newRaw)
    requires Distinguishes(hash, Step(hash, w, Event(DoRotate(tenant, id, newId, newRaw), dt)).issued.Keys)
    ensures Inv(hash, Step(hash, w, Event(DoRotate(tenant, id, newId, newRaw), dt)))
  {
    var u := RevokedIn(w, tenant, id, w.clock + dt);
    var input := InputOf(Rows(w, tenant)[RowKey(id)]);
    RotateIsTwoSteps(hash, w, tenant, id, newId, newRaw, dt);
    RevokeKeepsInv(hash, w, tenant, id, w.clock + dt);
    IssueKeepsInv(hash, u, tenant, input, newId, newRaw, w.clock + dt);
  }

  lemma {:induction false} CreateKeepsInv(hash: Hash, w: World, tenant: string, input: Input, id: string, raw: string,
                                          dt: nat)
    requires Inv(hash, w)
    requires Distinguishes(hash, Step(hash, w, Event(DoCreate(tenant, input, id, raw), dt)).issued.Keys)
    ensures Inv(hash, Step(hash, w, Event(DoCreate(tenant, input, id, raw), dt)))
  {
    var v := Step(hash, w, Event(DoCreate(tenant, input, id, raw), dt));
    if Unused(w, id, raw) {
      assert v.issued.Keys == w.issued.Keys + {raw};
      IssueKeepsInv(hash, w, tenant, input, id, raw, w.clock + dt);
    } else {
      SameRowsKeepInv(hash, w, v);
    }
  }

  lemma {:induction false} StepKeepsInv(hash: Hash, w: World, e: Event)
    requires Inv(hash, w) && Distinguishes(hash, Step(hash, w, e).issued.Keys)
    ensures Inv(hash, Step(hash, w, e))
  {
    var now := w.clock + e.dt;
    match e.op
    case DoCreate(tenant, input, id, raw) =>
      CreateKeepsInv(hash, w, tenant, input, id, raw, e.dt);
    case DoValidate(tenant, raw) => ValidateKeepsInv(hash, w, tenant, hash(raw), now);
    case DoRevoke(tenant, id) => RevokeKeepsInv(hash, w, tenant, id, now);
    case DoRotate(tenant, id, newId, newRaw) =>
      if CanRotate(w, tenant, id, newId, newRaw) {
        RotateKeepsInv(hash, w, tenant, id, newId, newRaw, e.dt);
      } else {
        SameRowsKeepInv(hash, w, Step(hash, w, e));
      }
  }

  lemma {:induction false} IssuedOnlyGrows(hash: Hash, w: World, e: Event)
    ensures w.issued.Keys <= Step(hash, w, e).issued.Keys
  {
  }

  /**
   * As long as the hash tells the issued keys apart, every run keeps rows and index entries in
   * one-to-one correspondence.
   */
  lemma {:induction false} RunKeepsInv(hash: Hash, t: int, es: seq<Event>)
    requires Distinguishes(hash, Run(hash, t, es).issued.Keys)
    ensures Inv(hash, Run(hash, t, es))
  {
    if es != [] {
      IssuedOnlyGrows(hash, Run(hash, t, es[..|es| - 1]), es[|es| - 1]);
      RunKeepsInv(hash, t, es[..|es| - 1]);
      StepKeepsInv(hash, Run(hash, t, es[..|es| - 1]), es[|es| - 1]);
    }
  }

  /** The correspondence, spelled out. */
  lemma {:induction false} IndexMatchesRows(hash: Hash, t: int, es: seq<Event>, tenant: string, id: string, h: string)
    requires Distinguishes(hash, Run(hash, t, es).issued.Keys)
    ensures var rows := Rows(Run(hash, t, es), tenant);
      (HashKey(h) in rows && rows[HashKey(h)] == HashRow(id))
      <==> (RowKey(id) in rows && rows[RowKey(id)].KeyRow? && rows[RowKey(id)].keyHash == h)
  {
    RunKeepsInv(hash, t, es);
    var w := Run(hash, t, es);
    assert IndexOk(hash, w, tenant, h) && RowKnown(w, tenant, id) && OwnerOk(w, id);
    if id in w.owner {
      assert RowOk(hash, w, w.owner[id]);
    }
  }

  // ---------- The life cycle ----------

  /** What makes a raw key good in a tenant at a time. */
  predicate Good(w: World, tenant: string, raw: string, now: int) {
    && raw in w.issued && w.issued[raw].tenant == tenant
    && (tenant, w.issued[raw].id) !in w.revoked
    && !OutOfTime(w.issued[raw].input, now)
  }

  /** An expiry ends a key at that very millisecond; without one it does not end. */
  predicate OutOfTime(input: Input, now: int) {
    match input.expiresAt
    case None => false
    case Some(end) => end <= now
  }

  /** `validate` accepts exactly the keys created in the tenant that are neither revoked nor expired. */
  lemma {:induction false} ValidateExactly(hash: Hash, t: int, es: seq<Event>, tenant: string, raw: string, now: int)
    requires Distinguishes(hash, Run(hash, t, es).issued.Keys + {raw})
    ensures var w := Run(hash, t, es);
      var v := Verdict(Rows(w, tenant), tenant, hash(raw), now);
      && (v.Valid? <==> Good(w, tenant, raw, now))
      && (v.Valid? ==> v == Valid(w.issued[raw].id, tenant, w.issued[raw].input.scopes))
      && (v.UnknownKey? <==> !(raw in w.issued && w.issued[raw].tenant == tenant))
      && (v.Revoked? <==> raw in w.issued && w.issued[raw].tenant == tenant && (tenant, w.issued[raw].id) in w.revoked)
      && (v.Expired? <==> raw in w.issued && w.issued[raw].tenant == tenant
                          && (tenant, w.issued[raw].id) !in w.revoked && OutOfTime(w.issued[raw].input, now))
      && (v.Revoked? ==> v == Revoked(w.issued[raw].id, tenant))
      && (v.Expired? ==> v == Expired(w.issued[raw].id, tenant))
  {
    var w := Run(hash, t, es);
    RunKeepsInv(hash, t, es);
    ResolvesToOwn(hash, w, tenant, raw);
    if raw in w.issued {
      assert RowOk(hash, w, raw);
    }
  }

  lemma {:induction false} GoneStaysGone(hash: Hash, w: World, e: Event, tenant: string, raw: string, now: int)
    requires raw in w.issued && !Good(w, tenant, raw, now) && now <= w.clock
    ensures raw in Step(hash, w, e).issued && !Good(Step(hash, w, e), tenant, raw, Step(hash, w, e).clock)
    ensures w.clock <= Step(hash, w, e).clock
  {
  }

  /** An issued key that is invalid is never valid again. */
  lemma {:induction false} NeverValidAgain(hash: Hash, t: int, es: seq<Event>, n: nat, tenant: string, raw: string,
                                           now: int)
    requires n <= |es| && Distinguishes(hash, Run(hash, t, es).issued.Keys)
    requires var w := Run(hash, t, es[..n]); raw in w.issued && !Good(w, tenant, raw, w.clock)
    requires Run(hash, t, es).clock <= now
    ensures !Verdict(Rows(Run(hash, t, es), tenant), tenant, hash(raw), now).Valid?
  {
    BadStaysBad(hash, t, es, n, tenant, raw);
    assert Run(hash, t, es).issued.Keys + {raw} == Run(hash, t, es).issued.Keys;
    ValidateExactly(hash, t, es, tenant, raw, now);
  }

  lemma {:induction false} BadStaysBad(hash: Hash, t: int, es: seq<Event>, n: nat, tenant: string, raw: string)
    requires n <= |es|
    requires var w := Run(hash, t, es[..n]); raw in w.issued && !Good(w, tenant, raw, w.clock)
    ensures var w := Run(hash, t, es); raw in w.issued && !Good(w, tenant, raw, w.clock)
  {
    if n == |es| {
      assert es[..n] == es;
    } else {
      assert es[..|es| - 1][..n] == es[..n];
      BadStaysBad(hash, t, es[..|es| - 1], n, tenant, raw);
      var w := Run(hash, t, es[..|es| - 1]);
      GoneStaysGone(hash, w, es[|es| - 1], tenant, raw, w.clock);
    }
  }

  /**
   * Rotation ends the old key and issues one with the same name, scopes and expiry, good in
   * the same tenant exactly until that expiry.
   */
  lemma {:induction false} RotateReplaces(hash: Hash, t: int, es: seq<Event>, raw: string, newId: string,
                                          newRaw: string, dt: nat, now: int)
    requires var w := Run(hash, t, es); raw in w.issued && Unused(w, newId, newRaw)
    requires var w := Run(hash, t, es); Distinguishes(hash, w.issued.Keys + {newRaw}) && w.clock + dt <= now
    ensures var w := Run(hash, t, es); var i := w.issued[raw];
      var v := Step(hash, w, Event(DoRotate(i.tenant, i.id, newId, newRaw), dt));
      && !Verdict(Rows(v, i.tenant), i.tenant, hash(raw), now).Valid?
      && newRaw in v.issued && v.issued[newRaw] == Issue(i.tenant, newId, i.input)
      && (Verdict(Rows(v, i.tenant), i.tenant, hash(newRaw), now).Valid? <==> !OutOfTime(i.input, now))
  {
    var w := Run(hash, t, es);
    var i := w.issued[raw];
    RunKeepsInv(hash, t, es);
    assert RowOk(hash, w, raw);
    var e := Event(DoRotate(i.tenant, i.id, newId, newRaw), dt);
    var es' := es + [e];
    assert es'[..|es|] == es;
    var v := Run(hash, t, es');
    assert v == Step(hash, w, e);
    assert v.issued.Keys == w.issued.Keys + {newRaw};
    assert v.issued.Keys + {raw} == v.issued.Keys && v.issued.Keys + {newRaw} == v.issued.Keys;
    ValidateExactly(hash, t, es', i.tenant, raw, now);
    ValidateExactly(hash, t, es', i.tenant, newRaw, now);
  }

  // ---------- Listing ----------

  /** A listed row is the row of an id of the tenant. */
  lemma {:induction false} ListedIsOwned(hash: Hash, w: World, tenant: string, c: Collection<Row>, row: Row)
    requires Inv(hash, w) && KeysUnique(c) && AsMap(c) == Rows(w, tenant) && row in All(c, "k:", false)
    ensures row.id in w.owner && w.owner[row.id] in w.issued && w.issued[w.owner[row.id]].tenant == tenant
    ensures RowKey(row.id) in AsMap(c) && AsMap(c)[RowKey(row.id)] == row
  {
    ListsMatchingKeys(c, "k:", false, row);
    var k :| k in AsMap(c) && "k:" <= k && AsMap(c)[k] == row;
    assert k == RowKey(k[2..]);
    OwnedRow(hash, w, tenant, k[2..]);
  }

  lemma {:induction false} OwnedIsListed(hash: Hash, w: World, tenant: string, c: Collection<Row>, id: string)
    requires Inv(hash, w) && KeysUnique(c) && AsMap(c) == Rows(w, tenant)
    requires id in w.owner && w.owner[id] in w.issued && w.issued[w.owner[id]].tenant == tenant
    ensures RowKey(id) in AsMap(c) && AsMap(c)[RowKey(id)].id == id && AsMap(c)[RowKey(id)] in All(c, "k:", false)
  {
    assert OwnerOk(w, id);
    assert RowOk(hash, w, w.owner[id]);
    assert "k:" <= RowKey(id);
    ListsMatchingKeys(c, "k:", false, AsMap(c)[RowKey(id)]);
  }

  lemma {:induction false} ShownUnlessRevoked(hash: Hash, w: World, tenant: string, id: string, includeRevoked: bool)
    requires Inv(hash, w) && RowKey(id) in Rows(w, tenant)
    ensures IsShown(Rows(w, tenant)[RowKey(id)], includeRevoked) <==> (includeRevoked || (tenant, id) !in w.revoked)
  {
    OwnedRow(hash, w, tenant, id);
  }

  /** `list` shows exactly the tenant's keys, without the revoked ones unless asked for. */
  lemma {:induction false} ListsExactly(hash: Hash, t: int, es: seq<Event>, tenant: string, c: Collection<Row>,
                                        includeRevoked: bool, id: string)
    requires Distinguishes(hash, Run(hash, t, es).issued.Keys)
    requires KeysUnique(c) && AsMap(c) == Rows(Run(hash, t, es), tenant)
    ensures var w := Run(hash, t, es);
      (exists row :: row in Listed(c, includeRevoked) && row.id == id)
      <==> (id in w.owner && w.owner[id] in w.issued && w.issued[w.owner[id]].tenant == tenant
            && (includeRevoked || (tenant, id) !in w.revoked))
  {
    RunKeepsInv(hash, t, es);
    var w := Run(hash, t, es);
    if exists row :: row in Listed(c, includeRevoked) && row.id == id {
      var row :| row in Listed(c, includeRevoked) && row.id == id;
      ListedAreShown(c, includeRevoked, row);
      ListedIsOwned(hash, w, tenant, c, row);
      ShownUnlessRevoked(hash, w, tenant, id, includeRevoked);
    } else if id in w.owner && w.owner[id] in w.issued && w.issued[w.owner[id]].tenant == tenant {
      OwnedIsListed(hash, w, tenant, c, id);
      ListedAreShown(c, includeRevoked, AsMap(c)[RowKey(id)]);
      ShownUnlessRevoked(hash, w, tenant, id, includeRevoked);
    }
  }

  lemma {:induction false} RowAtPlace(hash: Hash, w: World, tenant: string, c: Collection<Row>, i: nat)
    requires Inv(hash, w) && KeysUnique(c) && AsMap(c) == Rows(w, tenant) && Matches(c, "k:", i)
    ensures c[i].value.KeyRow? && c[i].key == RowKey(c[i].value.id)
  {
    MapAt(c, i);
    assert c[i].key == RowKey(c[i].key[2..]);
    OwnedRow(hash, w, tenant, c[i].key[2..]);
  }

  /** `list` shows every key at most once, from the newest to the oldest. */
  lemma {:induction false} ListsOnce(hash: Hash, t: int, es: seq<Event>, tenant: string, c: Collection<Row>,
                                     includeRevoked: bool)
    requires Distinguishes(hash, Run(hash, t, es).issued.Keys)
    requires KeysUnique(c) && AsMap(c) == Rows(Run(hash, t, es), tenant)
    ensures var list := Listed(c, includeRevoked);
      && (forall k :: 0 <= k < |list| ==> list[k].KeyRow?)
      && (forall j, k :: 0 <= j < k < |list| ==> list[j].id != list[k].id && list[k].createdAt <= list[j].createdAt)
  {
    RunKeepsInv(hash, t, es);
    var list := Listed(c, includeRevoked);
    var at := ListedInOrder(c, includeRevoked);
    forall k | 0 <= k < |at| ensures list[k].KeyRow? && c[at[k]].key == RowKey(list[k].id) {
      RowAtPlace(hash, Run(hash, t, es), tenant, c, at[k]);
    }
    forall j, k | 0 <= j < k < |at| ensures list[j].id != list[k].id {
      assert c[at[j]].key != c[at[k]].key;
    }
    assert forall j, k :: 0 <= j < k < |at| ==> NotOlder(list[j], list[k]);
  }

  // ---------- What the rows tell ----------

  /** A created key's row holds what it was created with, its hash and the time, and nothing has happened to it. */
  lemma {:induction false} CreatedRowSays(hash: Hash, w: World, tenant: string, input: Input, id: string, raw: string,
                                          dt: nat)
    requires Unused(w, id, raw)
    ensures var rows := Rows(Step(hash, w, Event(DoCreate(tenant, input, id, raw), dt)), tenant);
      && RowKey(id) in rows && rows[RowKey(id)].KeyRow?
      && var r := rows[RowKey(id)];
         && r.id == id && r.tenantId == tenant && r.keyHash == hash(raw) && r.prefix == "oc_live_"
         && r.name == input.name && r.scopes == input.scopes && r.expiresAt == input.expiresAt
         && r.metadata == input.metadata && r.createdAt == w.clock + dt && r.revokedAt == None && r.lastUsedAt == None
  {
    KeysApart(id, hash(raw));
  }

  /** A validation stamps the row of a key it accepts, and changes nothing else; any other changes nothing. */
  lemma {:induction false} ValidationStamps(hash: Hash, t: int, es: seq<Event>, tenant: string, raw: string, dt: nat)
    requires Distinguishes(hash, Run(hash, t, es).issued.Keys + {raw})
    ensures var w := Run(hash, t, es); var now := w.clock + dt;
      var v := Step(hash, w, Event(DoValidate(tenant, raw), dt));
      if Good(w, tenant, raw, now) then
        var key := RowKey(w.issued[raw].id);
        && key in Rows(w, tenant) && Rows(w, tenant)[key].KeyRow?
        && Rows(v, tenant) == Rows(w, tenant)[key := Rows(w, tenant)[key].(lastUsedAt := Some(now))]
      else Rows(v, tenant) == Rows(w, tenant)
  {
    RunKeepsInv(hash, t, es);
    StampsIn(hash, Run(hash, t, es), tenant, raw, dt);
  }

  lemma {:induction false} StampsIn(hash: Hash, w: World, tenant: string, raw: string, dt: nat)
    requires Inv(hash, w) && Distinguishes(hash, w.issued.Keys + {raw})
    ensures var v := Step(hash, w, Event(DoValidate(tenant, raw), dt));
      if Good(w, tenant, raw, w.clock + dt) then
        var key := RowKey(w.issued[raw].id);
        && key in Rows(w, tenant) && Rows(w, tenant)[key].KeyRow?
        && Rows(v, tenant) == Rows(w, tenant)[key := Rows(w, tenant)[key].(lastUsedAt := Some(w.clock + dt))]
      else Rows(v, tenant) == Rows(w, tenant)
  {
    ValidMeansGood(hash, w, tenant, raw, w.clock + dt);
    if Good(w, tenant, raw, w.clock + dt) {
      OwnRow(hash, w, tenant, raw);
      AcceptedStamps(hash, w, tenant, raw, dt);
    } else {
      RefusedChangesNothing(hash, w, tenant, raw, dt);
    }
  }

  lemma {:induction false} ValidMeansGood(hash: Hash, w: World, tenant: string, raw: string, now: int)
    requires Inv(hash, w) && Distinguishes(hash, w.issued.Keys + {raw})
    ensures Verdict(Rows(w, tenant), tenant, hash(raw), now).Valid? <==> Good(w, tenant, raw, now)
  {
    ResolvesToOwn(hash, w, tenant, raw);
    if raw in w.issued {
      assert RowOk(hash, w, raw);
    }
  }

  lemma {:induction false} OwnRow(hash: Hash, w: World, tenant: string, raw: string)
    requires Inv(hash, w) && Distinguishes(hash, w.issued.Keys + {raw})
    requires raw in w.issued && w.issued[raw].tenant == tenant
    ensures Resolves(Rows(w, tenant), tenant, hash(raw))
    ensures var row := Resolved(Rows(w, tenant), tenant, hash(raw));
      && row.id == w.issued[raw].id && RowKey(row.id) in Rows(w, tenant) && Rows(w, tenant)[RowKey(row.id)] == row
  {
    ResolvesToOwn(hash, w, tenant, raw);
    assert RowOk(hash, w, raw);
  }

  lemma {:induction false} RefusedChangesNothing(hash: Hash, w: World, tenant: string, raw: string, dt: nat)
    requires !Verdict(Rows(w, tenant), tenant, hash(raw), w.clock + dt).Valid?
    ensures Rows(Step(hash, w, Event(DoValidate(tenant, raw), dt)), tenant) == Rows(w, tenant)
  {
  }

  lemma {:induction false} AcceptedStamps(hash: Hash, w: World, tenant: string, raw: string, dt: nat)
    requires Verdict(Rows(w, tenant), tenant, hash(raw), w.clock + dt).Valid?
    requires var row := Resolved(Rows(w, tenant), tenant, hash(raw));
      RowKey(row.id) in Rows(w, tenant) && Rows(w, tenant)[RowKey(row.id)] == row
    ensures var row := Resolved(Rows(w, tenant), tenant, hash(raw));
      Rows(Step(hash, w, Event(DoValidate(tenant, raw), dt)), tenant)
      == Rows(w, tenant)[RowKey(row.id) := row.(lastUsedAt := Some(w.clock + dt))]
  {
  }

  /** A revocation stamps the row with its time, once. */
  lemma {:induction false} RevocationStamps(hash: Hash, w: World, tenant: string, id: string, dt: nat)
    requires RowKey(id) in Rows(w, tenant) && Rows(w, tenant)[RowKey(id)].KeyRow?
    ensures var row := Rows(w, tenant)[RowKey(id)];
      var v := Step(hash, w, Event(DoRevoke(tenant, id), dt));
      && Rows(v, tenant) == Rows(w, tenant)[RowKey(id) :=
           if row.revokedAt.Some? then row else row.(revokedAt := Some(w.clock + dt))]
      && (tenant, id) in v.revoked
  {
  }
}
