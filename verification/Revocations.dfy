/**
 * Overlapping manager calls: when a revocation survives the validations around it
 * (src/embedding/api-key/impl/storage-api-key.ts:117-138, with `atomicUpdate` in its two steps).
 */
module Revocations {
  import opened Wrappers
  import opened ApiKeys
  import S = SplitUpdates

  type Action = S.Action<string, Row>

  predicate IsRevoked(row: Option<Row>) {
    row.Some? && row.value.KeyRow? && row.value.revokedAt.Some?
  }

  /** The updater of a validation, which has found the row in force. */
  ghost predicate IsTouch(up: S.Updater<Row>) {
    exists row: Row, now: int {:trigger Touch(row, now)} :: row.KeyRow? && row.revokedAt.None? && up == Touch(row, now)
  }

  /** Action r stores the row revoked, and after it only validations finish updates of the row. */
  ghost predicate RevokedOnce(es: seq<Action>, r: nat, key: string) {
    && r < |es| && es[r].Write? && es[r].key == key && IsRevoked(es[r].value)
    && (forall j: nat {:trigger es[j]} :: r < j < |es| ==> !(es[j].Write? && es[j].key == key))
    && (forall j: nat {:trigger S.Finishes(es, j, key)} :: r < j < |es| && S.Finishes(es, j, key) ==>
          IsTouch(S.Split(es, j).inFlight[es[j].id].up))
  }

  /** Action j finishes an update that began before r and saw the row in force, or absent. */
  ghost predicate Undoes(es: seq<Action>, r: nat, j: nat, key: string)
    requires j < |es|
  {
    && S.Finishes(es, j, key)
    && var p := S.Split(es, j).inFlight[es[j].id]; p.at < r && !IsRevoked(p.seen)
  }

  /** What a validation writes back is revoked exactly if what it had read was. */
  lemma TouchKeepsState(up: S.Updater<Row>, seen: Option<Row>)
    requires IsTouch(up)
    ensures up(seen).Some? && (IsRevoked(up(seen)) <==> IsRevoked(seen))
  {
  }

  lemma AfterFinish(es: seq<Action>, r: nat, j: nat, key: string)
    requires RevokedOnce(es, r, key) && r < j < |es| && S.Finishes(es, j, key)
    ensures IsRevoked(S.RowAt(es, j + 1, key)) <==> IsRevoked(S.Split(es, j).inFlight[es[j].id].seen)
  {
    var p := S.Split(es, j).inFlight[es[j].id];
    TouchKeepsState(p.up, p.seen);
  }

  lemma {:induction false} StaysRevoked(es: seq<Action>, r: nat, n: nat, key: string)
    requires RevokedOnce(es, r, key) && r < n <= |es|
    requires forall j: nat :: r < j < |es| ==> !Undoes(es, r, j, key)
    ensures IsRevoked(S.RowAt(es, n, key))
  {
    var j := n - 1;
    if j > r {
      if S.Finishes(es, j, key) {
        var p := S.Split(es, j).inFlight[es[j].id];
        S.SeenAtBegin(es, j, es[j].id);
        assert !Undoes(es, r, j, key);
        if p.at > r {
          StaysRevoked(es, r, p.at, key);
        }
        AfterFinish(es, r, j, key);
      } else {
        StaysRevoked(es, r, j, key);
        S.UnwrittenRow(es, j, key);
      }
    }
  }

  /**
   * A revocation holds at every later moment exactly when no validation that began before it, and
   * had not seen the row revoked, writes after it.
   */
  lemma RevocationSurvivesExactly(es: seq<Action>, r: nat, key: string)
    requires RevokedOnce(es, r, key)
    ensures (forall n: nat :: r < n <= |es| ==> IsRevoked(S.RowAt(es, n, key)))
      <==> (forall j: nat :: r < j < |es| ==> !Undoes(es, r, j, key))
  {
    if forall j: nat :: r < j < |es| ==> !Undoes(es, r, j, key) {
      forall n: nat | r < n <= |es| ensures IsRevoked(S.RowAt(es, n, key)) {
        StaysRevoked(es, r, n, key);
      }
    } else {
      var j: nat :| r < j < |es| && Undoes(es, r, j, key);
      AfterFinish(es, r, j, key);
      assert !IsRevoked(S.RowAt(es, j + 1, key));
    }
  }

  /** The shortest run that loses one: the validation reads, the key is revoked, the validation writes. */
  lemma OverlappingRevocationIsLost(row: Row, now: int, later: int)
    requires row.KeyRow? && row.revokedAt.None?
    ensures var key := RowKey(row.id);
      var es := [S.Write(key, Some(row)), S.Begin(0, key, Touch(row, now)),
                 S.Write(key, Some(row.(revokedAt := Some(later)))), S.Finish(0)];
      RevokedOnce(es, 2, key) && Undoes(es, 2, 3, key) && S.RowAt(es, 4, key) == Some(row.(lastUsedAt := Some(now)))
  {
    var key := RowKey(row.id);
    var revoked := row.(revokedAt := Some(later));
    var es := [S.Write(key, Some(row)), S.Begin(0, key, Touch(row, now)), S.Write(key, Some(revoked)), S.Finish(0)];
    assert S.Split(es, 1).rows == map[key := row];
    assert S.Split(es, 2).inFlight[0] == S.Pending(key, Touch(row, now), Some(row), 1);
    assert S.Split(es, 3).rows == map[key := revoked];
    assert Touch(row, now)(Some(row)) == Some(row.(lastUsedAt := Some(now)));
  }
}
