/**
 * The row operations of the idempotency gate and the table that holds them
 * (src/tools/idempotency-gate.service.ts).
 *
 * Every SQL statement is one atomic function of the row it addresses.  The
 * table class runs `check`, `complete` and the nightly clean-up on top of
 * them; the interleaved protocol over one key is in GateProtocol.dfy.
 */
module IdempotencyGate {
  import opened Common

  const IN_FLIGHT_TIMEOUT_MS := 10 * 60 * 1000
  const RETENTION_MS := 30 * 24 * 60 * 60 * 1000
  const CLEANUP_BATCH := 5000
  const CLEANUP_MAX_LOOPS := 200

  /** What a tool call returned; `body` stands for data, error and suggestion. */
  datatype ToolResult = ToolResult(success: bool, body: string)

  datatype Status = InFlight | Succeeded | Failed

  /** The result_json column: SQL null, a stored result, or text that no longer parses. */
  datatype ResultJson = Null | Encoded(original: ToolResult) | Unparsable

  datatype Row = Row(
    id: nat,
    status: Status,
    json: ResultJson,
    firstSeenAt: int,
    completedAt: Option<int>,
    createdAt: int)

  /** The unique index: tenant, tool and hashed key material. */
  datatype Key = Key(tenant: string, tool: string, material: string)

  datatype Handle = Handle(id: nat, key: Key)

  datatype RedisAnswer = Fresh | Duplicate | Unavailable

  // ---- one SQL statement each -------------------------------------------

  function NewRow(id: nat, now: int): Row {
    Row(id, InFlight, Null, now, None, now)
  }

  /** UPDATE ... WHERE id: whatever the row's status is, the outcome is written. */
  function Completed(row: Row, result: ToolResult, now: int): Row {
    row.(status := if result.success then Succeeded else Failed,
         json := if result.success then Encoded(result) else Null,
         completedAt := Some(now))
  }

  /** UPDATE ... WHERE id AND status = 'failed', the winner's new row. */
  function Reclaimed(row: Row, now: int): Row {
    row.(status := InFlight, firstSeenAt := now, completedAt := None)
  }

  predicate Stale(row: Row, now: int) {
    row.status == InFlight && row.firstSeenAt < now - IN_FLIGHT_TIMEOUT_MS
  }

  function Swept(row: Row, now: int): Row {
    if Stale(row, now) then row.(status := Failed, completedAt := Some(now)) else row
  }

  predicate PastRetention(row: Row, now: int) {
    row.createdAt < now - RETENTION_MS
  }

  /** What an existing row tells a caller before any further statement is sent. */
  datatype Verdict = Replay(original: ToolResult, completedAt: Option<int>) | Busy | Retry

  function Read(row: Row): Verdict {
    if row.status == Succeeded && row.json.Encoded? then Replay(row.json.original, row.completedAt)
    else if row.status == Succeeded && row.json.Unparsable? then Busy
    else if row.status == Failed then Retry
    else Busy
  }

  // ---- explicit keys ------------------------------------------------------

  predicate AlphaNumeric(c: char) {
    'A' <= c <= 'Z' || 'a' <= c <= 'z' || '0' <= c <= '9'
  }

  predicate ValidExplicitKey(s: string) {
    8 <= |s| <= 128 && AlphaNumeric(s[0])
    && forall i | 1 <= i < |s| :: AlphaNumeric(s[i]) || s[i] in "._:-"
  }

  /** An explicit key is a letter or digit and seven to 127 more characters, each a letter, a digit or one of four signs. */
  lemma ExplicitKeyForm(first: char, rest: string)
    ensures ValidExplicitKey([first] + rest)
            <==> && ('A' <= first <= 'Z' || 'a' <= first <= 'z' || '0' <= first <= '9')
                 && 7 <= |rest| <= 127
                 && forall i | 0 <= i < |rest| :: KeyCharacter(rest[i])
    ensures !ValidExplicitKey("")
  {
    var s := [first] + rest;
    assert forall i | 1 <= i < |s| :: s[i] == rest[i - 1];
    assert forall i | 0 <= i < |rest| :: rest[i] == s[i + 1];
    assert forall c :: KeyCharacter(c) <==> AlphaNumeric(c) || c in "._:-";
    hide KeyCharacter, AlphaNumeric;
    assert AlphaNumeric(first) <==> ('A' <= first <= 'Z' || 'a' <= first <= 'z' || '0' <= first <= '9') by {
      AlphaNumericIs(first);
    }
    if ValidExplicitKey(s) {
      forall i | 0 <= i < |rest| ensures KeyCharacter(rest[i]) {
        assert AlphaNumeric(s[i + 1]) || s[i + 1] in "._:-";
      }
    }
  }

  predicate KeyCharacter(c: char) {
    'A' <= c <= 'Z' || 'a' <= c <= 'z' || '0' <= c <= '9' || c == '.' || c == '_' || c == ':' || c == '-'
  }

  lemma AlphaNumericIs(c: char)
    ensures AlphaNumeric(c) <==> ('A' <= c <= 'Z' || 'a' <= c <= 'z' || '0' <= c <= '9')
  {
  }

  // ---- the table ------------------------------------------------------------

  datatype Decision =
    | Proceed(handle: Option<Handle>)
    | Replayed(original: ToolResult, completedAt: Option<int>)
    | InProgress
    | Rejected

  /** What a gate that only talks to MySQL decides, and the row it leaves behind. */
  function MySqlOnly(row: Option<Row>, key: Key, nextId: nat, now: int): (out: (Decision, Row)) {
    match row
    case None => (Proceed(Some(Handle(nextId, key))), NewRow(nextId, now))
    case Some(r) =>
      match Read(r)
      case Replay(original, at) => (Replayed(original, at), r)
      case Busy => (InProgress, r)
      case Retry => (Proceed(Some(Handle(r.id, key))), Reclaimed(r, now))
  }

  function RowOf(rows: map<Key, Row>, key: Key): Option<Row> {
    if key in rows then Some(rows[key]) else None
  }

  /** What a check must make of the row it finds, and of the table. */
  ghost predicate RightDecision(d: Decision, before: map<Key, Row>, after: map<Key, Row>, key: Key, now: int)
    requires key in before
  {
    var r := before[key];
    if r.status == Succeeded && r.json.Encoded? then d == Replayed(r.json.original, r.completedAt) && after == before
    else if r.status == Failed then
      && d == Proceed(Some(Handle(r.id, key)))
      && after == before[key := Row(r.id, InFlight, r.json, now, None, r.createdAt)]
    else d == InProgress && after == before
  }

  class IdempotencyTable {
    var rows: map<Key, Row>
    var nextId: nat

    /** Auto-increment ids are distinct and below the next one. */
    ghost predicate Valid()
      reads this
    {
      (forall k | k in rows :: rows[k].id < nextId)
      && forall k, l | k in rows && l in rows && rows[k].id == rows[l].id :: k == l
    }

    constructor ()
      ensures Valid() && rows == map[]
    {
      rows, nextId := map[], 0;
    }

    /**
     * `check` run without interference.  The Redis answer is an input; the
     * decision and the table do not depend on it.
     */
    method Check(enabled: bool, explicitKey: string, key: Key, redis: RedisAnswer, dbUp: bool, now: int)
      returns (d: Decision)
      requires Valid()
      modifies this
      ensures Valid()
      ensures !enabled ==> d == Proceed(None) && rows == old(rows)
      ensures enabled && explicitKey != "" && !ValidExplicitKey(explicitKey) ==> d == Rejected && rows == old(rows)
      ensures enabled && (explicitKey == "" || ValidExplicitKey(explicitKey)) ==>
                if dbUp then
                  var (decision, row) := MySqlOnly(RowOf(old(rows), key), key, old(nextId), now);
                  d == decision && rows == old(rows)[key := row]
                else
                  d == Proceed(None) && rows == old(rows)
      // a new key is claimed, a failed row is claimed again, a stored success is replayed, all else is in progress
      ensures enabled && (explicitKey == "" || ValidExplicitKey(explicitKey)) && dbUp ==>
                && (key !in old(rows) ==>
                      d == Proceed(Some(Handle(old(nextId), key)))
                      && rows == old(rows)[key := Row(old(nextId), InFlight, Null, now, None, now)])
                && (key in old(rows) ==> RightDecision(d, old(rows), rows, key, now))
    {
      if !enabled {
        return Proceed(None);
      }
      if explicitKey != "" && !ValidExplicitKey(explicitKey) {
        return Rejected;
      }
      if redis == Duplicate {
        if !dbUp {
          return Proceed(None);
        }
        if key in rows {
          d := DecideFromRow(rows[key], key, now);
          return;
        }
      }
      if !dbUp {
        return Proceed(None);
      }
      if key in rows {
        d := DecideFromRow(rows[key], key, now);
      } else {
        rows := rows[key := NewRow(nextId, now)];
        d := Proceed(Some(Handle(nextId, key)));
        nextId := nextId + 1;
      }
    }

    /**
     * `found` is the row as it was read; by now it may have changed or gone.
     * Only a row that is still failed is claimed again, and by one caller.
     */
    method DecideFromRow(found: Row, key: Key, now: int) returns (d: Decision)
      requires Valid()
      requires forall k | k in rows && rows[k].id == found.id :: k == key
      modifies this`rows
      ensures Valid()
      ensures Read(found).Replay? ==>
                d == Replayed(Read(found).original, Read(found).completedAt) && rows == old(rows)
      ensures Read(found).Busy? ==> d == InProgress && rows == old(rows)
      ensures Read(found).Retry? && StillFailed(RowOf(old(rows), key), found.id) ==>
                d == Proceed(Some(Handle(found.id, key))) && rows == old(rows)[key := Reclaimed(old(rows)[key], now)]
      ensures Read(found).Retry? && !StillFailed(RowOf(old(rows), key), found.id) ==>
                d == InProgress && rows == old(rows)
      ensures key in old(rows) && found == old(rows)[key] ==> RightDecision(d, old(rows), rows, key, now)
    {
      match Read(found)
      case Replay(original, at) =>
        d := Replayed(original, at);
      case Busy =>
        d := InProgress;
      case Retry =>
        if key in rows && rows[key].id == found.id && rows[key].status == Failed {
          rows := rows[key := Reclaimed(rows[key], now)];
          d := Proceed(Some(Handle(found.id, key)));
        } else {
          d := InProgress;
        }
    }

    /** `complete`: a null handle writes nothing; otherwise exactly the row with that id changes. */
    method Complete(handle: Option<Handle>, result: ToolResult, now: int)
      requires Valid()
      modifies this`rows
      ensures Valid()
      ensures handle == None ==> rows == old(rows)
      ensures rows.Keys == old(rows).Keys
      ensures forall k | k in rows ::
                rows[k] == if handle.Some? && old(rows)[k].id == handle.value.id
                           then Completed(old(rows)[k], result, now) else old(rows)[k]
      ensures forall k | k in rows && handle.Some? && rows[k].id == handle.value.id ::
                var was := old(rows)[k];
                rows[k] == Row(was.id, if result.success then Succeeded else Failed,
                               if result.success then Encoded(result) else Null,
                               was.firstSeenAt, Some(now), was.createdAt)
    {
      if handle.Some? {
        rows := map k | k in rows ::
          if rows[k].id == handle.value.id then Completed(rows[k], result, now) else rows[k];
      }
    }

    /**
     * The nightly job. The database may fail at the first statement
     * (`marks` is false) or after some of the DELETEs (`answered` of them);
     * the failure is swallowed and what was done so far is reported.
     */
    method CleanupExpired(now: int, marks: bool, answered: nat) returns (staleMarked: nat, deleted: nat)
      requires Valid()
      modifies this`rows
      ensures Valid()
      ensures !marks ==> rows == old(rows) && staleMarked == 0 && deleted == 0
      ensures marks ==>
                && staleMarked == |set k | k in old(rows) && Stale(old(rows)[k], now)|
                && (forall k | k in rows :: k in old(rows) && rows[k] == Swept(old(rows)[k], now))
                && (forall k | k in old(rows) && k !in rows :: PastRetention(old(rows)[k], now))
                && |old(rows)| == |rows| + deleted
                && deleted == Min(|Expired(old(rows), now)|, CLEANUP_BATCH * Min(answered, CLEANUP_MAX_LOOPS))
      // whatever is younger than thirty days stays, and only a claim out for more than ten minutes is marked
      ensures marks ==>
                forall k | k in old(rows) && old(rows)[k].createdAt >= now - RETENTION_MS ::
                  && k in rows
                  && rows[k] == if old(rows)[k].status == InFlight && old(rows)[k].firstSeenAt < now - IN_FLIGHT_TIMEOUT_MS
                                then old(rows)[k].(status := Failed, completedAt := Some(now)) else old(rows)[k]
      // whatever is older goes, as far as the batches reach
      ensures marks && OlderThan(old(rows), now - RETENTION_MS) <= CLEANUP_BATCH * Min(answered, CLEANUP_MAX_LOOPS) ==>
                forall k | k in rows :: rows[k].createdAt >= now - RETENTION_MS
    {
      staleMarked, deleted := 0, 0;
      if !marks {
        return;
      }
      staleMarked := |set k | k in rows && Stale(rows[k], now)|;
      ghost var before := rows;
      rows := MarkStale(rows, now);
      ghost var marked := rows;
      ExpiredUnmoved(before, now);
      deleted := DeleteExpired(now, answered);
      hide Expired, PastRetention, Stale, Swept;
      MarkedThenDeleted(before, marked, rows, now, deleted);
      CleanedByAge(before, rows, now, deleted);
    }

    method DeleteExpired(now: int, answered: nat) returns (deleted: nat)
      requires Valid()
      modifies this`rows
      ensures Valid()
      ensures Deletion(old(rows), rows, now, deleted)
      ensures deleted == Min(|Expired(old(rows), now)|, CLEANUP_BATCH * Min(answered, CLEANUP_MAX_LOOPS))
    {
      deleted := 0;
      ghost var before := rows;
      var loops := 0;
      hide Expired, PastRetention;
      while loops < CLEANUP_MAX_LOOPS && loops < answered
        invariant 0 <= loops <= Min(answered, CLEANUP_MAX_LOOPS)
        invariant Deletion(before, rows, now, deleted)
        invariant deleted == CLEANUP_BATCH * loops
      {
        ghost var was := rows;
        var affected := DeleteBatch(now);
        DeletionsCompose(before, was, rows, now, deleted, affected);
        deleted := deleted + affected;
        loops := loops + 1;
        if affected < CLEANUP_BATCH {
          break;
        }
      }
    }

    /** DELETE ... LIMIT: any rows past retention, as many as the limit allows. */
    method DeleteBatch(now: int) returns (affected: nat)
      modifies this`rows
      ensures affected == Min(|Expired(old(rows), now)|, CLEANUP_BATCH)
      ensures Deletion(old(rows), rows, now, affected)
    {
      var expired := Expired(rows, now);
      affected := Min(|expired|, CLEANUP_BATCH);
      SubsetOfSize(expired, affected);
      var batch :| batch <= expired && |batch| == affected;
      ghost var was := rows;
      rows := rows - batch;
      CardinalityMinus(was.Keys, batch);
      assert rows.Keys == was.Keys - batch;
      CardinalityMinus(expired, batch);
      assert Expired(rows, now) == expired - batch;
    }
  }

  /** `after` is `before` without some number of rows, all of them past retention. */
  ghost predicate Deletion(before: map<Key, Row>, after: map<Key, Row>, now: int, deleted: nat) {
    && (forall k | k in after :: k in before && after[k] == before[k])
    && (forall k | k in before && k !in after :: PastRetention(before[k], now))
    && |before| == |after| + deleted
    && |Expired(before, now)| == |Expired(after, now)| + deleted
  }

  lemma DeletionsCompose(a: map<Key, Row>, b: map<Key, Row>, c: map<Key, Row>, now: int, m: nat, n: nat)
    requires Deletion(a, b, now, m) && Deletion(b, c, now, n)
    ensures Deletion(a, c, now, m + n)
  {
    hide Expired, PastRetention;
  }

  lemma MarkedThenDeleted(before: map<Key, Row>, marked: map<Key, Row>, after: map<Key, Row>, now: int, deleted: nat)
    requires marked == MarkStale(before, now) && Deletion(marked, after, now, deleted)
    ensures forall k | k in after :: k in before && after[k] == Swept(before[k], now)
    ensures forall k | k in before && k !in after :: PastRetention(before[k], now)
    ensures |before| == |after| + deleted
  {
    ExpiredUnmoved(before, now);
    hide Expired;
  }

  /** How many rows were created before that time. */
  function OlderThan(rows: map<Key, Row>, cutoff: int): nat {
    |set k | k in rows && rows[k].createdAt < cutoff|
  }

  /** The clean-up, in terms of the rows' ages. */
  lemma CleanedByAge(before: map<Key, Row>, after: map<Key, Row>, now: int, deleted: nat)
    requires forall k | k in after :: k in before && after[k] == Swept(before[k], now)
    requires forall k | k in before && k !in after :: PastRetention(before[k], now)
    requires |before| == |after| + deleted && deleted <= |Expired(before, now)|
    ensures forall k | k in before && before[k].createdAt >= now - RETENTION_MS ::
              && k in after
              && after[k] == if before[k].status == InFlight && before[k].firstSeenAt < now - IN_FLIGHT_TIMEOUT_MS
                             then before[k].(status := Failed, completedAt := Some(now)) else before[k]
    ensures OlderThan(before, now - RETENTION_MS) == |Expired(before, now)|
    ensures deleted == |Expired(before, now)| ==> forall k | k in after :: after[k].createdAt >= now - RETENTION_MS
  {
    assert Expired(before, now) == set k | k in before && before[k].createdAt < now - RETENTION_MS;
    if deleted == |Expired(before, now)| {
      var gone := before.Keys - after.Keys;
      assert after.Keys <= before.Keys;
      CardinalityMinus(before.Keys, after.Keys);
      assert gone <= Expired(before, now);
      CardinalityMinus(Expired(before, now), gone);
      assert Expired(before, now) - gone == {};
    }
  }

  predicate StillFailed(row: Option<Row>, id: nat) {
    row.Some? && row.value.id == id && row.value.status == Failed
  }

  function Expired(rows: map<Key, Row>, now: int): set<Key> {
    set k | k in rows && PastRetention(rows[k], now)
  }

  function MarkStale(rows: map<Key, Row>, now: int): map<Key, Row> {
    map k | k in rows :: Swept(rows[k], now)
  }

  /** Marking a claim stale does not make its row older. */
  lemma ExpiredUnmoved(rows: map<Key, Row>, now: int)
    ensures Expired(MarkStale(rows, now), now) == Expired(rows, now)
    ensures |MarkStale(rows, now)| == |rows|
  {
    assert MarkStale(rows, now).Keys == rows.Keys;
  }
}
