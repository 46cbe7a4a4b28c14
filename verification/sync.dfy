/** `pushUnsynced`: read the unsynced records, send them to the remote
    `transcripts` table as one upsert, and on success mark them synced. */
module Sync {
  import opened Wrappers
  import opened KeyOrder
  import opened IndexedDb

  /** The transport row sent to the remote table. */
  datatype Row = Row(id: string, text: string, updated: int, user_id: Option<string>)

  /** JavaScript truthiness of an optional string: present and non-empty. */
  predicate Truthy(s: Option<string>)
  {
    s.Some? && s.value != ""
  }

  /** `u.user_id || userId`: the record's own owner when truthy, otherwise
      the supplied fallback, which may itself be absent. */
  function OwnerOr(own: Option<string>, fallback: Option<string>): (r: Option<string>)
    ensures Truthy(own) ==> r == own
    ensures !Truthy(own) ==> r == fallback
  {
    if own.Some? && own.value != "" then own else fallback
  }

  /** The projection of one record to a row. */
  function ToRow(t: Transcript, userId: Option<string>): (r: Row)
    ensures r.id == t.id && r.text == t.text && r.updated == t.updated
    ensures r.user_id == OwnerOr(t.user_id, userId)
  {
    Row(t.id, t.text, t.updated, OwnerOr(t.user_id, userId))
  }

  /** `unsynced.map(...)`: one row per record, in the same order. */
  function Rows(s: seq<Transcript>, userId: Option<string>): (r: seq<Row>)
    ensures |r| == |s|
    ensures forall i :: 0 <= i < |s| ==> r[i] == ToRow(s[i], userId)
  {
    seq(|s|, i requires 0 <= i < |s| => ToRow(s[i], userId))
  }

  /** `rows.map((r) => r.id)`.  The source takes the returned ids from the
      transport rows, not from the records, so the model does the same;
      `RowIdsOfRows` shows they agree with `Ids` of the pending records. */
  function RowIds(rows: seq<Row>): (r: seq<string>)
    ensures |r| == |rows| && forall i :: 0 <= i < |rows| ==> r[i] == rows[i].id
  {
    seq(|rows|, i requires 0 <= i < |rows| => rows[i].id)
  }

  /** What `pushUnsynced` resolves to, or that it threw the upsert's error. */
  datatype SyncResult = Synced(ids: seq<string>) | RemoteError

  /** The whole effect of one `pushUnsynced` call: the local store after it,
      the batch handed to the upsert (`None` when no call was made), and the
      outcome. */
  datatype Push = Push(records: map<string, Transcript>, batch: Option<seq<Row>>, result: SyncResult)

  /** One `pushUnsynced(userId)` on store `m` when the upsert reports an
      error exactly if `remoteFails`. */
  function Reconcile(m: map<string, Transcript>, userId: Option<string>, remoteFails: bool): (p: Push)
    requires WellKeyed(m)
    ensures p.batch.None? <==> Unsynced(m) == []
    ensures p.result == RemoteError <==> remoteFails && p.batch.Some?
    ensures p.result == RemoteError || p.batch.None? ==> p.records == m
  {
    var pending := Unsynced(m);
    if |pending| == 0 then Push(m, None, Synced([]))
    else
      var rows := Rows(pending, userId);
      if remoteFails then Push(m, Some(rows), RemoteError)
      else
        var ids := RowIds(rows);
        Push(MarkAll(m, ids), Some(rows), Synced(ids))
  }

  /** The batch holds exactly the pending records, in scan order, each copied
      field by field with the owner fallback applied. */
  lemma BatchRows(m: map<string, Transcript>, userId: Option<string>, remoteFails: bool)
    requires WellKeyed(m)
    ensures var p := Reconcile(m, userId, remoteFails);
      var pending := Unsynced(m);
      p.batch.Some? ==>
        |p.batch.value| == |pending| &&
        forall i :: 0 <= i < |pending| ==>
          var row := p.batch.value[i];
          row.id == pending[i].id && row.text == pending[i].text && row.updated == pending[i].updated &&
          (Truthy(pending[i].user_id) ==> row.user_id == pending[i].user_id) &&
          (!Truthy(pending[i].user_id) ==> row.user_id == userId)
  {
    var pending := Unsynced(m);
    if pending != [] {
      ReconcilePending(m, userId, pending, remoteFails);
    }
  }

  /** No pending record: no upsert, an empty result, the store untouched.
      Otherwise exactly one upsert is made. */
  lemma NoOpOnEmpty(m: map<string, Transcript>, userId: Option<string>, remoteFails: bool)
    requires WellKeyed(m)
    ensures var p := Reconcile(m, userId, remoteFails);
      (p.batch.None? <==> forall k :: k in m ==> IsSynced(m[k])) &&
      (p.batch.None? ==> p.result == Synced([]) && p.records == m)
  {
  }

  /** A failed upsert changes nothing locally: every record keeps its flag. */
  lemma AllOrNothing(m: map<string, Transcript>, userId: Option<string>)
    requires WellKeyed(m)
    ensures var p := Reconcile(m, userId, true);
      p.records == m && (p.batch.Some? <==> p.result == RemoteError)
  {
  }

  /** A successful round returns the pending ids in scan order, each of them
      reads back synced, and nothing else in the store changes. */
  lemma {:induction false} SuccessMarksPending(m: map<string, Transcript>, userId: Option<string>)
    requires WellFormed(m)
    ensures var p := Reconcile(m, userId, false);
      var pending := Unsynced(m);
      p.result == Synced(Ids(pending)) &&
      WellFormed(p.records) && p.records.Keys == m.Keys &&
      (forall id :: id in Ids(pending) ==> id in p.records && IsSynced(p.records[id])) &&
      (forall k :: k in m && k !in Ids(pending) ==> p.records[k] == m[k])
  {
    var pending := Unsynced(m);
    var ids := Ids(pending);
    SuccessOutcome(m, userId);
    MarkSyncedEffect(m, ids);
    forall id | id in ids ensures id in m {
      var i :| 0 <= i < |ids| && ids[i] == id;
      assert pending[i] in pending;
      assert pending[i] in m.Values;
    }
  }

  /** A successful round is `markSynced` over the pending ids, returning them. */
  lemma SuccessOutcome(m: map<string, Transcript>, userId: Option<string>)
    requires WellKeyed(m)
    ensures var pending := Unsynced(m);
      Reconcile(m, userId, false).records == MarkAll(m, Ids(pending)) &&
      Reconcile(m, userId, false).result == Synced(Ids(pending))
  {
    var pending := Unsynced(m);
    var p := Reconcile(m, userId, false);
    if |pending| == 0 {
      assert p == Push(m, None, Synced([]));
      assert Ids(pending) == [];
    } else {
      var rows := Rows(pending, userId);
      assert p == Push(MarkAll(m, RowIds(rows)), Some(rows), Synced(RowIds(rows)));
      RowIdsOfRows(pending, userId);
    }
  }

  lemma RowIdsOfRows(s: seq<Transcript>, userId: Option<string>)
    ensures RowIds(Rows(s, userId)) == Ids(s)
  {
  }

  /** After a successful round, with no write in between, nothing is left
      unsynced: in particular none of the returned ids. */
  lemma {:induction false} NothingPendingAfterSuccess(m: map<string, Transcript>, userId: Option<string>)
    requires WellFormed(m)
    ensures WellFormed(Reconcile(m, userId, false).records)
    ensures Unsynced(Reconcile(m, userId, false).records) == []
  {
    SuccessMarksPending(m, userId);
    CoveredBySync(m, Reconcile(m, userId, false).records, Unsynced(m));
  }

  /** If every pending record's id reads back synced and every other record is
      kept, every record reads back synced. */
  lemma CoveredBySync(m: map<string, Transcript>, after: map<string, Transcript>, pending: seq<Transcript>)
    requires WellKeyed(m) && after.Keys == m.Keys
    requires forall t :: t in pending <==> t in m.Values && !IsSynced(t)
    requires forall id :: id in Ids(pending) ==> id in after && IsSynced(after[id])
    requires forall k :: k in m && k !in Ids(pending) ==> after[k] == m[k]
    ensures forall k :: k in after ==> IsSynced(after[k])
  {
    forall k | k in after ensures IsSynced(after[k]) {
      if !IsSynced(m[k]) {
        assert m[k] in m.Values;
        var i :| 0 <= i < |pending| && pending[i] == m[k];
        assert Ids(pending)[i] == k;
      }
    }
  }

  /** Triggering again right after a successful round is a no-op: no upsert,
      no local change. */
  lemma SecondRoundIsNoOp(m: map<string, Transcript>, userId: Option<string>, u2: Option<string>, fails2: bool)
    requires WellFormed(m)
    ensures WellFormed(Reconcile(m, userId, false).records)
    ensures var after := Reconcile(m, userId, false).records;
      Reconcile(after, u2, fails2) == Push(after, None, Synced([]))
  {
    NothingPendingAfterSuccess(m, userId);
  }

  /** The reconciler never writes the fallback owner back: text, time stamp and
      `user_id` of every local record are kept, and no record is removed. */
  lemma {:induction false} OwnerNeverRewritten(m: map<string, Transcript>, userId: Option<string>, remoteFails: bool)
    requires WellFormed(m)
    ensures var p := Reconcile(m, userId, remoteFails);
      p.records.Keys == m.Keys &&
      forall k :: k in m ==>
        p.records[k].user_id == m[k].user_id && p.records[k].text == m[k].text &&
        p.records[k].updated == m[k].updated
  {
    if !remoteFails {
      MarkSyncedEffect(m, RowIds(Rows(Unsynced(m), userId)));
    }
  }

  /** Two pending records, `a` without an owner and `b` owned by "u1", with
      `a`'s id first in key order: a successful round with fallback "u2"
      sends `a` as "u2" and `b` as "u1", in that order, and both read back
      synced. */
  lemma FallbackScenario(m: map<string, Transcript>, a: Transcript, b: Transcript)
    requires m.Keys == {a.id, b.id} && m[a.id] == a && m[b.id] == b
    requires a.id != b.id && LexLeq(a.id, b.id)
    requires a.synced == Some(false) && b.synced == Some(false)
    requires a.user_id == None && b.user_id == Some("u1")
    ensures var p := Reconcile(m, Some("u2"), false);
      p.batch == Some([Row(a.id, a.text, a.updated, Some("u2")), Row(b.id, b.text, b.updated, Some("u1"))]) &&
      p.result == Synced([a.id, b.id]) &&
      p.records.Keys == {a.id, b.id} && IsSynced(p.records[a.id]) && IsSynced(p.records[b.id])
  {
    PendingPair(m, a, b);
    ReconcilePending(m, Some("u2"), [a, b], false);
    PairRows(a, b, Some("u2"));
    PairMarked(m, a, b);
  }

  /** With something pending, the batch is the projection of the pending
      records, and a successful round marks and returns their ids. */
  lemma ReconcilePending(m: map<string, Transcript>, userId: Option<string>, pending: seq<Transcript>, remoteFails: bool)
    requires WellKeyed(m) && Unsynced(m) == pending && pending != []
    ensures Reconcile(m, userId, remoteFails).batch == Some(Rows(pending, userId))
    ensures !remoteFails ==>
      Reconcile(m, userId, remoteFails) == Push(MarkAll(m, Ids(pending)), Some(Rows(pending, userId)), Synced(Ids(pending)))
  {
    RowIdsOfRows(pending, userId);
  }

  lemma PairRows(a: Transcript, b: Transcript, userId: Option<string>)
    requires a.user_id == None && b.user_id == Some("u1")
    ensures Rows([a, b], userId) == [Row(a.id, a.text, a.updated, userId), Row(b.id, b.text, b.updated, Some("u1"))]
    ensures Ids([a, b]) == [a.id, b.id]
  {
  }

  lemma PairMarked(m: map<string, Transcript>, a: Transcript, b: Transcript)
    requires m.Keys == {a.id, b.id} && m[a.id] == a && m[b.id] == b
    ensures var r := MarkAll(m, [a.id, b.id]);
      r.Keys == {a.id, b.id} && IsSynced(r[a.id]) && IsSynced(r[b.id])
  {
  }

  lemma PairValues(m: map<string, Transcript>, a: Transcript, b: Transcript)
    requires m.Keys == {a.id, b.id} && m[a.id] == a && m[b.id] == b
    ensures WellKeyed(m) && forall x :: x in m.Values <==> x == a || x == b
  {
    forall x | x in m.Values ensures x == a || x == b {
      var k :| k in m && m[k] == x;
    }
    assert m[a.id] in m.Values && m[b.id] in m.Values;
  }

  /** The scan of a two-record store lists both records, in key order. */
  lemma PendingPair(m: map<string, Transcript>, a: Transcript, b: Transcript)
    requires m.Keys == {a.id, b.id} && m[a.id] == a && m[b.id] == b
    requires a.id != b.id && LexLeq(a.id, b.id)
    requires a.synced == Some(false) && b.synced == Some(false)
    ensures WellKeyed(m) && Unsynced(m) == [a, b]
  {
    PairValues(m, a, b);
    var u := Unsynced(m);
    assert forall x :: x in u <==> x == a || x == b;
    PairListing(u, a, b);
  }

  /** An ascending listing of exactly `a` and `b` puts the smaller id first. */
  lemma PairListing(u: seq<Transcript>, a: Transcript, b: Transcript)
    requires forall x :: x in u <==> x == a || x == b
    requires Ascending(Ids(u))
    requires a.id != b.id && LexLeq(a.id, b.id)
    ensures u == [a, b]
  {
    assert Ascending(Ids([a, b]));
    AscendingUnique(u, [a, b]);
  }

  /** The remote `transcripts` table as far as this subsystem can see it: the
      batches it has been handed, in order. */
  class RemoteAdapter {
    var calls: seq<seq<Row>>

    constructor ()
      ensures calls == []
    {
      calls := [];
    }

    /** `supabase.from('transcripts').upsert(rows)`: the outcome comes from
        outside and is given as `fails`. */
    method Upsert(rows: seq<Row>, fails: bool) returns (error: bool)
      modifies this
      ensures calls == old(calls) + [rows]
      ensures error == fails
    {
      calls := calls + [rows];
      error := fails;
    }
  }

  /** `pushUnsynced(userId)`. */
  method PushUnsynced(store: TranscriptStore, remote: RemoteAdapter, userId: Option<string>, remoteFails: bool)
    returns (result: SyncResult)
    requires store.Valid()
    modifies store`records, remote
    ensures store.Valid()
    ensures var p := Reconcile(old(store.records), userId, remoteFails);
      store.records == p.records && result == p.result &&
      remote.calls == old(remote.calls) + (if p.batch.Some? then [p.batch.value] else [])
  {
    var unsynced := Unsynced(store.records);
    if |unsynced| == 0 {
      return Synced([]);
    }
    var rows := Rows(unsynced, userId);
    var error := remote.Upsert(rows, remoteFails);
    if error {
      return RemoteError;
    }
    var syncedIds := RowIds(rows);
    store.MarkSynced(syncedIds);
    return Synced(syncedIds);
  }
}
