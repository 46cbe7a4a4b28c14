/** The local transcript store: one IndexedDB object store `transcripts`
    whose key path is `id`, read back in key order by a full scan and in
    `updated` order through the `by-updated` index. */
module IndexedDb {
  import opened Wrappers
  import opened KeyOrder

  /** One finalized caption fragment and its sync metadata.  `user_id` is
      `None` when the property is `undefined` or `null`; `synced` is `None`
      when the property is missing. */
  datatype Transcript = Transcript(
    id: string,
    text: string,
    updated: int,
    user_id: Option<string>,
    synced: Option<bool>)

  /** `!!t.synced`: a missing flag reads as false. */
  predicate IsSynced(t: Transcript)
  {
    t.synced == Some(true)
  }

  /** The key path is `id`: every record is stored under its own id. */
  predicate WellKeyed(m: map<string, Transcript>)
  {
    forall k :: k in m ==> m[k].id == k
  }

  /** What every write through this module leaves behind: records keyed by
      their id, each with a boolean `synced` flag. */
  predicate WellFormed(m: map<string, Transcript>)
  {
    WellKeyed(m) && forall k :: k in m ==> m[k].synced.Some?
  }

  /** The ids of a list of records, in order. */
  function Ids(s: seq<Transcript>): (r: seq<string>)
    ensures |r| == |s| && forall i :: 0 <= i < |s| ==> r[i] == s[i].id
  {
    seq(|s|, i requires 0 <= i < |s| => s[i].id)
  }

  // ---------------------------------------------------------------------
  // saveTranscript

  /** The object written by `saveTranscript`: the record re-stamped with the
      current time and its flag coerced to a boolean. */
  function Stamp(t: Transcript, now: int): (r: Transcript)
    ensures r.id == t.id && r.text == t.text && r.user_id == t.user_id && r.updated == now
    ensures r.synced.Some? && (IsSynced(r) <==> IsSynced(t))
  {
    t.(updated := now, synced := Some(IsSynced(t)))
  }

  /** The store after `put` of `t` at time `now`: insert or replace under `t.id`. */
  function Put(m: map<string, Transcript>, t: Transcript, now: int): (r: map<string, Transcript>)
    ensures r.Keys == m.Keys + {t.id}
    ensures r[t.id].id == t.id && r[t.id].text == t.text && r[t.id].user_id == t.user_id
    ensures r[t.id].updated == now && r[t.id].synced == Some(IsSynced(t))
    ensures forall k :: k in m && k != t.id ==> r[k] == m[k]
    ensures WellFormed(m) ==> WellFormed(r)
  {
    m[t.id := Stamp(t, now)]
  }

  /** Saving twice under one id leaves one record: the later save, with the
      later time stamp. */
  lemma SaveOverwrites(m: map<string, Transcript>, a: Transcript, b: Transcript, n1: int, n2: int)
    requires a.id == b.id
    ensures Put(Put(m, a, n1), b, n2) == Put(m, b, n2)
    ensures |Put(Put(m, a, n1), b, n2).Keys| == |Put(m, a, n1).Keys|
  {
  }

  // ---------------------------------------------------------------------
  // markSynced

  /** The record with its flag set to true and every other field kept. */
  function Flip(t: Transcript): Transcript
  {
    t.(synced := Some(true))
  }

  /** One step of the `markSynced` loop: flip the record if it exists. */
  function MarkOne(m: map<string, Transcript>, id: string): (r: map<string, Transcript>)
    ensures r.Keys == m.Keys
    ensures id in m ==> IsSynced(r[id]) && r[id] == m[id].(synced := Some(true))
    ensures forall k :: k in m && k != id ==> r[k] == m[k]
  {
    if id in m then m[id := Flip(m[id])] else m
  }

  /** The store after the `markSynced` loop has visited `ids` in order.  A
      record is flipped exactly when its id is listed; ids with no record are
      skipped; nothing is added or removed. */
  function MarkAll(m: map<string, Transcript>, ids: seq<string>): (r: map<string, Transcript>)
    ensures r.Keys == m.Keys
    ensures forall k :: k in m ==> r[k] == if k in ids then Flip(m[k]) else m[k]
    decreases |ids|
  {
    if ids == [] then m
    else
      var init := ids[..|ids| - 1];
      assert forall k :: k in ids <==> k in init || k == ids[|ids| - 1];
      MarkOne(MarkAll(m, init), ids[|ids| - 1])
  }

  /** After `markSynced(ids)` every listed id that is stored reads back synced;
      only the flag changes, so the time stamp is not refreshed; records whose
      ids are not listed keep their flag. */
  lemma {:induction false} MarkSyncedEffect(m: map<string, Transcript>, ids: seq<string>)
    requires WellFormed(m)
    ensures WellFormed(MarkAll(m, ids))
    ensures forall id :: id in ids && id in m ==> IsSynced(MarkAll(m, ids)[id])
    ensures forall k :: k in m ==>
      var r := MarkAll(m, ids)[k];
      r.id == m[k].id && r.text == m[k].text && r.updated == m[k].updated && r.user_id == m[k].user_id
    ensures forall k :: k in m && k !in ids ==> MarkAll(m, ids)[k] == m[k]
  {
  }

  /** Running `markSynced` twice, or with every id repeated, gives the same
      store as running it once. */
  lemma {:induction false} MarkSyncedIdempotent(m: map<string, Transcript>, ids: seq<string>)
    ensures MarkAll(MarkAll(m, ids), ids) == MarkAll(m, ids)
    ensures MarkAll(m, ids + ids) == MarkAll(m, ids)
  {
    var once := MarkAll(m, ids);
    var twice := MarkAll(once, ids);
    var doubled := MarkAll(m, ids + ids);
    forall k | k in once ensures twice[k] == once[k] && doubled[k] == once[k] {
      assert k in ids + ids <==> k in ids;
    }
  }

  // ---------------------------------------------------------------------
  // Reads

  /** `store.getAll()`: every record, in primary-key order. */
  function Scan(m: map<string, Transcript>): (r: seq<Transcript>)
    requires WellKeyed(m)
    ensures |r| == |m|
    ensures forall t :: t in r <==> t in m.Values
    ensures Ascending(Ids(r))
  {
    var ks := SortedKeys(m.Keys);
    var r := seq(|ks|, i requires 0 <= i < |ks| => m[ks[i]]);
    ListingByKeys(m, ks, r);
    r
  }

  /** Looking up a listing of all keys yields all records, keyed the same way. */
  lemma ListingByKeys(m: map<string, Transcript>, ks: seq<string>, r: seq<Transcript>)
    requires WellKeyed(m) && (forall k :: k in ks <==> k in m)
    requires |r| == |ks| && forall i :: 0 <= i < |ks| ==> r[i] == m[ks[i]]
    ensures Ids(r) == ks
    ensures forall t :: t in r <==> t in m.Values
  {
    forall t | t in m.Values ensures t in r {
      var k :| k in m && m[k] == t;
      var i :| 0 <= i < |ks| && ks[i] == k;
      assert r[i] == t;
    }
  }

  lemma AscendingTail(s: seq<Transcript>)
    requires s != []
    ensures Ascending(Ids(s)) ==> Ascending(Ids(s[1..]))
    ensures Ascending(Ids(s)) ==> forall t :: t in s[1..] ==> LexLeq(s[0].id, t.id) && s[0].id != t.id
  {
    if !Ascending(Ids(s)) { return; }
    forall i, j | 0 <= i < j < |s| - 1
      ensures LexLeq(Ids(s[1..])[i], Ids(s[1..])[j]) && Ids(s[1..])[i] != Ids(s[1..])[j]
    {
      assert Ids(s)[i + 1] == Ids(s[1..])[i] && Ids(s)[j + 1] == Ids(s[1..])[j];
    }
    forall t | t in s[1..] ensures LexLeq(s[0].id, t.id) && s[0].id != t.id {
      var j :| 0 <= j < |s[1..]| && s[1..][j] == t;
      assert Ids(s)[0] == s[0].id && Ids(s)[j + 1] == t.id;
    }
  }

  lemma AscendingCons(x: Transcript, rest: seq<Transcript>)
    ensures Ascending(Ids(rest)) && (forall t :: t in rest ==> LexLeq(x.id, t.id) && x.id != t.id) ==>
      Ascending(Ids([x] + rest))
  {
    if !(Ascending(Ids(rest)) && forall t :: t in rest ==> LexLeq(x.id, t.id) && x.id != t.id) { return; }
    var r := [x] + rest;
    forall i, j | 0 <= i < j < |r| ensures LexLeq(Ids(r)[i], Ids(r)[j]) && Ids(r)[i] != Ids(r)[j] {
      if i == 0 {
        assert r[j] in rest;
      } else {
        assert Ids(r)[i] == Ids(rest)[i - 1] && Ids(r)[j] == Ids(rest)[j - 1];
      }
    }
  }

  /** A list in strictly ascending id order is determined by its elements:
      the key order leaves a scan no freedom. */
  lemma {:induction false} AscendingUnique(s: seq<Transcript>, t: seq<Transcript>)
    requires Ascending(Ids(s)) && Ascending(Ids(t))
    requires forall x :: x in s <==> x in t
    ensures s == t
  {
    if s != [] {
      assert s[0] in t;
      assert t != [];
      assert s == [s[0]] + s[1..] && t == [t[0]] + t[1..];
      AscendingTail(s);
      AscendingTail(t);
      assert s[0] == t[0] by {
        if s[0] != t[0] {
          assert t[0] in t && t[0] in s;
          assert s[0] in t[1..] && t[0] in s[1..];
          LexLeqAntisym(s[0].id, t[0].id);
        }
      }
      forall x ensures x in s[1..] <==> x in t[1..] {
        if x in s[1..] { assert x.id != s[0].id && x in t; }
        if x in t[1..] { assert x.id != t[0].id && x in s; }
      }
      AscendingUnique(s[1..], t[1..]);
      assert s == [s[0]] + s[1..] && t == [t[0]] + t[1..];
    }
  }

  /** The `filter((a) => !a.synced)` step: the records that are not synced,
      in their original order. */
  function FilterUnsynced(s: seq<Transcript>): (r: seq<Transcript>)
    ensures |r| <= |s|
    ensures forall t :: t in r <==> t in s && !IsSynced(t)
    ensures r == [] <==> forall i :: 0 <= i < |s| ==> IsSynced(s[i])
  {
    if s == [] then []
    else
      assert s == [s[0]] + s[1..];
      if IsSynced(s[0]) then FilterUnsynced(s[1..]) else [s[0]] + FilterUnsynced(s[1..])
  }

  /** Filtering keeps the scan's key order. */
  lemma {:induction false} FilterKeepsOrder(s: seq<Transcript>)
    requires Ascending(Ids(s))
    ensures Ascending(Ids(FilterUnsynced(s)))
  {
    if s != [] {
      AscendingTail(s);
      FilterKeepsOrder(s[1..]);
      AscendingCons(s[0], FilterUnsynced(s[1..]));
    }
  }

  /** `getUnsynced`: a full scan filtered by `!synced`. */
  function Unsynced(m: map<string, Transcript>): (r: seq<Transcript>)
    requires WellKeyed(m)
    ensures forall t :: t in r <==> t in m.Values && !IsSynced(t)
    ensures r == [] <==> forall k :: k in m ==> IsSynced(m[k])
    ensures Ascending(Ids(r))
  {
    var s := Scan(m);
    assert (forall i :: 0 <= i < |s| ==> IsSynced(s[i])) <==> forall k :: k in m ==> IsSynced(m[k]) by {
      if forall i :: 0 <= i < |s| ==> IsSynced(s[i]) {
        forall k | k in m ensures IsSynced(m[k]) {
          assert m[k] in m.Values;
          var i :| 0 <= i < |s| && s[i] == m[k];
        }
      }
      if forall k :: k in m ==> IsSynced(m[k]) {
        forall i | 0 <= i < |s| ensures IsSynced(s[i]) {
          assert s[i] in m.Values;
        }
      }
    }
    FilterKeepsOrder(s);
    FilterUnsynced(s)
  }

  /** `getUnsynced` returns exactly the stored records whose flag is not true,
      a missing flag included; each id at most once, in key order. */
  lemma UnsyncedIff(m: map<string, Transcript>, id: string)
    requires WellKeyed(m)
    ensures (exists t :: t in Unsynced(m) && t.id == id) <==> id in m && !IsSynced(m[id])
    ensures forall i, j :: 0 <= i < j < |Unsynced(m)| ==> Unsynced(m)[i].id != Unsynced(m)[j].id
  {
    if id in m && !IsSynced(m[id]) {
      assert m[id] in m.Values;
      assert m[id] in Unsynced(m);
    }
    var u := Unsynced(m);
    forall i, j | 0 <= i < j < |u| ensures u[i].id != u[j].id {
      assert Ids(u)[i] == u[i].id && Ids(u)[j] == u[j].id;
    }
  }

  /** The order of the `by-updated` index: by `updated`, ties by primary key. */
  predicate IndexLeq(a: Transcript, b: Transcript)
  {
    a.updated < b.updated || (a.updated == b.updated && LexLeq(a.id, b.id))
  }

  predicate IndexOrdered(s: seq<Transcript>)
  {
    forall i, j :: 0 <= i < j < |s| ==> IndexLeq(s[i], s[j])
  }

  function Insert(x: Transcript, s: seq<Transcript>): (r: seq<Transcript>)
    requires IndexOrdered(s)
    ensures IndexOrdered(r)
    ensures multiset(r) == multiset(s) + multiset{x}
  {
    if s == [] || IndexLeq(x, s[0]) then
      InsertFront(x, s);
      [x] + s
    else
      LexLeqTotal(x.id, s[0].id);
      var rest := Insert(x, s[1..]);
      InsertBehind(s, x, rest);
      assert s == [s[0]] + s[1..];
      [s[0]] + rest
  }

  lemma InsertFront(x: Transcript, s: seq<Transcript>)
    requires IndexOrdered(s) && (s == [] || IndexLeq(x, s[0]))
    ensures IndexOrdered([x] + s)
  {
    forall j | 0 < j < |s| ensures IndexLeq(x, s[j]) {
      if x.updated == s[0].updated == s[j].updated { LexLeqTrans(x.id, s[0].id, s[j].id); }
    }
    var r := [x] + s;
    forall i, j | 0 <= i < j < |r| ensures IndexLeq(r[i], r[j]) {
      if i > 0 { assert r[i] == s[i - 1] && r[j] == s[j - 1]; }
    }
  }

  lemma InsertBehind(s: seq<Transcript>, x: Transcript, rest: seq<Transcript>)
    requires s != [] && IndexOrdered(s) && IndexLeq(s[0], x)
    requires IndexOrdered(rest) && multiset(rest) == multiset(s[1..]) + multiset{x}
    ensures IndexOrdered([s[0]] + rest)
  {
    forall j | 0 <= j < |rest| ensures IndexLeq(s[0], rest[j]) {
      assert rest[j] in multiset(rest);
      if rest[j] != x {
        assert rest[j] in s[1..];
      }
    }
    var r := [s[0]] + rest;
    forall i, j | 0 <= i < j < |r| ensures IndexLeq(r[i], r[j]) {
      if i > 0 { assert r[i] == rest[i - 1] && r[j] == rest[j - 1]; } else { assert r[j] == rest[j - 1]; }
    }
  }

  function SortByIndex(s: seq<Transcript>): (r: seq<Transcript>)
    ensures IndexOrdered(r)
    ensures multiset(r) == multiset(s)
  {
    if s == [] then []
    else
      assert s == [s[0]] + s[1..];
      Insert(s[0], SortByIndex(s[1..]))
  }

  /** `getAllTranscripts`: every record, read through the `by-updated` index. */
  function AllTranscripts(m: map<string, Transcript>): (r: seq<Transcript>)
    requires WellKeyed(m)
    ensures IndexOrdered(r)
    ensures multiset(r) == multiset(Scan(m))
  {
    SortByIndex(Scan(m))
  }

  /** `getAllTranscripts` lists every stored record exactly once, with
      non-decreasing `updated`, ties broken by id. */
  lemma AllTranscriptsOrdered(m: map<string, Transcript>)
    requires WellKeyed(m)
    ensures |AllTranscripts(m)| == |m|
    ensures forall t :: t in AllTranscripts(m) <==> t in m.Values
    ensures forall i, j :: 0 <= i < j < |AllTranscripts(m)| ==>
      AllTranscripts(m)[i].updated <= AllTranscripts(m)[j].updated
    ensures forall i, j :: 0 <= i < j < |AllTranscripts(m)| && AllTranscripts(m)[i].updated == AllTranscripts(m)[j].updated ==>
      LexLeq(AllTranscripts(m)[i].id, AllTranscripts(m)[j].id)
  {
    var s := Scan(m);
    var r := AllTranscripts(m);
    assert |r| == |multiset(r)| == |multiset(s)| == |s|;
    forall t ensures t in r <==> t in s {
      assert t in r <==> t in multiset(r);
      assert t in s <==> t in multiset(s);
    }
  }

  // ---------------------------------------------------------------------
  // The store object

  /** The open `transcripts` object store, with the clock that stands for
      `Date.now()`. */
  class TranscriptStore {
    var records: map<string, Transcript>
    var clock: int

    ghost predicate Valid()
      reads this
    {
      WellFormed(records)
    }

    constructor ()
      ensures Valid() && records == map[] && clock == 0
    {
      records := map[];
      clock := 0;
    }

    /** Time passes; the clock never goes back. */
    method AdvanceClock(elapsed: nat)
      modifies this`clock
      ensures clock == old(clock) + elapsed
    {
      clock := clock + elapsed;
    }

    /** `saveTranscript(t)`. */
    method Save(t: Transcript)
      requires Valid()
      modifies this`records
      ensures Valid()
      ensures records == Put(old(records), t, clock)
    {
      records := records[t.id := t.(updated := clock, synced := Some(t.synced == Some(true)))];
    }

    /** `markSynced(ids)`: one read-write transaction that visits each id. */
    method MarkSynced(ids: seq<string>)
      requires Valid()
      modifies this`records
      ensures Valid()
      ensures records == MarkAll(old(records), ids)
    {
      MarkSyncedEffect(records, ids);
      var i := 0;
      while i < |ids|
        invariant 0 <= i <= |ids|
        invariant records == MarkAll(old(records), ids[..i])
      {
        var id := ids[i];
        assert ids[..i + 1][..i] == ids[..i];
        if id in records {
          var t := records[id];
          t := t.(synced := Some(true));
          records := records[id := t];
        }
        i := i + 1;
      }
      assert ids[..i] == ids;
    }
  }
}
