# caption-pwa: offline transcript store and push sync

caption-pwa is a live closed-captioning web app. Browser speech recognition
produces results. Final results extend the caption text and are saved as
`Transcript` records in a local IndexedDB object store. A reconciler pushes
the records not yet synced to a remote `transcripts` table in one batch
upsert, and marks them synced when the upsert succeeds.

This Dafny project models that core:

- `key_order.dfy` (`KeyOrder`): the order of IndexedDB string keys. Keys
  compare code unit by code unit, and a proper prefix comes first. It also
  lists a key set in that order.
- `indexeddb.dfy` (`IndexedDb`):
  - the `Transcript` record;
  - `saveTranscript` (`Put`, `TranscriptStore.Save`);
  - `getAllTranscripts`, a read through the `by-updated` index (`AllTranscripts`);
  - `getUnsynced`, a key-order scan filtered by `!synced` (`Unsynced`);
  - `markSynced`, a loop inside one read-write transaction (`MarkAll`, `TranscriptStore.MarkSynced`).

  The object store is a class holding a `map` from id to record, plus a
  logical clock that stands for `Date.now()`.
- `sync.dfy` (`Sync`): `pushUnsynced`.
  - `Reconcile` is the specification of one round: the store after it, the
    batch sent (if any), and the result.
  - `PushUnsynced` is the imperative method. It is proved to have exactly that effect.
  - The remote table is a class that records every batch it is handed. The
    upsert's success or failure is a parameter, so every outcome is covered.
- `use_transcripts.dfy` (`UseTranscripts`): the `useTranscripts` hook. It
  covers the mount-time load and `add`.
- `app.dfy` (`App`): the caption screen.
  - the `onresult` fold into final and interim text;
  - ECMAScript `trim`;
  - the caption update;
  - the `onerror` message mapping;
  - the `onend` restart guard;
  - `handleClear`;
  - the `visibilitychange` and `online` sync triggers.

Details of the source the model keeps as written:

- `markSynced` sets only the `synced` flag. It does not refresh `updated`
  (src/lib/indexeddb.ts:53-54).
- The owner fallback is `u.user_id || userId`, so an empty-string owner
  falls back as well (src/lib/sync.ts:9). When the fallback is also absent,
  the row carries no owner.
- The reconciler never writes the fallback owner back into the local record.
- The visibility handler returns at once while there is no audio context
  (src/App.tsx:43). That check comes before the user-id check on line 48,
  so a visibility sync needs both an audio context and a user id. The
  `online` handler needs only the user id.

## Model

| member | source | states |
|---|---|---|
| KeyOrder.SortedKeys | src/lib/indexeddb.ts:10 | the primary keys listed once each, every key present, strictly ascending in IndexedDB string-key order |
| IndexedDb.Put | src/lib/indexeddb.ts:29-32 | put inserts or replaces under `t.id`; the stored record keeps `id`, `text` and `user_id`, gets `updated = now` and `synced = !!t.synced`; every other key is unchanged; no key is removed |
| IndexedDb.Stamp | src/lib/indexeddb.ts:31 | the object written keeps `id`, `text` and `user_id`, takes the current time, and has a boolean flag that is true exactly when the given one was |
| IndexedDb.SaveOverwrites | src/lib/indexeddb.ts:31 | saving a second record with an existing id leaves one record, the later one, and the key count does not grow |
| IndexedDb.TranscriptStore.Save | src/lib/indexeddb.ts:29-32 | `saveTranscript` leaves the store equal to `Put` at the current clock and keeps ids as keys and flags boolean |
| IndexedDb.TranscriptStore.AdvanceClock | src/lib/indexeddb.ts:31 | the clock standing for `Date.now()` never goes back |
| IndexedDb.MarkOne | src/lib/indexeddb.ts:51-55 | one loop step: a stored id is read back synced with every other field kept; a missing id changes nothing; no key is added or removed; other records are untouched |
| IndexedDb.MarkAll | src/lib/indexeddb.ts:47-58 | after the loop, a stored record is flipped to synced exactly when its id is listed; missing ids are skipped; the key set is unchanged |
| IndexedDb.MarkSyncedEffect | src/lib/indexeddb.ts:51-54 | every listed stored id reads back synced; `id`, `text`, `updated` and `user_id` are kept, so the time stamp is not refreshed; unlisted records are untouched |
| IndexedDb.MarkSyncedIdempotent | src/lib/indexeddb.ts:50-56 | marking twice, or with every id repeated, gives the same store as marking once |
| IndexedDb.TranscriptStore.MarkSynced | src/lib/indexeddb.ts:47-58 | the `for` loop of get/flip/put leaves the store equal to `MarkAll` of the old store and keeps it well formed |
| IndexedDb.Scan | src/lib/indexeddb.ts:43 | `getAll()` returns every stored record exactly once, in ascending primary-key order |
| IndexedDb.AscendingUnique | src/lib/indexeddb.ts:43 | two key-ascending listings of the same records are equal, so a scan's result is fully determined |
| IndexedDb.FilterUnsynced | src/lib/indexeddb.ts:44 | `filter(a => !a.synced)` keeps exactly the records not synced; the result is empty exactly when every record is synced |
| IndexedDb.FilterKeepsOrder | src/lib/indexeddb.ts:44 | filtering a key-ascending listing keeps it key-ascending |
| IndexedDb.Unsynced | src/lib/indexeddb.ts:39-45 | `getUnsynced` returns exactly the stored records whose flag is not true, a missing flag included, in key order; empty exactly when every record is synced |
| IndexedDb.UnsyncedIff | src/lib/indexeddb.ts:39-45 | an id appears in `getUnsynced` if and only if it is stored with a falsy flag, and at most once |
| IndexedDb.Insert | src/lib/indexeddb.ts:11 | inserting into a list ordered by the `by-updated` index (ties by primary key) keeps it ordered and adds exactly one element |
| IndexedDb.SortByIndex | src/lib/indexeddb.ts:11 | the `by-updated` ordering of a list is ordered and a permutation of it |
| IndexedDb.AllTranscripts | src/lib/indexeddb.ts:34-37 | `getAllFromIndex('by-updated')`: a permutation of the key-order scan, ordered by `updated` with ties by primary key |
| IndexedDb.AllTranscriptsOrdered | src/lib/indexeddb.ts:34-37 | `getAllTranscripts` returns every stored record exactly once, with non-decreasing `updated`, ties in key order |
| Sync.OwnerOr | src/lib/sync.ts:9 | JavaScript `or` on the owner: the record's owner when truthy, the fallback otherwise |
| Sync.ToRow | src/lib/sync.ts:9 | a row copies `id`, `text` and `updated` and carries the owner with fallback |
| Sync.Rows | src/lib/sync.ts:9 | one row per pending record, in the same order |
| Sync.RowIds | src/lib/sync.ts:12 | the ids of the rows, in order |
| Sync.Reconcile | src/lib/sync.ts:4-15 | one round: no upsert exactly when nothing is pending; an error result exactly when the upsert was made and failed; on no upsert or an error the store is unchanged (the lemmas below state the batch, the marking and the returned ids) |
| Sync.RowIdsOfRows | src/lib/sync.ts:12 | the ids returned are the ids of the pending records, in scan order |
| Sync.BatchRows | src/lib/sync.ts:9 | the batch holds exactly the pending records, in order, with fields copied and the owner fallback applied only to falsy owners |
| Sync.NoOpOnEmpty | src/lib/sync.ts:5-6 | no upsert is made if and only if nothing is pending; then the result is `[]` and the store is unchanged |
| Sync.AllOrNothing | src/lib/sync.ts:10-11 | when the upsert reports an error the round throws and no local record changes |
| Sync.SuccessOutcome | src/lib/sync.ts:12-14 | a successful round is `markSynced` over the pending ids and returns those ids |
| Sync.ReconcilePending | src/lib/sync.ts:9-14 | with something pending, the batch is the projection of the pending records, and success marks and returns their ids |
| Sync.SuccessMarksPending | src/lib/sync.ts:12-14 | on success the result is the pending ids in scan order; each reads back synced; no key is added or removed; other records are untouched |
| Sync.NothingPendingAfterSuccess | src/lib/sync.ts:13 | after a successful round, with no write in between, `getUnsynced` is empty |
| Sync.SecondRoundIsNoOp | src/lib/sync.ts:5-6 | a second round straight after a successful one makes no upsert and changes nothing |
| Sync.OwnerNeverRewritten | src/lib/sync.ts:9-13 | whatever the outcome, no record is removed and every record keeps its `user_id`, `text` and `updated`; the fallback lives only in the row |
| Sync.FallbackScenario | src/lib/sync.ts:9 | two pending records, one without an owner and one owned by "u1": the batch sends them in key order as "u2" and "u1", both ids are returned, both read back synced |
| Sync.PendingPair | src/lib/indexeddb.ts:39-45 | `getUnsynced` on a two-record store of unsynced records lists them in key order |
| Sync.RemoteAdapter.Upsert | src/lib/sync.ts:10 | the remote table receives the batch, and the error reported is the outcome supplied |
| Sync.PushUnsynced | src/lib/sync.ts:4-15 | one round leaves the store, the result and the upserts exactly as `Reconcile` specifies; at most one upsert is made |
| UseTranscripts.NewId | src/hooks/useTranscripts.tsx:17 | the id is `t_` followed by the random digits |
| UseTranscripts.NewTranscript | src/hooks/useTranscripts.tsx:18 | the new record has a `t_` id, the given text, owner and time, and `synced = false` |
| UseTranscripts.AddedIsPending | src/hooks/useTranscripts.tsx:17-21 | with the save reading the clock no earlier than the record was built, the store holds the built record with the save's later time stamp and otherwise unchanged, and it is pending for the next sync round |
| UseTranscripts.TranscriptList.constructor | src/hooks/useTranscripts.tsx:5 | `items` starts empty, over a well-formed store |
| UseTranscripts.TranscriptList.Load | src/hooks/useTranscripts.tsx:7-14 | on mount `items` becomes the `by-updated` listing of the store, unless the component has already unmounted |
| UseTranscripts.TranscriptList.Add | src/hooks/useTranscripts.tsx:16-22 | `add` returns the record it built at the first clock reading; the store is `Put` of that record at the second, later reading, so the stored copy differs only in `updated`; `items` is the record as built followed by the previous items |
| App.Examined | src/App.tsx:67 | only results from `resultIndex` onwards are looked at, none when the index is past the end |
| App.FinalText | src/App.tsx:67-74 | the final results' texts concatenated in order; `SplitResults` proves the loop computes it and `SplitPartitions` relates it to the interim text |
| App.InterimText | src/App.tsx:67-74 | the non-final results' texts concatenated in order; `SplitResults` proves the loop computes it and `SplitPartitions` relates it to the final text |
| App.SplitPartitions | src/App.tsx:67-74 | the lengths of the final and the interim text add up to the length of the examined text; all final means nothing interim, and none final means nothing final |
| App.SplitKeepsCharacters | src/App.tsx:67-74 | every examined character goes to exactly one of the final and the interim text: as multisets the two texts together equal the examined text |
| App.SplitResults | src/App.tsx:65-74 | the loop's `finalAppend` and `interimTranscript` are the final and the non-final texts of the examined results, concatenated in order |
| App.Trim | src/App.tsx:76 | `trim()` returns the slice between leading and trailing ECMAScript white space; its ends are not white space; it is empty exactly when the text is all white space |
| App.TrimIdempotent | src/App.tsx:76 | trimming twice is trimming once |
| App.AppendCaption | src/App.tsx:76 | the new captions start with the previous ones and end with the trimmed text, and are just the trimmed text when there were none |
| App.CaptionExtends | src/App.tsx:76 | the captions keep the previous text as a prefix, then one space when the previous text was non-empty, then the trimmed text |
| App.ErrorName | src/App.tsx:90 | the error name, with "unknown" for a missing or empty one: never empty; the reported name when truthy, otherwise "unknown" |
| App.Message | src/App.tsx:92-98 | every message is non-empty; for any other name the text is the 19-character prefix followed by the name verbatim |
| App.Classify | src/App.tsx:91-99 | `not-allowed` and `service-not-allowed` give the mic-denied message, `no-speech` and `network` their own, `aborted` none, anything else a message naming it; each as an if-and-only-if |
| App.OtherMessageNamesError | src/App.tsx:98 | "Recognition error: " is followed by the name verbatim, so different names give different messages |
| App.SyncsOnVisibility | src/App.tsx:42-48 | the visibility handler syncs exactly when an audio context exists and the online handler's condition holds |
| App.SyncsOnOnline | src/App.tsx:51 | a sync needs a present, non-empty user id; a missing or empty one never syncs |
| App.Captioner.constructor | src/App.tsx:11-14 | the screen starts with no captions, no interim text, no error, not listening, over a well-formed store |
| App.Captioner.OnResult | src/App.tsx:64-81 | with final text: captions extended by the trimmed text, and exactly one `add` of that text with the current user id (store, clock and `items` as `Add` states); without it: captions, store and `items` unchanged; interim text replaced in every case |
| App.Captioner.OnEnd | src/App.tsx:83-87 | recognition restarts if and only if the stop was not manual and listening is still on |
| App.Captioner.OnError | src/App.tsx:89-100 | the error shown becomes the classified message, or stays as it was for `aborted` |
| App.Captioner.HandleClear | src/App.tsx:237-240 | captions and interim text both become empty |
| App.Captioner.OnVisibility | src/App.tsx:42-49 | a sync round as `Reconcile` specifies runs if and only if an audio context exists and the user id is truthy; otherwise store and remote are untouched |
| App.Captioner.OnOnline | src/App.tsx:50-52 | a sync round runs if and only if the user id is truthy; otherwise store and remote are untouched |

## Left out

- `getDB`, the database open and schema upgrade (src/lib/indexeddb.ts:6-19): the store is taken as already open, keyed by `id`, with its `by-updated` index. The `by-synced` index and the `meta` store are never read by the core.
- Transaction failures and a store that cannot be opened are not modelled: every IndexedDB call succeeds.
- The Supabase client (src/lib/supabaseClient.ts) is not part of this model. The upsert is a class that records batches, and its outcome is a parameter. The returned `data` is unused by the source and is not modelled.
- Concurrency: `onresult` starts `add` without awaiting it (src/App.tsx:78), and the triggers start `pushUnsynced` without awaiting it (src/App.tsx:48, src/App.tsx:51); each of these spans several awaits (src/lib/indexeddb.ts:30, src/lib/sync.ts:5, src/lib/sync.ts:10, src/lib/sync.ts:13). The model runs each such call to completion inside its handler, so interleavings, such as an `add` whose save lands during an in-flight upsert, or two overlapping sync rounds (the source has no single-flight guard), are not modelled.
- `Date.now()` is a logical clock that only moves forward by a natural number. `add` (src/hooks/useTranscripts.tsx:18) and `saveTranscript` (src/lib/indexeddb.ts:31) each read it; the time that passes between the two readings is the `elapsed` parameter of `Add` and `OnResult`.
- `Math.random().toString(36).slice(2)` is a `suffix` parameter. Id collisions are possible, and `Put` then overwrites, as `put` does.
- String keys: Dafny `char` is a Unicode scalar value, while JavaScript strings are UTF-16 code units. The key order matches the source's for text without surrogate pairs.
- The owner is an opaque optional string. Auth (src/context/AuthContext.tsx, src/context/SupabaseAuth.tsx) is not part of this model.
- `Sync.RemoteAdapter.Upsert`: the remote table's contents after the upsert are not modelled, only the batches it was handed.
- The audio visualizer, audio-context resume on visibility, and recognition construction, start and stop (src/App.tsx:103-211) are browser plumbing. Whether an audio context exists is an input of `OnVisibility`.
- `App.Captioner.OnEnd` reports whether `recognition.start()` is called. A `start()` that throws is swallowed by the source and is not modelled.
- The "requires HTTPS or localhost" notice and the support check (src/App.tsx:36-41) are left out.
- The sync triggers drop the result and any error (`.catch(() => {})`). `OnVisibility` and `OnOnline` do not return them.
- `UseTranscripts.TranscriptList.Load` takes the mounted flag as a parameter. The race between the read and an unmount is not modelled further.
- SyncIndicator, Login, Layout, the service worker and the bootstrap files are presentation or I/O, and are not part of this model.
