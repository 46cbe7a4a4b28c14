/** The `useTranscripts` hook: the in-memory list of transcripts shown by
    the UI and the `add` operation that creates a record. */
module UseTranscripts {
  import opened Wrappers
  import opened IndexedDb

  /** `'t_' + Math.random().toString(36).slice(2)`, with the random digits
      supplied as `suffix`. */
  function NewId(suffix: string): (id: string)
    ensures |id| == |suffix| + 2 && id[..2] == "t_" && id[2..] == suffix
  {
    "t_" + suffix
  }

  /** The record `add` builds: a fresh id, the given text and owner, the
      current time, and not yet synced. */
  function NewTranscript(suffix: string, text: string, now: int, user_id: Option<string>): (t: Transcript)
    ensures t.id == NewId(suffix) && |t.id| >= 2 && t.id[..2] == "t_"
    ensures !IsSynced(t) && t.synced.Some?
    ensures t.text == text && t.user_id == user_id && t.updated == now
  {
    Transcript(NewId(suffix), text, now, user_id, Some(false))
  }

  /** `add` reads the clock twice: once to build the record (`now`) and once
      inside `saveTranscript` (`saved`, after the database is opened).  The
      store then holds the record with the later time stamp and otherwise
      exactly as built, and it is pending for the next sync round, whatever
      the store held before. */
  lemma AddedIsPending(m: map<string, Transcript>, suffix: string, text: string, now: int, saved: int, user_id: Option<string>)
    requires WellFormed(m) && now <= saved
    ensures var t := NewTranscript(suffix, text, now, user_id);
      var after := Put(m, t, saved);
      WellFormed(after) && after[t.id] == t.(updated := saved) &&
      t.updated <= after[t.id].updated && after[t.id] in Unsynced(after)
  {
    var t := NewTranscript(suffix, text, now, user_id);
    var after := Put(m, t, saved);
    assert after[t.id] in after.Values;
  }

  /** The hook's state: `items` and the store it reads and writes. */
  class TranscriptList {
    var items: seq<Transcript>
    const store: TranscriptStore

    ghost predicate Valid()
      reads this, store
    {
      store.Valid()
    }

    constructor (store: TranscriptStore)
      requires store.Valid()
      ensures Valid()
      ensures this.store == store && items == []
    {
      this.store := store;
      items := [];
    }

    /** The mount effect: `getAllTranscripts().then(setItems)`, dropped when
        the component has already unmounted. */
    method Load(mounted: bool)
      requires Valid()
      modifies this`items
      ensures items == if mounted then AllTranscripts(store.records) else old(items)
    {
      var all := AllTranscripts(store.records);
      if !mounted {
        return;
      }
      items := all;
    }

    /** `add(text, user_id)`: build the record at the current time, save it
        (the save stamps it again, `elapsed` later), then prepend the record
        as built to `items`, and return it. */
    method Add(text: string, user_id: Option<string>, suffix: string, elapsed: nat) returns (t: Transcript)
      requires Valid()
      modifies this`items, store`records, store`clock
      ensures Valid()
      ensures t == NewTranscript(suffix, text, old(store.clock), user_id)
      ensures store.clock == old(store.clock) + elapsed
      ensures store.records == Put(old(store.records), t, store.clock)
      ensures store.records[t.id] == t.(updated := store.clock)
      ensures items == [t] + old(items)
    {
      var id := "t_" + suffix;
      t := Transcript(id, text, store.clock, user_id, Some(false));
      store.AdvanceClock(elapsed);
      store.Save(t);
      items := [t] + items;
    }
  }
}
