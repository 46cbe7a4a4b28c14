/** The captioning screen: how recognition results become caption text and
    transcript records, how recognition errors become messages, when
    recognition restarts, and when the screen triggers a sync round. */
module App {
  import opened Wrappers
  import opened IndexedDb
  import opened Sync
  import opened UseTranscripts

  // ---------------------------------------------------------------------
  // Recognition results

  /** One entry of `event.results`: whether it is final, and the text of its
      first alternative (`result[0].transcript`). */
  datatype SpeechResult = SpeechResult(isFinal: bool, transcript: string)

  /** A `result` event: the index of the first changed result, and the list. */
  datatype ResultEvent = ResultEvent(resultIndex: nat, results: seq<SpeechResult>)

  /** The results the handler looks at: those from `resultIndex` on. */
  function Examined(ev: ResultEvent): (r: seq<SpeechResult>)
    ensures |r| == if ev.resultIndex <= |ev.results| then |ev.results| - ev.resultIndex else 0
    ensures forall i :: 0 <= i < |r| ==> r[i] == ev.results[ev.resultIndex + i]
  {
    if ev.resultIndex <= |ev.results| then ev.results[ev.resultIndex..] else []
  }

  /** What one result adds to the final text. */
  function FinalPiece(r: SpeechResult): string
  {
    if r.isFinal then r.transcript else ""
  }

  /** What one result adds to the interim text. */
  function InterimPiece(r: SpeechResult): string
  {
    if r.isFinal then "" else r.transcript
  }

  /** The final results' texts, concatenated in order. */
  function FinalText(rs: seq<SpeechResult>): string
  {
    if rs == [] then "" else FinalText(rs[..|rs| - 1]) + FinalPiece(rs[|rs| - 1])
  }

  /** The non-final results' texts, concatenated in order. */
  function InterimText(rs: seq<SpeechResult>): string
  {
    if rs == [] then "" else InterimText(rs[..|rs| - 1]) + InterimPiece(rs[|rs| - 1])
  }

  /** Everything the results say, final or not, in order. */
  function Spoken(rs: seq<SpeechResult>): string
  {
    if rs == [] then "" else Spoken(rs[..|rs| - 1]) + rs[|rs| - 1].transcript
  }

  /** The two texts' lengths add up to the examined text's; when all results
      are final nothing is interim, and when none is, nothing is final. */
  lemma {:induction false} SplitPartitions(rs: seq<SpeechResult>)
    ensures |FinalText(rs)| + |InterimText(rs)| == |Spoken(rs)|
    ensures (forall i :: 0 <= i < |rs| ==> rs[i].isFinal) ==> FinalText(rs) == Spoken(rs) && InterimText(rs) == ""
    ensures (forall i :: 0 <= i < |rs| ==> !rs[i].isFinal) ==> FinalText(rs) == "" && InterimText(rs) == Spoken(rs)
  {
    if rs != [] {
      SplitPartitions(rs[..|rs| - 1]);
    }
  }

  /** The final and the interim text together hold exactly the characters of
      the examined results, each as often as it occurs there. */
  lemma {:induction false} SplitKeepsCharacters(rs: seq<SpeechResult>)
    ensures multiset(FinalText(rs)) + multiset(InterimText(rs)) == multiset(Spoken(rs))
  {
    if rs != [] {
      var init, last := rs[..|rs| - 1], rs[|rs| - 1];
      SplitKeepsCharacters(init);
      assert FinalText(rs) == FinalText(init) + FinalPiece(last);
      assert InterimText(rs) == InterimText(init) + InterimPiece(last);
      assert Spoken(rs) == Spoken(init) + last.transcript;
    }
  }

  /** The loop of `recognition.onresult`: `finalAppend` and
      `interimTranscript`. */
  method SplitResults(ev: ResultEvent) returns (finalAppend: string, interimTranscript: string)
    ensures finalAppend == FinalText(Examined(ev))
    ensures interimTranscript == InterimText(Examined(ev))
  {
    interimTranscript := "";
    finalAppend := "";
    var i := ev.resultIndex;
    while i < |ev.results|
      invariant ev.resultIndex <= i
      invariant ev.resultIndex <= |ev.results| ==> i <= |ev.results|
      invariant ev.resultIndex <= |ev.results| ==> finalAppend == FinalText(ev.results[ev.resultIndex..i])
      invariant ev.resultIndex <= |ev.results| ==> interimTranscript == InterimText(ev.results[ev.resultIndex..i])
      invariant ev.resultIndex > |ev.results| ==> finalAppend == "" && interimTranscript == ""
    {
      var result := ev.results[i];
      assert ev.results[ev.resultIndex..i + 1][..i - ev.resultIndex] == ev.results[ev.resultIndex..i];
      if result.isFinal {
        finalAppend := finalAppend + result.transcript;
      } else {
        interimTranscript := interimTranscript + result.transcript;
      }
      i := i + 1;
    }
    assert ev.resultIndex <= |ev.results| ==> ev.results[ev.resultIndex..i] == Examined(ev);
  }

  // ---------------------------------------------------------------------
  // String.prototype.trim

  /** White space and line terminators as ECMAScript's `trim` removes them. */
  predicate IsSpace(c: char)
  {
    c == '\t' || c == '\n' || c == '\U{000B}' || c == '\U{000C}' || c == '\r' || c == ' ' ||
    c == '\U{00A0}' || c == '\U{1680}' || ('\U{2000}' <= c <= '\U{200A}') ||
    c == '\U{2028}' || c == '\U{2029}' || c == '\U{202F}' || c == '\U{205F}' ||
    c == '\U{3000}' || c == '\U{FEFF}'
  }

  /** How much white space `s` starts with. */
  function LeadingSpace(s: string): (n: nat)
    ensures n <= |s|
    ensures forall k :: 0 <= k < n ==> IsSpace(s[k])
    ensures n < |s| ==> !IsSpace(s[n])
  {
    if s != [] && IsSpace(s[0]) then 1 + LeadingSpace(s[1..]) else 0
  }

  /** How much white space `s` ends with. */
  function TrailingSpace(s: string): (n: nat)
    ensures n <= |s|
    ensures forall k :: |s| - n <= k < |s| ==> IsSpace(s[k])
    ensures n < |s| ==> !IsSpace(s[|s| - n - 1])
  {
    if s != [] && IsSpace(s[|s| - 1]) then 1 + TrailingSpace(s[..|s| - 1]) else 0
  }

  /** `s.trim()`: what is left between the leading and the trailing white
      space; empty exactly when `s` is all white space. */
  function Trim(s: string): (r: string)
    ensures var i := LeadingSpace(s);
      i + |r| <= |s| && r == s[i..i + |r|] &&
      forall k :: i + |r| <= k < |s| ==> IsSpace(s[k])
    ensures r != [] ==> !IsSpace(r[0]) && !IsSpace(r[|r| - 1])
    ensures r == [] <==> forall k :: 0 <= k < |s| ==> IsSpace(s[k])
  {
    var i := LeadingSpace(s);
    if i == |s| then []
    else
      var j := |s| - TrailingSpace(s);
      assert i < j;
      s[i..j]
  }

  /** Trimming twice is trimming once. */
  lemma TrimIdempotent(s: string)
    ensures Trim(Trim(s)) == Trim(s)
  {
    var r := Trim(s);
    if r != [] {
      assert LeadingSpace(r) == 0;
      assert TrailingSpace(r) == 0;
      assert r[0..|r|] == r;
    }
  }

  // ---------------------------------------------------------------------
  // Captions

  /** `(prev ? prev + " " : "") + finalAppend.trim()`. */
  function AppendCaption(prev: string, finalAppend: string): (r: string)
    ensures prev <= r
    ensures |r| >= |Trim(finalAppend)| && r[|r| - |Trim(finalAppend)|..] == Trim(finalAppend)
    ensures prev == "" ==> r == Trim(finalAppend)
  {
    (if prev != "" then prev + " " else "") + Trim(finalAppend)
  }

  /** Captions only grow: the previous text is kept as a prefix, followed by a
      single separating space when it was non-empty, then the trimmed text. */
  lemma CaptionExtends(prev: string, finalAppend: string)
    ensures var next := AppendCaption(prev, finalAppend);
      var sep := if prev == "" then 0 else 1;
      |next| == |prev| + sep + |Trim(finalAppend)| &&
      next[..|prev|] == prev &&
      (prev != "" ==> next[|prev|] == ' ') &&
      next[|prev| + sep..] == Trim(finalAppend)
  {
  }

  // ---------------------------------------------------------------------
  // Recognition errors

  /** The kinds of message `onerror` can show. */
  datatype Notice = MicDenied | NoSpeech | NetworkFailure | Other(name: string)

  /** The text shown for each kind of message. */
  function Message(n: Notice): (r: string)
    ensures r != ""
    ensures n.Other? ==> |r| == 19 + |n.name| && r[..19] == "Recognition error: " && r[19..] == n.name
  {
    match n
    case MicDenied => "Microphone access denied. Please allow mic permissions."
    case NoSpeech => "No speech detected. Try speaking louder or closer to the mic."
    case NetworkFailure => "Network error with speech service. Check your connection."
    case Other(name) => "Recognition error: " + name
  }

  /** `evt?.error || "unknown"`. */
  function ErrorName(evtError: Option<string>): (name: string)
    ensures name != ""
    ensures Truthy(evtError) ==> name == evtError.value
    ensures !Truthy(evtError) ==> name == "unknown"
  {
    if evtError.Some? && evtError.value != "" then evtError.value else "unknown"
  }

  /** The message `onerror` shows for an error name; `None` when the error
      shown is left as it was. */
  function Classify(name: string): (r: Option<Notice>)
    ensures r.None? <==> name == "aborted"
    ensures r == Some(MicDenied) <==> name == "not-allowed" || name == "service-not-allowed"
    ensures r == Some(NoSpeech) <==> name == "no-speech"
    ensures r == Some(NetworkFailure) <==> name == "network"
    ensures r.Some? && r.value.Other? ==> r.value.name == name
  {
    if name == "not-allowed" || name == "service-not-allowed" then Some(MicDenied)
    else if name == "no-speech" then Some(NoSpeech)
    else if name == "network" then Some(NetworkFailure)
    else if name != "aborted" then Some(Other(name))
    else None
  }

  /** A name outside the known ones is shown verbatim after a fixed prefix, so
      different such names give different texts. */
  lemma OtherMessageNamesError(a: string, b: string)
    ensures |Message(Other(a))| == 19 + |a| && Message(Other(a))[19..] == a
    ensures Message(Other(a)) == Message(Other(b)) ==> a == b
  {
    if Message(Other(a)) == Message(Other(b)) {
      assert a == Message(Other(a))[19..] == Message(Other(b))[19..] == b;
    }
  }

  // ---------------------------------------------------------------------
  // Triggers

  /** The visibility handler returns at once while there is no audio
      context; past that it syncs only when a user id is known. */
  predicate SyncsOnVisibility(userId: Option<string>, audioContextOpen: bool)
    ensures SyncsOnVisibility(userId, audioContextOpen) <==> audioContextOpen && SyncsOnOnline(userId)
  {
    audioContextOpen && Truthy(userId)
  }

  /** The online handler syncs only when a user id is known. */
  predicate SyncsOnOnline(userId: Option<string>)
    ensures SyncsOnOnline(userId) ==> userId.Some? && userId.value != ""
    ensures userId.None? || userId == Some("") ==> !SyncsOnOnline(userId)
  {
    Truthy(userId)
  }

  // ---------------------------------------------------------------------
  // The screen's state

  class Captioner {
    var captions: string
    var interim: string
    var error: Option<string>
    var listening: bool
    var manualStop: bool
    const transcripts: TranscriptList
    const remote: RemoteAdapter

    ghost predicate Valid()
      reads this, transcripts, transcripts.store
    {
      transcripts.Valid()
    }

    constructor (transcripts: TranscriptList, remote: RemoteAdapter)
      requires transcripts.Valid()
      ensures Valid()
      ensures this.transcripts == transcripts && this.remote == remote
      ensures captions == "" && interim == "" && error == None && !listening && !manualStop
    {
      this.transcripts := transcripts;
      this.remote := remote;
      captions := "";
      interim := "";
      error := None;
      listening := false;
      manualStop := false;
    }

    /** `recognition.onresult`: when some final text arrived, extend the
        captions and `add` one record with the trimmed text and the current
        user id (`suffix` stands for the random id digits, `elapsed` for the
        time that passes inside `add`); in every case replace the interim
        text. */
    method OnResult(ev: ResultEvent, userId: Option<string>, suffix: string, elapsed: nat)
      requires Valid()
      modifies this`captions, this`interim, transcripts`items, transcripts.store`records, transcripts.store`clock
      ensures Valid()
      ensures interim == InterimText(Examined(ev))
      ensures var f := FinalText(Examined(ev));
        if f == "" then
          captions == old(captions) && transcripts.items == old(transcripts.items) &&
          transcripts.store.records == old(transcripts.store.records) &&
          transcripts.store.clock == old(transcripts.store.clock)
        else
          var t := NewTranscript(suffix, Trim(f), old(transcripts.store.clock), userId);
          captions == AppendCaption(old(captions), f) &&
          transcripts.items == [t] + old(transcripts.items) &&
          transcripts.store.clock == old(transcripts.store.clock) + elapsed &&
          transcripts.store.records == Put(old(transcripts.store.records), t, transcripts.store.clock)
    {
      var finalAppend, interimTranscript := SplitResults(ev);
      if finalAppend != "" {
        captions := (if captions != "" then captions + " " else "") + Trim(finalAppend);
        var _ := transcripts.Add(Trim(finalAppend), userId, suffix, elapsed);
      }
      interim := interimTranscript;
    }

    /** `recognition.onend`: restart unless stopped by hand or no longer
        listening. */
    method OnEnd() returns (restart: bool)
      ensures restart <==> !manualStop && listening
    {
      restart := !manualStop && listening;
    }

    /** `recognition.onerror`. */
    method OnError(evtError: Option<string>)
      modifies this`error
      ensures var n := Classify(ErrorName(evtError));
        error == if n.Some? then Some(Message(n.value)) else old(error)
    {
      var name := ErrorName(evtError);
      var n := Classify(name);
      if n.Some? {
        error := Some(Message(n.value));
      }
    }

    /** `handleClear`. */
    method HandleClear()
      modifies this`captions, this`interim
      ensures captions == "" && interim == ""
    {
      captions := "";
      interim := "";
    }

    /** The `visibilitychange` handler's sync step; the outcome is dropped,
        as `.catch(() => {})` does. */
    method OnVisibility(userId: Option<string>, audioContextOpen: bool, remoteFails: bool)
      requires Valid()
      modifies transcripts.store`records, remote
      ensures Valid()
      ensures if SyncsOnVisibility(userId, audioContextOpen) then
          var p := Reconcile(old(transcripts.store.records), userId, remoteFails);
          transcripts.store.records == p.records &&
          remote.calls == old(remote.calls) + (if p.batch.Some? then [p.batch.value] else [])
        else
          transcripts.store.records == old(transcripts.store.records) && remote.calls == old(remote.calls)
    {
      if !audioContextOpen {
        return;
      }
      if userId.Some? && userId.value != "" {
        var _ := PushUnsynced(transcripts.store, remote, userId, remoteFails);
      }
    }

    /** The `online` handler. */
    method OnOnline(userId: Option<string>, remoteFails: bool)
      requires Valid()
      modifies transcripts.store`records, remote
      ensures Valid()
      ensures if SyncsOnOnline(userId) then
          var p := Reconcile(old(transcripts.store.records), userId, remoteFails);
          transcripts.store.records == p.records &&
          remote.calls == old(remote.calls) + (if p.batch.Some? then [p.batch.value] else [])
        else
          transcripts.store.records == old(transcripts.store.records) && remote.calls == old(remote.calls)
    {
      if userId.Some? && userId.value != "" {
        var _ := PushUnsynced(transcripts.store, remote, userId, remoteFails);
      }
    }
  }
}
