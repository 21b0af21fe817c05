/** `speech_to_text_safe` and `continuous_recognition_wav_safe`: the gates a
    WAV path must pass before recognition, the single-shot attempt, and the
    fallback that collects text fragments from the recogniser's events while
    waiting at most 180 one-second ticks. The recogniser itself is outside the
    model: its single-shot result and the events it delivers are inputs. */
module Transcription {
  import opened Wrappers
  import opened PyStr
  import WavValidation

  /** Azure's limit on an input file: 100 MiB. */
  const MaxAzureBytes: nat := 100 * 1024 * 1024
  /** The continuous-recognition wait, in one-second ticks. */
  const MaxWaitSeconds: nat := 180

  datatype ResultReason = RecognizedSpeech | NoMatch | Canceled | OtherReason

  datatype RecognitionResult = RecognitionResult(reason: ResultReason, text: string)

  /** What `recognize_once_async().get()` gives back, or that it raised. */
  datatype SingleShot = Completed(result: RecognitionResult) | Raised

  /** The recogniser's events: `recognized`, `session_stopped` and `canceled`. */
  datatype RecognizerEvent = Recognized(result: RecognitionResult) | SessionStopped | Cancellation

  /** Why no transcript came back (the source returns None in every case and
      shows the matching error). */
  datatype SpeechFailure =
    | FileMissing
    | NotWavPath
    | SizeUnreadable
    | EmptyFile
    | TooLarge
    | AudioConfigFailed
    | RecognizerFailed
    | RecognitionCanceled
    | UnhandledReason
    | RecognitionRaised
    | ContinuousError
    | NothingRecognized

  // ---- the event fold of continuous recognition ----

  /** What `result_handler` keeps of one event: the stripped text of recognised
      speech, unless that is empty. */
  function FragmentOf(e: RecognizerEvent): (r: seq<string>)
    ensures |r| <= 1
    ensures r != [] <==> e.Recognized? && e.result.reason == RecognizedSpeech && !AllSpace(e.result.text)
    ensures r != [] ==> r[0] == Strip(e.result.text) && r[0] != [] && IsStripped(r[0])
  {
    if e.Recognized? && e.result.reason == RecognizedSpeech && Strip(e.result.text) != [] then [Strip(e.result.text)] else []
  }

  /** The fragments `results` holds after `events`, in arrival order. */
  function Fragments(events: seq<RecognizerEvent>): (r: seq<string>)
    ensures |r| <= |events|
    ensures forall i :: 0 <= i < |r| ==> r[i] != [] && IsStripped(r[i])
  {
    if events == [] then [] else Fragments(events[..|events| - 1]) + FragmentOf(events[|events| - 1])
  }

  /** Collecting is compositional: the fragments of a stream are those of its
      first part followed by those of the rest. */
  lemma {:induction false} FragmentsAppend(a: seq<RecognizerEvent>, b: seq<RecognizerEvent>)
    ensures Fragments(a + b) == Fragments(a) + Fragments(b)
    decreases |b|
  {
    if b == [] {
      assert a + b == a;
    } else {
      var b' := b[..|b| - 1];
      assert (a + b)[..|a + b| - 1] == a + b';
      assert (a + b)[|a + b| - 1] == b[|b| - 1];
      FragmentsAppend(a, b');
      ConcatAssoc(Fragments(a), Fragments(b'), FragmentOf(b[|b| - 1]));
    }
  }

  /** `stop_handler` or `error_handler` runs on this event: it sets `done`. */
  predicate EndsSession(e: RecognizerEvent) {
    e.SessionStopped? || e.Cancellation?
  }

  /** `done` after `events`, folded from the front as the handlers run. */
  predicate HasDone(events: seq<RecognizerEvent>) {
    events != [] && (HasDone(events[..|events| - 1]) || EndsSession(events[|events| - 1]))
  }

  /** `error_occurred` after `events`: only `error_handler` sets it. */
  predicate HasError(events: seq<RecognizerEvent>) {
    events != [] && (HasError(events[..|events| - 1]) || events[|events| - 1].Cancellation?)
  }

  /** The two flags, read off the stream: some event ended the session, or
      some event was a cancellation. */
  lemma {:induction false} FlagsMeanSomeEvent(events: seq<RecognizerEvent>)
    ensures HasDone(events) <==> exists i :: 0 <= i < |events| && EndsSession(events[i])
    ensures HasError(events) <==> exists i :: 0 <= i < |events| && events[i].Cancellation?
  {
    if events != [] {
      var init := events[..|events| - 1];
      FlagsMeanSomeEvent(init);
      assert forall i :: 0 <= i < |init| ==> init[i] == events[i];
    }
  }

  lemma {:induction false} FlagsAppend(a: seq<RecognizerEvent>, b: seq<RecognizerEvent>)
    ensures HasDone(a + b) <==> HasDone(a) || HasDone(b)
    ensures HasError(a + b) <==> HasError(a) || HasError(b)
    decreases |b|
  {
    if b == [] {
      assert a + b == a;
    } else {
      var b' := b[..|b| - 1];
      assert (a + b)[..|a + b| - 1] == a + b';
      assert (a + b)[|a + b| - 1] == b[|b| - 1];
      FlagsAppend(a, b');
    }
  }

  /** What the handlers leave behind: None on an error even when fragments
      were collected, None when nothing was collected, otherwise the fragments
      joined by single spaces, a non-empty string with no surrounding blanks. */
  function ContinuousOutcome(events: seq<RecognizerEvent>): (r: Result<string, SpeechFailure>)
    ensures r.Success? <==> !HasError(events) && Fragments(events) != []
    ensures HasError(events) ==> r == Failure(ContinuousError)
    ensures r.Success? ==> r.value == Join(" ", Fragments(events)) && r.value != [] && IsStripped(r.value)
  {
    var results := Fragments(events);
    if HasError(events) then Failure(ContinuousError)
    else if results == [] then Failure(NothingRecognized)
    else
      JoinStripped(" ", results);
      Success(Join(" ", results))
  }

  // ---- the bounded wait ----

  /** `arrivals[k]` are the events delivered before the loop guard is checked
      for the k-th time: `arrivals[0]` right after recognition starts, and
      `arrivals[k + 1]` during the k-th `time.sleep(1)`. The batch after the
      tick at which the loop exits is the one delivered while
      `stop_continuous_recognition()` runs. */
  function Batch(arrivals: seq<seq<RecognizerEvent>>, k: nat): seq<RecognizerEvent> {
    if k < |arrivals| then arrivals[k] else []
  }

  /** All events delivered by the time the guard is checked with `elapsed == t`. */
  function Delivered(arrivals: seq<seq<RecognizerEvent>>, t: nat): seq<RecognizerEvent> {
    if t == 0 then Batch(arrivals, 0) else Delivered(arrivals, t - 1) + Batch(arrivals, t)
  }

  /** The value of `elapsed` when the loop started at `e` exits: the first
      tick at which `done` holds, or 180. */
  function WaitFrom(arrivals: seq<seq<RecognizerEvent>>, e: nat): (t: nat)
    requires e <= MaxWaitSeconds
    ensures e <= t <= MaxWaitSeconds
    ensures t == MaxWaitSeconds || HasDone(Delivered(arrivals, t))
    ensures forall k :: e <= k < t ==> !HasDone(Delivered(arrivals, k))
    decreases MaxWaitSeconds - e
  {
    if e == MaxWaitSeconds || HasDone(Delivered(arrivals, e)) then e else WaitFrom(arrivals, e + 1)
  }

  function StopTick(arrivals: seq<seq<RecognizerEvent>>): nat {
    WaitFrom(arrivals, 0)
  }

  /** Everything the handlers have seen when the flags and the fragments are
      read: the events up to the exit tick and those of the stop call. */
  function Handled(arrivals: seq<seq<RecognizerEvent>>): seq<RecognizerEvent> {
    Delivered(arrivals, StopTick(arrivals) + 1)
  }

  lemma ConcatAssoc<T>(a: seq<T>, b: seq<T>, c: seq<T>)
    ensures (a + b) + c == a + (b + c)
  {
  }

  lemma SliceSnoc<T>(s: seq<T>, i: nat)
    requires i < |s|
    ensures s[..i + 1] == s[..i] + [s[i]]
  {
  }

  /** The effect of one more event on the fold. */
  lemma AppendEvent(s: seq<RecognizerEvent>, evt: RecognizerEvent)
    ensures Fragments(s + [evt]) == Fragments(s) + FragmentOf(evt)
    ensures HasDone(s + [evt]) <==> HasDone(s) || EndsSession(evt)
    ensures HasError(s + [evt]) <==> HasError(s) || evt.Cancellation?
  {
    assert (s + [evt])[..|s|] == s;
  }

  /** The handler the recogniser calls for one event: `result_handler`,
      `stop_handler` or `error_handler`. */
  method HandleEvent(evt: RecognizerEvent, results: seq<string>, done: bool, errorOccurred: bool)
    returns (results': seq<string>, done': bool, errorOccurred': bool)
    ensures results' == results + FragmentOf(evt)
    ensures done' == (done || EndsSession(evt))
    ensures errorOccurred' == (errorOccurred || evt.Cancellation?)
  {
    results', done', errorOccurred' := results, done, errorOccurred;
    match evt {
      case Recognized(result) =>
        if result.reason == RecognizedSpeech {
          var text := Strip(result.text);
          if text != [] {
            results' := results' + [text];
          }
        }
      case SessionStopped =>
        done' := true;
      case Cancellation =>
        errorOccurred' := true;
        done' := true;
    }
  }

  /** Runs the handlers on each event of `batch`, in order. */
  method DispatchEvents(batch: seq<RecognizerEvent>, results: seq<string>, done: bool, errorOccurred: bool)
    returns (results': seq<string>, done': bool, errorOccurred': bool)
    ensures results' == results + Fragments(batch)
    ensures done' == (done || HasDone(batch))
    ensures errorOccurred' == (errorOccurred || HasError(batch))
  {
    results', done', errorOccurred' := results, done, errorOccurred;
    var i := 0;
    ghost var seen: seq<RecognizerEvent> := [];
    while i < |batch|
      invariant 0 <= i <= |batch| && seen == batch[..i]
      invariant results' == results + Fragments(seen)
      invariant done' == (done || HasDone(seen))
      invariant errorOccurred' == (errorOccurred || HasError(seen))
    {
      var evt := batch[i];
      AppendEvent(seen, evt);
      ConcatAssoc(results, Fragments(seen), FragmentOf(evt));
      results', done', errorOccurred' := HandleEvent(evt, results', done', errorOccurred');
      SliceSnoc(batch, i);
      seen := seen + [evt];
      i := i + 1;
    }
    assert seen == batch;
  }

  /** The wait of lines 296-306: the handlers run on the events of each
      second until `done` holds or `MaxWaitSeconds` ticks have passed. The
      state it leaves is the fold over everything delivered up to the exit. */
  method WaitForDone(arrivals: seq<seq<RecognizerEvent>>)
    returns (results: seq<string>, done: bool, errorOccurred: bool, elapsed: nat)
    ensures elapsed == StopTick(arrivals) && elapsed <= MaxWaitSeconds
    ensures elapsed == MaxWaitSeconds || HasDone(Delivered(arrivals, elapsed))
    ensures results == Fragments(Delivered(arrivals, elapsed))
    ensures done == HasDone(Delivered(arrivals, elapsed))
    ensures errorOccurred == HasError(Delivered(arrivals, elapsed))
  {
    results, done, errorOccurred := DispatchEvents(Batch(arrivals, 0), [], false, false);
    elapsed := 0;
    while !done && elapsed < MaxWaitSeconds
      invariant elapsed <= MaxWaitSeconds
      invariant results == Fragments(Delivered(arrivals, elapsed))
      invariant done == HasDone(Delivered(arrivals, elapsed))
      invariant errorOccurred == HasError(Delivered(arrivals, elapsed))
      invariant WaitFrom(arrivals, elapsed) == StopTick(arrivals)
      decreases MaxWaitSeconds - elapsed
    {
      // time.sleep(1): the events of this second arrive
      var batch := Batch(arrivals, elapsed + 1);
      results, done, errorOccurred := DispatchEvents(batch, results, done, errorOccurred);
      FragmentsAppend(Delivered(arrivals, elapsed), batch);
      FlagsAppend(Delivered(arrivals, elapsed), batch);
      elapsed := elapsed + 1;
    }
  }

  /** `continuous_recognition_wav_safe`: handlers accumulate while the loop
      waits for `done`, at most `MaxWaitSeconds` ticks; the handlers stay
      connected while recognition is stopped, so the result is decided by the
      events delivered up to the exit and during the stop call. Also returns
      the final `elapsed`. */
  method ContinuousRecognitionWavSafe(arrivals: seq<seq<RecognizerEvent>>)
    returns (r: Result<string, SpeechFailure>, elapsed: nat)
    ensures elapsed == StopTick(arrivals) && elapsed <= MaxWaitSeconds
    ensures elapsed == MaxWaitSeconds || HasDone(Delivered(arrivals, elapsed))
    ensures r == ContinuousOutcome(Handled(arrivals))
  {
    var results, done, errorOccurred;
    results, done, errorOccurred, elapsed := WaitForDone(arrivals);
    // stop_continuous_recognition(): the last events arrive
    var last := Batch(arrivals, elapsed + 1);
    results, done, errorOccurred := DispatchEvents(last, results, done, errorOccurred);
    HandledAfterStop(arrivals, elapsed);
    ghost var handled := Handled(arrivals);
    assert results == Fragments(handled) && errorOccurred == HasError(handled);
    OutcomeFromState(handled, results, errorOccurred);
    if errorOccurred {
      r := Failure(ContinuousError);
    } else if results != [] {
      var fullText := Join(" ", results);
      r := Success(fullText);
    } else {
      r := Failure(NothingRecognized);
    }
    assert r == ContinuousOutcome(handled);
  }

  /** What the handlers have seen at the end: the fold up to the exit tick,
      extended by the stop-call batch. */
  lemma HandledAfterStop(arrivals: seq<seq<RecognizerEvent>>, t: nat)
    requires t == StopTick(arrivals)
    ensures Handled(arrivals) == Delivered(arrivals, t) + Batch(arrivals, t + 1)
    ensures Fragments(Handled(arrivals)) == Fragments(Delivered(arrivals, t)) + Fragments(Batch(arrivals, t + 1))
    ensures HasError(Handled(arrivals)) <==> HasError(Delivered(arrivals, t)) || HasError(Batch(arrivals, t + 1))
  {
    FragmentsAppend(Delivered(arrivals, t), Batch(arrivals, t + 1));
    FlagsAppend(Delivered(arrivals, t), Batch(arrivals, t + 1));
  }

  /** The outcome read off the handlers' state after a stream of events. */
  lemma OutcomeFromState(events: seq<RecognizerEvent>, results: seq<string>, errorOccurred: bool)
    requires results == Fragments(events) && errorOccurred == HasError(events)
    ensures ContinuousOutcome(events)
         == if errorOccurred then Failure(ContinuousError)
            else if results != [] then Success(Join(" ", results))
            else Failure(NothingRecognized)
  {
  }

  /** When nothing is ever delivered the wait runs its full 180 ticks and no
      transcript comes back. */
  lemma {:induction false} SilentStreamTimesOut(arrivals: seq<seq<RecognizerEvent>>)
    requires forall k :: 0 <= k < |arrivals| ==> arrivals[k] == []
    ensures StopTick(arrivals) == MaxWaitSeconds
    ensures ContinuousOutcome(Handled(arrivals)) == Failure(NothingRecognized)
  {
    forall t: nat | t <= MaxWaitSeconds + 1 ensures Delivered(arrivals, t) == [] {
      NothingDelivered(arrivals, t);
    }
    var t := StopTick(arrivals);
    assert Delivered(arrivals, t + 1) == [];
  }

  lemma {:induction false} NothingDelivered(arrivals: seq<seq<RecognizerEvent>>, t: nat)
    requires forall k :: 0 <= k <= t && k < |arrivals| ==> arrivals[k] == []
    ensures Delivered(arrivals, t) == []
  {
    if t > 0 {
      NothingDelivered(arrivals, t - 1);
    }
  }

  /** A fragment recognised while recognition is being stopped still counts:
      after a silent wait that times out, a last "hello" is the transcript. */
  lemma LateFragmentCounts(arrivals: seq<seq<RecognizerEvent>>)
    requires |arrivals| == MaxWaitSeconds + 2
    requires forall k :: 0 <= k <= MaxWaitSeconds ==> arrivals[k] == []
    requires arrivals[MaxWaitSeconds + 1] == [Recognized(RecognitionResult(RecognizedSpeech, "hello"))]
    ensures StopTick(arrivals) == MaxWaitSeconds
    ensures ContinuousOutcome(Handled(arrivals)) == Success("hello")
  {
    var t := SilentWaitEnds(arrivals);
    var evt := Recognized(RecognitionResult(RecognizedSpeech, "hello"));
    assert Handled(arrivals) == [evt] by {
      assert Handled(arrivals) == Delivered(arrivals, t) + Batch(arrivals, t + 1);
    }
    HelloHeard();
  }

  lemma HelloHeard()
    ensures ContinuousOutcome([Recognized(RecognitionResult(RecognizedSpeech, "hello"))]) == Success("hello")
  {
    var evt := Recognized(RecognitionResult(RecognizedSpeech, "hello"));
    HelloIsStripped();
    assert [evt][..0] == [];
    assert FragmentOf(evt) == ["hello"];
    assert Fragments([evt]) == Fragments([]) + ["hello"];
    assert !HasError([evt]);
    assert Join(" ", ["hello"]) == "hello";
  }

  /** A stream silent up to tick 180 times out there, having delivered nothing. */
  lemma SilentWaitEnds(arrivals: seq<seq<RecognizerEvent>>) returns (t: nat)
    requires forall k :: 0 <= k <= MaxWaitSeconds && k < |arrivals| ==> arrivals[k] == []
    ensures t == StopTick(arrivals) == MaxWaitSeconds
    ensures Delivered(arrivals, t) == []
  {
    forall k: nat | k <= MaxWaitSeconds ensures Delivered(arrivals, k) == [] {
      NothingDelivered(arrivals, k);
    }
    t := StopTick(arrivals);
    assert !HasDone(Delivered(arrivals, t));
  }

  lemma HelloIsStripped()
    ensures Strip("hello") == "hello"
  {
    assert !IsSpace('h') && !IsSpace('o');
    assert StripStart("hello") == 0;
    assert StripEnd("hello") == 5;
  }

  /** The exit tick depends only on the events delivered up to it, and the
      outcome only on those and the events of the stop call: two streams that
      agree on these batches of one stop at the same tick and handle the same
      events. Batches the model delivers later never count. */
  lemma OnlyEventsBeforeStopCount(a: seq<seq<RecognizerEvent>>, b: seq<seq<RecognizerEvent>>)
    requires forall k: nat :: k <= StopTick(a) + 1 ==> Batch(a, k) == Batch(b, k)
    ensures StopTick(b) == StopTick(a)
    ensures Handled(b) == Handled(a)
  {
    var t := StopTick(a) + 1;
    forall k: nat | k <= t ensures Delivered(b, k) == Delivered(a, k) {
      DeliveredAgree(a, b, k, t);
    }
    WaitAgrees(a, b, 0, StopTick(a), t);
  }

  lemma {:induction false} DeliveredAgree(a: seq<seq<RecognizerEvent>>, b: seq<seq<RecognizerEvent>>, k: nat, t: nat)
    requires k <= t
    requires forall j: nat :: j <= t ==> Batch(a, j) == Batch(b, j)
    ensures Delivered(b, k) == Delivered(a, k)
  {
    if k > 0 {
      DeliveredAgree(a, b, k - 1, t);
    }
  }

  lemma {:induction false} WaitAgrees(a: seq<seq<RecognizerEvent>>, b: seq<seq<RecognizerEvent>>, e: nat, t: nat, u: nat)
    requires e <= t <= MaxWaitSeconds && t <= u
    requires WaitFrom(a, e) == t
    requires forall k: nat :: k <= u ==> Delivered(b, k) == Delivered(a, k)
    ensures WaitFrom(b, e) == t
    decreases t - e
  {
    if e < t {
      assert !HasDone(Delivered(a, e));
      WaitAgrees(a, b, e + 1, t, u);
    }
  }

  // ---- speech_to_text_safe ----

  /** The checks on the file before any recogniser is built: it exists, its
      path ends in `.wav` in any case, and its size could be read and lies in
      1 byte .. 100 MiB. */
  predicate FileAccepted(path: string, fileExists: bool, fileSize: Option<nat>): (b: bool)
    ensures b <==> && fileExists
                   && |path| >= 4 && path[|path| - 4] == '.' && path[|path| - 3] in "wW"
                   && path[|path| - 2] in "aA" && path[|path| - 1] in "vV"
                   && fileSize.Some? && 1 <= fileSize.value <= 104857600
  {
    && fileExists
    && WavValidation.HasWavSuffix(path)
    && fileSize.Some? && 0 < fileSize.value <= MaxAzureBytes
  }

  /** `speech_to_text_safe(wav_file_path, speech_config)`. File-system facts
      (`fileExists`, `fileSize`, None when `getsize` raised), whether the SDK
      built the audio configuration and the recogniser, the single-shot result
      and the events continuous recognition would deliver are inputs. */
  method SpeechToTextSafe(
    path: string, fileExists: bool, fileSize: Option<nat>,
    audioConfigOk: bool, recognizerOk: bool,
    once: SingleShot, arrivals: seq<seq<RecognizerEvent>>)
    returns (r: Result<string, SpeechFailure>)
    // a transcript is only ever produced for an accepted file and a working recogniser
    ensures r.Success? ==> FileAccepted(path, fileExists, fileSize) && audioConfigOk && recognizerOk
    // and it is never blank and never padded
    ensures r.Success? ==> r.value != [] && IsStripped(r.value)
    // the gates, in the order they run
    ensures !fileExists ==> r == Failure(FileMissing)
    ensures fileExists && !WavValidation.HasWavSuffix(path) ==> r == Failure(NotWavPath)
    ensures fileExists && WavValidation.HasWavSuffix(path) && fileSize == None ==> r == Failure(SizeUnreadable)
    ensures fileExists && WavValidation.HasWavSuffix(path) && fileSize == Some(0) ==> r == Failure(EmptyFile)
    ensures fileExists && WavValidation.HasWavSuffix(path) && fileSize.Some? && fileSize.value > MaxAzureBytes ==> r == Failure(TooLarge)
    ensures FileAccepted(path, fileExists, fileSize) && !audioConfigOk ==> r == Failure(AudioConfigFailed)
    ensures FileAccepted(path, fileExists, fileSize) && audioConfigOk && !recognizerOk ==> r == Failure(RecognizerFailed)
    // what the single-shot result decides once the gates pass
    ensures FileAccepted(path, fileExists, fileSize) && audioConfigOk && recognizerOk ==>
      match once
      case Raised => r == Failure(RecognitionRaised)
      case Completed(result) =>
        match result.reason
        case RecognizedSpeech =>
          if |Strip(result.text)| > 1 then r == Success(Strip(result.text))
          else r == ContinuousOutcome(Handled(arrivals))
        case NoMatch => r == ContinuousOutcome(Handled(arrivals))
        case Canceled => r == Failure(RecognitionCanceled)
        case OtherReason => r == Failure(UnhandledReason)
  {
    if !fileExists {
      return Failure(FileMissing);
    }
    if !EndsWith(Lower(path), ".wav") {
      return Failure(NotWavPath);
    }
    if fileSize.None? {
      return Failure(SizeUnreadable);
    }
    if fileSize.value == 0 {
      return Failure(EmptyFile);
    }
    if fileSize.value > MaxAzureBytes {
      return Failure(TooLarge);
    }
    if !audioConfigOk {
      return Failure(AudioConfigFailed);
    }
    if !recognizerOk {
      return Failure(RecognizerFailed);
    }
    match once {
      case Raised =>
        return Failure(RecognitionRaised);
      case Completed(result) =>
        match result.reason {
          case RecognizedSpeech =>
            var recognizedText := Strip(result.text);
            if |recognizedText| > 1 {
              return Success(recognizedText);
            }
            var elapsed;
            r, elapsed := ContinuousRecognitionWavSafe(arrivals);
          case NoMatch =>
            var elapsed;
            r, elapsed := ContinuousRecognitionWavSafe(arrivals);
          case Canceled =>
            return Failure(RecognitionCanceled);
          case OtherReason =>
            // no branch of the source matches: the function falls off its end
            return Failure(UnhandledReason);
        }
    }
  }
}
