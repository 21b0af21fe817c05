# WAV intake and transcript assembly of the meeting-speech utilities

A Dafny model of the decision logic in `utils/speech_utils.py`. This is the
part of the application that decides whether an uploaded recording is taken
and how a transcript is put together from Azure Speech results. The model
covers:

- **Quality scorer** (`check_wav_quality_for_azure`). A score starts at 100.
  Each of three header fields (channels, sample width, frame rate) moves it
  by a fixed amount. Each penalty adds one recommendation. A file scoring at
  least 90 counts as optimised for Azure.
- **Upload gate** (`validate_wav_file_only`). The file name must have the
  extension `.wav` in any letter case, as `os.path.splitext` finds it. The
  temporary copy must be writable, and `wave` must be able to read its
  header. Format warnings are shown but never reject a file.
- **Transcriber gates** (`speech_to_text_safe`). The file must exist, its
  path must end in `.wav`, and its size must lie between 1 byte and 100 MiB.
  Then the audio configuration and the recogniser are built. A single-shot
  result whose stripped text is longer than one character is returned.
  Shorter text and "no match" fall back to continuous recognition. A
  cancelled result gives nothing.
- **Continuous recognition** (`continuous_recognition_wav_safe`). Event
  handlers collect the non-empty stripped fragments in arrival order and set
  the `done` and `error_occurred` flags. A polling loop waits at most 180
  one-second ticks. The result is the fragments joined by single spaces. It
  is nothing when an error event arrived (even with fragments) or when no
  fragment arrived.

Modules:

- `Wrappers`: `Option` and `Result`.
- `PyStr`: the Python string built-ins the code relies on: `str.strip()`,
  `str.lower()`, `str.endswith`, POSIX `os.path.splitext`, `rfind` and
  `str.join`.
- `WavFormat`: the header fields `wave` reports, or the error it raised.
- `WavQuality`: the scorer.
- `WavValidation`: the upload gate and its warnings.
- `Transcription`: the transcriber gates and continuous recognition.

`speech_to_text_safe` and `continuous_recognition_wav_safe` return `None`
on failure; here they return `Failure(reason)`. Each reason names the error
the source displays, except `UnhandledReason`. That one is the model's own
label for a single-shot result whose reason no branch of lines 221-247
matches: the source then falls off the end of its `try` and returns `None`
without a message. `validate_wav_file_only` returns a path or `None` with a
flag, and so does its model, with the displayed warnings alongside.
The scorer and the warning list are each written twice:

- a method that updates its variables check by check, as the source does;
- a declarative function: a filter over the fixed check order.

The method's contract ties it to the function, and the properties are proved
about the function. Continuous recognition likewise has methods for the
handlers and the wait loop. They are proved equal to a fold over the
delivered events and to the first tick at which `done` holds.

Inputs stand in for what the code gets from outside:

- the file system: existence, size, and whether the temporary copy could be
  written;
- the `wave` module: the header fields, or an error;
- the Speech SDK: whether the audio configuration and the recogniser could
  be built, the single-shot result, the events delivered before each check
  of the wait loop, and those delivered while recognition is being stopped.

## Model

| member | source | states |
|---|---|---|
| PyStr.Strip | utils/speech_utils.py:222 | `text.strip()`: only whitespace is removed from either end; the result neither begins nor ends with whitespace; it is empty exactly when the input is all whitespace |
| PyStr.StripFixedPoint | utils/speech_utils.py:270 | a string is left unchanged by `strip()` exactly when it is already stripped, and stripping twice equals stripping once |
| PyStr.Lower | utils/speech_utils.py:72 | `lower()` keeps the length and lowers each character on its own |
| PyStr.RFind | utils/speech_utils.py:72 | the index `splitext` searches for is the last occurrence of the character, or -1 when there is none |
| PyStr.SplitExt | utils/speech_utils.py:72 | `os.path.splitext`: root and extension concatenate to the name; the extension is empty or one dot followed by no dot and no `/` |
| PyStr.Join | utils/speech_utils.py:318 | `" ".join(results)`: empty for no parts; begins with the first part and ends with the last; its length is the parts' lengths plus one separator between neighbours |
| PyStr.JoinStripped | utils/speech_utils.py:317-321 | joining non-empty stripped fragments gives a non-empty string with no surrounding whitespace |
| WavQuality.ApplicableInCheckOrder | utils/speech_utils.py:347-364 | the recommendation list is one optional entry per check, in the order channels, sample width, low rate, high rate |
| WavQuality.ScoreRange | utils/speech_utils.py:343-364 | the unclamped score lies in [25, 125], and 125 is reached only by mono, 16-bit, 16 kHz |
| WavQuality.RecommendationsFollowPenalties | utils/speech_utils.py:347-364 | each recommendation is present exactly when its field's adjustment is a penalty |
| WavQuality.RecommendationsBoundScore | utils/speech_utils.py:347-364 | with no recommendation the score is at least 100; with one it is at most 100 |
| WavQuality.RecommendationsInOrder | utils/speech_utils.py:347-364 | at most three recommendations, strictly in check order |
| WavQuality.QualityOf | utils/speech_utils.py:337-377 | for a readable header: score in [25, 125], so the clamp at 0 never changes it; top score only for mono, 16-bit, 16 kHz; optimised iff score >= 90; recommendations exactly for the penalties, at most three, in check order. For an unreadable file: score 0, the single failure recommendation, not optimised |
| WavQuality.CheckWavQualityForAzure | utils/speech_utils.py:337-377 | the step-by-step scorer returns exactly the report `QualityOf` describes |
| WavQuality.OptimizedWithRecommendation | utils/speech_utils.py:343-369 | mono, 8-bit, 16 kHz, of any length, scores 95, is optimised and is still told to convert to 16-bit |
| WavQuality.MonoBelowThresholdAt8kHz | utils/speech_utils.py:343-369 | mono, 16-bit, 8 kHz, of any length, scores 85, is not optimised and is told to upsample |
| WavQuality.WorstScore | utils/speech_utils.py:343-367 | the score is 25 exactly for more than two channels, a width other than two bytes and a rate below 16 kHz |
| WavValidation.HasWavExtension | utils/speech_utils.py:72-75 | the upload gate's extension test: the extension `splitext` finds is four characters, a dot followed by w, a, v in either case |
| WavValidation.HasWavSuffix | utils/speech_utils.py:153 | the transcriber's suffix test: the path's last four characters are a dot followed by w, a, v in either case |
| WavValidation.CaseInsensitiveWav | utils/speech_utils.py:72 | a string lowers to `.wav` exactly when it is a dot followed by w, a, v in either case |
| WavValidation.ExtensionGivesSuffix | utils/speech_utils.py:72-75 | a name the upload gate accepts ends in `.wav` (any case) and has a base name that is not only dots |
| WavValidation.SuffixGivesExtension | utils/speech_utils.py:72-75 | a name ending in `.wav` with such a base name is accepted by the upload gate |
| WavValidation.ExtensionVersusSuffix | utils/speech_utils.py:72-75 | the upload gate's extension test holds iff the transcriber's suffix test holds and the base name in front of the suffix is not only dots |
| WavValidation.UpperCaseExtensionAccepted | utils/speech_utils.py:72-75 | `A.WAV` has the extension `.wav` |
| WavValidation.BareExtensionRefused | utils/speech_utils.py:72-75 | the name `.wav` passes the suffix test but has no extension, so the upload gate refuses it |
| WavValidation.FiringInWarningOrder | utils/speech_utils.py:104-112 | the warning list is one optional entry per check, in check order |
| WavValidation.WarningsFor | utils/speech_utils.py:104-112 | a warning is present iff its condition holds; at most three, and at most one about the frame rate; none exactly for at most two channels, 16-bit and 16-48 kHz |
| WavValidation.CollectOptimizationWarnings | utils/speech_utils.py:104-112 | the warnings appended check by check are exactly `WarningsFor` |
| WavValidation.FiringMirrorsApplicable | utils/speech_utils.py:104-112 | filtering warnings and translating them to recommendations is the same as translating the check order and filtering recommendations |
| WavValidation.WarningsMirrorRecommendations | utils/speech_utils.py:104-112 | the upload warnings correspond one to one to the scorer's recommendations for the same header; a warning-free file scores at least 100, a warned one at most 100 |
| WavValidation.ValidateWavFileOnly | utils/speech_utils.py:69-141 | a path is returned iff the flag is true; true iff the extension test passes, the copy was written, the header was read and its frame rate is non-zero (a zero rate raises in the duration division); the returned path is the copy; the warnings never cause a rejection |
| Transcription.FragmentOf | utils/speech_utils.py:268-273 | `result_handler` keeps at most one fragment per event: one exactly for recognised speech whose text is not all whitespace, and then the stripped text |
| Transcription.Fragments | utils/speech_utils.py:268-273 | the collected fragments are at most one per event, each non-empty and stripped |
| Transcription.FragmentsAppend | utils/speech_utils.py:268-273 | the fragments of a stream are those of its first part followed by those of the rest |
| Transcription.FlagsMeanSomeEvent | utils/speech_utils.py:275-284 | `done` holds iff some event stopped or cancelled the session; `error_occurred` holds iff some event was a cancellation |
| Transcription.FlagsAppend | utils/speech_utils.py:275-284 | each flag over a concatenated stream is the disjunction of the flag over its parts |
| Transcription.ContinuousOutcome | utils/speech_utils.py:313-330 | a transcript comes back iff no error occurred and some fragment was collected; on an error the outcome is the error; a transcript is the space join of the fragments, non-empty and stripped |
| Transcription.WaitFrom | utils/speech_utils.py:296-304 | the loop started at tick `e` stops at or after `e` and at most at 180; at 180 or at a tick where `done` holds; and at no earlier tick did `done` hold |
| Transcription.AppendEvent | utils/speech_utils.py:268-284 | one more event adds its fragment and may only set the flags |
| Transcription.HandleEvent | utils/speech_utils.py:268-284 | a handler appends the event's fragment, sets `done` on a stop or cancellation, and sets `error_occurred` on a cancellation |
| Transcription.DispatchEvents | utils/speech_utils.py:268-284 | running the handlers over a batch extends the fragments and the flags exactly as the fold over that batch does |
| Transcription.WaitForDone | utils/speech_utils.py:296-306 | the wait exits at the first tick where `done` holds, or at 180, leaving the fragments and flags of the fold over every event delivered up to that tick |
| Transcription.ContinuousRecognitionWavSafe | utils/speech_utils.py:261-330 | the loop exits at the first tick where `done` holds, or at 180; the handlers stay connected through the stop call at line 309, so the result is the outcome of the fold over the events delivered up to the exit and during the stop call |
| Transcription.LateFragmentCounts | utils/speech_utils.py:302-321 | after a silent wait that times out at 180, a fragment recognised during the stop call is still returned as the transcript |
| Transcription.SilentStreamTimesOut | utils/speech_utils.py:296-330 | if no event is ever delivered, the loop waits the full 180 ticks and no transcript comes back |
| Transcription.OnlyEventsBeforeStopCount | utils/speech_utils.py:296-321 | in the model's delivery schedule, where the tick stops and what is handled depend only on the batches up to the exit tick and the stop-call batch |
| Transcription.FileAccepted | utils/speech_utils.py:148-165 | the file gates pass exactly when the file exists, its path ends in a dot and w, a, v in either case, and its size could be read and lies in 1 .. 104857600 bytes |
| Transcription.SpeechToTextSafe | utils/speech_utils.py:144-251 | a transcript needs an accepted file (exists, `.wav` suffix in any case, size 1 byte to 100 MiB) and a working recogniser, and is non-empty and stripped; each gate failure gives its own reason, in the source's order; a recognised text longer than one character is returned stripped; shorter text or no match gives the continuous outcome; cancelled, unknown reason and a raised call give failures |

## Left out

- The Azure Speech SDK (`SpeechConfig`, `AudioConfig`, `SpeechRecognizer`, `recognize_once_async`, event wiring, starting and stopping continuous recognition) is foreign code. Its effects are inputs: whether construction succeeded, the single-shot result, and the event batches.
- Callback threads and `time.sleep` are concurrency. The model has each batch of events arrive before a check of the loop guard, plus one batch during `stop_continuous_recognition()`, and runs the handlers on each batch in order. An event racing with the guard check is not modelled.
- Transcription.ContinuousRecognitionWavSafe: an event handled after the stop call returns is not modelled. Such an event could arrive between reading `error_occurred` (line 313) and reading `results` (line 317).
- Transcription.OnlyEventsBeforeStopCount: this is a fact of the model's delivery schedule. In the program, a handler could still run after line 309 and change what lines 313 and 317 read.
- File-system calls (`NamedTemporaryFile`, `write`, `os.unlink`, `os.path.exists`, `os.path.getsize`, `os.path.abspath`) are I/O. Their results are inputs. The deletion of the copy after a header error is not modelled.
- The parsing of the RIFF WAVE header by Python's `wave` module is a foreign library. Its result is a `HeaderRead` input.
- Floating-point values feed no decision: the duration `frames / frame_rate`, the progress fraction and the size in MB. Only the division's failure on a zero frame rate is modelled.
- Every `st.error`, `st.warning`, `st.info`, `st.success` and `st.progress` call is display only. The cancellation details and the SDK error text shown on a failure are display only too.
- `init_speech_config` only builds an SDK object and shows diagnostics. `validate_and_prepare_audio` (utils/speech_utils.py:380-382) is an alias of `validate_wav_file_only` with nothing of its own to model.
- An exception raised inside continuous recognition (utils/speech_utils.py:332-334) comes from SDK calls that are not modelled. The same holds for an exception raised by the single-shot SDK call after it returned. Only `recognize_once_async` itself raising is modelled, as `Raised`.
- PyStr.Lower: lowers ASCII letters only. No other character lowers to `.`, `w`, `a` or `v`, so the `.wav` comparisons give the same answer as Python's full Unicode lowering.
- PyStr.SplitExt: follows the POSIX rules of `os.path.splitext`. Windows drive letters and `\` separators are not modelled.
- `utils/langfuse_monitor.py`, `langchain_utils.py`, `Home.py` and the pages are not part of this model. They hold instrumentation, client construction and page glue. The React samples under `result_docs/` and `test_data/` have no decision logic.
