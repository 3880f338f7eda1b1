# Talk2Type transcript session — a verified Dafny model

Talk2Type is a browser page that turns speech into text. A speech-recognition
engine delivers batches of results. Each result is tagged final or interim.
The page keeps the final text in `finalTranscript` and shows that text, followed by
the current interim text, in an editable transcript element. Under the
element it shows a word count and a character count. While the engine
listens, a timer label shows the elapsed time as "mm:ss".

The model has five modules:

- `Counts` (counts.dfy) covers `updateCounts`. `Trim` is `String.prototype.trim`.
  `Split` is `split(/\s+/)`, with white space given as the exact character set
  that JavaScript's `\s` and `trim` share. `WordCount` and `CharCount` are the
  two counts shown. `CharCount` measures length as JavaScript's `length` does, in
  UTF-16 code units (`Utf16Length`), so a character from U+10000 up counts 2. `RunCount` is an independent reference: a left-to-right
  scan that counts the starts of maximal runs of non-space characters.
- `TimeFormat` (time_format.dfy) covers `formatTime` on a given millisecond count.
  `ParseTime` is its partner: it reads a label back.
- `Transcript` (transcript.dfy) covers the result batches an `onresult` event carries,
  and the final and interim texts a batch contributes.
- `SessionSpec` (session_spec.dfy) holds the session as a value. Each handler is a
  function from the state before to the state after, plus what it asks of the engine.
  It also defines sequences of user and engine events, and lemmas over single
  handlers and over whole runs.
- `Controller` (session.dfy) holds the class `TranscriptSession`. Its fields are
  the module-level variables `recognition` (as whether it exists), `listening` and
  `finalTranscript`, the language the engine was started with, and the texts of
  the transcript and count elements, and its methods update them in place. Each handler is proved to
  yield exactly the `SessionSpec` result. Each also keeps the counts shown equal
  to the counts of the displayed text. The `onresult` loop is the method
  `CollectBatch`, with its invariants.

Three details of the code shape the model:

- The character count is the length of the *trimmed* text (`script.js:27,29`), not of the raw display.
- `onend` only clears `listening` (`script.js:80-85`). The last interim text stays on display.
- `startListening` has no guard against being called while listening.
  Only `toggleListening` dispatches on `listening` (`script.js:94-96`).

## Model

| member | source | states |
|---|---|---|
| Counts.Trim | script.js:27 | `text.trim()`: leading, then trailing white space removed; `TrimFacts` gives what it yields |
| Counts.TrimStartFacts | script.js:27 | removing leading white space leaves the suffix after a run of white space, which is empty or starts with a non-space |
| Counts.TrimEndFacts | script.js:27 | removing trailing white space leaves the prefix before a run of white space, which is empty or ends with a non-space |
| Counts.WordFacts | script.js:28 | the first piece of a split is the longest prefix without white space |
| Counts.TrimFacts | script.js:27 | `trim()` yields the infix of the text that has only white space before and after it; it is empty exactly for an all-white-space text and otherwise starts and ends with a non-space |
| Counts.Utf16Length | script.js:29 | `length` counts UTF-16 code units, at least one per character |
| Counts.Utf16LengthAppend | script.js:29 | the code units of a concatenation are those of its parts |
| Counts.Utf16LengthBasic | script.js:29 | a text without characters from U+10000 up has exactly one code unit per character |
| Counts.CharCountFacts | script.js:27-29 | the character count is at most the raw text's `length`, 0 exactly for blank text, and the full `length` exactly when the text neither starts nor ends with white space |
| Counts.Split | script.js:28 | `split(/\s+/)`: always at least one piece; the first piece is `Word`, and the rest split what follows the next white-space run; `SplitCount` counts them |
| Counts.WordCount | script.js:27-28 | the number of words shown: 0 when the trimmed text is empty, else the number of pieces of the trimmed text; `WordCountZero` and `WordCountIsRunCount` state its value |
| Counts.CharCount | script.js:27-29 | the characters shown: the `length` of the trimmed text in UTF-16 code units; `CharCountFacts` bounds it |
| Counts.SplitCount | script.js:28 | for a text without trailing white space, `split(/\s+/)` gives one piece per maximal non-space run plus one empty first piece when the text is empty or starts with white space |
| Counts.WordCountIsRunCount | script.js:27-28 | the word count equals the number of maximal runs of non-white-space characters of the raw text |
| Counts.RunCountTrim | script.js:27 | trimming does not change the number of runs |
| Counts.WordCountZero | script.js:28 | the word count is 0 exactly when the text is all white space, and at least 1 otherwise |
| Counts.BlankCounts | script.js:27-29 | a blank text counts 0 words and 0 characters |
| Counts.SpacedWordsExample | script.js:27-29 | "a b  c" counts 3 words and 6 characters |
| Counts.TrimmedCharsExample | script.js:27-29 | "  a b  " counts 3 characters: white space at the ends is not counted |
| Counts.SurrogatePairExample | script.js:29 | "\U{1F600}" counts 2 characters, one per UTF-16 code unit |
| TimeFormat.Digits | script.js:34-35 | `String(n)` is a non-empty string of decimal digits with no leading zero |
| TimeFormat.PadStart | script.js:34-35 | `padStart(width, fill)` keeps the string as its suffix, fills only the prefix, and has length max(width, original length) |
| TimeFormat.Field | script.js:34-35 | `String(n).padStart(2, '0')`: all digits, at least two characters, exactly two below 100 |
| TimeFormat.DigitsLength | script.js:34 | numbers below 100 take at most two digits, larger ones at least three |
| TimeFormat.FormatTime | script.js:32-37 | `Label(sec div 60, sec mod 60)` with `sec = ms div 1000`; at least five characters with ':' third from the end |
| TimeFormat.FormatTimeFields | script.js:32-36 | the label is mm ":" ss with ss exactly two digits worth (ms div 1000) mod 60 < 60, and mm at least two digits worth (ms div 1000) div 60, so 60*mm + ss = ms div 1000 |
| TimeFormat.ParseFormatTime | script.js:32-36 | reading a label back gives the whole seconds it was made from |
| TimeFormat.FormatTimeSameLabel | script.js:33-36 | two durations get the same label exactly when they have the same whole seconds |
| TimeFormat.MinutesUncapped | script.js:34 | the minutes field is not capped: the label is longer than five characters exactly from 6,000,000 ms on |
| TimeFormat.FormatTimeExamples | script.js:32-36 | 61000 ms reads "01:01" and 6000000 ms reads "100:00" |
| Transcript.Batch | script.js:71 | the results the loop visits are those from `resultIndex` to the end, none when `resultIndex` is past the end |
| Transcript.FinalText | script.js:71-73 | what a batch appends to `finalTranscript`: its final transcripts in index order (`FinalTextIsFinalTranscripts`) |
| Transcript.InterimText | script.js:70-74 | the `interim` string a batch builds: its interim transcripts in index order (`FinalTextIsFinalTranscripts`) |
| Transcript.FinalTextIsFinalTranscripts | script.js:71-75 | the text appended to the transcript is the concatenation, in index order, of exactly the final results' transcripts, and the interim text that of exactly the interim ones |
| Transcript.FinalTextAppend | script.js:71-75 | walking two stretches of results in turn appends their final (interim) texts |
| Transcript.UniformBatch | script.js:73-74 | an all-final batch adds no interim text and an all-interim batch adds nothing to the transcript |
| SessionSpec.StartListening | script.js:50-60 | without an engine in the browser, the session is unchanged and a warning is the effect; otherwise an engine exists in the chosen language and a start is requested |
| SessionSpec.OnStart | script.js:62-63 | `onstart` sets `listening`, and only that |
| SessionSpec.OnResult | script.js:69-78 | `onresult` appends the batch's final texts to the transcript and shows the transcript followed by the batch's interim texts |
| SessionSpec.OnEnd | script.js:80-81 | `onend` clears `listening`, and only that |
| SessionSpec.StopListening | script.js:90-92 | a stop is requested only when an engine exists and the session listens |
| SessionSpec.ToggleListening | script.js:94-96 | stop when listening, start otherwise |
| SessionSpec.ClearTranscript | script.js:98-102 | the transcript and the display become empty |
| SessionSpec.Input | script.js:128 | a manual edit replaces the display; the transcript is kept |
| SessionSpec.StepKeepsValid | script.js:62-63 | every handler keeps "listening only through a created engine" |
| SessionSpec.ListeningOnlyOnSignals | script.js:63 | `listening` becomes true only on `onstart`, false only on `onend`, and no other event changes it |
| SessionSpec.TranscriptOnlyAppends | script.js:73 | apart from clearing, an event leaves `finalTranscript` alone or appends the final texts of its batch |
| SessionSpec.ResultReplacesInterim | script.js:70-76 | after a batch the display is the new transcript followed by exactly this batch's interim texts, whatever was displayed before |
| SessionSpec.FinalBatchShowsTranscript | script.js:71-76 | after a batch whose results from `resultIndex` on are all final, the display equals the transcript, whatever the earlier results are |
| SessionSpec.ClearEmpties | script.js:98-102 | clearing empties transcript and display, so both counts are 0, leaves listening and the engine alone, and is idempotent |
| SessionSpec.StopOnlyWhenListening | script.js:90-92 | a stop is requested exactly when an engine exists and the session listens; otherwise nothing happens |
| SessionSpec.ToggleDispatches | script.js:94-96 | toggling while listening requests a stop and changes nothing else; from idle it starts a new engine in the chosen language, or only warns without an engine in the browser |
| SessionSpec.UnsupportedStartChangesNothing | script.js:52-55 | starting without an engine in the browser only warns and leaves the whole session, `listening` and `finalTranscript` included, unchanged |
| SessionSpec.RunKeepsValid | script.js:50-103 | every possible sequence of events keeps the session valid |
| SessionSpec.RunAppendsFinals | script.js:71-73 | without a clear, the transcript after any sequence of events is the transcript before followed by the final texts of all batches in arrival order |
| SessionSpec.RunFirst | script.js:50-103 | a run of one more event is the event's handler followed by the rest |
| SessionSpec.RunAppend | script.js:50-103 | running two sequences of events in turn is running their concatenation |
| SessionSpec.InterimHello | script.js:69-78 | an interim "hello" is displayed after the transcript, which stays the same |
| SessionSpec.FinalHelloWorld | script.js:69-78 | a final "hello world" is appended to the transcript and displayed alone |
| SessionSpec.HelloScenario | script.js:50-78 | toggle, start, interim "hello": "hello" is displayed while listening |
| SessionSpec.HelloWorldScenario | script.js:50-96 | toggle, start, interim "hello", final "hello world", toggle, end: transcript and display are both "hello world" and the session is idle |
| Controller.TranscriptSession.constructor | script.js:13-15 | at page load the session is idle with no engine, an empty transcript and display, and both counts 0 |
| Controller.TranscriptSession.UpdateCounts | script.js:26-30 | the count fields become the word and character counts of the displayed text, and nothing else changes |
| Controller.TranscriptSession.StartListening | script.js:50-60 | exactly the `SessionSpec.StartListening` transition and request; `listening` and the transcript are untouched |
| Controller.TranscriptSession.OnStart | script.js:62-63 | exactly `SessionSpec.OnStart`: only `listening` changes, to true |
| Controller.TranscriptSession.OnResult | script.js:69-78 | exactly `SessionSpec.OnResult`, with the counts recomputed from the new display |
| Controller.TranscriptSession.CollectBatch | script.js:70-75 | the loop appends to `finalTranscript` exactly the final texts of the batch and returns exactly its interim texts |
| Controller.TranscriptSession.OnEnd | script.js:80-81 | exactly `SessionSpec.OnEnd`: only `listening` changes, to false |
| Controller.TranscriptSession.StopListening | script.js:90-92 | the request is `SessionSpec.StopListening` of the current state (a stop or nothing) and no field changes |
| Controller.TranscriptSession.ToggleListening | script.js:94-96 | exactly `SessionSpec.ToggleListening` |
| Controller.TranscriptSession.ClearTranscript | script.js:98-102 | exactly `SessionSpec.ClearTranscript`, with both counts 0 |
| Controller.TranscriptSession.Input | script.js:128 | a manual edit replaces the display and recounts, as `SessionSpec.Input` |
| Controller.TranscriptSession.Handle | script.js:124-128 | dispatching any possible event performs exactly `SessionSpec.Step` and keeps the session valid |
| Controller.WalkOneMore | script.js:71-75 | one more turn of the loop appends one result to the results walked, and its text to the final or the interim text |

## Left out

- DOM access, button labels, the status line and its styling (`setStatus`) are presentation only.
  The model keeps only the texts of the transcript and count elements.
- The speech-recognition engine is not modelled. `StartListening` returns a request to create and start one.
  `StopListening` returns a request to stop it. Its `onstart`, `onresult` and `onend` callbacks are method calls (events) from the environment.
  They are assumed only after an engine exists, which is the precondition of `OnStart` and `Handle`.
- The engine flags `continuous` and `interimResults` are not modelled; they only configure the engine.
  Of each result only the first alternative's transcript is kept.
- An older engine object can still fire callbacks after a new one is created. The model has one engine slot.
  It does not tell callbacks of a replaced engine from those of the current one.
- `startTimer` and `stopTimer` are not modelled, since they use `setInterval`, `clearInterval` and `Date.now`.
  `formatTime` is modelled on a given millisecond count.
- Copying to the clipboard and downloading a file are not modelled; both are asynchronous browser sinks.
- The whitespace rules of `innerText` are not modelled: `display` is the element's text as the handlers set it.
- Event binding is reduced to `Handle`. A manual edit is `Input`, which replaces the display and recounts.
- Controller.TranscriptSession.constructor: states the initial fields one by one rather than as `State() == SessionSpec.Initial`; the two are equal field by field.
