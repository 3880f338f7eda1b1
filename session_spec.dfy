/**
 * The widget's session as a value, and each handler of `script.js` as a
 * function from the state before to the state after (and to what it asks of
 * the recognition engine). The class in session.dfy is proved to follow these
 * functions; the lemmas here state what the handlers promise, one at a time
 * and over whole sequences of events.
 */
module SessionSpec {
  import opened Transcript
  import Counts

  /** The module-level state of the widget. */
  datatype Session = Session(
    listening: bool,          // `listening`
    hasRecognition: bool,     // whether `recognition` holds an engine object
    lang: string,             // the language the current engine was configured with
    finalTranscript: string,  // `finalTranscript`
    display: string)          // the text of the transcript element

  /** What a handler asks of the world outside the session. */
  datatype Effect =
    | NoEffect
    | RequestStart(lang: string)  // a fresh engine was configured with `lang` and told to start
    | RequestStop                 // the current engine was told to stop
    | WarnUnsupported             // no engine in this browser: the warning status is shown

  /** The state at page load: idle, no engine, empty transcript. */
  const Initial: Session := Session(false, false, "", "", "")

  /** What every handler keeps: the session listens only through an engine. */
  predicate Valid(s: Session) {
    s.listening ==> s.hasRecognition
  }

  /**
   * Writes `text` into the transcript element. Every handler that does so
   * recounts right after (`updateCounts`), so the counts shown are always
   * `Counts.WordCount` and `Counts.CharCount` of `display`; the class in
   * session.dfy keeps them in fields of their own.
   */
  function Show(s: Session, text: string): Session {
    s.(display := text)
  }

  /** `startListening`: warn when the browser has no engine; otherwise configure a new one and start it. */
  function StartListening(s: Session, capable: bool, lang: string): (Session, Effect) {
    if !capable then (s, WarnUnsupported)
    else (s.(hasRecognition := true, lang := lang), RequestStart(lang))
  }

  /** The engine's `onstart` handler. */
  function OnStart(s: Session): Session
    requires s.hasRecognition
  {
    s.(listening := true)
  }

  /**
   * The engine's `onresult` handler: final texts of the batch are appended to
   * the transcript; the display becomes the transcript followed by the
   * batch's interim texts.
   */
  function OnResult(s: Session, resultIndex: nat, results: seq<Fragment>): Session {
    var batch := Batch(resultIndex, results);
    var transcript := s.finalTranscript + FinalText(batch);
    Show(s.(finalTranscript := transcript), transcript + InterimText(batch))
  }

  /** The engine's `onend` handler. */
  function OnEnd(s: Session): Session {
    s.(listening := false)
  }

  /** `stopListening`: asks the engine to stop only when there is one and the session listens. */
  function StopListening(s: Session): Effect {
    if s.hasRecognition && s.listening then RequestStop else NoEffect
  }

  /** `toggleListening`: stop when listening, start otherwise. */
  function ToggleListening(s: Session, capable: bool, lang: string): (Session, Effect) {
    if s.listening then (s, StopListening(s)) else StartListening(s, capable, lang)
  }

  /** `clearTranscript`. */
  function ClearTranscript(s: Session): Session {
    Show(s.(finalTranscript := ""), "")
  }

  /** The user edits the transcript element: its text is replaced and recounted. */
  function Input(s: Session, text: string): Session {
    Show(s, text)
  }

  /** The events that drive the session: the user's and the engine's. */
  datatype Event =
    | Toggle(capable: bool, lang: string)  // the toggle button; `capable`: the browser has an engine
    | Clear                                // the clear button
    | Edit(text: string)                   // a manual edit of the transcript element
    | Started                              // the engine's `onstart`
    | Result(resultIndex: nat, results: seq<Fragment>)  // the engine's `onresult`
    | Ended                                // the engine's `onend`

  /** Engine signals only come from an engine that was created. */
  predicate Enabled(s: Session, e: Event) {
    (e.Started? || e.Result? || e.Ended?) ==> s.hasRecognition
  }

  function Step(s: Session, e: Event): (Session, Effect)
    requires Enabled(s, e)
  {
    match e
    case Toggle(capable, lang) => ToggleListening(s, capable, lang)
    case Clear => (ClearTranscript(s), NoEffect)
    case Edit(text) => (Input(s, text), NoEffect)
    case Started => (OnStart(s), NoEffect)
    case Result(resultIndex, results) => (OnResult(s, resultIndex, results), NoEffect)
    case Ended => (OnEnd(s), NoEffect)
  }

  /** `es` can happen from `s`: every engine signal comes after an engine was created. */
  predicate Possible(s: Session, es: seq<Event>)
    decreases |es|
  {
    es == [] || (Enabled(s, es[0]) && Possible(Step(s, es[0]).0, es[1..]))
  }

  function Run(s: Session, es: seq<Event>): Session
    requires Possible(s, es)
    decreases |es|
  {
    if es == [] then s else Run(Step(s, es[0]).0, es[1..])
  }

  /** The final texts of all result batches among `es`, in arrival order. */
  function Finals(es: seq<Event>): string {
    if es == [] then ""
    else (if es[0].Result? then FinalText(Batch(es[0].resultIndex, es[0].results)) else "") + Finals(es[1..])
  }

  // ---------------------------------------------------------------------------
  // One handler at a time

  /** Every handler keeps the session valid. */
  lemma {:induction false} StepKeepsValid(s: Session, e: Event)
    requires Valid(s) && Enabled(s, e)
    ensures Valid(Step(s, e).0)
  {
  }

  /** `listening` is set only by `onstart` (to true) and `onend` (to false). */
  lemma {:induction false} ListeningOnlyOnSignals(s: Session, e: Event)
    requires Enabled(s, e)
    ensures Step(s, e).0.listening == (if e.Started? then true else if e.Ended? then false else s.listening)
  {
  }

  /**
   * The transcript only grows by appending, except on clear: a result batch
   * appends its final texts; everything else leaves it alone.
   */
  lemma {:induction false} TranscriptOnlyAppends(s: Session, e: Event)
    requires Enabled(s, e) && !e.Clear?
    ensures var t := Step(s, e).0;
      && s.finalTranscript <= t.finalTranscript
      && t.finalTranscript == s.finalTranscript + (if e.Result? then FinalText(Batch(e.resultIndex, e.results)) else "")
  {
  }

  /**
   * After a batch the display is the new transcript followed by this batch's
   * interim texts; whatever interim text was displayed before is dropped.
   */
  lemma {:induction false} ResultReplacesInterim(s: Session, resultIndex: nat, results: seq<Fragment>, earlier: string)
    ensures var r := OnResult(s, resultIndex, results);
      && r.finalTranscript <= r.display
      && r.display[|r.finalTranscript|..] == InterimText(Batch(resultIndex, results))
      && OnResult(s.(display := earlier), resultIndex, results) == r
  {
  }

  /**
   * A batch whose results from `resultIndex` on are all final leaves the
   * display equal to the transcript; earlier results are never read.
   */
  lemma {:induction false} FinalBatchShowsTranscript(s: Session, resultIndex: nat, results: seq<Fragment>)
    requires forall k :: resultIndex <= k < |results| ==> results[k].isFinal
    ensures OnResult(s, resultIndex, results).display == OnResult(s, resultIndex, results).finalTranscript
  {
    UniformBatch(Batch(resultIndex, results));
  }

  /**
   * Clearing empties the transcript and the display, so both counts shown
   * are 0, and leaves the listening state and the engine alone; clearing twice
   * is clearing once.
   */
  lemma {:induction false} ClearEmpties(s: Session)
    ensures var c := ClearTranscript(s);
      && c.finalTranscript == "" && c.display == ""
      && Counts.WordCount(c.display) == 0 && Counts.CharCount(c.display) == 0
      && c.listening == s.listening && c.hasRecognition == s.hasRecognition && c.lang == s.lang
      && Valid(c) == Valid(s)
      && ClearTranscript(c) == c
  {
    Counts.BlankCounts("");
  }

  /** A stop is requested exactly when there is an engine and the session listens, and on a valid session exactly when it listens. */
  lemma {:induction false} StopOnlyWhenListening(s: Session)
    ensures StopListening(s) == RequestStop <==> s.hasRecognition && s.listening
    ensures StopListening(s) != RequestStop ==> StopListening(s) == NoEffect
    ensures Valid(s) ==> (StopListening(s) == RequestStop <==> s.listening)
  {
  }

  /**
   * Toggling while listening requests a stop and changes nothing yet; toggling
   * while idle starts a new engine in the chosen language, or, without an
   * engine in the browser, only warns and leaves the session as it was.
   */
  lemma {:induction false} ToggleDispatches(s: Session, capable: bool, lang: string)
    requires Valid(s)
    ensures s.listening ==> ToggleListening(s, capable, lang) == (s, RequestStop)
    ensures !s.listening && capable ==>
      ToggleListening(s, capable, lang) == (s.(hasRecognition := true, lang := lang), RequestStart(lang))
    ensures !s.listening && !capable ==> ToggleListening(s, capable, lang) == (s, WarnUnsupported)
  {
  }

  // ---------------------------------------------------------------------------
  // Whole sequences of events

  /** Every sequence of events that can happen keeps the session valid. */
  lemma {:induction false} RunKeepsValid(s: Session, es: seq<Event>)
    requires Valid(s) && Possible(s, es)
    ensures Valid(Run(s, es))
    decreases |es|
  {
    if es != [] {
      StepKeepsValid(s, es[0]);
      RunKeepsValid(Step(s, es[0]).0, es[1..]);
    }
  }

  /**
   * Without a clear, the transcript after any sequence of events is the
   * transcript before followed by the final texts of every result batch, in
   * arrival order.
   */
  lemma {:induction false} RunAppendsFinals(s: Session, es: seq<Event>)
    requires Possible(s, es)
    requires forall e :: e in es ==> !e.Clear?
    ensures Run(s, es).finalTranscript == s.finalTranscript + Finals(es)
    decreases |es|
  {
    if es != [] {
      var e, rest := es[0], es[1..];
      var t := Step(s, e).0;
      TranscriptOnlyAppends(s, e);
      assert forall x :: x in rest ==> x in es;
      RunAppendsFinals(t, rest);
      var f := if e.Result? then FinalText(Batch(e.resultIndex, e.results)) else "";
      assert Finals(es) == f + Finals(rest);
      assert t.finalTranscript == s.finalTranscript + f;
      assert Run(s, es) == Run(t, rest);
    }
  }

  /** A sequence of events of one event more can happen exactly when its first event can and the rest can after it. */
  lemma {:induction false} RunFirst(s: Session, e: Event, rest: seq<Event>)
    ensures Possible(s, [e] + rest) <==> Enabled(s, e) && Possible(Step(s, e).0, rest)
    ensures Possible(s, [e] + rest) ==> Run(s, [e] + rest) == Run(Step(s, e).0, rest)
  {
    assert ([e] + rest)[1..] == rest;
  }

  /** An interim "hello" is displayed after the transcript, which stays as it was. */
  lemma {:induction false} InterimHello(s: Session)
    ensures var r := OnResult(s, 0, [Fragment("hello", false)]);
      && r.finalTranscript == s.finalTranscript && r.display == s.finalTranscript + "hello"
      && r.listening == s.listening && r.hasRecognition == s.hasRecognition
  {
    assert Batch(0, [Fragment("hello", false)]) == [Fragment("hello", false)];
    assert FinalText([Fragment("hello", false)]) == "";
    assert InterimText([Fragment("hello", false)]) == "hello";
  }

  /** A final "hello world" is appended to the transcript and displayed on its own. */
  lemma {:induction false} FinalHelloWorld(s: Session)
    ensures var r := OnResult(s, 0, [Fragment("hello world", true)]);
      && r.finalTranscript == s.finalTranscript + "hello world" && r.display == r.finalTranscript
      && r.listening == s.listening && r.hasRecognition == s.hasRecognition
  {
    assert Batch(0, [Fragment("hello world", true)]) == [Fragment("hello world", true)];
    assert FinalText([Fragment("hello world", true)]) == "hello world";
    assert InterimText([Fragment("hello world", true)]) == "";
  }

  /** Start, then an interim "hello": it is displayed while listening. */
  lemma {:induction false} HelloScenario()
    ensures var es := [Toggle(true, "en-US"), Started, Result(0, [Fragment("hello", false)])];
      Possible(Initial, es) && Run(Initial, es).display == "hello" && Run(Initial, es).listening
  {
    var toggle, hello := Toggle(true, "en-US"), Result(0, [Fragment("hello", false)]);
    var s1 := Step(Initial, toggle).0;
    var s2 := Step(s1, Started).0;
    InterimHello(s2);
    RunFirst(s2, hello, []);
    RunFirst(s1, Started, [hello]);
    RunFirst(Initial, toggle, [Started, hello]);
  }

  /** Running two sequences of events one after the other is running their concatenation. */
  lemma {:induction false} RunAppend(s: Session, a: seq<Event>, b: seq<Event>)
    requires Possible(s, a)
    ensures Possible(s, a + b) <==> Possible(Run(s, a), b)
    ensures Possible(s, a + b) ==> Run(s, a + b) == Run(Run(s, a), b)
    decreases |a|
  {
    if a == [] {
      assert a + b == b;
    } else {
      assert a + b == [a[0]] + (a[1..] + b);
      RunFirst(s, a[0], a[1..] + b);
      RunAppend(Step(s, a[0]).0, a[1..], b);
    }
  }

  /**
   * Start, an interim "hello", a final "hello world", stop: the final text
   * replaces the interim one, and after the engine ends "hello world" is still
   * displayed.
   */
  lemma {:induction false} HelloWorldScenario()
    ensures var es := [Toggle(true, "en-US"), Started, Result(0, [Fragment("hello", false)]),
                       Result(0, [Fragment("hello world", true)]), Toggle(true, "en-US"), Ended];
      && Possible(Initial, es)
      && Run(Initial, es).finalTranscript == "hello world"
      && Run(Initial, es).display == "hello world"
      && !Run(Initial, es).listening
  {
    var toggle, hello, world := Toggle(true, "en-US"), Result(0, [Fragment("hello", false)]), Result(0, [Fragment("hello world", true)]);
    var first, rest := [toggle, Started, hello], [world, toggle, Ended];
    HelloScenario();
    var s3 := Run(Initial, first);
    assert s3.finalTranscript == "" by {
      RunAppendsFinals(Initial, first);
      assert Finals(first) == "" by {
        assert first[1..] == [Started, hello] && first[1..][1..] == [hello] && first[1..][1..][1..] == [];
        InterimHello(Initial);
      }
    }
    FinalHelloWorld(s3);
    var s4 := Step(s3, world).0;
    var s5 := Step(s4, toggle).0;
    RunFirst(s5, Ended, []);
    RunFirst(s4, toggle, [Ended]);
    RunFirst(s3, world, [toggle, Ended]);
    RunAppend(Initial, first, rest);
    assert first + rest == [toggle, Started, hello, world, toggle, Ended];
  }

  /**
   * Without an engine in the browser, starting only warns: the session,
   * including `listening` and the transcript, stays as it was; so does
   * toggling from idle.
   */
  lemma {:induction false} UnsupportedStartChangesNothing(s: Session, lang: string)
    ensures StartListening(s, false, lang) == (s, WarnUnsupported)
    ensures !s.listening ==> ToggleListening(s, false, lang) == (s, WarnUnsupported)
  {
  }
}
