/**
 * The widget's handlers as they run in the page: one object holds the
 * module-level variables `recognition`, `listening` and `finalTranscript`, the
 * language the engine was started with, and the text of the three elements the
 * model keeps (the transcript and the two counts), and each handler updates
 * them in place. Every handler is proved to do what the matching function of
 * `SessionSpec` says, and to keep the counts shown equal to the counts of the
 * displayed text.
 */
module Controller {
  import opened Transcript
  import Counts
  import SessionSpec

  class TranscriptSession {
    var listening: bool
    var hasRecognition: bool
    var lang: string
    var finalTranscript: string
    var display: string
    var wordCount: nat
    var charCount: nat

    /** The session as a value, for comparison with `SessionSpec`. */
    function State(): SessionSpec.Session
      reads this`listening, this`hasRecognition, this`lang, this`finalTranscript, this`display
    {
      SessionSpec.Session(listening, hasRecognition, lang, finalTranscript, display)
    }

    /** The count elements show the counts of the displayed text. */
    predicate CountsShown()
      reads this`display, this`wordCount, this`charCount
    {
      wordCount == Counts.WordCount(display) && charCount == Counts.CharCount(display)
    }

    ghost predicate Valid()
      reads this
    {
      SessionSpec.Valid(State()) && CountsShown()
    }

    /** The page as loaded: idle, no engine, empty transcript, both counts 0. */
    constructor()
      ensures !listening && !hasRecognition && lang == "" && finalTranscript == "" && display == ""
      ensures wordCount == 0 && charCount == 0 && Valid()
    {
      listening, hasRecognition, lang := false, false, "";
      finalTranscript, display := "", "";
      wordCount, charCount := 0, 0;
      new;
      Counts.BlankCounts(display);
    }

    /** `updateCounts`: the count elements are set from the trimmed displayed text. */
    method UpdateCounts()
      modifies this`wordCount, this`charCount
      ensures CountsShown()
    {
      var text := Counts.Trim(display);
      wordCount := if text == [] then 0 else |Counts.Split(text)|;
      charCount := Counts.Utf16Length(text);
    }

    /**
     * `startListening`: without an engine in the browser only a warning is
     * shown; otherwise a new engine is configured with the chosen language
     * and asked to start.
     */
    method StartListening(capable: bool, language: string) returns (effect: SessionSpec.Effect)
      requires Valid()
      modifies this`hasRecognition, this`lang
      ensures (State(), effect) == SessionSpec.StartListening(old(State()), capable, language)
      ensures Valid()
    {
      if !capable {
        return SessionSpec.WarnUnsupported;
      }
      hasRecognition := true;
      lang := language;
      effect := SessionSpec.RequestStart(language);
    }

    /** The engine's `onstart` handler. */
    method OnStart()
      requires Valid() && hasRecognition
      modifies this`listening
      ensures State() == SessionSpec.OnStart(old(State()))
      ensures Valid()
    {
      listening := true;
    }

    /**
     * The engine's `onresult` handler: walks the batch, then displays the
     * transcript followed by the batch's interim texts and recounts. It does
     * not read the counts shown before.
     */
    method OnResult(resultIndex: nat, results: seq<Fragment>)
      requires SessionSpec.Valid(State())
      modifies this`finalTranscript, this`display, this`wordCount, this`charCount
      ensures State() == SessionSpec.OnResult(old(State()), resultIndex, results)
      ensures Valid()
    {
      var interim := CollectBatch(resultIndex, results);
      display := finalTranscript + interim;
      assert State() == SessionSpec.OnResult(old(State()), resultIndex, results);
      UpdateCounts();
    }

    /**
     * The loop of the `onresult` handler: from `resultIndex` to the end of
     * `results`, appends each final text to the transcript and each interim
     * text to `interim`.
     */
    method CollectBatch(resultIndex: nat, results: seq<Fragment>) returns (interim: string)
      modifies this`finalTranscript
      ensures finalTranscript == old(finalTranscript) + FinalText(Batch(resultIndex, results))
      ensures interim == InterimText(Batch(resultIndex, results))
    {
      interim := "";
      var i := resultIndex;
      while i < |results|
        invariant resultIndex <= i
        invariant finalTranscript == old(finalTranscript) + FinalText(Walked(resultIndex, i, results))
        invariant interim == InterimText(Walked(resultIndex, i, results))
        decreases |results| - i
      {
        WalkOneMore(resultIndex, i, results);
        var res := results[i];
        if res.isFinal {
          finalTranscript := finalTranscript + res.transcript;
        } else {
          interim := interim + res.transcript;
        }
        i := i + 1;
      }
    }

    /** The engine's `onend` handler. */
    method OnEnd()
      requires Valid()
      modifies this`listening
      ensures State() == SessionSpec.OnEnd(old(State()))
      ensures Valid()
    {
      listening := false;
    }

    /** `stopListening`: the engine is asked to stop only when there is one and the session listens. */
    method StopListening() returns (effect: SessionSpec.Effect)
      ensures effect == SessionSpec.StopListening(State())
      ensures effect == SessionSpec.RequestStop || effect == SessionSpec.NoEffect
    {
      if hasRecognition && listening {
        effect := SessionSpec.RequestStop;
      } else {
        effect := SessionSpec.NoEffect;
      }
    }

    /** `toggleListening`: stop when listening, start otherwise. */
    method ToggleListening(capable: bool, language: string) returns (effect: SessionSpec.Effect)
      requires Valid()
      modifies this`hasRecognition, this`lang
      ensures (State(), effect) == SessionSpec.ToggleListening(old(State()), capable, language)
      ensures Valid()
    {
      if listening {
        effect := StopListening();
      } else {
        effect := StartListening(capable, language);
      }
    }

    /** `clearTranscript`: empties the transcript and the display, and recounts. */
    method ClearTranscript()
      requires SessionSpec.Valid(State())
      modifies this`finalTranscript, this`display, this`wordCount, this`charCount
      ensures State() == SessionSpec.ClearTranscript(old(State()))
      ensures Valid() && wordCount == 0 && charCount == 0
    {
      finalTranscript := "";
      display := "";
      assert State() == SessionSpec.ClearTranscript(old(State()));
      UpdateCounts();
      Counts.BlankCounts(display);
    }

    /** The user edits the transcript element to `text`; its `input` event recounts. */
    method Input(text: string)
      requires SessionSpec.Valid(State())
      modifies this`display, this`wordCount, this`charCount
      ensures State() == SessionSpec.Input(old(State()), text)
      ensures Valid()
    {
      display := text;
      assert State() == SessionSpec.Input(old(State()), text);
      UpdateCounts();
    }

    /** Dispatches one event of the user or the engine to its handler. */
    method Handle(e: SessionSpec.Event) returns (effect: SessionSpec.Effect)
      requires Valid() && SessionSpec.Enabled(State(), e)
      modifies this
      ensures (State(), effect) == SessionSpec.Step(old(State()), e)
      ensures Valid()
    {
      effect := SessionSpec.NoEffect;
      match e {
        case Toggle(capable, language) => effect := ToggleListening(capable, language);
        case Clear => ClearTranscript();
        case Edit(text) => Input(text);
        case Started => OnStart();
        case Result(resultIndex, results) => OnResult(resultIndex, results);
        case Ended => OnEnd();
      }
    }
  }

  /**
   * The results the handler's loop has walked when its index has reached
   * `i`: from `resultIndex` up to `i`, both cut to the length of `results`.
   */
  function Walked(resultIndex: nat, i: nat, results: seq<Fragment>): (w: seq<Fragment>)
    ensures i <= resultIndex ==> w == []
    ensures |results| <= i ==> w == Batch(resultIndex, results)
  {
    var lo := Min(resultIndex, |results|);
    results[lo..if i < lo then lo else Min(i, |results|)]
  }

  /** One more turn of the loop walks one more result. */
  lemma {:induction false} WalkOneMore(resultIndex: nat, i: nat, results: seq<Fragment>)
    requires resultIndex <= i < |results|
    ensures Walked(resultIndex, i + 1, results) == Walked(resultIndex, i, results) + [results[i]]
    ensures FinalText(Walked(resultIndex, i + 1, results))
      == FinalText(Walked(resultIndex, i, results)) + (if results[i].isFinal then results[i].transcript else "")
    ensures InterimText(Walked(resultIndex, i + 1, results))
      == InterimText(Walked(resultIndex, i, results)) + (if results[i].isFinal then "" else results[i].transcript)
  {
    var w := Walked(resultIndex, i + 1, results);
    assert w[..|w| - 1] == Walked(resultIndex, i, results);
  }
}
