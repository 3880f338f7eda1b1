/**
 * The result batches of the speech-recognition engine, as the `onresult`
 * handler reads them: each result is tagged final or interim and carries the
 * transcript of its first alternative. The handler walks the results from the
 * engine's resume point `resultIndex` to the end, appending final texts to the
 * accumulated transcript and concatenating interim texts into a fresh interim
 * string.
 */
module Transcript {

  /** One recognition result: the transcript of its first alternative, and whether it is final. */
  datatype Fragment = Fragment(transcript: string, isFinal: bool)

  function Min(a: nat, b: nat): nat {
    if a <= b then a else b
  }

  /**
   * The results the handler walks: those from `resultIndex` to the end (none
   * when the resume point lies past the end).
   */
  function Batch(resultIndex: nat, results: seq<Fragment>): (b: seq<Fragment>)
    ensures |b| == |results| - Min(resultIndex, |results|)
    ensures forall k :: 0 <= k < |b| ==> b[k] == results[resultIndex + k]
  {
    results[Min(resultIndex, |results|)..]
  }

  /**
   * The texts of the results that are final (`wanted`) or interim (`!wanted`),
   * concatenated in index order, as the handler's loop accumulates them.
   */
  function Picked(rs: seq<Fragment>, wanted: bool): string {
    if rs == [] then ""
    else Picked(rs[..|rs| - 1], wanted) + (if rs[|rs| - 1].isFinal == wanted then rs[|rs| - 1].transcript else "")
  }

  /** What a batch appends to `finalTranscript`. */
  function FinalText(rs: seq<Fragment>): string {
    Picked(rs, true)
  }

  /** The `interim` string a batch builds. */
  function InterimText(rs: seq<Fragment>): string {
    Picked(rs, false)
  }

  /** The concatenation of a sequence of strings. */
  function Concat(ss: seq<string>): string {
    if ss == [] then "" else ss[0] + Concat(ss[1..])
  }

  /** The transcripts of the results that are final (`wanted`) or interim (`!wanted`), in index order. */
  function Texts(rs: seq<Fragment>, wanted: bool): seq<string> {
    if rs == [] then []
    else (if rs[0].isFinal == wanted then [rs[0].transcript] else []) + Texts(rs[1..], wanted)
  }

  lemma {:induction false} ConcatAppend(a: seq<string>, b: seq<string>)
    ensures Concat(a + b) == Concat(a) + Concat(b)
    decreases |a|
  {
    if a == [] {
      assert a + b == b;
    } else {
      assert (a + b)[1..] == a[1..] + b;
      ConcatAppend(a[1..], b);
    }
  }

  lemma {:induction false} TextsAppend(a: seq<Fragment>, b: seq<Fragment>, wanted: bool)
    ensures Texts(a + b, wanted) == Texts(a, wanted) + Texts(b, wanted)
    decreases |a|
  {
    if a == [] {
      assert a + b == b;
    } else {
      assert (a + b)[1..] == a[1..] + b;
      TextsAppend(a[1..], b, wanted);
    }
  }

  /**
   * The accumulated final (interim) text is the concatenation of exactly the
   * transcripts of the final (interim) results, in index order.
   */
  lemma {:induction false} PickedIsConcat(rs: seq<Fragment>, wanted: bool)
    ensures Picked(rs, wanted) == Concat(Texts(rs, wanted))
    decreases |rs|
  {
    if rs != [] {
      var init, last := rs[..|rs| - 1], rs[|rs| - 1];
      assert rs == init + [last];
      PickedIsConcat(init, wanted);
      TextsAppend(init, [last], wanted);
      ConcatAppend(Texts(init, wanted), Texts([last], wanted));
    }
  }

  lemma {:induction false} FinalTextIsFinalTranscripts(rs: seq<Fragment>)
    ensures FinalText(rs) == Concat(Texts(rs, true))
    ensures InterimText(rs) == Concat(Texts(rs, false))
  {
    PickedIsConcat(rs, true);
    PickedIsConcat(rs, false);
  }

  /** Processing two pieces of results one after the other appends their texts. */
  lemma {:induction false} PickedAppend(a: seq<Fragment>, b: seq<Fragment>, wanted: bool)
    ensures Picked(a + b, wanted) == Picked(a, wanted) + Picked(b, wanted)
    decreases |b|
  {
    if b == [] {
      assert a + b == a;
    } else {
      var init := b[..|b| - 1];
      assert (a + b)[..|a + b| - 1] == a + init;
      PickedAppend(a, init, wanted);
    }
  }

  lemma {:induction false} FinalTextAppend(a: seq<Fragment>, b: seq<Fragment>)
    ensures FinalText(a + b) == FinalText(a) + FinalText(b)
    ensures InterimText(a + b) == InterimText(a) + InterimText(b)
  {
    PickedAppend(a, b, true);
    PickedAppend(a, b, false);
  }

  /** Results none of which is of the wanted kind contribute no text. */
  lemma {:induction false} NonePicked(rs: seq<Fragment>, wanted: bool)
    requires forall k :: 0 <= k < |rs| ==> rs[k].isFinal != wanted
    ensures Picked(rs, wanted) == ""
    decreases |rs|
  {
    if rs != [] {
      NonePicked(rs[..|rs| - 1], wanted);
    }
  }

  /** A batch of only final results has no interim text; one of only interim results adds nothing final. */
  lemma {:induction false} UniformBatch(rs: seq<Fragment>)
    ensures (forall k :: 0 <= k < |rs| ==> rs[k].isFinal) ==> InterimText(rs) == ""
    ensures (forall k :: 0 <= k < |rs| ==> !rs[k].isFinal) ==> FinalText(rs) == ""
  {
    if forall k :: 0 <= k < |rs| ==> rs[k].isFinal {
      NonePicked(rs, false);
    }
    if forall k :: 0 <= k < |rs| ==> !rs[k].isFinal {
      NonePicked(rs, true);
    }
  }
}
