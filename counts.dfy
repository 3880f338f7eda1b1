/**
 * The word and character counts shown under the transcript (`updateCounts`):
 * the text is trimmed, the word count is the number of pieces of
 * `text.split(/\s+/)` (or 0 for an empty text) and the character count is the
 * JavaScript `length` of the trimmed text, in UTF-16 code units.
 */
module Counts {

  /** The characters that JavaScript's `\s` class and `String.prototype.trim` treat as white space. */
  const WhiteSpace: set<char> := {
    '\t', '\n', '\U{000B}', '\U{000C}', '\r', ' ', '\U{00A0}', '\U{1680}',
    '\U{2000}', '\U{2001}', '\U{2002}', '\U{2003}', '\U{2004}', '\U{2005}',
    '\U{2006}', '\U{2007}', '\U{2008}', '\U{2009}', '\U{200A}',
    '\U{2028}', '\U{2029}', '\U{202F}', '\U{205F}', '\U{3000}', '\U{FEFF}'
  }

  predicate IsSpace(c: char) {
    c in WhiteSpace
  }

  predicate AllSpace(s: string) {
    forall i :: 0 <= i < |s| ==> IsSpace(s[i])
  }

  predicate NoSpace(s: string) {
    forall i :: 0 <= i < |s| ==> !IsSpace(s[i])
  }

  /** `s` without its leading white space; strictly shorter when `s` starts with white space. */
  function TrimStart(s: string): (r: string)
    ensures |r| <= |s|
    ensures s != [] && IsSpace(s[0]) ==> |r| < |s|
  {
    if s != [] && IsSpace(s[0]) then TrimStart(s[1..]) else s
  }

  /** `TrimStart(s)` is the suffix of `s` after a run of white space, and is empty or starts with a non-space. */
  lemma {:induction false} TrimStartFacts(s: string)
    ensures var r := TrimStart(s);
      && r == s[|s| - |r|..]
      && (forall i :: 0 <= i < |s| - |r| ==> IsSpace(s[i]))
      && (r == [] || !IsSpace(r[0]))
    decreases |s|
  {
    if s != [] && IsSpace(s[0]) {
      var r := TrimStart(s[1..]);
      TrimStartFacts(s[1..]);
      assert s[1..][|s| - 1 - |r|..] == s[|s| - |r|..];
      forall i | 0 <= i < |s| - |r|
        ensures IsSpace(s[i])
      {
        if i > 0 {
          assert s[i] == s[1..][i - 1];
        }
      }
    }
  }

  /** `s` without its trailing white space. */
  function TrimEnd(s: string): (r: string)
    ensures |r| <= |s|
  {
    if s != [] && IsSpace(s[|s| - 1]) then TrimEnd(s[..|s| - 1]) else s
  }

  /** `TrimEnd(s)` is the prefix of `s` before a run of white space, and is empty or ends with a non-space. */
  lemma {:induction false} TrimEndFacts(s: string)
    ensures var r := TrimEnd(s);
      && r == s[..|r|]
      && (forall i :: |r| <= i < |s| ==> IsSpace(s[i]))
      && (r == [] || !IsSpace(r[|r| - 1]))
    decreases |s|
  {
    if s != [] && IsSpace(s[|s| - 1]) {
      var p := s[..|s| - 1];
      var r := TrimEnd(p);
      TrimEndFacts(p);
      assert p[..|r|] == s[..|r|];
      forall i | |r| <= i < |s|
        ensures IsSpace(s[i])
      {
        if i < |s| - 1 {
          assert s[i] == p[i];
        }
      }
    }
  }

  /** Where the trimmed text starts inside `s`. */
  function TrimOffset(s: string): (k: nat)
    ensures k <= |s|
  {
    |s| - |TrimStart(s)|
  }

  /** `s.trim()`: `s` without the white space at either end. */
  function Trim(s: string): string {
    TrimEnd(TrimStart(s))
  }

  /**
   * The trimmed text is the infix of `s` that starts at `TrimOffset(s)` with
   * only white space around it. It is empty exactly when `s` is all white
   * space, and otherwise begins and ends with a non-space.
   */
  lemma {:induction false} TrimFacts(s: string)
    ensures var r, k := Trim(s), TrimOffset(s);
      && k + |r| <= |s| && r == s[k..k + |r|]
      && (forall i :: 0 <= i < k ==> IsSpace(s[i]))
      && (forall i :: k + |r| <= i < |s| ==> IsSpace(s[i]))
      && (r == [] <==> AllSpace(s))
      && (r != [] ==> !IsSpace(r[0]) && !IsSpace(r[|r| - 1]))
  {
    TrimInfix(s);
    TrimAround(s);
    TrimEnds(s);
  }

  lemma {:induction false} TrimInfix(s: string)
    ensures var r, k := Trim(s), TrimOffset(s); k + |r| <= |s| && r == s[k..k + |r|]
  {
    var t := TrimStart(s);
    var r := TrimEnd(t);
    var k := TrimOffset(s);
    TrimStartFacts(s);
    TrimEndFacts(t);
    PrefixOfSuffix(s, t, r, k);
  }

  /** A prefix of a suffix of `s` is an infix of `s`. */
  lemma {:induction false} PrefixOfSuffix(s: string, t: string, r: string, k: nat)
    requires k <= |s| && t == s[k..] && |r| <= |t| && r == t[..|r|]
    ensures k + |r| <= |s| && r == s[k..k + |r|]
  {
    assert s[k..][..|r|] == s[k..k + |r|];
  }

  lemma {:induction false} TrimAround(s: string)
    ensures var r, k := Trim(s), TrimOffset(s);
      && (forall i :: 0 <= i < k ==> IsSpace(s[i]))
      && (forall i :: k + |r| <= i < |s| ==> IsSpace(s[i]))
  {
    var t := TrimStart(s);
    var r := TrimEnd(t);
    var k := TrimOffset(s);
    TrimStartFacts(s);
    TrimEndFacts(t);
    assert t == s[k..];
    forall i | k + |r| <= i < |s|
      ensures IsSpace(s[i])
    {
      assert s[i] == t[i - k];
    }
  }

  lemma {:induction false} TrimEnds(s: string)
    ensures var r := Trim(s);
      && (r == [] <==> AllSpace(s))
      && (r != [] ==> !IsSpace(r[0]) && !IsSpace(r[|r| - 1]))
  {
    var t := TrimStart(s);
    var r := TrimEnd(t);
    var k := TrimOffset(s);
    TrimStartFacts(s);
    TrimEndFacts(t);
    TrimAround(s);
    if r != [] {
      assert r[0] == t[0];
      assert !AllSpace(s) by { assert s[k] == t[0]; }
    }
  }

  /** The longest prefix of `s` that holds no white space: it ends at the end of `s` or at a space. */
  function Word(s: string): (w: string)
    ensures |w| <= |s|
    ensures |w| == |s| || IsSpace(s[|w|])
  {
    if s == [] || IsSpace(s[0]) then [] else [s[0]] + Word(s[1..])
  }

  /** `Word(s)` is a prefix of `s` without white space. */
  lemma {:induction false} WordFacts(s: string)
    ensures Word(s) == s[..|Word(s)|] && NoSpace(Word(s))
    decreases |s|
  {
    if s != [] && !IsSpace(s[0]) {
      var v := Word(s[1..]);
      WordFacts(s[1..]);
      assert Word(s) == [s[0]] + v;
      assert [s[0]] + s[1..][..|v|] == s[..|v| + 1];
      forall i | 0 <= i < |Word(s)|
        ensures !IsSpace(Word(s)[i])
      {
        if i > 0 {
          assert Word(s)[i] == v[i - 1];
        }
      }
    }
  }

  /**
   * `s.split(/\s+/)`: the pieces of `s` between maximal runs of white space.
   * A leading (trailing) run gives an empty first (last) piece, and even the
   * empty text splits into one (empty) piece.
   */
  function Split(s: string): (pieces: seq<string>)
    ensures |pieces| >= 1
    decreases |s|
  {
    var w := Word(s);
    if |w| == |s| then [w] else [w] + Split(TrimStart(s[|w|..]))
  }

  /** The number of words shown: 0 for a blank text, else the number of pieces of the trimmed text. */
  function WordCount(s: string): nat {
    var t := Trim(s);
    if t == [] then 0 else |Split(t)|
  }

  /** UTF-16 code units of a character: a surrogate pair from U+10000 up, one unit below. */
  function CodeUnits(c: char): nat {
    if c >= '\U{10000}' then 2 else 1
  }

  /** JavaScript's `length` of `s`: its number of UTF-16 code units, at least one per character. */
  function Utf16Length(s: string): (n: nat)
    ensures |s| <= n
  {
    if s == [] then 0 else CodeUnits(s[0]) + Utf16Length(s[1..])
  }

  /** The code units of a concatenation are those of its parts. */
  lemma {:induction false} Utf16LengthAppend(a: string, b: string)
    ensures Utf16Length(a + b) == Utf16Length(a) + Utf16Length(b)
  {
    if a == [] {
      assert a + b == b;
    } else {
      assert (a + b)[1..] == a[1..] + b;
      Utf16LengthAppend(a[1..], b);
    }
  }

  /** A text without characters from U+10000 up has one code unit per character. */
  lemma {:induction false} Utf16LengthBasic(s: string)
    requires forall i :: 0 <= i < |s| ==> s[i] < '\U{10000}'
    ensures Utf16Length(s) == |s|
  {
    if s != [] {
      assert forall i :: 0 <= i < |s[1..]| ==> s[1..][i] == s[i + 1];
      Utf16LengthBasic(s[1..]);
    }
  }

  /** The number of characters shown: the `length` of the trimmed text, in UTF-16 code units. */
  function CharCount(s: string): nat {
    Utf16Length(Trim(s))
  }

  /**
   * At most the length of the raw text; 0 exactly for blank text; the whole
   * length exactly when the text neither starts nor ends with white space.
   */
  lemma {:induction false} CharCountFacts(s: string)
    ensures CharCount(s) <= Utf16Length(s)
    ensures CharCount(s) == 0 <==> AllSpace(s)
    ensures CharCount(s) == Utf16Length(s) <==> s == [] || (!IsSpace(s[0]) && !IsSpace(s[|s| - 1]))
  {
    TrimFacts(s);
    var r, k := Trim(s), TrimOffset(s);
    var before, after := s[..k], s[k + |r|..];
    assert s == before + r + after;
    Utf16LengthAppend(before + r, after);
    Utf16LengthAppend(before, r);
    if s != [] && !IsSpace(s[0]) && !IsSpace(s[|s| - 1]) {
      assert k == 0;
      assert k + |r| == |s|;
    }
  }

  /**
   * Reference count of words, independent of `Split`: scanning left to right,
   * count the non-space characters that come first or right after a space,
   * i.e. the starts of the maximal runs of non-white-space characters.
   * `afterSpace` tells whether the previous character was white space (or absent).
   */
  function RunsFrom(s: string, afterSpace: bool): nat {
    if s == [] then 0
    else (if afterSpace && !IsSpace(s[0]) then 1 else 0) + RunsFrom(s[1..], IsSpace(s[0]))
  }

  function RunCount(s: string): nat {
    RunsFrom(s, true)
  }

  lemma {:induction false} RunsOfWord(w: string, r: string, afterSpace: bool)
    requires w != [] && NoSpace(w)
    ensures RunsFrom(w + r, afterSpace) == (if afterSpace then 1 else 0) + RunsFrom(r, false)
    decreases |w|
  {
    assert (w + r)[1..] == w[1..] + r;
    if |w| > 1 {
      RunsOfWord(w[1..], r, false);
    }
  }

  lemma {:induction false} RunsOfSpaces(sp: string, r: string, afterSpace: bool)
    requires sp != [] && AllSpace(sp)
    ensures RunsFrom(sp + r, afterSpace) == RunsFrom(r, true)
    decreases |sp|
  {
    assert (sp + r)[1..] == sp[1..] + r;
    if |sp| > 1 {
      RunsOfSpaces(sp[1..], r, true);
    }
  }

  lemma {:induction false} RunsOfTrailingSpaces(t: string, sp: string, afterSpace: bool)
    requires AllSpace(sp)
    ensures RunsFrom(t + sp, afterSpace) == RunsFrom(t, afterSpace)
    decreases |t|
  {
    if t == [] {
      if sp != [] {
        assert sp + [] == sp;
        RunsOfSpaces(sp, [], afterSpace);
      }
      assert t + sp == sp;
    } else {
      assert (t + sp)[1..] == t[1..] + sp;
      RunsOfTrailingSpaces(t[1..], sp, IsSpace(t[0]));
    }
  }

  /** One step of `Split`: a leading word, a non-empty run of white space, and the rest. */
  lemma {:induction false} SplitStep(s: string) returns (w: string, sp: string, t: string)
    requires |Word(s)| < |s|
    ensures s == w + (sp + t) && NoSpace(w) && sp != [] && AllSpace(sp)
    ensures t == [] || !IsSpace(t[0])
    ensures w == [] <==> IsSpace(s[0])
    ensures Split(s) == [w] + Split(t)
  {
    w := Word(s);
    WordFacts(s);
    var r := s[|w|..];
    assert s == w + r by { assert s == s[..|w|] + s[|w|..]; }
    sp, t := SpaceRun(r);
  }

  /** A text that starts with white space is a non-empty run of white space followed by its trimmed start. */
  lemma {:induction false} SpaceRun(r: string) returns (sp: string, t: string)
    requires r != [] && IsSpace(r[0])
    ensures t == TrimStart(r) && r == sp + t && sp != [] && AllSpace(sp)
    ensures t == [] || !IsSpace(t[0])
  {
    t := TrimStart(r);
    TrimStartFacts(r);
    sp := r[..|r| - |t|];
    assert r == sp + t by { assert r == r[..|r| - |t|] + r[|r| - |t|..]; }
  }

  /**
   * For a text without trailing white space, `split(/\s+/)` yields one piece
   * per run of non-space characters, plus an empty first piece when the text
   * is empty or starts with white space.
   */
  lemma {:induction false} SplitCount(s: string)
    requires s == [] || !IsSpace(s[|s| - 1])
    ensures |Split(s)| == RunCount(s) + (if s == [] || IsSpace(s[0]) then 1 else 0)
    decreases |s|
  {
    if |Word(s)| == |s| {
      SingleWord(s);
    } else {
      var w, sp, t := SplitStep(s);
      assert |Split(t)| == RunCount(t) by {
        LastAfterSpace(s, w, sp, t);
        SplitCount(t);
      }
      RunsOfStep(w, sp, t);
    }
  }

  /** A text without white space is a single piece, and a single run unless it is empty. */
  lemma {:induction false} SingleWord(s: string)
    requires |Word(s)| == |s|
    ensures |Split(s)| == 1 && RunCount(s) == (if s == [] then 0 else 1)
    ensures s == [] || !IsSpace(s[0])
  {
    var w := Word(s);
    WordFacts(s);
    assert w == s;
    if w != [] {
      assert w + [] == w;
      RunsOfWord(w, [], true);
    }
  }

  /** When a text ends with a non-space, so does what follows a run of white space inside it. */
  lemma {:induction false} LastAfterSpace(s: string, w: string, sp: string, t: string)
    requires s == w + (sp + t) && sp != [] && AllSpace(sp) && !IsSpace(s[|s| - 1])
    ensures t != [] && t[|t| - 1] == s[|s| - 1]
  {
  }

  /** The runs of a word, a run of white space and the rest: one for the word, if any, then those of the rest. */
  lemma {:induction false} RunsOfStep(w: string, sp: string, t: string)
    requires NoSpace(w) && sp != [] && AllSpace(sp)
    ensures RunCount(w + (sp + t)) == (if w == [] then 0 else 1) + RunCount(t)
  {
    RunsOfSpaces(sp, t, w == []);
    if w != [] {
      RunsOfWord(w, sp + t, true);
    } else {
      assert w + (sp + t) == sp + t;
    }
  }

  /** Leading white space never starts a run. */
  lemma {:induction false} RunCountTrimStart(s: string)
    ensures RunCount(TrimStart(s)) == RunCount(s)
  {
    if s != [] && IsSpace(s[0]) {
      var sp, t := SpaceRun(s);
      RunsOfSpaces(sp, t, true);
    }
  }

  /** Trailing white space never starts a run. */
  lemma {:induction false} RunCountTrimEnd(t: string)
    ensures RunCount(TrimEnd(t)) == RunCount(t)
  {
    var r := TrimEnd(t);
    TrimEndFacts(t);
    var tail := t[|r|..];
    assert t == r + tail;
    assert AllSpace(tail);
    RunsOfTrailingSpaces(r, tail, true);
  }

  /** Trimming never changes the number of runs. */
  lemma {:induction false} RunCountTrim(s: string)
    ensures RunCount(Trim(s)) == RunCount(s)
  {
    assert Trim(s) == TrimEnd(TrimStart(s));
    RunCountTrimStart(s);
    RunCountTrimEnd(TrimStart(s));
  }

  /** The word count is the number of maximal runs of non-white-space characters of the raw text. */
  lemma {:induction false} WordCountIsRunCount(s: string)
    ensures WordCount(s) == RunCount(s)
  {
    var t := Trim(s);
    TrimFacts(s);
    RunCountTrim(s);
    if t != [] {
      SplitCount(t);
    } else {
      assert RunCount(t) == 0;
    }
  }

  /** The word count is 0 exactly for blank text, and at least 1 otherwise. */
  lemma {:induction false} WordCountZero(s: string)
    ensures WordCount(s) == 0 <==> AllSpace(s)
    ensures !AllSpace(s) ==> WordCount(s) >= 1
  {
    TrimFacts(s);
  }

  /** A blank text counts no words and no characters. */
  lemma {:induction false} BlankCounts(s: string)
    requires AllSpace(s)
    ensures WordCount(s) == 0 && CharCount(s) == 0
  {
    TrimFacts(s);
  }

  /** Runs of several spaces separate single words: "a b  c" has three words and six characters. */
  lemma {:induction false} SpacedWordsExample()
    ensures WordCount("a b  c") == 3 && CharCount("a b  c") == 6
  {
    WordCountIsRunCount("a b  c");
    CharCountFacts("a b  c");
    Utf16LengthBasic("a b  c");
    SpacedWordsRuns();
    SpacedWordsEnds();
  }

  lemma {:induction false} SpacedWordsEnds()
    ensures var s := "a b  c"; !IsSpace(s[0]) && !IsSpace(s[5])
  {
  }

  lemma {:induction false} SpacedWordsRuns()
    ensures RunCount("a b  c") == 3
  {
    assert RunsFrom("c", true) == 1 by { assert "c"[1..] == ""; }
    assert RunsFrom(" c", true) == 1 by { assert " c"[1..] == "c"; }
    assert RunsFrom("  c", false) == 1 by { assert "  c"[1..] == " c"; }
    assert RunsFrom("b  c", true) == 2 by { assert "b  c"[1..] == "  c"; }
    assert RunsFrom(" b  c", false) == 2 by { assert " b  c"[1..] == "b  c"; }
    assert "a b  c"[1..] == " b  c";
  }

  /** White space at the ends is not counted: "  a b  " has three characters. */
  lemma {:induction false} TrimmedCharsExample()
    ensures CharCount("  a b  ") == 3
  {
    TrimmedExample();
    Utf16LengthBasic("a b");
  }

  /** A character from U+10000 up counts twice, as in JavaScript: "\U{1F600}" has two characters. */
  lemma {:induction false} SurrogatePairExample()
    ensures CharCount("\U{1F600}") == 2
  {
    var s := "\U{1F600}";
    assert !IsSpace(s[0]);
    CharCountFacts(s);
    assert s[1..] == [];
  }

  lemma {:induction false} TrimmedExample()
    ensures Trim("  a b  ") == "a b"
  {
    TrimmedStart();
    TrimmedEnd();
    assert Trim("  a b  ") == TrimEnd(TrimStart("  a b  "));
  }

  lemma {:induction false} TrimmedEnd()
    ensures TrimEnd("a b  ") == "a b"
  {
    TrimmedCharsSpaces();
    var s0, s1, s2 := "a b  ", "a b ", "a b";
    assert s0[4] == ' ' && s0[..4] == s1;
    assert s1[3] == ' ' && s1[..3] == s2;
    assert s2[2] == 'b';
    assert TrimEnd(s2) == s2;
    assert TrimEnd(s1) == TrimEnd(s2);
    assert TrimEnd(s0) == TrimEnd(s1);
  }

  lemma {:induction false} TrimmedStart()
    ensures TrimStart("  a b  ") == "a b  "
  {
    TrimmedCharsSpaces();
    var s0, s1, s2 := "  a b  ", " a b  ", "a b  ";
    assert s0[0] == ' ' && s0[1..] == s1;
    assert s1[0] == ' ' && s1[1..] == s2;
    assert s2[0] == 'a';
    assert TrimStart(s2) == s2;
    assert TrimStart(s1) == TrimStart(s2);
    assert TrimStart(s0) == TrimStart(s1);
  }

  lemma {:induction false} TrimmedCharsSpaces()
    ensures IsSpace(' ') && !IsSpace('a') && !IsSpace('b')
  {
  }
}
