/**
 * The elapsed-time label of the listening timer (`formatTime`): a millisecond
 * count becomes whole seconds, split into minutes and seconds, each written in
 * decimal and left-padded with '0' to two characters, joined by ':'.
 * Minutes are not capped, so the minutes field may grow past two digits.
 */
module TimeFormat {

  datatype Option<T> = None | Some(value: T)

  predicate IsDigit(c: char) {
    '0' <= c <= '9'
  }

  predicate AllDigits(s: string) {
    forall i :: 0 <= i < |s| ==> IsDigit(s[i])
  }

  /** The decimal digit character for `d`. */
  function DigitChar(d: nat): (c: char)
    requires d < 10
    ensures IsDigit(c) && c as int - '0' as int == d
  {
    ('0' as int + d) as char
  }

  /** `String(n)` for a natural number: its decimal digits, with no leading zero. */
  function Digits(n: nat): (s: string)
    ensures |s| >= 1 && AllDigits(s)
    ensures |s| > 1 ==> s[0] != '0'
    decreases n
  {
    if n < 10 then [DigitChar(n)] else Digits(n / 10) + [DigitChar(n % 10)]
  }

  /** The number a string of decimal digits denotes (leading zeros allowed). */
  function Value(s: string): nat
    requires AllDigits(s)
  {
    if s == [] then 0 else Value(s[..|s| - 1]) * 10 + (s[|s| - 1] as int - '0' as int)
  }

  /** `s.padStart(width, fill)`: `s` preceded by as many `fill` characters as make it `width` long. */
  function PadStart(s: string, width: nat, fill: char): (r: string)
    ensures |r| == if |s| < width then width else |s|
    ensures r[|r| - |s|..] == s
    ensures forall i :: 0 <= i < |r| - |s| ==> r[i] == fill
  {
    if |s| < width then Repeat(fill, width - |s|) + s else s
  }

  function Repeat(c: char, k: nat): (r: string)
    ensures |r| == k && forall i :: 0 <= i < k ==> r[i] == c
  {
    if k == 0 then [] else [c] + Repeat(c, k - 1)
  }

  /** A field of the label: `String(n).padStart(2, '0')`. */
  function Field(n: nat): (f: string)
    ensures |f| >= 2 && AllDigits(f)
    ensures n < 100 ==> |f| == 2
  {
    DigitsLength(n);
    PadStart(Digits(n), 2, '0')
  }

  /** Numbers below 100 take at most two digits, larger ones at least three. */
  lemma {:induction false} DigitsLength(n: nat)
    ensures n < 100 <==> |Digits(n)| <= 2
  {
    if n >= 10 {
      assert |Digits(n)| == |Digits(n / 10)| + 1;
    }
  }

  /** The label for a number of minutes and a number of seconds. */
  function Label(minutes: nat, seconds: nat): string {
    Field(minutes) + ":" + Field(seconds)
  }

  /** `formatTime(ms)`: minutes and seconds of the whole seconds in `ms`, as "mm:ss". */
  function FormatTime(ms: nat): (t: string)
    ensures |t| >= 5 && t[|t| - 3] == ':'
  {
    var sec := ms / 1000;
    Label(sec / 60, sec % 60)
  }

  /**
   * Reads an "mm:ss" label back as a number of seconds: the last two
   * characters are the seconds (below 60), the characters before the ':' are
   * the minutes (at least two digits).
   */
  function ParseTime(t: string): (r: Option<nat>)
    ensures r.Some? ==> |t| >= 5 && t[|t| - 3] == ':'
  {
    if |t| < 5 || t[|t| - 3] != ':' then None
    else
      var mm, ss := t[..|t| - 3], t[|t| - 2..];
      if AllDigits(mm) && AllDigits(ss) && Value(ss) < 60 then Some(60 * Value(mm) + Value(ss)) else None
  }

  /** Decimal digits denote the number they were written for. */
  lemma {:induction false} ValueOfDigits(n: nat)
    ensures Value(Digits(n)) == n
    decreases n
  {
    if n >= 10 {
      var d := Digits(n / 10);
      ValueOfDigits(n / 10);
      assert (d + [DigitChar(n % 10)])[..|d|] == d;
    }
  }

  /** Leading zeros do not change the value of a digit string. */
  lemma {:induction false} ValueOfZeros(z: string)
    requires forall i :: 0 <= i < |z| ==> z[i] == '0'
    ensures AllDigits(z) && Value(z) == 0
    decreases |z|
  {
    if z != [] {
      ValueOfZeros(z[..|z| - 1]);
    }
  }

  lemma {:induction false} LeadingZeros(z: string, s: string)
    requires forall i :: 0 <= i < |z| ==> z[i] == '0'
    requires AllDigits(s)
    ensures AllDigits(z + s) && Value(z + s) == Value(s)
    decreases |s|
  {
    ValueOfZeros(z);
    if s == [] {
      assert z + s == z;
    } else {
      var init := s[..|s| - 1];
      assert (z + s)[..|z + s| - 1] == z + init;
      LeadingZeros(z, init);
    }
  }

  /** A padded field is read back as the number it was written for. */
  lemma {:induction false} FieldValue(n: nat)
    ensures Value(Field(n)) == n
  {
    var d := Digits(n);
    var p := Field(n);
    var z := p[..|p| - |d|];
    assert p == z + d;
    LeadingZeros(z, d);
    ValueOfDigits(n);
  }

  /** The fields of "mm:ss" when the seconds field is two characters long. */
  lemma {:induction false} JoinFields(mm: string, ss: string)
    requires |ss| == 2
    ensures var t := mm + ":" + ss; |t| == |mm| + 3 && t[..|t| - 3] == mm && t[|t| - 3] == ':' && t[|t| - 2..] == ss
  {
    var t := mm + ":" + ss;
    assert t[..|t| - 3] == mm;
    assert t[|t| - 2..] == ss;
  }

  /**
   * `formatTime(ms)` is "mm:ss" where ss is exactly two digits worth the
   * seconds below a minute, and mm is at least two digits worth the whole
   * minutes, so that 60 * mm + ss is the number of whole seconds in `ms`.
   */
  lemma {:induction false} FormatTimeFields(ms: nat) returns (mm: string, ss: string)
    ensures FormatTime(ms) == mm + ":" + ss
    ensures |mm| >= 2 && |ss| == 2 && AllDigits(mm) && AllDigits(ss)
    ensures Value(mm) == ms / 1000 / 60 && Value(ss) == ms / 1000 % 60
    ensures Value(ss) < 60 && 60 * Value(mm) + Value(ss) == ms / 1000
  {
    var sec := ms / 1000;
    mm, ss := Field(sec / 60), Field(sec % 60);
    FieldValue(sec / 60);
    FieldValue(sec % 60);
  }

  /** Reading the label back gives the whole seconds it was formatted from. */
  lemma {:induction false} ParseFormatTime(ms: nat)
    ensures ParseTime(FormatTime(ms)) == Some(ms / 1000)
  {
    var mm, ss := FormatTimeFields(ms);
    ParseLabel(mm, ss);
  }

  /** A well-formed label reads back as its minutes times 60 plus its seconds. */
  lemma {:induction false} ParseLabel(mm: string, ss: string)
    requires |mm| >= 2 && |ss| == 2 && AllDigits(mm) && AllDigits(ss) && Value(ss) < 60
    ensures ParseTime(mm + ":" + ss) == Some(60 * Value(mm) + Value(ss))
  {
    JoinFields(mm, ss);
  }

  /** Two durations get the same label exactly when they have the same number of whole seconds. */
  lemma {:induction false} FormatTimeSameLabel(a: nat, b: nat)
    ensures FormatTime(a) == FormatTime(b) <==> a / 1000 == b / 1000
  {
    if FormatTime(a) == FormatTime(b) {
      ParseFormatTime(a);
      ParseFormatTime(b);
    }
  }

  /** The minutes field is not capped: from 100 minutes on, the label is longer than "mm:ss". */
  lemma {:induction false} MinutesUncapped(ms: nat)
    ensures |FormatTime(ms)| > 5 <==> ms >= 6000000
  {
    var minutes := ms / 1000 / 60;
    DigitsLength(minutes);
    assert |Field(minutes)| > 2 <==> minutes >= 100;
    assert |FormatTime(ms)| == |Field(minutes)| + 3;
    assert minutes >= 100 <==> ms / 1000 >= 6000;
  }

  /** One minute and one second reads "01:01"; a hundred minutes reads "100:00". */
  lemma {:induction false} FormatTimeExamples()
    ensures FormatTime(61000) == "01:01"
    ensures FormatTime(6000000) == "100:00"
  {
    SmallFields();
    OneMinuteOneSecond();
    HundredMinutes();
  }

  lemma {:induction false} OneMinuteOneSecond()
    ensures FormatTime(61000) == Label(1, 1)
  {
    assert 61000 / 1000 == 61 && 61 / 60 == 1 && 61 % 60 == 1;
  }

  lemma {:induction false} HundredMinutes()
    ensures FormatTime(6000000) == Label(100, 0)
  {
    assert 6000000 / 1000 == 6000 && 6000 / 60 == 100 && 6000 % 60 == 0;
  }

  lemma {:induction false} SmallFields()
    ensures Field(0) == "00" && Field(1) == "01" && Field(100) == "100"
  {
    assert Digits(0) == "0";
    assert Digits(1) == "1";
    assert Digits(10) == "10";
    assert Digits(100) == "100";
    assert Repeat('0', 1) == "0";
  }
}
