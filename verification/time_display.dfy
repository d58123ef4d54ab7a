/**
 Rendering of the remaining seconds as `MM:SS`: whole minutes and leftover
 seconds, each written in decimal and left-padded with zeros to two places.
 Minutes are not capped, so from 100 minutes on the minutes field grows wider.
 `ParseTime` is an independent reader of that format; the round trip is proved.
 */
module TimeDisplay {
  import opened Wrappers

  predicate IsDigit(c: char) {
    '0' <= c <= '9'
  }

  predicate AllDigits(s: string) {
    forall i :: 0 <= i < |s| ==> IsDigit(s[i])
  }

  function DigitValue(c: char): (d: nat)
    requires IsDigit(c)
    ensures d < 10
  {
    c as int - '0' as int
  }

  function DigitChar(d: nat): (c: char)
    requires d < 10
    ensures IsDigit(c) && DigitValue(c) == d
  {
    ('0' as int + d) as char
  }

  /** The decimal text of a non-negative integer, as `toString()` writes it: no leading zeros. */
  function DecimalString(n: nat): (s: string)
    ensures |s| >= 1 && AllDigits(s)
    ensures |s| == 1 <==> n < 10
    ensures |s| <= 2 <==> n < 100
    ensures s[0] == '0' ==> n == 0
    decreases n
  {
    if n < 10 then [DigitChar(n)] else DecimalString(n / 10) + [DigitChar(n % 10)]
  }

  /** The value of a string of decimal digits, most significant first. */
  function ParseDecimal(s: string): nat
    requires AllDigits(s)
    decreases |s|
  {
    if s == [] then 0 else 10 * ParseDecimal(s[..|s| - 1]) + DigitValue(s[|s| - 1])
  }

  /** `padStart(2, "0")`: short strings get zeros in front, longer ones stay as they are. */
  function PadStart2(s: string): (r: string)
    ensures |r| == if |s| >= 2 then |s| else 2
    ensures r[|r| - |s|..] == s
    ensures forall i :: 0 <= i < |r| - |s| ==> r[i] == '0'
  {
    if |s| >= 2 then s else if |s| == 1 then "0" + s else "00"
  }

  /** One two-place field of the face. */
  function Field(n: nat): (f: string)
    ensures AllDigits(f) && |f| >= 2
    ensures n < 100 <==> |f| == 2
  {
    var s := DecimalString(n);
    PadKeepsValue(s);
    PadStart2(s)
  }

  /** The `MM:SS` countdown face. */
  function FormatTime(time: nat): (r: string)
    ensures |r| >= 5 && r[|r| - 3] == ':'
    ensures AllDigits(r[..|r| - 3]) && AllDigits(r[|r| - 2..])
    ensures time < 6000 <==> |r| == 5
  {
    Join(Field(time / 60), Field(time % 60))
  }

  /** Two fields with a colon between them. */
  function Join(mm: string, ss: string): (r: string)
    requires AllDigits(mm) && AllDigits(ss) && |mm| >= 2 && |ss| == 2
    ensures |r| == |mm| + 3 && r[|r| - 3] == ':'
    ensures r[..|r| - 3] == mm && r[|r| - 2..] == ss
    ensures AllDigits(r[..|r| - 3]) && AllDigits(r[|r| - 2..])
  {
    var r := mm + ":" + ss;
    assert r[..|r| - 3] == mm;
    assert r[|r| - 2..] == ss;
    r
  }

  /** Reads `MM:SS` back: at least two minute digits, a colon, two second digits below 60. */
  function ParseTime(s: string): Option<nat> {
    if |s| < 5 || s[|s| - 3] != ':' then None
    else ReadFields(s[..|s| - 3], s[|s| - 2..])
  }

  /** The seconds denoted by a minutes field and a seconds field, if both are well formed. */
  function ReadFields(minutes: string, seconds: string): Option<nat> {
    if AllDigits(minutes) && AllDigits(seconds) && ParseDecimal(seconds) < 60 then
      Some(60 * ParseDecimal(minutes) + ParseDecimal(seconds))
    else
      None
  }

  lemma {:induction false} ParseDecimalString(n: nat)
    ensures ParseDecimal(DecimalString(n)) == n
    decreases n
  {
    if n >= 10 {
      var s := DecimalString(n);
      assert s[..|s| - 1] == DecimalString(n / 10);
      ParseDecimalString(n / 10);
    }
  }

  /** A leading zero does not change the value of a digit string. */
  lemma {:induction false} ParseLeadingZero(s: string)
    requires AllDigits(s)
    ensures AllDigits("0" + s) && ParseDecimal("0" + s) == ParseDecimal(s)
    decreases |s|
  {
    var z := "0" + s;
    if s != [] {
      var init := s[..|s| - 1];
      assert z[..|z| - 1] == "0" + init;
      ParseLeadingZero(init);
    }
  }

  lemma PadKeepsValue(s: string)
    requires AllDigits(s)
    ensures AllDigits(PadStart2(s)) && ParseDecimal(PadStart2(s)) == ParseDecimal(s)
  {
    if |s| == 1 {
      ParseLeadingZero(s);
    } else if |s| == 0 {
      assert ParseDecimal("0") == 0;
      ParseLeadingZero("0");
    }
  }

  lemma FieldValue(n: nat)
    ensures ParseDecimal(Field(n)) == n
  {
    ParseDecimalString(n);
    PadKeepsValue(DecimalString(n));
  }

  lemma ParseJoin(mm: string, ss: string)
    requires AllDigits(mm) && AllDigits(ss) && |mm| >= 2 && |ss| == 2
    requires ParseDecimal(ss) < 60
    ensures ParseTime(Join(mm, ss)) == Some(60 * ParseDecimal(mm) + ParseDecimal(ss))
  {
    var r := Join(mm, ss);
    assert ParseTime(r) == ReadFields(mm, ss);
  }

  lemma FaceValue(minutes: nat, seconds: nat)
    requires seconds < 60
    ensures ParseTime(Join(Field(minutes), Field(seconds))) == Some(60 * minutes + seconds)
  {
    var mm := Field(minutes);
    var ss := Field(seconds);
    FieldValue(minutes);
    FieldValue(seconds);
    ParseJoin(mm, ss);
  }

  /** Reading the face back gives the remaining seconds, for every duration. */
  lemma FormatTimeRoundTrip(time: nat)
    ensures ParseTime(FormatTime(time)) == Some(time)
  {
    FaceValue(time / 60, time % 60);
  }

  /** Different durations never share a face. */
  lemma FormatTimeInjective(a: nat, b: nat)
    ensures FormatTime(a) == FormatTime(b) <==> a == b
  {
    FormatTimeRoundTrip(a);
    FormatTimeRoundTrip(b);
  }
}
