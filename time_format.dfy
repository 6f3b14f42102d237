/**
 * The screen's duration arithmetic: splitting milliseconds into hours,
 * minutes and seconds, and rendering them as the zero-padded
 * `HH : MM : SS` text of the main timer display (ASCII digits).
 *
 * As a partner to the renderer, `ParseTime` reads such a text back; the
 * round trip shows that the display always holds three fields, each at least
 * two digits, and loses exactly the sub-second part.
 */
module Format {

  /** Hours, minutes and seconds of a duration. */
  datatype HMS = HMS(hours: nat, minutes: nat, seconds: nat)

  datatype Option<T> = None | Some(value: T)

  /** The whole seconds an `HMS` stands for. */
  function TotalSeconds(t: HMS): nat
  {
    t.hours * 3600 + t.minutes * 60 + t.seconds
  }

  /** A split in which minutes and seconds are below 60. */
  predicate Normal(t: HMS)
  {
    t.minutes < 60 && t.seconds < 60
  }

  lemma SplitSeconds(ts: nat)
    ensures (ts % 3600) / 60 < 60
    ensures (ts / 3600) * 3600 + ((ts % 3600) / 60) * 60 + ts % 60 == ts
  {
    assert ts == (ts / 3600) * 3600 + ts % 3600;
    assert ts % 3600 == ((ts % 3600) / 60) * 60 + (ts % 3600) % 60;
    assert (ts % 3600) % 60 == ts % 60 by {
      var q := ts / 3600;
      assert ts == q * 3600 + ts % 3600;
      assert ts == (q * 60) * 60 + ts % 3600;
    }
  }

  /** getHMSFromMillis: whole seconds of `millis`, split into hours, minutes and seconds. */
  function GetHMSFromMillis(millis: int): (t: HMS)
    requires millis >= 0
    ensures Normal(t)
  {
    var totalSeconds := millis / 1000;
    HMS(totalSeconds / 3600, (totalSeconds % 3600) / 60, totalSeconds % 60)
  }

  /** The split has minutes and seconds below 60 and adds up to the whole seconds of `millis`. */
  lemma GetHMSFromMillisSplits(millis: int)
    requires millis >= 0
    ensures Normal(GetHMSFromMillis(millis))
    ensures TotalSeconds(GetHMSFromMillis(millis)) == millis / 1000
  {
    SplitSeconds(millis / 1000);
  }

  /** The split is unique: any normal `HMS` is what its own total splits back into. */
  lemma {:induction false} HMSRoundTrip(t: HMS)
    requires Normal(t)
    ensures GetHMSFromMillis(TotalSeconds(t) * 1000) == t
  {
    var ts := TotalSeconds(t);
    assert (ts * 1000) / 1000 == ts;
    var r := t.minutes * 60 + t.seconds;
    assert 0 <= r < 3600;
    assert ts == t.hours * 3600 + r;
    assert ts / 3600 == t.hours;
    assert ts % 3600 == r;
    assert r / 60 == t.minutes;
    assert ts % 60 == t.seconds by {
      assert ts == (t.hours * 60 + t.minutes) * 60 + t.seconds;
    }
  }

  predicate IsDigit(c: char)
  {
    '0' <= c <= '9'
  }

  predicate AllDigits(s: string)
  {
    forall i :: 0 <= i < |s| ==> IsDigit(s[i])
  }

  function DigitChar(d: nat): (c: char)
    requires d < 10
    ensures IsDigit(c)
  {
    ('0' as int + d) as char
  }

  function DigitValue(c: char): (d: nat)
    requires IsDigit(c)
    ensures d < 10 && DigitChar(d) == c
  {
    (c as int - '0' as int) as nat
  }

  /** The decimal digits of `n`, most significant first, with no leading zero. */
  function Decimal(n: nat): string
    decreases n
  {
    if n < 10 then [DigitChar(n)] else Decimal(n / 10) + [DigitChar(n % 10)]
  }

  /** The number a string of decimal digits denotes. */
  function DecimalValue(s: string): nat
    requires AllDigits(s)
    decreases |s|
  {
    if s == [] then 0 else DecimalValue(s[..|s| - 1]) * 10 + DigitValue(s[|s| - 1])
  }

  lemma {:induction false} DecimalRoundTrip(n: nat)
    ensures |Decimal(n)| >= 1 && AllDigits(Decimal(n))
    ensures DecimalValue(Decimal(n)) == n
    ensures n < 10 <==> |Decimal(n)| == 1
    decreases n
  {
    if n >= 10 {
      DecimalRoundTrip(n / 10);
      var s := Decimal(n);
      assert s[..|s| - 1] == Decimal(n / 10);
    }
  }

  /** A leading '0' does not change the value. */
  lemma {:induction false} LeadingZeroValue(s: string)
    requires AllDigits(s)
    ensures AllDigits(['0'] + s) && DecimalValue(['0'] + s) == DecimalValue(s)
    decreases |s|
  {
    var z := ['0'] + s;
    if s != [] {
      assert z[..|z| - 1] == ['0'] + s[..|s| - 1];
      LeadingZeroValue(s[..|s| - 1]);
    } else {
      assert z[..|z| - 1] == [];
    }
  }

  /** `%02d`: the decimal digits of `n`, padded on the left with '0' to at least two. */
  function ZeroPad2(n: nat): string
  {
    if n < 10 then ['0'] + Decimal(n) else Decimal(n)
  }

  lemma ZeroPad2RoundTrip(n: nat)
    ensures |ZeroPad2(n)| >= 2 && AllDigits(ZeroPad2(n))
    ensures DecimalValue(ZeroPad2(n)) == n
    ensures n < 100 ==> |ZeroPad2(n)| == 2
  {
    DecimalRoundTrip(n);
    if n < 10 {
      LeadingZeroValue(Decimal(n));
    } else if n < 100 {
      DecimalRoundTrip(n / 10);
    }
  }

  const Separator: string := " : "

  /**
   * formatTime: the three fields of `millis`, each zero-padded, joined by
   * " : "; twelve characters whenever the hours fit in two digits.
   */
  function FormatTime(millis: int): (s: string)
    requires millis >= 0
    ensures |s| >= 12
    ensures GetHMSFromMillis(millis).hours < 100 ==> |s| == 12
  {
    var t := GetHMSFromMillis(millis);
    ZeroPad2RoundTrip(t.hours);
    ZeroPad2RoundTrip(t.minutes);
    ZeroPad2RoundTrip(t.seconds);
    ZeroPad2(t.hours) + Separator + ZeroPad2(t.minutes) + Separator + ZeroPad2(t.seconds)
  }

  /** The number of decimal digits at the front of `s`. */
  function LeadingDigits(s: string): (k: nat)
    ensures k <= |s|
    ensures forall i :: 0 <= i < k ==> IsDigit(s[i])
    ensures k < |s| ==> !IsDigit(s[k])
    decreases |s|
  {
    if s != [] && IsDigit(s[0]) then 1 + LeadingDigits(s[1..]) else 0
  }

  /** Reads a non-empty run of digits off the front of `s` and returns its value and the rest. */
  function ParseField(s: string): Option<(nat, string)>
  {
    var k := LeadingDigits(s);
    if k == 0 then None
    else
      assert AllDigits(s[..k]);
      Some((DecimalValue(s[..k]), s[k..]))
  }

  /** Consumes `prefix` from the front of `s`. */
  function Expect(prefix: string, s: string): Option<string>
  {
    if |prefix| <= |s| && s[..|prefix|] == prefix then Some(s[|prefix|..]) else None
  }

  /** Reads a display text `H : M : S` back into its three fields. */
  function ParseTime(s: string): Option<HMS>
  {
    match ParseField(s)
    case None => None
    case Some((h, r1)) =>
      match Expect(Separator, r1)
      case None => None
      case Some(r2) =>
        match ParseField(r2)
        case None => None
        case Some((m, r3)) =>
          match Expect(Separator, r3)
          case None => None
          case Some(r4) =>
            match ParseField(r4)
            case None => None
            case Some((sec, r5)) => if r5 == [] then Some(HMS(h, m, sec)) else None
  }

  /** A field followed by text that starts with a non-digit is read back whole. */
  lemma ParseFieldOfPadded(n: nat, rest: string)
    requires rest == [] || !IsDigit(rest[0])
    ensures ParseField(ZeroPad2(n) + rest) == Some((n, rest))
  {
    ZeroPad2RoundTrip(n);
    var p := ZeroPad2(n);
    var s := p + rest;
    LeadingDigitsOfPrefix(p, rest);
    assert s[..|p|] == p;
    assert s[|p|..] == rest;
  }

  lemma {:induction false} LeadingDigitsOfPrefix(p: string, rest: string)
    requires AllDigits(p)
    requires rest == [] || !IsDigit(rest[0])
    ensures LeadingDigits(p + rest) == |p|
    decreases |p|
  {
    if p == [] {
      assert p + rest == rest;
    } else {
      assert (p + rest)[1..] == p[1..] + rest;
      LeadingDigitsOfPrefix(p[1..], rest);
    }
  }

  lemma ExpectSeparator(rest: string)
    ensures Expect(Separator, Separator + rest) == Some(rest)
  {
    assert (Separator + rest)[..|Separator|] == Separator;
    assert (Separator + rest)[|Separator|..] == rest;
  }

  /** Reading the display back gives exactly the split of the duration. */
  lemma FormatTimeRoundTrip(millis: int)
    requires millis >= 0
    ensures ParseTime(FormatTime(millis)) == Some(GetHMSFromMillis(millis))
  {
    var t := GetHMSFromMillis(millis);
    var ph, pm, ps := ZeroPad2(t.hours), ZeroPad2(t.minutes), ZeroPad2(t.seconds);
    var r4 := ps;
    var r3 := Separator + r4;
    var r2 := pm + r3;
    var r1 := Separator + r2;
    assert FormatTime(millis) == ph + r1;
    ParseFieldOfPadded(t.hours, r1);
    ExpectSeparator(r2);
    ParseFieldOfPadded(t.minutes, r3);
    ExpectSeparator(r4);
    ParseFieldOfPadded(t.seconds, []);
    assert ps + [] == ps;
  }

  /**
   * The display always has three fields of at least two digits each, joined
   * by " : "; minutes and seconds fields are exactly two digits.
   */
  lemma FormatTimeShape(millis: int)
    requires millis >= 0
    ensures exists h: string, m: string, s: string ::
      && FormatTime(millis) == h + Separator + m + Separator + s
      && |h| >= 2 && |m| == 2 && |s| == 2
      && AllDigits(h) && AllDigits(m) && AllDigits(s)
  {
    var t := GetHMSFromMillis(millis);
    ZeroPad2RoundTrip(t.hours);
    ZeroPad2RoundTrip(t.minutes);
    ZeroPad2RoundTrip(t.seconds);
    var h, m, s := ZeroPad2(t.hours), ZeroPad2(t.minutes), ZeroPad2(t.seconds);
    assert FormatTime(millis) == h + Separator + m + Separator + s;
  }

  /** The sub-second remainder never shows. */
  lemma FormatTimeWholeSeconds(millis: int)
    requires millis >= 0
    ensures FormatTime(millis) == FormatTime((millis / 1000) * 1000)
  {
    assert ((millis / 1000) * 1000) / 1000 == millis / 1000;
  }

  /** Two durations look the same on the display exactly when they have the same whole seconds. */
  lemma FormatTimeSameSeconds(a: int, b: int)
    requires a >= 0 && b >= 0
    ensures FormatTime(a) == FormatTime(b) <==> a / 1000 == b / 1000
  {
    if FormatTime(a) == FormatTime(b) {
      FormatTimeRoundTrip(a);
      FormatTimeRoundTrip(b);
      GetHMSFromMillisSplits(a);
      GetHMSFromMillisSplits(b);
    }
  }

  lemma ZeroPad2Small()
    ensures ZeroPad2(0) == "00" && ZeroPad2(1) == "01" && ZeroPad2(25) == "25"
  {
    assert Decimal(25) == Decimal(2) + [DigitChar(5)];
  }

  /** Renderings of the display: zero, a minute and a second, an hour a minute and a second, the default. */
  lemma FormatTimeExamples()
    ensures FormatTime(0) == "00 : 00 : 00"
    ensures FormatTime(61000) == "00 : 01 : 01"
    ensures FormatTime(3661000) == "01 : 01 : 01"
    ensures FormatTime(1_500_000) == "00 : 25 : 00"
  {
    ZeroPad2Small();
    assert GetHMSFromMillis(0) == HMS(0, 0, 0);
    assert GetHMSFromMillis(61000) == HMS(0, 1, 1);
    assert GetHMSFromMillis(3661000) == HMS(1, 1, 1);
    assert GetHMSFromMillis(1_500_000) == HMS(0, 25, 0);
    assert FormatTime(0) == "00" + Separator + "00" + Separator + "00";
    assert FormatTime(61000) == "00" + Separator + "01" + Separator + "01";
    assert FormatTime(3661000) == "01" + Separator + "01" + Separator + "01";
    assert FormatTime(1_500_000) == "00" + Separator + "25" + Separator + "00";
  }
}
