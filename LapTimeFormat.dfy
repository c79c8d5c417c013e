/**
  `formatLapTime` of the frontend utilities: milliseconds rendered as
  minutes, a colon and a six-character seconds field with three decimals.
  Times are rationals; `toFixed(3)` rounds to the nearest thousandth of a
  second, halves upwards.
 */
module LapTimeFormat {
  import opened Text

  /** Whole minutes: `Math.floor(ms / 1000 / 60)`. */
  function MinutesOf(ms: real): int {
    (ms / 60000.0).Floor
  }

  /** `(ms / 1000) % 60` scaled to thousandths and rounded as `toFixed(3)` does. */
  function Thousandths(ms: real): int {
    (ms - 60000.0 * MinutesOf(ms) as real + 0.5).Floor
  }

  lemma ThousandthsRange(ms: real)
    ensures 0 <= Thousandths(ms) <= 60000
  {
    var m := MinutesOf(ms);
    assert m as real <= ms / 60000.0 < m as real + 1.0;
    assert 60000.0 * m as real <= ms < 60000.0 * m as real + 60000.0;
  }

  /** A value of at most 99 has at most two decimal digits. */
  lemma TwoDigitsAtMost(n: nat)
    requires n < 100
    ensures |NatToString(n)| <= 2
  {
  }

  lemma ThreeDigitsAtMost(n: nat)
    requires n < 1000
    ensures |NatToString(n)| <= 3
  {
    if n >= 10 {
      TwoDigitsAtMost(n / 10);
    }
  }

  /** `x.toFixed(3)` for x = n / 1000 with n a whole number of thousandths. */
  function ToFixed3(n: nat): string {
    NatToString(n / 1000) + ("." + PadStart(NatToString(n % 1000), 3, '0'))
  }

  lemma ToFixed3Shape(n: nat)
    ensures |ToFixed3(n)| == |NatToString(n / 1000)| + 4 && ToFixed3(n)[|ToFixed3(n)| - 4] == '.'
  {
    ThreeDigitsAtMost(n % 1000);
  }

  /** The seconds field: `toFixed(3)` padded on the left with '0' to six characters. */
  function SecondsField(ms: real): string {
    ThousandthsRange(ms);
    PadStart(ToFixed3(Thousandths(ms)), 6, '0')
  }

  lemma SecondsFieldShape(ms: real)
    ensures |SecondsField(ms)| == 6 && SecondsField(ms)[2] == '.'
  {
    ThousandthsRange(ms);
    var n := Thousandths(ms);
    TwoDigitsAtMost(n / 1000);
    ToFixed3Shape(n);
  }

  /** Where the pieces sit in "minutes:seconds" when the seconds field is six characters. */
  lemma JoinShape(minutes: string, seconds: string)
    requires |seconds| == 6 && seconds[2] == '.'
    ensures var r := minutes + ":" + seconds;
      |r| == |minutes| + 7 && r[|r| - 7] == ':' && r[|r| - 4] == '.' &&
      r[|r| - 6..] == seconds && r[..|r| - 7] == minutes
  {
  }

  /** The lap-time string: "--:--" for no positive time, else minutes, ':' and the seconds field. */
  function FormatLapTime(ms: real): (r: string)
    ensures ms <= 0.0 ==> r == "--:--"
    ensures ms > 0.0 ==> |r| == |NatToString(MinutesOf(ms))| + 7
    ensures ms > 0.0 ==> r[|r| - 7] == ':' && r[|r| - 4] == '.' && r[|r| - 6..] == SecondsField(ms)
    ensures ms > 0.0 ==> r[..|r| - 7] == NatToString(MinutesOf(ms))
  {
    if ms <= 0.0 then "--:--"
    else
      assert 0.0 <= ms / 60000.0;
      SecondsFieldShape(ms);
      JoinShape(NatToString(MinutesOf(ms)), SecondsField(ms));
      NatToString(MinutesOf(ms)) + ":" + SecondsField(ms)
  }

  // ---------------------------------------------------------------- integer times

  /** For whole milliseconds the minutes are `ms div 60000` and nothing is rounded. */
  lemma IntegerSplit(ms: nat)
    ensures MinutesOf(ms as real) == ms / 60000
    ensures Thousandths(ms as real) == ms % 60000
  {
    var q, rm := ms / 60000, ms % 60000;
    assert ms == 60000 * q + rm;
    assert (ms as real) / 60000.0 == q as real + rm as real / 60000.0;
    assert 0.0 <= rm as real / 60000.0 < 1.0;
    assert MinutesOf(ms as real) == q;
    assert ms as real - 60000.0 * q as real + 0.5 == rm as real + 0.5;
  }

  /** "minutes:seconds" assembled from whole minutes and thousandths of the last minute. */
  function Assemble(minutes: nat, n: nat): string
  {
    NatToString(minutes) + ":" + PadStart(ToFixed3(n), 6, '0')
  }

  /** The string from its whole minutes and its rounded thousandths of the last minute. */
  lemma FormatFromParts(ms: real, minutes: nat, n: nat)
    requires ms > 0.0 && MinutesOf(ms) == minutes && Thousandths(ms) == n
    ensures FormatLapTime(ms) == Assemble(minutes, n)
  {
  }

  /** For whole milliseconds the string is built from integer division alone. */
  lemma FormatIntegerShape(ms: nat)
    requires ms > 0
    ensures FormatLapTime(ms as real) == Assemble(ms / 60000, ms % 60000)
  {
    IntegerSplit(ms);
  }

  /** Padding to a width the string does not exceed puts exactly the missing zeros in front. */
  lemma PadToWidth(s: string, width: nat)
    requires |s| <= width
    ensures PadStart(s, width, '0') == Repeat('0', width - |s|) + s
  {
    if |s| == width {
      assert Repeat('0', 0) == [];
    }
  }

  /** The fraction digits of `toFixed(3)` read back as the thousandths. */
  lemma FractionDigits(n: nat)
    ensures var frac := PadStart(NatToString(n % 1000), 3, '0');
      |frac| == 3 && AllDigits(frac) && DigitsValue(frac) == n % 1000
  {
    ThreeDigitsAtMost(n % 1000);
    NatToStringRoundTrip(n % 1000);
    ZeroPadValue(NatToString(n % 1000), 3);
  }

  /** A one-digit whole part is padded with one zero. */
  lemma OneWholeDigit(whole: string, rest: string)
    requires |whole| == 1 && AllDigits(whole) && |rest| == 4
    ensures var f := PadStart(whole + rest, 6, '0');
      |f| == 6 && f[2..] == rest && AllDigits(f[..2]) && DigitsValue(f[..2]) == DigitsValue(whole)
  {
    var fixed := whole + rest;
    assert Repeat('0', 1) == ['0'];
    var f := ['0'] + fixed;
    assert PadStart(fixed, 6, '0') == f;
    var two := ['0', whole[0]];
    assert f[..2] == two;
    assert two[..1] == ['0'] && ['0'][..0] == [] && whole[..0] == [];
  }

  /** A two-digit whole part fills the field without padding. */
  lemma TwoWholeDigits(whole: string, rest: string)
    requires |whole| == 2 && AllDigits(whole) && |rest| == 4
    ensures var f := PadStart(whole + rest, 6, '0');
      |f| == 6 && f[2..] == rest && AllDigits(f[..2]) && DigitsValue(f[..2]) == DigitsValue(whole)
  {
    var fixed := whole + rest;
    assert PadStart(fixed, 6, '0') == fixed;
    assert fixed[..2] == whole;
  }

  /** The digits of the seconds field read back as whole seconds and thousandths. */
  lemma SecondsFieldDigits(n: nat)
    requires n < 60000
    ensures var f := PadStart(ToFixed3(n), 6, '0');
      |f| == 6 && f[2] == '.' && AllDigits(f[..2]) && AllDigits(f[3..]) &&
      DigitsValue(f[..2]) == n / 1000 && DigitsValue(f[3..]) == n % 1000
  {
    var whole := NatToString(n / 1000);
    var frac := PadStart(NatToString(n % 1000), 3, '0');
    FractionDigits(n);
    TwoDigitsAtMost(n / 1000);
    NatToStringRoundTrip(n / 1000);
    var rest := "." + frac;
    assert rest[1..] == frac;
    if |whole| == 1 {
      OneWholeDigit(whole, rest);
    } else {
      TwoWholeDigits(whole, rest);
    }
    var f := PadStart(ToFixed3(n), 6, '0');
    assert f[3..] == f[2..][1..];
  }

  /**
    `r` reads back as `total` milliseconds: digits before the colon are whole
    minutes, two digits of seconds below 60, a point, three digits of
    thousandths.
   */
  ghost predicate ReadsBackAs(r: string, total: nat)
  {
    |r| >= 7 && r[|r| - 7] == ':' && r[|r| - 4] == '.' &&
    var mins := r[..|r| - 7];
    var secs := r[|r| - 6..|r| - 4];
    var frac := r[|r| - 3..];
    AllDigits(mins) && AllDigits(secs) && AllDigits(frac) &&
    DigitsValue(secs) < 60 &&
    DigitsValue(mins) * 60000 + DigitsValue(secs) * 1000 + DigitsValue(frac) == total
  }

  /**
    Reading an assembled time back: the minutes, the two seconds digits and
    the three fraction digits recombine to the total, and the seconds are
    below 60.
   */
  lemma AssembleRoundTrip(m: nat, n: nat)
    requires n < 60000
    ensures ReadsBackAs(Assemble(m, n), m * 60000 + n)
  {
    var minutes, seconds := NatToString(m), PadStart(ToFixed3(n), 6, '0');
    NatToStringRoundTrip(m);
    SecondsFieldDigits(n);
    ReadBack(Assemble(m, n), minutes, seconds, m, n);
  }

  /** A formatted whole-millisecond time reads back to the same number of milliseconds. */
  lemma FormatIntegerRoundTrip(t: real, ms: nat)
    requires ms > 0 && t == ms as real
    ensures ReadsBackAs(FormatLapTime(t), ms)
  {
    IntegerSplit(ms);
    FormatFromParts(t, ms / 60000, ms % 60000);
    AssembleRoundTrip(ms / 60000, ms % 60000);
  }

  /** Reading "minutes:seconds" back by position, given what each piece holds. */
  lemma ReadBack(r: string, minutes: string, seconds: string, m: nat, n: nat)
    requires r == minutes + ":" + seconds
    requires |seconds| == 6 && seconds[2] == '.' && n < 60000
    requires AllDigits(minutes) && DigitsValue(minutes) == m
    requires AllDigits(seconds[..2]) && DigitsValue(seconds[..2]) == n / 1000
    requires AllDigits(seconds[3..]) && DigitsValue(seconds[3..]) == n % 1000
    ensures ReadsBackAs(r, m * 60000 + n)
  {
    assert r[..|r| - 7] == minutes;
    assert r[|r| - 6..|r| - 4] == seconds[..2];
    assert r[|r| - 3..] == seconds[3..];
  }

  // ---------------------------------------------------------------- examples

  /** The string pieces for 94300 ms, evaluated on integers. */
  lemma Pieces94300(n: nat)
    requires n == 34300
    ensures NatToString(1) + ":" + PadStart(ToFixed3(n), 6, '0') == "1:34.300"
  {
    assert n / 1000 == 34 && n % 1000 == 300;
    var w, f := NatToString(34), NatToString(300);
    assert w == "34" && f == "300";
    assert PadStart(f, 3, '0') == f;
    assert ToFixed3(n) == w + "." + f;
    assert PadStart(w + "." + f, 6, '0') == "34.300";
    assert NatToString(1) == "1";
  }

  lemma Format94300()
    ensures FormatLapTime(94300.0) == "1:34.300"
  {
    FormatFromParts(94300.0, 1, 34300);
    Pieces94300(34300);
  }

  lemma Pieces65123(n: nat)
    requires n == 5123
    ensures NatToString(1) + ":" + PadStart(ToFixed3(n), 6, '0') == "1:05.123"
  {
    assert n / 1000 == 5 && n % 1000 == 123;
    var w, f := NatToString(5), NatToString(123);
    assert w == "5" && f == "123";
    assert PadStart(f, 3, '0') == f;
    assert ToFixed3(n) == w + "." + f;
    PadToWidth(w + "." + f, 6);
    assert Repeat('0', 1) == "0";
    assert NatToString(1) == "1";
  }

  lemma Format65123()
    ensures FormatLapTime(65123.0) == "1:05.123"
  {
    FormatFromParts(65123.0, 1, 5123);
    Pieces65123(5123);
  }

  lemma PiecesZero(n: nat)
    requires n == 0
    ensures NatToString(0) + ":" + PadStart(ToFixed3(n), 6, '0') == "0:00.000"
  {
    assert n / 1000 == 0 && n % 1000 == 0;
    var z := NatToString(0);
    assert z == "0";
    PadToWidth(z, 3);
    assert Repeat('0', 2) == "00";
    assert ToFixed3(n) == "0.000";
    PadToWidth("0.000", 6);
    assert Repeat('0', 1) == "0";
  }

  /** The stopwatch's lap-start sentinel of 0.001 ms renders as zero. */
  lemma SentinelRendersZero()
    ensures FormatLapTime(0.001) == "0:00.000"
  {
    FormatFromParts(0.001, 0, 0);
    PiecesZero(0);
  }

  /** No time and negative times render as the placeholder. */
  lemma PlaceholderForNoTime(ms: real)
    requires ms <= 0.0
    ensures FormatLapTime(ms) == "--:--"
  {
  }

  /**
    Rounding to thousandths can carry a fractional time into a seconds field
    of "60.000": 119999.6 ms renders as one minute and sixty seconds.
   */
  lemma RoundingCarriesToSixty()
    ensures FormatLapTime(119999.6) == "1:60.000"
  {
    FormatFromParts(119999.6, 1, 60000);
    PiecesSixty(60000);
  }

  lemma PiecesSixty(n: nat)
    requires n == 60000
    ensures NatToString(1) + ":" + PadStart(ToFixed3(n), 6, '0') == "1:60.000"
  {
    assert n / 1000 == 60 && n % 1000 == 0;
    var w, z := NatToString(60), NatToString(0);
    assert w == "60" && z == "0";
    PadToWidth(z, 3);
    assert Repeat('0', 2) == "00";
    assert PadStart(z, 3, '0') == "000";
    assert ToFixed3(n) == w + ("." + "000");
    assert ToFixed3(n) == "60.000";
    assert PadStart("60.000", 6, '0') == "60.000";
    assert NatToString(1) == "1";
  }
}
