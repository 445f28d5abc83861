// `formatTime`, shared verbatim by the settings panel (GameSettings.tsx) and
// the high-score table (ScoresTable.tsx): seconds rendered as "mm:ss" with
// JavaScript's floor division, truncating remainder, `toString` and
// `padStart(2, "0")`.
module TimeFormat {
  import opened TetrisTypes

  // ---------------------------------------------------------------------------
  // JavaScript number primitives, on integers

  /** JavaScript `%`: the remainder takes the sign of the dividend. */
  function JsRemainder(a: int, b: int): (r: int)
    requires b > 0
    ensures a >= 0 ==> 0 <= r < b && r == a % b
    ensures a < 0 ==> -b < r <= 0 && r == a + b * ((-a) / b)
  {
    if a >= 0 then a % b else -((-a) % b)
  }

  function DigitChar(d: nat): (c: char)
    requires d < 10
  {
    (48 + d) as char
  }

  predicate IsDigit(c: char)
  {
    '0' <= c <= '9'
  }

  function DigitValue(c: char): (d: nat)
    requires IsDigit(c)
    ensures d < 10
  {
    c as int - 48
  }

  predicate AllDigits(s: string)
  {
    forall i :: 0 <= i < |s| ==> IsDigit(s[i])
  }

  /** `n.toString()` for a non-negative integer: decimal, no leading zeros. */
  function NatToString(n: nat): (s: string)
    ensures |s| >= 1 && AllDigits(s)
  {
    if n < 10 then [DigitChar(n)] else NatToString(n / 10) + [DigitChar(n % 10)]
  }

  /** `n.toString()` for any integer. */
  function IntToString(n: int): (s: string)
    ensures |s| >= 1
  {
    if n < 0 then "-" + NatToString(-n) else NatToString(n)
  }

  /** `s.padStart(width, "0")`: prepends zeros up to `width`, never truncates. */
  function PadStart(s: string, width: nat): (r: string)
    decreases width - |s|
  {
    if |s| >= width then s else PadStart("0" + s, width)
  }

  // ---------------------------------------------------------------------------
  // formatTime

  /** The two zero-padded fields joined by ':'. */
  function Clock(minutes: int, secs: int): string
  {
    PadStart(IntToString(minutes), 2) + ":" + PadStart(IntToString(secs), 2)
  }

  /** `${Math.floor(seconds / 60)...padStart(2,"0")}:${(seconds % 60)...padStart(2,"0")}`.
      For a non-negative count, reading the output back as minutes * 60 +
      seconds gives the input. */
  function FormatTime(seconds: int): (r: string)
    ensures seconds >= 0 ==> ParseTime(r) == Some(seconds)
  {
    if seconds >= 0 then
      ClockRoundTrip(seconds / 60, seconds % 60);
      Clock(seconds / 60, JsRemainder(seconds, 60))
    else
      Clock(seconds / 60, JsRemainder(seconds, 60))
  }

  // ---------------------------------------------------------------------------
  // Reading a formatted time back

  /** Decimal value of a string of digits. */
  function ParseDigits(s: string): nat
    requires AllDigits(s)
  {
    if s == [] then 0 else ParseDigits(s[..|s| - 1]) * 10 + DigitValue(s[|s| - 1])
  }

  /** Index of the first ':' in `s`, if any. */
  function FindColon(s: string): (r: Option<nat>)
    ensures r.Some? ==> r.value < |s| && s[r.value] == ':' && forall j :: 0 <= j < r.value ==> s[j] != ':'
    ensures r.None? ==> forall j :: 0 <= j < |s| ==> s[j] != ':'
  {
    if s == [] then None
    else if s[0] == ':' then Some(0)
    else
      match FindColon(s[1..])
      case None => None
      case Some(k) => Some(k + 1)
  }

  /** Reads "m...m:ss" back as minutes * 60 + seconds. */
  function ParseTime(t: string): Option<int>
  {
    match FindColon(t)
    case None => None
    case Some(k) =>
      var mins, secs := t[..k], t[k + 1..];
      if AllDigits(mins) && AllDigits(secs) then Some(ParseDigits(mins) * 60 + ParseDigits(secs)) else None
  }

  // ---------------------------------------------------------------------------
  // Properties

  lemma {:induction false} PadStartShape(s: string, width: nat)
    ensures |PadStart(s, width)| == if |s| >= width then |s| else width
    ensures exists z: nat :: PadStart(s, width) == Zeros(z) + s
    decreases width - |s|
  {
    if |s| >= width {
      assert PadStart(s, width) == Zeros(0) + s;
    } else {
      PadStartShape("0" + s, width);
      var z: nat :| PadStart("0" + s, width) == Zeros(z) + ("0" + s);
      ZerosSucc(z);
      assert PadStart(s, width) == Zeros(z + 1) + s;
    }
  }

  function Zeros(n: nat): (r: string)
    ensures |r| == n && AllDigits(r)
  {
    if n == 0 then [] else Zeros(n - 1) + "0"
  }

  lemma {:induction false} ZerosSucc(n: nat)
    ensures Zeros(n) + "0" == "0" + Zeros(n)
  {
    if n > 0 {
      ZerosSucc(n - 1);
    }
  }

  lemma {:induction false} ParseDigitsAppend(s: string, t: string)
    requires AllDigits(s) && AllDigits(t)
    ensures AllDigits(s + t)
    ensures ParseDigits(s + t) == ParseDigits(s) * Pow10(|t|) + ParseDigits(t)
    decreases |t|
  {
    if t == [] {
      assert s + t == s;
    } else {
      var t' := t[..|t| - 1];
      var d := DigitValue(t[|t| - 1]);
      assert (s + t)[..|s + t| - 1] == s + t';
      ParseDigitsAppend(s, t');
      assert ParseDigits(s + t) == ParseDigits(s + t') * 10 + d;
      assert ParseDigits(t) == ParseDigits(t') * 10 + d;
      ShiftDecimal(ParseDigits(s), Pow10(|t'|), ParseDigits(t'), d);
    }
  }

  lemma ShiftDecimal(a: int, p: int, q: int, d: int)
    ensures (a * p + q) * 10 + d == a * (10 * p) + (q * 10 + d)
  {
  }

  function Pow10(n: nat): (r: nat)
    ensures r >= 1
  {
    if n == 0 then 1 else 10 * Pow10(n - 1)
  }

  /** Leading zeros do not change the value. */
  lemma {:induction false} ParseDigitsZeros(z: nat, s: string)
    requires AllDigits(s)
    ensures AllDigits(Zeros(z) + s) && ParseDigits(Zeros(z) + s) == ParseDigits(s)
  {
    ParseDigitsAppend(Zeros(z), s);
    ParseDigitsOfZeros(z);
  }

  lemma {:induction false} ParseDigitsOfZeros(z: nat)
    ensures ParseDigits(Zeros(z)) == 0
  {
    if z > 0 {
      ParseDigitsOfZeros(z - 1);
      assert Zeros(z)[..z - 1] == Zeros(z - 1);
    }
  }

  /** Reading `toString` back gives the number. */
  lemma {:induction false} ParseNatToString(n: nat)
    ensures ParseDigits(NatToString(n)) == n
  {
    if n >= 10 {
      ParseNatToString(n / 10);
      var s := NatToString(n);
      assert s[..|s| - 1] == NatToString(n / 10);
    }
  }

  /** `toString` has one digit below 10 and at most two below 100. */
  lemma NatToStringLength(n: nat)
    ensures |NatToString(n)| == 1 <==> n < 10
    ensures |NatToString(n)| <= 2 <==> n < 100
  {
  }

  /** A zero-padded number reads back as the number and contains no ':'. */
  lemma PaddedField(n: nat)
    ensures var f := PadStart(NatToString(n), 2);
      && AllDigits(f) && ParseDigits(f) == n
      && |f| == (if n < 100 then 2 else |NatToString(n)|)
  {
    var s := NatToString(n);
    PadStartShape(s, 2);
    var z: nat :| PadStart(s, 2) == Zeros(z) + s;
    ParseDigitsZeros(z, s);
    ParseNatToString(n);
    NatToStringLength(n);
  }

  /** The first ':' after a colon-free prefix is the one that follows it. */
  lemma {:induction false} FindColonAfter(a: string, b: string)
    requires forall j :: 0 <= j < |a| ==> a[j] != ':'
    requires |b| > 0 && b[0] == ':'
    ensures FindColon(a + b) == Some(|a|)
  {
    if a != [] {
      assert (a + b)[1..] == a[1..] + b;
      FindColonAfter(a[1..], b);
    }
  }

  /** The zero-padded minutes, a ':' and the zero-padded seconds in 00..59
      read back as minutes * 60 + seconds. */
  lemma ClockRoundTrip(minutes: nat, secs: nat)
    requires secs < 60
    ensures ParseTime(Clock(minutes, secs)) == Some(minutes * 60 + secs)
  {
    var mf := PadStart(NatToString(minutes), 2);
    var sf := PadStart(NatToString(secs), 2);
    var t := Clock(minutes, secs);
    PaddedField(minutes);
    PaddedField(secs);
    assert t == mf + (":" + sf);
    FindColonAfter(mf, ":" + sf);
    assert t[..|mf|] == mf && t[|mf| + 1..] == sf;
  }

  /** The seconds field is always two digits whose value is below 60. */
  lemma FormatTimeSecondsField(seconds: nat)
    ensures var t := FormatTime(seconds);
      && |t| >= 5 && t[|t| - 3] == ':'
      && IsDigit(t[|t| - 2]) && IsDigit(t[|t| - 1])
      && DigitValue(t[|t| - 2]) <= 5
      && DigitValue(t[|t| - 2]) * 10 + DigitValue(t[|t| - 1]) == seconds % 60
  {
    var mf := PadStart(NatToString(seconds / 60), 2);
    var sf := PadStart(NatToString(seconds % 60), 2);
    var t := FormatTime(seconds);
    assert t == mf + ":" + sf;
    PaddedField(seconds / 60);
    PaddedField(seconds % 60);
    assert sf[..1] == [sf[0]];
    assert ParseDigits(sf) == DigitValue(sf[0]) * 10 + DigitValue(sf[1]);
  }

  /** The output is exactly five characters below 100 minutes; from 6000
      seconds on the minutes field grows, because padding never truncates. */
  lemma FormatTimeLength(seconds: nat)
    ensures |FormatTime(seconds)| == 5 <==> seconds < 6000
    ensures seconds >= 6000 ==> |FormatTime(seconds)| == |NatToString(seconds / 60)| + 3
  {
    PaddedField(seconds / 60);
    PaddedField(seconds % 60);
    NatToStringLength(seconds / 60);
  }

  /** A start-of-game clock reads "00:00". */
  lemma FormatTimeZero()
    ensures FormatTime(0) == "00:00"
  {
  }

  /** For a negative input the truncating remainder shows through: -1 second
      is shown as "-1:-1". */
  lemma FormatTimeMinusOne()
    ensures FormatTime(-1) == "-1:-1"
  {
  }
}
