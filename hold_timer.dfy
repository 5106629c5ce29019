/**
 * The countdown shown while seats are held (frontend/src/components/booking/HoldTimer.tsx):
 * whole seconds left until the hold expires, rendered as minutes and two-digit seconds, a
 * warning style in the last minute, and the expiry callback. Parsing the expiry date and the
 * clock are outside the model: the expiry instant and the current instant are given in
 * milliseconds.
 */
module HoldTimer {
  import opened Common
  import opened Text

  /** The last this many seconds are shown in the warning style. */
  const LowSeconds: int := 60

  /**
   * `getRemainingSeconds`: `Math.max(0, Math.floor((end - now) / 1000))`. For a positive
   * divisor Dafny's `/` rounds down, like `Math.floor` of the quotient.
   */
  function RemainingSeconds(end: int, now: int): (r: nat)
    ensures end - now >= 0 ==> r * MillisPerSecond <= end - now < (r + 1) * MillisPerSecond
    ensures r == 0 <==> end - now < MillisPerSecond
  {
    var q := (end - now) / MillisPerSecond;
    if q < 0 then 0 else q
  }

  /** Later instants never show more time left. */
  lemma RemainingNeverGrows(end: int, now1: int, now2: int)
    requires now1 <= now2
    ensures RemainingSeconds(end, now2) <= RemainingSeconds(end, now1)
  {
    var a, b := end - now2, end - now1;
    if b >= 0 && a >= 0 {
      var r2 := RemainingSeconds(end, now2);
      var r1 := RemainingSeconds(end, now1);
      assert r2 * MillisPerSecond <= a <= b < (r1 + 1) * MillisPerSecond;
    }
  }

  /** `String(s).padStart(width, fill)` with a one-character fill. */
  function PadStart(s: string, width: nat, fill: char): (r: string)
    ensures |r| == if |s| >= width then |s| else width
    ensures r[|r| - |s|..] == s
    ensures forall i :: 0 <= i < |r| - |s| ==> r[i] == fill
    decreases width - |s|
  {
    if |s| >= width then s else PadStart([fill] + s, width, fill)
  }

  /** Whole minutes, a colon, and the seconds past the minute padded to two digits. */
  function Display(minutes: nat, secs: nat): string
  {
    NatToString(minutes) + ":" + PadStart(NatToString(secs), 2, '0')
  }

  /** `formatRemaining`: `${m}:${String(s).padStart(2, '0')}` with `m = floor(seconds / 60)`. */
  function FormatRemaining(seconds: nat): string
  {
    Display(seconds / 60, seconds % 60)
  }

  /** Reads a display back: the digits before the colon are minutes, the last two are seconds. */
  function ParseRemaining(text: string): Option<nat>
  {
    if |text| < 4 || text[|text| - 3] != ':' then None
    else ParseFields(text[..|text| - 3], text[|text| - 2..])
  }

  /** Minutes and seconds fields, each all digits, as a number of seconds. */
  function ParseFields(m: string, sec: string): Option<nat>
  {
    if AllDigits(m) && AllDigits(sec) then Some(DigitsValue(m) * 60 + DigitsValue(sec)) else None
  }

  /** A leading zero does not change the value of a digit string. */
  lemma {:induction false} LeadingZero(s: string)
    requires AllDigits(s)
    ensures AllDigits(['0'] + s) && DigitsValue(['0'] + s) == DigitsValue(s)
    decreases |s|
  {
    var t := ['0'] + s;
    if s != [] {
      assert t[..|t| - 1] == ['0'] + s[..|s| - 1];
      LeadingZero(s[..|s| - 1]);
    }
  }

  /** A number below 60, padded to two places, is two digits worth that number. */
  lemma TwoDigits(n: nat)
    requires n < 60
    ensures var t := PadStart(NatToString(n), 2, '0');
      |t| == 2 && AllDigits(t) && DigitsValue(t) == n
  {
    var digits := NatToString(n);
    NatToStringRoundTrip(n);
    if n < 10 {
      assert PadStart(digits, 2, '0') == ['0'] + digits;
      LeadingZero(digits);
    } else {
      assert NatToString(n / 10) == [DigitChar(n / 10)];
    }
  }

  /** A digit string, a colon and two digits read back as that many minutes and seconds. */
  lemma ParseParts(m: string, sec: string, minutes: nat, secs: nat)
    requires |m| >= 1 && |sec| == 2 && AllDigits(m) && AllDigits(sec)
    requires DigitsValue(m) == minutes && DigitsValue(sec) == secs
    ensures ParseRemaining(m + ":" + sec) == Some(minutes * 60 + secs)
  {
    ColonSplit(m, sec);
  }

  /** A text, a colon and two characters: the colon sits third from the end. */
  lemma ColonSplit(m: string, sec: string)
    requires |m| >= 1 && |sec| == 2
    ensures var text := m + ":" + sec;
      |text| >= 4 && text[|text| - 3] == ':' && text[..|text| - 3] == m && text[|text| - 2..] == sec
  {
    var text := m + ":" + sec;
    assert text == m + ([':'] + sec);
    assert text[|m|..] == [':'] + sec;
  }

  /** A display with fewer than 60 seconds past the minute reads back as minutes and seconds. */
  lemma DisplayRoundTrip(minutes: nat, secs: nat)
    requires secs < 60
    ensures ParseRemaining(Display(minutes, secs)) == Some(minutes * 60 + secs)
  {
    var m, sec := NatToString(minutes), PadStart(NatToString(secs), 2, '0');
    assert Display(minutes, secs) == m + ":" + sec;
    TwoDigits(secs);
    NatToStringRoundTrip(minutes);
    ParseParts(m, sec, minutes, secs);
  }

  /** Reading the display back gives the seconds again. */
  lemma FormatRemainingRoundTrip(seconds: nat)
    ensures ParseRemaining(FormatRemaining(seconds)) == Some(seconds)
  {
    DisplayRoundTrip(seconds / 60, seconds % 60);
  }

  /** Two different second counts never show the same text. */
  lemma FormatRemainingInjective(a: nat, b: nat)
    requires FormatRemaining(a) == FormatRemaining(b)
    ensures a == b
  {
    FormatRemainingRoundTrip(a);
    FormatRemainingRoundTrip(b);
  }

  /** What the component renders: nothing, or the text and whether it is in the warning style. */
  datatype View = Hidden | Shown(text: string, low: bool)

  /** The render: hidden without an expiry (a missing or empty string) or with no time left. */
  function Render(holdExpireAt: Option<string>, remaining: int): (v: View)
  {
    if holdExpireAt.None? || holdExpireAt.value == "" || remaining <= 0 then Hidden
    else Shown(FormatRemaining(remaining), remaining <= LowSeconds)
  }

  /** One `tick`: the new remaining seconds, and whether `onExpire` is called. */
  function Tick(end: int, now: int, hasOnExpire: bool): (int, bool)
  {
    var sec := RemainingSeconds(end, now);
    (sec, sec <= 0 && hasOnExpire)
  }

  /**
   * A tick calls `onExpire` (when one is given) exactly when less than a second is left, and
   * then the timer is hidden; otherwise the timer shows the remaining time, in the warning
   * style exactly in the last minute.
   */
  lemma TickSpec(holdExpireAt: string, end: int, now: int, hasOnExpire: bool)
    requires holdExpireAt != ""
    ensures var (sec, expired) := Tick(end, now, hasOnExpire);
      && (expired <==> hasOnExpire && end - now < MillisPerSecond)
      && (Render(Some(holdExpireAt), sec) == Hidden <==> end - now < MillisPerSecond)
      && (end - now >= MillisPerSecond ==>
            Render(Some(holdExpireAt), sec) == Shown(FormatRemaining(sec), end - now < (LowSeconds + 1) * MillisPerSecond))
  {
    var sec := RemainingSeconds(end, now);
    if end - now >= MillisPerSecond {
      assert sec <= LowSeconds <==> end - now < (LowSeconds + 1) * MillisPerSecond;
    }
  }

  /** Once a tick finds the hold expired, every later tick does too. */
  lemma ExpiredStaysExpired(end: int, now1: int, now2: int, hasOnExpire: bool)
    requires now1 <= now2 && Tick(end, now1, hasOnExpire).1
    ensures Tick(end, now2, hasOnExpire).1
  {
    RemainingNeverGrows(end, now1, now2);
  }
}
