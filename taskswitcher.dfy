/**
 * A timer page: a countdown started in one of three modes, each
 * with its own random length, which on completion or cancellation records an
 * entry in a history kept for a week. `Math.random()` is the parameter `r`
 * with `0 <= r < 1`, `Date.now()` the parameter `now` (milliseconds), and one
 * call of `Tick` is one run of the interval effect.
 */
module TaskSwitcher {
  import opened Text
  import opened Seqs

  datatype HistoryEntry = HistoryEntry(mode: string, duration: int, timestamp: int)

  /** Seven days in milliseconds. */
  const OneWeek: int := 7 * 24 * 60 * 60 * 1000

  /** The longest timer any mode starts, in seconds. */
  const MaxDuration: int := 45 * 60

  /** `n.toString().padStart(2, '0')`, by cases: one digit gets a leading zero, longer numbers are unchanged. */
  function TwoDigits(n: nat): (r: string)
    ensures forall i :: 0 <= i < |r| ==> IsDigit(r[i])
    ensures |r| >= 2 && DigitsValue(r) == n
    ensures n < 100 ==> |r| == 2
  {
    if n < 100 then
      PairValue(n / 10, n % 10);
      [DigitChar(n / 10), DigitChar(n % 10)]
    else
      NatToStringValue(n);
      LongDecimal(n);
      NatToString(n)
  }

  /** The value of two decimal digits. */
  lemma PairValue(a: nat, b: nat)
    requires a < 10 && b < 10
    ensures DigitsValue([DigitChar(a), DigitChar(b)]) == 10 * a + b
  {
    var s := [DigitChar(a), DigitChar(b)];
    assert DigitChar(a) as int - '0' as int == a && DigitChar(b) as int - '0' as int == b;
    assert s[..1] == [DigitChar(a)] && s[..1][..0] == [];
    assert DigitsValue(s[..1]) == a;
  }

  /** From ten on, the decimal text is the text of the tens followed by the last digit. */
  lemma LongDecimal(n: nat)
    requires n >= 10
    ensures NatToString(n) == NatToString(n / 10) + [DigitChar(n % 10)]
    ensures |NatToString(n)| >= 2
  {
  }

  /** The cases of `TwoDigits` are exactly what `padStart(2, '0')` does to the decimal text. */
  lemma TwoDigitsIsPadStart(n: nat)
    ensures TwoDigits(n) == PadStart(NatToString(n), 2, '0')
  {
    if n < 10 {
      PaddedOneDigit(n);
    } else if n < 100 {
      PaddedTwoDigits(n);
    } else {
      PaddedLong(n);
    }
  }

  lemma PaddedOneDigit(n: nat)
    requires n < 10
    ensures TwoDigits(n) == PadStart(NatToString(n), 2, '0')
  {
    OneDigitPadded(n);
  }

  lemma PaddedTwoDigits(n: nat)
    requires 10 <= n < 100
    ensures TwoDigits(n) == PadStart(NatToString(n), 2, '0')
  {
    TwoDigitDecimal(n);
    PadStartWide(NatToString(n), 2, '0');
  }

  lemma PaddedLong(n: nat)
    requires n >= 100
    ensures TwoDigits(n) == PadStart(NatToString(n), 2, '0')
  {
    LongDecimal(n);
    PadStartWide(NatToString(n), 2, '0');
  }

  /** Between ten and ninety-nine the decimal text is the tens digit and the units digit. */
  lemma TwoDigitDecimal(n: nat)
    requires 10 <= n < 100
    ensures NatToString(n) == [DigitChar(n / 10), DigitChar(n % 10)]
  {
    LongDecimal(n);
    assert n / 10 < 10;
    assert NatToString(n / 10) == [DigitChar(n / 10)];
  }

  /** A text already as wide as asked is not padded. */
  lemma PadStartWide(s: string, width: nat, pad: char)
    requires |s| >= width
    ensures PadStart(s, width, pad) == s
  {
  }

  lemma OneDigitPadded(n: nat)
    requires n < 10
    ensures PadStart(NatToString(n), 2, '0') == [DigitChar(0), DigitChar(n)]
  {
    var d := [DigitChar(n)];
    assert NatToString(n) == d;
    assert ['0'] + d == [DigitChar(0), DigitChar(n)];
    assert PadStart(d, 2, '0') == PadStart(['0'] + d, 2, '0');
  }

  /**
   * `formatTime`: minutes and seconds, each at least two digits, around a
   * colon; below 100 minutes the text is exactly `mm:ss`.
   */
  function FormatTime(seconds: nat): (r: string)
    ensures |r| >= 5 && r[|r| - 3] == ':'
    ensures r[..|r| - 3] == TwoDigits(seconds / 60) && r[|r| - 2..] == TwoDigits(seconds % 60)
    ensures seconds < 6000 ==> |r| == 5
  {
    MinutesAndSeconds(seconds);
    var mins, secs := TwoDigits(seconds / 60), TwoDigits(seconds % 60);
    ColonParts(mins, secs);
    mins + ":" + secs
  }

  /** The seconds are below 60, and below 6000 seconds the minutes are below 100. */
  lemma MinutesAndSeconds(seconds: nat)
    ensures seconds % 60 < 60
    ensures seconds < 6000 ==> seconds / 60 < 100
  {
    assert seconds == seconds / 60 * 60 + seconds % 60;
  }

  /** The two sides of `mins + ":" + secs` when `secs` has two characters. */
  lemma ColonParts(mins: string, secs: string)
    requires |secs| == 2
    ensures var r := mins + ":" + secs;
      r[..|r| - 3] == mins && r[|r| - 3] == ':' && r[|r| - 2..] == secs
  {
  }

  lemma SameQuotientAndRemainder(s: nat, t: nat, d: nat)
    requires d > 0 && s / d == t / d && s % d == t % d
    ensures s == t
  {
    assert s == s / d * d + s % d;
    assert t == t / d * d + t % d;
  }

  /** Two numbers with the same two-digit text are equal. */
  lemma TwoDigitsInjective(m: nat, n: nat)
    requires TwoDigits(m) == TwoDigits(n)
    ensures m == n
  {
    var a, b := TwoDigits(m), TwoDigits(n);
    assert DigitsValue(a) == m && DigitsValue(b) == n;
  }

  /** Equal `mm:ss` texts come from equal minutes and equal seconds. */
  lemma ColonTextInjective(m1: nat, s1: nat, m2: nat, s2: nat)
    requires s1 < 100 && s2 < 100
    requires TwoDigits(m1) + ":" + TwoDigits(s1) == TwoDigits(m2) + ":" + TwoDigits(s2)
    ensures m1 == m2 && s1 == s2
  {
    var a1, b1, a2, b2 := TwoDigits(m1), TwoDigits(s1), TwoDigits(m2), TwoDigits(s2);
    ColonParts(a1, b1);
    ColonParts(a2, b2);
    TwoDigitsInjective(m1, m2);
    TwoDigitsInjective(s1, s2);
  }

  /** Different times show differently, so the display loses nothing. */
  lemma FormatTimeInjective(s: nat, t: nat)
    requires FormatTime(s) == FormatTime(t)
    ensures s == t
  {
    MinutesAndSeconds(s);
    MinutesAndSeconds(t);
    ColonTextInjective(s / 60, s % 60, t / 60, t % 60);
    SameQuotientAndRemainder(s, t, 60);
  }

  /** `Math.floor(r * (max - min + 1) + min) * 60`, the `getRandomTime` helper. */
  function RandomTime(min: int, max: int, r: real): (d: int)
    requires min <= max && 0.0 <= r < 1.0
    ensures min * 60 <= d <= max * 60 && d % 60 == 0
  {
    var span := (max - min + 1) as real;
    assert 0.0 <= r * span < span;
    var x := r * span + min as real;
    assert x.Floor as real <= x < (max + 1) as real;
    x.Floor * 60
  }

  /**
   * The duration `startTimer` picks: 15 or 30 minutes by default, 30 to 45
   * whole minutes for "green", 15 to 25 for "red", 25 for any other mode.
   */
  function Duration(timerMode: string, r: real): (d: int)
    requires 0.0 <= r < 1.0
    ensures timerMode == "default" ==> d == 900 || d == 1800
    ensures timerMode == "green" ==> 1800 <= d <= 2700 && d % 60 == 0
    ensures timerMode == "red" ==> 900 <= d <= 1500 && d % 60 == 0
    ensures timerMode !in {"default", "green", "red"} ==> d == 1500
    ensures 0 < d <= MaxDuration
  {
    if timerMode == "default" then (if r < 0.5 then 15 * 60 else 30 * 60)
    else if timerMode == "green" then RandomTime(30, 45, r)
    else if timerMode == "red" then RandomTime(15, 25, r)
    else 25 * 60
  }

  /** The stored history as loaded: the entries of the last seven days, in their order. */
  function RecentWeek(stored: seq<HistoryEntry>, now: int): (r: seq<HistoryEntry>)
    ensures forall i :: 0 <= i < |r| ==> r[i] in stored && r[i].timestamp > now - OneWeek
    ensures forall i :: 0 <= i < |stored| && stored[i].timestamp > now - OneWeek ==> stored[i] in r
  {
    Filter(stored, (e: HistoryEntry) => e.timestamp > now - OneWeek)
  }

  /** `history.slice(-5).reverse()`: the last five entries at most, newest first. */
  function Recent(history: seq<HistoryEntry>): (r: seq<HistoryEntry>)
    ensures |r| == if |history| < 5 then |history| else 5
    ensures forall i :: 0 <= i < |r| ==> r[i] == history[|history| - 1 - i]
  {
    var n := if |history| < 5 then |history| else 5;
    Reverse(history[|history| - n..])
  }

  /** The durations a timer records are at most 45 minutes, so the recent view shows them as `mm:ss`. */
  lemma RecentShowsMinutes(history: seq<HistoryEntry>, i: nat)
    requires forall k :: 0 <= k < |history| ==> 0 <= history[k].duration <= MaxDuration
    requires i < |Recent(history)|
    ensures |FormatTime(Recent(history)[i].duration)| == 5
  {
    assert Recent(history)[i] == history[|history| - 1 - i];
  }

  class PomodoroTimer {
    var time: int
    var isActive: bool
    var mode: string
    var history: seq<HistoryEntry>

    /** The remaining time is within the longest duration and is zero whenever the timer is idle. */
    ghost predicate Valid()
      reads this
    {
      0 <= time <= MaxDuration && (!isActive ==> time == 0)
    }

    /** Mounting: an idle timer in the default mode with last week's history. */
    constructor (stored: seq<HistoryEntry>, now: int)
      ensures Valid() && time == 0 && !isActive && mode == "default"
      ensures history == RecentWeek(stored, now)
    {
      time := 0;
      isActive := false;
      mode := "default";
      history := RecentWeek(stored, now);
    }

    /** `startTimer`: the mode is set and the timer runs with the mode's duration. */
    method StartTimer(timerMode: string, r: real)
      requires Valid() && 0.0 <= r < 1.0
      modifies this
      ensures Valid() && isActive && time > 0
      ensures mode == timerMode && time == Duration(timerMode, r) && history == old(history)
    {
      mode := timerMode;
      time := Duration(timerMode, r);
      isActive := true;
    }

    /**
     * `cancelTimer`: a running timer records its mode and the time still
     * left, then stops at zero; an idle one is left alone.
     */
    method CancelTimer(now: int)
      requires Valid()
      modifies this
      ensures Valid() && !isActive && time == 0 && mode == old(mode)
      ensures old(isActive) ==> history == old(history) + [HistoryEntry(old(mode), old(time), now)]
      ensures !old(isActive) ==> history == old(history)
    {
      if isActive {
        history := history + [HistoryEntry(mode, time, now)];
        isActive := false;
        time := 0;
      }
    }

    /**
     * One run of the interval effect: a running timer with time left counts
     * down one second; a running timer at zero stops and records an entry
     * of duration zero; an idle timer is left alone.
     */
    method Tick(now: int)
      requires Valid()
      modifies this
      ensures Valid() && mode == old(mode)
      ensures old(isActive) && old(time) > 0 ==> isActive && time == old(time) - 1 && history == old(history)
      ensures old(isActive) && old(time) == 0 ==>
                !isActive && time == 0 && history == old(history) + [HistoryEntry(old(mode), 0, now)]
      ensures !old(isActive) ==> !isActive && time == old(time) && history == old(history)
    {
      if isActive && time > 0 {
        time := time - 1;
      } else if time == 0 && isActive {
        isActive := false;
        history := history + [HistoryEntry(mode, time, now)];
      }
    }
  }
}
