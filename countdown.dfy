/**
 * The ballot countdown, as both the voting component and the voting page
 * render it: every second the remaining time to the end date, in
 * milliseconds, is split into days, hours, minutes and seconds; once it is
 * negative the timer stops and the countdown shows that voting is closed.
 */
module Countdown {
  import opened Util

  /** The unit lengths in milliseconds: 1000, 1000 * 60, 1000 * 60 * 60 and 1000 * 60 * 60 * 24. */
  const SecondMs: nat := 1000
  const MinuteMs: nat := 60000
  const HourMs: nat := 3600000
  const DayMs: nat := 86400000

  datatype TimeLeft = TimeLeft(d: nat, h: nat, m: nat, s: nat)

  /** The milliseconds a time left stands for, down to the second. */
  function Millis(t: TimeLeft): nat {
    t.d * DayMs + t.h * HourMs + t.m * MinuteMs + t.s * SecondMs
  }

  /** The fields are in range for their unit. */
  predicate InRange(t: TimeLeft) {
    t.h < 24 && t.m < 60 && t.s < 60
  }

  /** The state the interval callback sets: nothing once the distance is negative. */
  function Decompose(distance: int): (r: Option<TimeLeft>)
    ensures r.None? <==> distance < 0
    ensures r.Some? ==> InRange(r.value) && r.value.d == distance / DayMs
  {
    if distance < 0 then None
    else
      Some(TimeLeft(distance / DayMs, (distance % DayMs) / HourMs, (distance % HourMs) / MinuteMs, (distance % MinuteMs) / SecondMs))
  }

  /** One tick of the timer: the new state, and whether the interval keeps running. */
  function Tick(endMs: int, nowMs: int): (r: (Option<TimeLeft>, bool))
    ensures r.1 <==> nowMs <= endMs
    ensures r.0 == Decompose(endMs - nowMs)
  {
    var distance := endMs - nowMs;
    (Decompose(distance), !(distance < 0))
  }

  /**
   * The fields are the mixed-radix digits of the distance: together they
   * give it back to the second, and the dropped remainder is under a second.
   */
  lemma DecomposeRecomposes(distance: int)
    requires distance >= 0
    ensures Decompose(distance).Some?
    ensures Millis(Decompose(distance).value) <= distance < Millis(Decompose(distance).value) + SecondMs
  {
    var d, r1 := distance / 86400000, distance % 86400000;
    var h, r2 := r1 / 3600000, r1 % 3600000;
    var m, r3 := r2 / 60000, r2 % 60000;
    HourRemainder(distance, d * 24 + h, r2);
    MinuteRemainder(distance, d * 1440 + h * 60 + m, r3);
    assert Decompose(distance).value == TimeLeft(d, h, m, r3 / 1000);
  }

  /** The remainder by an hour of q hours and r milliseconds, r under an hour. */
  lemma HourRemainder(x: int, q: int, r: int)
    requires 0 <= r < 3600000 && x == q * 3600000 + r
    ensures x % 3600000 == r
  {
  }

  /** The remainder by a minute of q minutes and r milliseconds, r under a minute. */
  lemma MinuteRemainder(x: int, q: int, r: int)
    requires 0 <= r < 60000 && x == q * 60000 + r
    ensures x % 60000 == r
  {
  }

  /** No other in-range fields describe the same distance: the decomposition is unique. */
  lemma DecomposeUnique(distance: int, t: TimeLeft)
    requires InRange(t) && Millis(t) <= distance < Millis(t) + SecondMs
    ensures Decompose(distance) == Some(t)
  {
    var rest := distance - Millis(t);
    var low := t.h * 3600000 + t.m * 60000 + t.s * 1000 + rest;
    assert distance == t.d * 86400000 + low && 0 <= low < 86400000;
    DayRemainder(distance, t.d, low);
    var mid := t.m * 60000 + t.s * 1000 + rest;
    HourRemainder(distance, t.d * 24 + t.h, mid);
    var small := t.s * 1000 + rest;
    MinuteRemainder(distance, t.d * 1440 + t.h * 60 + t.m, small);
  }

  /** Quotient and remainder by a day of q days and r milliseconds, r under a day. */
  lemma DayRemainder(x: int, q: int, r: int)
    requires 0 <= r < 86400000 && x == q * 86400000 + r
    ensures x / 86400000 == q && x % 86400000 == r
  {
  }

  // =====================================================================
  // Rendering
  // =====================================================================

  /** What a countdown shows: a closed notice, or one cell per unit. */
  datatype View = Closed(notice: string) | Cells(cells: seq<string>)

  /** The voting component: "CLOSED", or the cells value + upper-cased key, in the keys' order d, h, m, s. */
  function ComponentView(state: Option<TimeLeft>): (v: View)
    ensures state.None? <==> v == Closed("CLOSED")
    ensures state.Some? ==>
      v.Cells? && |v.cells| == 4 && forall i :: 0 <= i < 4 ==> |v.cells[i]| >= 2 && v.cells[i][|v.cells[i]| - 1] == "DHMS"[i]
  {
    match state
    case None => Closed("CLOSED")
    case Some(t) =>
      Cells([NatToString(t.d) + "D", NatToString(t.h) + "H", NatToString(t.m) + "M", NatToString(t.s) + "S"])
  }

  /** `String(n).padStart(2, '0')`. */
  function Pad2(n: nat): (r: string)
    ensures |r| >= 2
    ensures n < 100 ==> r == [DigitChar(n / 10), DigitChar(n % 10)]
  {
    var x := NatToString(n);
    if n < 10 then "0" + x
    else
      assert n < 100 ==> x == NatToString(n / 10) + [DigitChar(n % 10)];
      x
  }

  /** The voting page: "VOTING CLOSED", or the four padded numbers, days first. */
  function PageView(state: Option<TimeLeft>): (v: View)
    ensures state.None? <==> v == Closed("VOTING CLOSED")
    ensures state.Some? ==> v.Cells? && |v.cells| == 4 && forall i :: 0 <= i < 4 ==> |v.cells[i]| >= 2
    ensures state.Some? && InRange(state.value) ==> forall i :: 1 <= i < 4 ==> |v.cells[i]| == 2
  {
    match state
    case None => Closed("VOTING CLOSED")
    case Some(t) => Cells([Pad2(t.d), Pad2(t.h), Pad2(t.m), Pad2(t.s)])
  }

  /** An open countdown on the page shows hours, minutes and seconds as exactly their two decimal digits. */
  lemma PageShowsDigits(distance: int)
    requires distance >= 0
    ensures var t := Decompose(distance).value;
      var v := PageView(Decompose(distance));
      v.cells[1] == [DigitChar(t.h / 10), DigitChar(t.h % 10)] &&
      v.cells[2] == [DigitChar(t.m / 10), DigitChar(t.m % 10)] &&
      v.cells[3] == [DigitChar(t.s / 10), DigitChar(t.s % 10)]
  {
  }
}
