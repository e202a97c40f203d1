/**
 The animated statistic counter of the landing page. On mount the counter
 starts a periodic timer that raises the displayed number by one per tick
 until it reaches the target `end`; the number is shown followed by "+"
 for large targets. Wall-clock time is replaced by discrete tick events.
 */
module Counter {

  /** The duration the code divides by to get the tick period
      (`const duration = 1400`), in milliseconds. */
  const Duration: int := 1400

  /** Smallest timer period the counter ever asks for, in milliseconds. */
  const MinPeriod: int := 10

  function Max(a: int, b: int): int {
    if a < b then b else a
  }

  /** The timer period `max(10, floor(1400 / end))`. The source computes it
      only for a positive target, where floor division agrees with Dafny's `/`. */
  function StepTime(end: int): (r: int)
    requires end > 0
    ensures MinPeriod <= r <= Duration
    ensures r == MinPeriod <==> end >= 128
  {
    Max(MinPeriod, Duration / end)
  }

  /** Wall-clock length of a whole animation: `end` ticks, one per period. */
  function TotalDuration(end: int): int
    requires end > 0
  {
    end * StepTime(end)
  }

  /** While the period is above its floor of 10 ms (targets below 128) the
      animation lasts at most 1400 ms and rounding costs it less than `end` ms;
      from `end = 128` on it lasts `10 * end` ms, which exceeds 1400 ms exactly
      for targets above 140. */
  lemma TotalDurationBounds(end: int)
    requires end > 0
    ensures end < 128 ==> Duration - end < TotalDuration(end) <= Duration
    ensures end >= 128 ==> TotalDuration(end) == MinPeriod * end
    ensures TotalDuration(end) <= Duration <==> end <= 140
  {
  }

  // ---------------------------------------------------------------------
  // Decimal rendering of the displayed number

  function Digit(d: int): (c: char)
    requires 0 <= d < 10
    ensures '0' <= c <= '9'
  {
    "0123456789"[d]
  }

  predicate IsDigit(c: char) {
    '0' <= c <= '9'
  }

  function DigitValue(c: char): (d: nat)
    requires IsDigit(c)
    ensures d < 10
  {
    (c as int) - ('0' as int)
  }

  /** The base-10 text of a natural number, as a number renders in the page. */
  function DecimalString(n: nat): (s: string)
    decreases n
  {
    if n < 10 then [Digit(n)] else DecimalString(n / 10) + [Digit(n % 10)]
  }

  /** The number a string of decimal digits denotes. */
  function DecimalValue(s: string): (n: nat)
    requires forall i :: 0 <= i < |s| ==> IsDigit(s[i])
    decreases |s|
  {
    if s == [] then 0 else DecimalValue(s[..|s| - 1]) * 10 + DigitValue(s[|s| - 1])
  }

  /** Rendering is canonical decimal: only digits, no leading zero, and it
      reads back as the number rendered. */
  lemma {:induction false} DecimalRoundTrip(n: nat)
    ensures var s := DecimalString(n);
      && |s| > 0
      && (forall i :: 0 <= i < |s| ==> IsDigit(s[i]))
      && (|s| > 1 ==> s[0] != '0')
      && DecimalValue(s) == n
    decreases n
  {
    var s := DecimalString(n);
    if n < 10 {
      assert s == [Digit(n)];
      assert DigitValue(Digit(n)) == n;
    } else {
      DecimalRoundTrip(n / 10);
      var p := DecimalString(n / 10);
      assert s == p + [Digit(n % 10)];
      assert s[..|s| - 1] == p;
      assert DigitValue(Digit(n % 10)) == n % 10;
    }
  }

  /** Distinct numbers render as distinct texts. */
  lemma DecimalInjective(m: nat, n: nat)
    requires DecimalString(m) == DecimalString(n)
    ensures m == n
  {
    DecimalRoundTrip(m);
    DecimalRoundTrip(n);
  }

  /** The counter's text: the value, then "+" when the target is at least
      100. The text is never blank, is at most one character longer than the
      number, and ends in "+" exactly when the target is at least 100. */
  function Display(value: nat, end: int): (t: string)
    ensures |t| > 0
    ensures |t| <= |DecimalString(value)| + 1
    ensures t[|t| - 1] == '+' <==> end >= 100
  {
    DecimalRoundTrip(value);
    var s := DecimalString(value);
    assert IsDigit(s[|s| - 1]);
    s + (if end >= 100 then "+" else "")
  }

  /** The text is exactly the value's digits, which read back as the value,
      followed by one "+" when the target is at least 100 and nothing otherwise. */
  lemma DisplaySuffix(value: nat, end: int)
    ensures var t := Display(value, end);
      var k := |DecimalString(value)|;
      && |t| == k + (if end >= 100 then 1 else 0)
      && t[..k] == DecimalString(value)
      && (end >= 100 ==> t[k] == '+')
      && (forall i :: 0 <= i < k ==> IsDigit(t[i]))
      && DecimalValue(t[..k]) == value
  {
  }

  // ---------------------------------------------------------------------
  // The tick machine, as a pure specification

  /** The interval callback's local `start` and whether its timer is live. */
  datatype TickState = TickState(start: nat, running: bool)

  /** Mounting: `start` is 0, and a timer runs only for a positive target,
      which `start` has then not reached yet. */
  function Mount(end: int): (s: TickState)
    ensures s.start == 0
    ensures s.running <==> end > 0
    ensures s.running ==> s.start < end
  {
    TickState(0, end > 0)
  }

  /** One timer tick: add one, and stop the timer once `start >= end`.
      A cleared (or never started) timer delivers no effect. */
  function Step(s: TickState, end: int): (r: TickState)
    ensures r.start == s.start + (if s.running then 1 else 0)
    ensures !s.running ==> r == s
    ensures s.running ==> (r.running <==> r.start < end)
  {
    if !s.running then s
    else
      var next := s.start + 1;
      TickState(next, !(next >= end))
  }

  /** The state after `n` tick events since mount: at most one step per
      event, and a live timer has not yet reached its target. */
  function Run(end: int, n: nat): (s: TickState)
    ensures s.start <= n
    ensures s.running ==> s.start == n && s.start < end
    decreases n
  {
    if n == 0 then Mount(end) else Step(Run(end, n - 1), end)
  }

  function Min(a: int, b: int): int {
    if a < b then a else b
  }

  /** Closed form of the tick machine: nothing ever starts for `end <= 0`;
      otherwise after `n` ticks the value is `min(n, end)` and the timer is
      live exactly while fewer than `end` ticks have happened. */
  lemma {:induction false} RunClosedForm(end: int, n: nat)
    ensures Run(end, n) == if end <= 0 then TickState(0, false)
                           else TickState(Min(n, end), n < end)
    decreases n
  {
    if n > 0 {
      RunClosedForm(end, n - 1);
    }
  }

  /** Each tick adds exactly one while the timer is live, and nothing after. */
  lemma TickAddsOne(end: int, n: nat)
    ensures Run(end, n + 1).start == Run(end, n).start + (if n < end then 1 else 0)
  {
    RunClosedForm(end, n);
    RunClosedForm(end, n + 1);
  }

  /** The displayed value never decreases. */
  lemma RunMonotone(end: int, m: nat, n: nat)
    requires m <= n
    ensures Run(end, m).start <= Run(end, n).start
  {
    RunClosedForm(end, m);
    RunClosedForm(end, n);
  }

  /** A non-positive target never animates: the value stays 0 forever. */
  lemma NonPositiveStaysZero(end: int, n: nat)
    requires end <= 0
    ensures Run(end, n).start == 0 && !Run(end, n).running
  {
    RunClosedForm(end, n);
  }

  /** For a positive target the value never exceeds it, first reaches it at
      exactly `end` ticks, and further ticks change nothing. */
  lemma ReachesEndAfterExactlyEnd(end: int, n: nat)
    requires end >= 1
    ensures Run(end, n).start <= end
    ensures Run(end, n).start == end <==> n >= end
    ensures n >= end ==> Run(end, n) == Run(end, end) == TickState(end, false)
  {
    RunClosedForm(end, n);
    RunClosedForm(end, end);
  }

  /** Once the animation is over the text shows the target itself. */
  lemma FinalText(end: int, n: nat)
    requires end >= 1 && n >= end
    ensures Display(Run(end, n).start, end) == Display(end, end)
  {
    RunClosedForm(end, n);
  }

  /** The final texts of the page's three counters, whose targets are 10,
      30000 and 15. */
  lemma PageCounters()
    ensures Display(10, 10) == "10"
    ensures Display(30000, 30000) == "30000+"
    ensures Display(15, 15) == "15"
  {
  }

  // ---------------------------------------------------------------------
  // The mounted component

  /** One mounted counter: the displayed `value` state, the interval
      callback's captured `start`, and whether its timer is live. */
  class CounterView {
    const end: int
    var value: nat
    var start: nat
    var timerLive: bool
    /** Tick events delivered since mount. */
    ghost var ticks: nat

    ghost predicate Valid()
      reads this
    {
      value == start && TickState(start, timerLive) == Run(end, ticks)
    }

    /** Mounting runs the effect: the value is 0, and a timer with period
        `StepTime(end)` is started only for a positive target. */
    constructor (end: int)
      ensures Valid() && this.end == end && ticks == 0
      ensures value == 0 && timerLive == (end > 0)
    {
      this.end := end;
      value := 0;
      start := 0;
      timerLive := end > 0;
      ticks := 0;
    }

    /** The period of the live timer. */
    function Period(): (ms: int)
      reads this
      requires timerLive && Valid()
      ensures MinPeriod <= ms <= Duration
    {
      RunClosedForm(end, ticks);
      StepTime(end)
    }

    /** The text shown for the current value: "0" for a target that never
        starts, and the target's own text once `end` ticks have passed. */
    function Text(): (t: string)
      reads this
      requires Valid()
      ensures end <= 0 ==> t == "0"
      ensures 0 < end <= ticks ==> t == Display(end, end)
    {
      RunClosedForm(end, ticks);
      assert DecimalString(0) == "0";
      Display(value, end)
    }

    /** One timer tick: the callback increments `start`, pushes it into
        `value` and clears the timer once `start >= end`. */
    method Tick()
      requires Valid()
      modifies this
      ensures Valid() && ticks == old(ticks) + 1
      ensures value == old(value) + (if old(timerLive) then 1 else 0)
      ensures end <= 0 ==> value == 0 && !timerLive
      ensures end > 0 ==> value <= end && (timerLive <==> value < end)
    {
      if timerLive {
        start := start + 1;
        value := start;
        if start >= end {
          timerLive := false;
        }
      }
      ticks := ticks + 1;
      RunClosedForm(end, ticks);
    }
  }
}
