/** The control-surface logic of control.cpp as functions on values: the poll cadence, the
    debounced edge detection of buttons and gate inputs, click classification, the LED blink
    timer, and the potentiometer's ring buffer, trimmed mean and clamp. Pin readings and
    `millis()` are parameters; `digitalRead` of a pull-up input gives 1 while open and 0 while
    closed. */
module ControlSpec {
  import opened FixedPoint

  const ControlRate: int := 10
  const BtnDebounce: int := 50
  const BtnClickMedium: int := 500
  const BtnClickLong: int := 2000
  const MaxButtons: int := 6
  const MaxPots: int := 6
  const MaxDigitalLeds: int := 6
  const MaxGtls: int := 6
  const PotSmoothSamples: int := 32
  const PotSmoothOutlierLow: int := (32 * 20) / 100
  const PotSmoothOutlierHigh: int := ((32 * 80) / 100) + 1
  /** The largest potentiometer value, the top of the 12-bit range. */
  const AdcMax: int := 4095

  /** `_ms - _last_ms >= CONTROL_RATE` in unsigned long: at least 10 ms since the last poll,
      also across the wrap-around of `millis()`. */
  function PollDue(lastMs: int, ms: int): (due: bool)
    requires IsUint32(lastMs) && IsUint32(ms)
    ensures lastMs <= ms ==> (due <==> lastMs + ControlRate <= ms)
    ensures ms < lastMs ==> (due <==> lastMs + ControlRate <= ms + Pow32)
  {
    Elapsed(lastMs, ms) >= ControlRate
  }

  /** An open reading that comes less than `BTN_DEBOUNCE` ms after the last press while the input
      is closed: contact bounce, and `loop` returns before touching anything. */
  function Bounce(state: int, reading: int, duration: int): (ignored: bool)
    ensures duration >= BtnDebounce ==> !ignored
    ensures reading == 0 ==> !ignored
    ensures ignored ==> reading != state
  {
    state == 0 && reading == 1 && duration < BtnDebounce
  }

  predicate ExactlyOne(a: bool, b: bool, c: bool)
  {
    (a && !b && !c) || (!a && b && !c) || (!a && !b && c)
  }

  // Buttons

  /** The fields of a `Button`. */
  datatype ButtonState = ButtonState(
    pressed: bool, released: bool, down: bool,
    click: bool, shortClick: bool, mediumClick: bool, longClick: bool,
    state: int, lastState: int, lastMs: int)

  /** `Button(pin)`: open. The constructor leaves the flags and `_last_ms` unassigned; they are
      taken as false and 0. */
  function ButtonInit(): (b: ButtonState)
    ensures ButtonConsistent(b) && b.state == 1 && !b.down
  {
    ButtonState(false, false, false, false, false, false, false, 1, 1, 0)
  }

  /** The flags agree with each other and with `_state`: an edge is a press or a release, never
      both; a release is a click of exactly one length, and no click flag is set without one. */
  ghost predicate ButtonConsistent(b: ButtonState)
  {
    b.down == (b.state == 0) && !(b.pressed && b.released) &&
    (b.pressed ==> b.down) && (b.released ==> !b.down) &&
    b.click == b.released &&
    (b.released ==> ExactlyOne(b.shortClick, b.mediumClick, b.longClick)) &&
    (!b.released ==> !b.shortClick && !b.mediumClick && !b.longClick)
  }

  /** `Button::loop(ms)` with `reading` from `digitalRead`. Unless the reading is bounce, the
      reading becomes the state, the edges are detected against the previous state, a press
      records its time, and a release is classified by the time since that press. */
  function ButtonStep(b: ButtonState, reading: int, ms: int): (r: ButtonState)
    requires IsUint32(b.lastMs) && IsUint32(ms)
    ensures IsUint32(r.lastMs)
    ensures Bounce(b.state, reading, Elapsed(b.lastMs, ms)) ==> r == b
    ensures !Bounce(b.state, reading, Elapsed(b.lastMs, ms)) ==>
      ButtonConsistent(r) && r.state == reading && r.lastState == b.state &&
      (r.pressed <==> b.state == 1 && reading == 0) &&
      (r.released <==> b.state == 0 && reading == 1) &&
      r.lastMs == (if r.pressed then ms else b.lastMs)
    ensures !Bounce(b.state, reading, Elapsed(b.lastMs, ms)) && r.released ==>
      var d := Elapsed(b.lastMs, ms);
      (r.shortClick <==> d <= BtnClickMedium) &&
      (r.mediumClick <==> BtnClickMedium < d <= BtnClickLong) &&
      (r.longClick <==> BtnClickLong < d)
    ensures ButtonConsistent(b) ==> ButtonConsistent(r)
  {
    var duration := Elapsed(b.lastMs, ms);
    if Bounce(b.state, reading, duration) then b
    else
      var down := reading == 0;
      var pressed := b.state == 1 && down;
      var released := b.state == 0 && reading == 1;
      var long := released && duration > BtnClickLong;
      var medium := released && !long && duration > BtnClickMedium;
      var short := released && !long && !medium;
      ButtonState(pressed, released, down, released, short, medium, long,
                  reading, b.state, if pressed then ms else b.lastMs)
  }

  /** A release is only reported once the debounce time has passed since the press, so even a
      short click lasted at least `BTN_DEBOUNCE` ms. */
  lemma ClickOutlastsDebounce(b: ButtonState, reading: int, ms: int)
    requires IsUint32(b.lastMs) && IsUint32(ms) && ButtonConsistent(b)
    requires ButtonStep(b, reading, ms).released
    ensures b.state == 0 && reading == 1 && Elapsed(b.lastMs, ms) >= BtnDebounce
    ensures ButtonStep(b, reading, ms).click
  {
  }

  /** A bounce right after a press leaves every flag as it was, so `pressed` stays true for a
      second poll: a caller that acts on `pressed` acts twice for one press. */
  lemma PressedRepeatsDuringBounce(b: ButtonState, t: int)
    requires IsUint32(b.lastMs) && IsUint32(t) && t + ControlRate < Pow32 && b.state == 1
    ensures ButtonStep(b, 0, t).pressed
    ensures ButtonStep(ButtonStep(b, 0, t), 1, t + ControlRate).pressed
  {
  }

  /** One poll: the `digitalRead` result and the `millis()` time passed to `loop`. */
  datatype Poll = Poll(reading: int, ms: int)

  ghost predicate PollTimes(ps: seq<Poll>)
  {
    forall i :: 0 <= i < |ps| ==> IsUint32(ps[i].ms)
  }

  /** The button after a series of polls, first poll first. */
  function RunButton(b: ButtonState, ps: seq<Poll>): (r: ButtonState)
    requires IsUint32(b.lastMs) && PollTimes(ps)
    ensures IsUint32(r.lastMs)
    decreases |ps|
  {
    if |ps| == 0 then b else RunButton(ButtonStep(b, ps[0].reading, ps[0].ms), ps[1..])
  }

  /** While a pressed button is held, no further edge is reported and the press time is kept, so
      the release is classified by the whole time since the press. */
  lemma {:induction false} HeldButtonKeepsPressTime(b: ButtonState, ps: seq<Poll>)
    requires IsUint32(b.lastMs) && PollTimes(ps) && b.state == 0
    requires forall i :: 0 <= i < |ps| ==> ps[i].reading == 0
    ensures var r := RunButton(b, ps);
      r.state == 0 && r.lastMs == b.lastMs &&
      (|ps| > 0 ==> !r.pressed && !r.released && !r.click)
    decreases |ps|
  {
    if |ps| > 0 {
      var b' := ButtonStep(b, ps[0].reading, ps[0].ms);
      assert !b'.pressed && !b'.released && !b'.click && b'.lastMs == b.lastMs;
      HeldButtonKeepsPressTime(b', ps[1..]);
    }
  }

  // LEDs

  /** The fields of a `DigitalLed`; `lastState` is the level last written to the pin. */
  datatype LedState = LedState(state: bool, lastState: bool, lastMs: int, period: int)

  /** `DigitalLed(pin)`: off and not blinking. */
  function LedInit(): (l: LedState)
    ensures !l.state && !l.lastState && l.period == 0 && IsUint32(l.lastMs)
  {
    LedState(false, false, 0, 0)
  }

  /** `DigitalLed::loop(ms)`: the state is written to the pin, then a blinking LED flips once
      more than `_period` ms (in unsigned long) have passed since its last flip. */
  function LedLoop(l: LedState, ms: int): (r: LedState)
    requires IsUint32(l.lastMs) && IsUint32(ms)
    ensures IsUint32(r.lastMs) && r.period == l.period && r.lastState == l.state
    ensures r.state != l.state <==> 0 < l.period && U32(l.lastMs + l.period) < ms
    ensures r.lastMs == (if r.state != l.state then ms else l.lastMs)
  {
    var written := l.(lastState := l.state);
    if l.period > 0 && U32(l.lastMs + l.period) < ms then written.(lastMs := ms, state := !l.state)
    else written
  }

  /** `on()`: steady on. */
  function LedOn(l: LedState): (r: LedState)
    ensures r.state && r.period == 0 && r.lastState == l.lastState && r.lastMs == l.lastMs
  {
    l.(period := 0, state := true)
  }

  /** `off()`: steady off. */
  function LedOff(l: LedState): (r: LedState)
    ensures !r.state && r.period == 0 && r.lastState == l.lastState && r.lastMs == l.lastMs
  {
    l.(period := 0, state := false)
  }

  /** `toggle()`: steady, at the other level. */
  function LedToggle(l: LedState): (r: LedState)
    ensures r.state == !l.state && r.period == 0 && r.lastState == l.lastState && r.lastMs == l.lastMs
  {
    l.(period := 0, state := !l.state)
  }

  /** `blink(ms)`: `_period = ms >> 1`, an arithmetic shift, so half the blink cycle rounded
      down; the level is left as it is. */
  function LedBlink(l: LedState, ms: int): (r: LedState)
    ensures 2 * r.period <= ms < 2 * r.period + 2
    ensures r.state == l.state && r.lastState == l.lastState && r.lastMs == l.lastMs
  {
    l.(period := ms / 2)
  }

  /** The LED after a series of loops at the given times. */
  function RunLed(l: LedState, times: seq<int>): (r: LedState)
    requires IsUint32(l.lastMs) && forall i :: 0 <= i < |times| ==> IsUint32(times[i])
    ensures IsUint32(r.lastMs) && r.period == l.period
    decreases |times|
  {
    if |times| == 0 then l else RunLed(LedLoop(l, times[0]), times[1..])
  }

  /** After `on`, `off` or `toggle` the LED holds its level through any number of loops, and
      after the first loop the pin shows that level. */
  lemma {:induction false} SteadyLedHolds(l: LedState, times: seq<int>)
    requires IsUint32(l.lastMs) && forall i :: 0 <= i < |times| ==> IsUint32(times[i])
    requires l.period == 0
    ensures RunLed(l, times).state == l.state
    ensures |times| > 0 ==> RunLed(l, times).lastState == l.state
    decreases |times|
  {
    if |times| > 0 {
      SteadyLedHolds(LedLoop(l, times[0]), times[1..]);
    }
  }

  /** The flip test adds `_period` to `_last_ms` in unsigned long: close to the wrap-around of
      `millis()` the sum wraps and a blinking LED flips on the very next loop. */
  lemma BlinkFlipsEarlyNearWrap()
    ensures LedLoop(LedState(true, true, Pow32 - 100, 250), Pow32 - 90).state == false
  {
  }

  // Gate inputs with an LED

  /** The fields of a `GateTrigger`, with its LED's fields. */
  datatype GateState = GateState(
    high: bool, low: bool, gate: bool, ledOverride: bool,
    state: int, lastState: int, lastMs: int, led: LedState)

  /** `GateTrigger(input_pin, led_pin)`: `_state` starts at `false`, that is 0, the closed level,
      and the LED is left to the caller (`led_override`). */
  function GateInit(): (g: GateState)
    ensures g.ledOverride && g.state == 0 && !g.high && !g.low && !g.gate
  {
    GateState(false, false, false, true, 0, 0, 0, LedInit())
  }

  /** `GateTrigger::loop(ms)` with `reading` from `digitalRead`: the button's debounce and edge
      detection (`high` for a closing, `low` for an opening), the LED switched with the gate
      unless overridden, then the LED's own loop. Bounce skips the LED's loop as well. */
  function GateStep(g: GateState, reading: int, ms: int): (r: GateState)
    requires IsUint32(g.lastMs) && IsUint32(g.led.lastMs) && IsUint32(ms)
    ensures IsUint32(r.lastMs) && IsUint32(r.led.lastMs) && r.ledOverride == g.ledOverride
    ensures Bounce(g.state, reading, Elapsed(g.lastMs, ms)) ==> r == g
    ensures !Bounce(g.state, reading, Elapsed(g.lastMs, ms)) ==>
      r.state == reading && r.lastState == g.state && r.gate == (reading == 0) &&
      (r.high <==> g.state == 1 && reading == 0) && (r.low <==> g.state == 0 && reading == 1) &&
      !(r.high && r.low) && r.lastMs == (if r.high then ms else g.lastMs)
    ensures !Bounce(g.state, reading, Elapsed(g.lastMs, ms)) && g.ledOverride ==>
      r.led == LedLoop(g.led, ms)
    ensures !Bounce(g.state, reading, Elapsed(g.lastMs, ms)) && !g.ledOverride ==>
      (r.high ==> r.led.state && r.led.period == 0) && (r.low ==> !r.led.state && r.led.period == 0)
  {
    var duration := Elapsed(g.lastMs, ms);
    if Bounce(g.state, reading, duration) then g
    else
      var gate := reading == 0;
      var high := g.state == 1 && gate;
      var led1 := if high && !g.ledOverride then LedOn(g.led) else g.led;
      var low := g.state == 0 && reading == 1;
      var led2 := if low && !g.ledOverride then LedOff(led1) else led1;
      GateState(high, low, gate, g.ledOverride, reading, g.state,
                if high then ms else g.lastMs, LedLoop(led2, ms))
  }

  /** Because `_state` starts at the closed level, an open input read 50 ms or more after start
      reports a falling edge (`low`) although the gate never rose; before that it is taken for
      bounce and nothing happens. */
  lemma SpuriousLowAtStart()
    ensures GateStep(GateInit(), 1, BtnDebounce - 1) == GateInit()
    ensures GateStep(GateInit(), 1, BtnDebounce).low
  {
  }

  // Potentiometers

  ghost predicate Sorted(s: seq<int>)
  {
    forall i, j :: 0 <= i <= j < |s| ==> s[i] <= s[j]
  }

  function Sum(s: seq<int>): int
    decreases |s|
  {
    if |s| == 0 then 0 else Sum(s[..|s| - 1]) + s[|s| - 1]
  }

  /** The entries summed by the trimmed mean: `max(POT_SMOOTH_OUTLIER_LOW, 1)` up to, not
      including, `min(POT_SMOOTH_OUTLIER_HIGH, POT_SMOOTH_SAMPLES - 1)`. */
  const TrimBottom: int := Max(PotSmoothOutlierLow, 1)
  const TrimTop: int := Min(PotSmoothOutlierHigh, PotSmoothSamples - 1)

  /** The window is entries 6 to 25 of the 32: six outliers are dropped at each end. */
  lemma TrimWindow()
    ensures TrimBottom == 6 && TrimTop == 26
  {
  }

  /** `total / k` over the sorted samples: the truncated mean of the trimmed window. For sorted
      samples it lies between the 7th smallest and the 7th largest sample, so up to six
      outliers at either end cannot move it outside the bulk of the readings. */
  function TrimmedMean(s: seq<int>): (m: int)
    requires |s| == PotSmoothSamples
    ensures Sorted(s) ==> s[TrimBottom] <= m <= s[TrimTop - 1]
  {
    WindowMeanBetween(s);
    CQuot(Sum(s[TrimBottom..TrimTop]), TrimTop - TrimBottom)
  }

  lemma WindowMeanBetween(s: seq<int>)
    requires |s| == PotSmoothSamples
    ensures Sorted(s) ==>
      s[TrimBottom] <= CQuot(Sum(s[TrimBottom..TrimTop]), TrimTop - TrimBottom) <= s[TrimTop - 1]
  {
    TrimWindow();
    var window := s[TrimBottom..TrimTop];
    if Sorted(s) {
      forall k | 0 <= k < |window|
        ensures s[TrimBottom] <= window[k] <= s[TrimTop - 1]
      {
        assert window[k] == s[TrimBottom + k];
      }
      SumBetween(window, s[TrimBottom], s[TrimTop - 1]);
      QuotBetween(Sum(window), |window|, s[TrimBottom], s[TrimTop - 1]);
    }
  }

  lemma {:induction false} SumBetween(t: seq<int>, lo: int, hi: int)
    requires forall k :: 0 <= k < |t| ==> lo <= t[k] <= hi
    ensures lo * |t| <= Sum(t) <= hi * |t|
    decreases |t|
  {
    if |t| > 0 {
      SumBetween(t[..|t| - 1], lo, hi);
      assert lo * |t| == lo * (|t| - 1) + lo;
      assert hi * |t| == hi * (|t| - 1) + hi;
    }
  }

  /** C's truncating division keeps a value between two bounds when the dividend lies between
      the bounds' multiples. */
  lemma QuotBetween(x: int, n: int, lo: int, hi: int)
    requires n > 0 && lo * n <= x <= hi * n
    ensures lo <= CQuot(x, n) <= hi
  {
    if x >= 0 {
      if lo > 0 {
        MulDivCancel(lo, n);
        DivMonotone(lo * n, x, n);
      }
      assert hi >= 0 by {
        if hi < 0 { MulMonotone(n, hi, -1); }
      }
      MulDivCancel(hi, n);
      DivMonotone(x, hi * n, n);
    } else {
      if hi < 0 {
        MulDivCancel(-hi, n);
        DivMonotone((-hi) * n, -x, n);
      }
      assert lo < 0 by {
        if lo >= 0 { MulMonotone(n, 0, lo); }
      }
      MulDivCancel(-lo, n);
      DivMonotone(-x, (-lo) * n, n);
    }
  }

  function Distance(a: int, b: int): nat
  {
    Abs(a - b)
  }

  /** The clamp after `map`: the value in `[0, 4095]` nearest to `v`. */
  function ClampAdc(v: int): (r: int)
    ensures 0 <= r <= AdcMax
    ensures forall y :: 0 <= y <= AdcMax ==> Distance(r, v) <= Distance(y, v)
  {
    if v < 0 then 0 else if v > AdcMax then AdcMax else v
  }

  /** `_samples` and `_smooth`: the ring of the last 32 readings and the slot of the newest. */
  datatype Ring = Ring(samples: seq<int>, smooth: int)

  ghost predicate RingValid(q: Ring)
  {
    |q.samples| == PotSmoothSamples && 0 <= q.smooth < PotSmoothSamples
  }

  /** `_smooth = (_smooth + 1) % POT_SMOOTH_SAMPLES; _samples[_smooth] = curr;` */
  function RingPush(q: Ring, x: int): (r: Ring)
    requires RingValid(q)
    ensures RingValid(r) && r.smooth == (q.smooth + 1) % PotSmoothSamples
    ensures r.samples[r.smooth] == x
    ensures forall i :: 0 <= i < PotSmoothSamples && i != r.smooth ==> r.samples[i] == q.samples[i]
  {
    var s := (q.smooth + 1) % PotSmoothSamples;
    Ring(q.samples[s := x], s)
  }

  /** The ring after a series of readings, newest last. */
  function RunRing(q: Ring, xs: seq<int>): (r: Ring)
    requires RingValid(q)
    ensures RingValid(r)
    decreases |xs|
  {
    if |xs| == 0 then q else RingPush(RunRing(q, xs[..|xs| - 1]), xs[|xs| - 1])
  }

  lemma {:induction false} RunRingAppend(q: Ring, a: seq<int>, b: seq<int>)
    requires RingValid(q)
    ensures RunRing(q, a + b) == RunRing(RunRing(q, a), b)
    decreases |b|
  {
    if |b| == 0 {
      assert a + b == a;
    } else {
      assert (a + b)[..|a + b| - 1] == a + b[..|b| - 1];
      RunRingAppend(q, a, b[..|b| - 1]);
    }
  }

  /** The ring holds the latest readings in order: after up to 32 readings, reading `j`
      (counting from 0) sits `j + 1` slots after the slot that was newest before them. */
  lemma {:induction false} RingHoldsLatest(q: Ring, xs: seq<int>)
    requires RingValid(q) && |xs| <= PotSmoothSamples
    ensures RunRing(q, xs).smooth == (q.smooth + |xs|) % PotSmoothSamples
    ensures forall j :: 0 <= j < |xs| ==>
      RunRing(q, xs).samples[(q.smooth + j + 1) % PotSmoothSamples] == xs[j]
    decreases |xs|
  {
    if |xs| > 0 {
      var k := |xs|;
      var p := xs[..k - 1];
      RingHoldsLatest(q, p);
      var r := RunRing(q, xs);
      assert r == RingPush(RunRing(q, p), xs[k - 1]);
      ModSucc(q.smooth + k - 1, PotSmoothSamples);
      forall j | 0 <= j < k
        ensures r.samples[(q.smooth + j + 1) % PotSmoothSamples] == xs[j]
      {
        if j < k - 1 {
          ModDistinct(q.smooth + j + 1, q.smooth + k, PotSmoothSamples);
          assert p[j] == xs[j];
        }
      }
    }
  }

  /** Once the last 32 readings are all `c`, every slot of the ring holds `c`. */
  lemma SteadyReadingsFillRing(q: Ring, xs: seq<int>, c: int)
    requires RingValid(q) && |xs| >= PotSmoothSamples
    requires forall k :: |xs| - PotSmoothSamples <= k < |xs| ==> xs[k] == c
    ensures forall i :: 0 <= i < PotSmoothSamples ==> RunRing(q, xs).samples[i] == c
  {
    var n := PotSmoothSamples;
    var a, b := xs[..|xs| - n], xs[|xs| - n..];
    assert xs == a + b;
    RunRingAppend(q, a, b);
    var m := RunRing(q, a);
    RingHoldsLatest(m, b);
    forall i | 0 <= i < n
      ensures RunRing(q, xs).samples[i] == c
    {
      var j := if i > m.smooth then i - m.smooth - 1 else i + n - m.smooth - 1;
      DivModUnique(m.smooth + j + 1, n, if i > m.smooth then 0 else 1, i);
      assert b[j] == xs[|xs| - n + j];
    }
  }

  /** `x` inserted into sorted `s` before the first entry not below it. */
  function Insert(x: int, s: seq<int>): (r: seq<int>)
    requires Sorted(s)
    ensures Sorted(r) && |r| == |s| + 1
    ensures r[0] == (if |s| == 0 || x <= s[0] then x else s[0])
    decreases |s|
  {
    if |s| == 0 then [x]
    else if x <= s[0] then [x] + s
    else
      assert s == [s[0]] + s[1..];
      [s[0]] + Insert(x, s[1..])
  }

  /** Insertion adds `x` to the entries and drops none. */
  lemma {:induction false} InsertPermutes(x: int, s: seq<int>)
    requires Sorted(s)
    ensures multiset(Insert(x, s)) == multiset(s) + multiset{x}
    decreases |s|
  {
    if |s| > 0 && x > s[0] {
      assert s == [s[0]] + s[1..];
      InsertPermutes(x, s[1..]);
    }
  }

  /** A reference sort by insertion: a sorted sequence of the same length as `s`;
      `SortSeqPermutes` shows it holds the same entries. */
  function SortSeq(s: seq<int>): (r: seq<int>)
    ensures Sorted(r) && |r| == |s|
    decreases |s|
  {
    if |s| == 0 then []
    else Insert(s[|s| - 1], SortSeq(s[..|s| - 1]))
  }

  /** The sort is a permutation: `SortSeq(s)` is the sorted arrangement of the entries of `s`. */
  lemma {:induction false} SortSeqPermutes(s: seq<int>)
    ensures Sorted(SortSeq(s)) && multiset(SortSeq(s)) == multiset(s)
    decreases |s|
  {
    if |s| > 0 {
      var init := s[..|s| - 1];
      assert s == init + [s[|s| - 1]];
      SortSeqPermutes(init);
      InsertPermutes(s[|s| - 1], SortSeq(init));
    }
  }

  /** A multiset has one sorted arrangement: every sort of the samples gives the same sequence. */
  lemma {:induction false} SortedUnique(a: seq<int>, b: seq<int>)
    requires Sorted(a) && Sorted(b) && multiset(a) == multiset(b)
    ensures a == b
    decreases |a|
  {
    assert |a| == |b| by {
      assert |multiset(a)| == |multiset(b)|;
    }
    if |a| > 0 {
      SameLeast(a, b);
      SameTails(a, b);
      SortedUnique(a[1..], b[1..]);
    }
  }

  /** Removing the same first entry from two arrangements of one multiset leaves two
      arrangements of one multiset. */
  lemma SameTails(a: seq<int>, b: seq<int>)
    requires multiset(a) == multiset(b) && |a| > 0 && |b| > 0 && a[0] == b[0]
    ensures multiset(a[1..]) == multiset(b[1..])
  {
    assert a == [a[0]] + a[1..];
    assert b == [b[0]] + b[1..];
    calc {
      multiset(a[1..]);
      multiset(a) - multiset{a[0]};
      multiset(b) - multiset{b[0]};
      multiset(b[1..]);
    }
  }

  /** Two sorted arrangements of one multiset start with the same, least, element. */
  lemma SameLeast(a: seq<int>, b: seq<int>)
    requires Sorted(a) && Sorted(b) && multiset(a) == multiset(b) && |a| > 0 && |b| > 0
    ensures a[0] == b[0]
  {
    assert a[0] in multiset(b);
    var k :| 0 <= k < |b| && b[k] == a[0];
    assert b[0] in multiset(a);
    var l :| 0 <= l < |a| && a[l] == b[0];
    assert b[0] <= b[k] && a[0] <= a[l];
  }

  /** `value` after `Potentiometer::loop`: the trimmed mean of the sorted samples, passed
      through Arduino's `map` (a library routine, here the parameter `mapRange`) and clamped. */
  function PotValue(samples: seq<int>, mapRange: int -> int): (v: int)
    requires |samples| == PotSmoothSamples
    ensures 0 <= v <= AdcMax
  {
    ClampAdc(mapRange(TrimmedMean(SortSeq(samples))))
  }

  /** The value depends on the readings in the ring, not on the slots they occupy. */
  lemma PotValueIgnoresOrder(s: seq<int>, t: seq<int>, mapRange: int -> int)
    requires |s| == PotSmoothSamples && multiset(s) == multiset(t)
    ensures |t| == PotSmoothSamples && PotValue(s, mapRange) == PotValue(t, mapRange)
  {
    assert |t| == |s| by {
      assert |multiset(s)| == |multiset(t)|;
    }
    SortSeqPermutes(s);
    SortSeqPermutes(t);
    SortedUnique(SortSeq(s), SortSeq(t));
  }

  /** With the last 32 readings all `c`, the sorted ring is all `c` and the trimmed mean is
      exactly `c`: a steady input reads back as `c`, mapped and clamped, without smoothing
      error. */
  lemma SteadyInputSettles(q: Ring, xs: seq<int>, c: int, mapRange: int -> int)
    requires RingValid(q) && |xs| >= PotSmoothSamples
    requires forall k :: |xs| - PotSmoothSamples <= k < |xs| ==> xs[k] == c
    ensures PotValue(RunRing(q, xs).samples, mapRange) == ClampAdc(mapRange(c))
  {
    SteadyReadingsFillRing(q, xs, c);
    SteadyMean(RunRing(q, xs).samples, c);
  }

  lemma SteadyMean(samples: seq<int>, c: int)
    requires |samples| == PotSmoothSamples && forall i :: 0 <= i < |samples| ==> samples[i] == c
    ensures TrimmedMean(SortSeq(samples)) == c
  {
    var sorted := SortSeq(samples);
    SortSeqPermutes(samples);
    SameElements(sorted, samples, c);
    TrimWindow();
    assert sorted[TrimBottom] == c && sorted[TrimTop - 1] == c;
  }

  /** A rearrangement of a sequence that is all `c` is all `c`. */
  lemma SameElements(s: seq<int>, t: seq<int>, c: int)
    requires multiset(s) == multiset(t) && forall i :: 0 <= i < |t| ==> t[i] == c
    ensures forall k :: 0 <= k < |s| ==> s[k] == c
  {
    forall k | 0 <= k < |s|
      ensures s[k] == c
    {
      assert s[k] in multiset(t);
    }
  }
}
