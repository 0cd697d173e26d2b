/** The control-surface objects of control.cpp: each class keeps the C++ fields and its methods
    are proved to move them as the functions of ControlSpec say. Pin reads and `millis()` are
    parameters; `pinMode` and `digitalWrite` are not modelled. */
module Control {
  import opened FixedPoint
  import opened ControlSpec

  /** Every entry at or after `m` is at least every entry before it: the part from `m` on is
      sorted and in its final place. `Settled(s, 0)` is sortedness. */
  ghost predicate Settled(s: seq<int>, m: int)
  {
    forall i, j :: 0 <= i <= j < |s| && m <= j ==> s[i] <= s[j]
  }

  /** The bubble sort of `Potentiometer::loop` on its 32 entries: full passes over the array,
      swapping adjacent entries out of order, until a pass swaps nothing. Each pass settles one
      more entry at the top, so at most 33 passes run. */
  method BubbleSort(a: array<int>)
    requires a.Length == PotSmoothSamples
    modifies a
    ensures Sorted(a[..]) && multiset(a[..]) == multiset(old(a[..]))
  {
    var done := false;
    ghost var m := a.Length;
    while !done
      invariant multiset(a[..]) == multiset(old(a[..]))
      invariant 0 <= m <= a.Length && Settled(a[..], m)
      invariant done ==> Sorted(a[..])
      decreases m + (if done then 0 else 1)
    {
      done := BubblePass(a, m);
      m := if m > 0 then m - 1 else 0;
    }
  }

  /** One pass: `done = true`, then every adjacent pair out of order is swapped and clears
      `done`. The largest entry below the settled part bubbles up to its top. */
  method BubblePass(a: array<int>, ghost m: int) returns (done: bool)
    requires a.Length == PotSmoothSamples && 0 <= m <= a.Length && Settled(a[..], m)
    modifies a
    ensures multiset(a[..]) == multiset(old(a[..]))
    ensures done ==> Sorted(a[..])
    ensures Sorted(old(a[..])) ==> done
    ensures 1 <= m ==> Settled(a[..], m - 1)
  {
    done := true;
    ghost var s := a[..];
    var j := 0;
    while j < PotSmoothSamples - 1
      invariant 0 <= j <= PotSmoothSamples - 1
      invariant PassInv(s, a[..], j, m, done)
    {
      PassStep(s, a[..], j, m, done);
      if a[j] > a[j + 1] {
        SwapNext(a, j);
        done := false;
      }
      j := j + 1;
    }
    PassEnd(s, a[..], m, done);
  }

  /** `temp = sorted[j + 1]; sorted[j + 1] = sorted[j]; sorted[j] = temp;` */
  method SwapNext(a: array<int>, j: int)
    requires 0 <= j < a.Length - 1
    modifies a
    ensures a[..] == Swapped(old(a[..]), j)
  {
    var temp := a[j + 1];
    a[j + 1] := a[j];
    a[j] := temp;
  }

  /** What a pass has established after comparing the pairs below `j`, for the array `s` it
      started from: the same entries; the largest of the first `j + 1` at `j`; nothing above `j`
      touched; `done` only while nothing moved and the compared prefix is in order; and, above
      a settled part starting at `m`, that part untouched and everything below it no larger. */
  ghost predicate PassInv(s: seq<int>, a: seq<int>, j: int, m: int, done: bool)
  {
    |a| == |s| && 0 <= j < |s| && 0 <= m <= |s| && Settled(s, m) &&
    multiset(a) == multiset(s) &&
    (forall k :: 0 <= k <= j ==> a[k] <= a[j]) &&
    (forall k :: j < k < |a| ==> a[k] == s[k]) &&
    (done ==> a == s && forall k, l :: 0 <= k <= l <= j ==> a[k] <= a[l]) &&
    (Sorted(s) ==> done) &&
    (1 <= m ==> forall k :: m <= k <= j ==> a[k] == s[k]) &&
    (1 <= m ==> forall k, l :: 0 <= k <= j && k < m <= l < |a| ==> a[k] <= s[l]) &&
    (1 <= m <= j + 1 ==> forall k :: 0 <= k < m ==> a[k] <= a[m - 1])
  }

  ghost function Swapped(a: seq<int>, j: int): seq<int>
    requires 0 <= j < |a| - 1
  {
    a[j := a[j + 1]][j + 1 := a[j]]
  }

  lemma SwapKeepsMultiset(a: seq<int>, j: int)
    requires 0 <= j < |a| - 1
    ensures multiset(Swapped(a, j)) == multiset(a)
  {
    assert a == a[..j] + [a[j], a[j + 1]] + a[j + 2..];
    assert Swapped(a, j) == a[..j] + [a[j + 1], a[j]] + a[j + 2..];
  }

  /** Comparing, and perhaps swapping, the pair at `j` keeps the pass invariant. */
  lemma PassStep(s: seq<int>, a: seq<int>, j: int, m: int, done: bool)
    requires PassInv(s, a, j, m, done) && j < |a| - 1
    ensures a[j] > a[j + 1] ==> PassInv(s, Swapped(a, j), j + 1, m, false)
    ensures a[j] <= a[j + 1] ==> PassInv(s, a, j + 1, m, done)
  {
    if a[j] > a[j + 1] {
      SwapKeepsMultiset(a, j);
    }
  }

  /** At the end of a pass the array is sorted if nothing moved, and the settled part has grown
      by one entry. */
  lemma PassEnd(s: seq<int>, a: seq<int>, m: int, done: bool)
    requires PassInv(s, a, |a| - 1, m, done)
    ensures done ==> Sorted(a)
    ensures 1 <= m ==> Settled(a, m - 1)
  {
  }

  /** `Button`: a debounced pull-up push button. */
  class Button {
    var pressed: bool
    var released: bool
    var down: bool
    var click: bool
    var shortClick: bool
    var mediumClick: bool
    var longClick: bool
    const pin: int
    var state: int
    var lastState: int
    var lastMs: int

    ghost function State(): ButtonState
      reads this
    {
      ButtonState(pressed, released, down, click, shortClick, mediumClick, longClick,
                  state, lastState, lastMs)
    }

    ghost predicate Valid()
      reads this
    {
      IsUint32(lastMs)
    }

    /** `Button(pin)`. */
    constructor (pin: int)
      ensures Valid() && State() == ButtonInit() && this.pin == pin
    {
      this.pin := pin;
      state, lastState := 1, 1;
      pressed, released, down := false, false, false;
      click, shortClick, mediumClick, longClick := false, false, false, false;
      lastMs := 0;
    }

    /** `loop(ms)` with `reading` from `digitalRead(_pin)`. */
    method Loop(reading: int, ms: int)
      requires Valid() && IsUint32(ms)
      modifies this
      ensures Valid() && State() == ButtonStep(old(State()), reading, ms)
    {
      var duration := U32(ms - lastMs);
      if state == 0 && reading == 1 && duration < BtnDebounce {
        return;
      }
      lastState := state;
      state := reading;
      down := state == 0;
      pressed := lastState == 1 && down;
      if pressed {
        lastMs := ms;
      }
      released := lastState == 0 && state == 1;
      Classify(duration);
    }

    /** The click flags for the time since the press. */
    method Classify(duration: int)
      modifies this
      ensures click == released
      ensures longClick == (released && duration > BtnClickLong)
      ensures mediumClick == (released && !(duration > BtnClickLong) && duration > BtnClickMedium)
      ensures shortClick == (released && !(duration > BtnClickLong) && !(duration > BtnClickMedium))
      ensures pressed == old(pressed) && released == old(released) && down == old(down)
      ensures state == old(state) && lastState == old(lastState) && lastMs == old(lastMs)
    {
      click, shortClick, mediumClick, longClick := false, false, false, false;
      if released {
        click := true;
        if duration > BtnClickLong {
          longClick := true;
        } else if duration > BtnClickMedium {
          mediumClick := true;
        } else {
          shortClick := true;
        }
      }
    }
  }

  /** `DigitalLed`: an output pin with a blink timer. */
  class DigitalLed {
    const pin: int
    var state: bool
    var lastState: bool
    var lastMs: int
    var period: int

    ghost function State(): LedState
      reads this
    {
      LedState(state, lastState, lastMs, period)
    }

    ghost predicate Valid()
      reads this
    {
      IsUint32(lastMs)
    }

    /** `DigitalLed(pin)`. */
    constructor (pin: int)
      ensures Valid() && State() == LedInit() && this.pin == pin
    {
      this.pin := pin;
      state, lastState := false, false;
      lastMs, period := 0, 0;
    }

    /** `loop(ms)`; the `digitalWrite` of a changed state is what `lastState` records. */
    method Loop(ms: int)
      requires Valid() && IsUint32(ms)
      modifies this
      ensures Valid() && State() == LedLoop(old(State()), ms)
    {
      if state != lastState {
        lastState := state;
      }
      if period > 0 {
        if U32(lastMs + period) < ms {
          lastMs := ms;
          state := !state;
        }
      }
    }

    /** `on()`. */
    method On()
      modifies this
      ensures State() == LedOn(old(State()))
    {
      period := 0;
      state := true;
    }

    /** `off()`. */
    method Off()
      modifies this
      ensures State() == LedOff(old(State()))
    {
      period := 0;
      state := false;
    }

    /** `toggle()`. */
    method Toggle()
      modifies this
      ensures State() == LedToggle(old(State()))
    {
      period := 0;
      state := !state;
    }

    /** `blink(ms)`: `ms >> 1` on an `int`, an arithmetic shift, which is Dafny's `/ 2`. */
    method Blink(ms: int)
      requires IsInt32(ms)
      modifies this
      ensures State() == LedBlink(old(State()), ms)
    {
      period := ms / 2;
    }
  }

  /** `GateTrigger`: a debounced pull-up gate input with its own LED. */
  class GateTrigger {
    var high: bool
    var low: bool
    var gate: bool
    var ledOverride: bool
    const inputPin: int
    var state: int
    var lastState: int
    const led: DigitalLed
    var lastMs: int

    ghost function State(): GateState
      reads this, led
    {
      GateState(high, low, gate, ledOverride, state, lastState, lastMs, led.State())
    }

    ghost predicate Valid()
      reads this, led
    {
      IsUint32(lastMs) && led.Valid()
    }

    /** `GateTrigger(input_pin, led_pin)`: the LED is a new `DigitalLed`. */
    constructor (inputPin: int, ledPin: int)
      ensures Valid() && State() == GateInit() && fresh(led)
      ensures this.inputPin == inputPin && led.pin == ledPin
    {
      high, low, gate, ledOverride := false, false, false, true;
      state, lastState := 0, 0;
      this.inputPin := inputPin;
      led := new DigitalLed(ledPin);
      lastMs := 0;
    }

    /** `loop(ms)` with `reading` from `digitalRead(_input_pin)`. */
    method Loop(reading: int, ms: int)
      requires Valid() && IsUint32(ms)
      modifies this, led
      ensures Valid() && State() == GateStep(old(State()), reading, ms)
    {
      var duration := U32(ms - lastMs);
      if state == 0 && reading == 1 && duration < BtnDebounce {
        return;
      }
      lastState := state;
      state := reading;
      gate := state == 0;
      high := lastState == 1 && gate;
      if high {
        if !ledOverride {
          led.On();
        }
        lastMs := ms;
      }
      low := lastState == 0 && state == 1;
      if low {
        if !ledOverride {
          led.Off();
        }
      }
      led.Loop(ms);
    }
  }

  /** `Potentiometer`: an analog input smoothed over its last 32 readings. */
  class Potentiometer {
    var value: int
    const pin: int
    var smooth: int
    /** `_samples`: the ring buffer is a member array, embedded in the object. */
    var samples: seq<int>

    ghost function Ring(): Ring
      reads this
    {
      ControlSpec.Ring(samples, smooth)
    }

    ghost predicate Valid()
      reads this
    {
      RingValid(Ring())
    }

    /** After one `loop` from ring `before` with reading `curr`: the reading has entered the
        ring and `value` is the smoothed value of the new ring. */
    ghost predicate Polled(before: Ring, curr: int, mapRange: int -> int)
      reads this
    {
      RingValid(before) && Valid() && Ring() == RingPush(before, curr) &&
      value == PotValue(samples, mapRange)
    }

    /** `Potentiometer(pin)`: an empty ring of zeros. */
    constructor (pin: int)
      ensures Valid() && this.pin == pin && value == 0
      ensures Ring() == ControlSpec.Ring(seq(PotSmoothSamples, _ => 0), 0)
    {
      this.pin := pin;
      value := 0;
      smooth := 0;
      samples := seq(PotSmoothSamples, _ => 0);
    }

    /** `loop(ms)` with `curr` from `analogRead(_pin)`: the reading enters the ring, a copy of
        the ring is bubble-sorted, and the mean of its middle entries is mapped and clamped.
        The sorted copy is returned. */
    method Loop(curr: int, mapRange: int -> int) returns (sorted: array<int>)
      requires Valid()
      modifies this
      ensures Valid() && Ring() == RingPush(old(Ring()), curr)
      ensures fresh(sorted) && sorted[..] == SortSeq(samples)
      ensures value == PotValue(samples, mapRange)
    {
      smooth := (smooth + 1) % PotSmoothSamples;
      samples := samples[smooth := curr];
      sorted, value := Smoothed(samples, mapRange);
    }

    /** The body of `loop` after the ring update: sort a copy of the ring, average its middle
        entries, map and clamp. */
    static method Smoothed(ring: seq<int>, mapRange: int -> int) returns (sorted: array<int>, v: int)
      requires |ring| == PotSmoothSamples
      ensures fresh(sorted) && sorted[..] == SortSeq(ring)
      ensures v == PotValue(ring, mapRange)
    {
      sorted := SortedCopy(ring);
      var mean := TrimmedTotal(sorted);
      v := mapRange(mean);
      if v < 0 {
        v := 0;
      } else if v > AdcMax {
        v := AdcMax;
      }
    }

    /** The copy of the ring into `sorted`, and its sort. */
    static method SortedCopy(samples: seq<int>) returns (sorted: array<int>)
      requires |samples| == PotSmoothSamples
      ensures fresh(sorted) && sorted[..] == SortSeq(samples)
    {
      sorted := new int[|samples|];
      var j := 0;
      while j < |samples|
        invariant 0 <= j <= |samples|
        invariant sorted[..j] == samples[..j]
      {
        sorted[j] := samples[j];
        j := j + 1;
      }
      assert sorted[..] == samples;
      BubbleSort(sorted);
      SortSeqPermutes(samples);
      SortedUnique(sorted[..], SortSeq(samples));
    }

    /** `total / k` over `sorted[bottom..top)`. */
    static method TrimmedTotal(sorted: array<int>) returns (mean: int)
      requires sorted.Length == PotSmoothSamples
      ensures mean == TrimmedMean(old(sorted[..]))
    {
      TrimWindow();
      var bottom := Max(PotSmoothOutlierLow, 1);
      var top := Min(PotSmoothOutlierHigh, PotSmoothSamples - 1);
      var k := 0;
      var total := 0;
      var j := bottom;
      while j < top
        invariant bottom <= j <= top && k == j - bottom
        invariant total == Sum(sorted[bottom..j])
      {
        assert sorted[bottom..j + 1] == sorted[bottom..j] + [sorted[j]];
        total := total + sorted[j];
        k := k + 1;
        j := j + 1;
      }
      mean := CQuot(total, k);
    }
  }

  /** `ControlState`: the registry of components, polled every `CONTROL_RATE` ms. A slot holds
      NULL or a component created by a `register_*` call, so no component sits in two slots and
      no two gate inputs share an LED with each other or with a registered LED. */
  class ControlState {
    var lastMs: int
    var ms: int
    const buttons: array<Button?>
    const pots: array<Potentiometer?>
    const leds: array<DigitalLed?>
    const gtls: array<GateTrigger?>
    /** The objects owned by the registered components of each kind. */
    ghost var buttonParts: set<object>
    ghost var potParts: set<object>
    ghost var ledParts: set<object>
    ghost var gtlParts: set<object>

    ghost function Parts(): set<object>
      reads this
    {
      buttonParts + potParts + ledParts + gtlParts
    }

    ghost predicate Valid()
      reads this, buttons, pots, leds, gtls, Parts()
    {
      Shape() && IsUint32(lastMs) && IsUint32(ms) && Apart() &&
      ButtonsReady(buttonParts) && PotsReady(potParts) && LedsReady(ledParts) && GtlsReady(gtlParts)
    }

    ghost predicate Shape()
    {
      buttons.Length == MaxButtons && pots.Length == MaxPots &&
      leds.Length == MaxDigitalLeds && gtls.Length == MaxGtls
    }

    /** The kinds share no object, and no kind holds another kind's array. */
    ghost predicate Apart()
      reads this
    {
      buttonParts !! potParts && buttonParts !! ledParts && buttonParts !! gtlParts &&
      potParts !! ledParts && potParts !! gtlParts && ledParts !! gtlParts &&
      buttons !in Parts() && pots !in Parts() && leds !in Parts() && gtls !in Parts()
    }

    /** Every registered button belongs to `parts`, sits in one slot only, and is valid. */
    ghost predicate ButtonsReady(parts: set<object>)
      reads buttons, parts
    {
      buttons.Length == MaxButtons && this !in parts && buttons !in parts &&
      (forall i :: 0 <= i < MaxButtons && buttons[i] != null ==> buttons[i] in parts) &&
      (forall i, j :: 0 <= i < j < MaxButtons && buttons[i] != null ==> buttons[i] != buttons[j]) &&
      (forall i :: 0 <= i < MaxButtons && buttons[i] != null && buttons[i] in parts ==>
        buttons[i].Valid())
    }

    /** Every registered potentiometer belongs to `parts`, sits in one slot only, and is valid. */
    ghost predicate PotsReady(parts: set<object>)
      reads pots, parts
    {
      pots.Length == MaxPots && this !in parts && pots !in parts &&
      (forall i :: 0 <= i < MaxPots && pots[i] != null ==> pots[i] in parts) &&
      (forall i, j :: 0 <= i < j < MaxPots && pots[i] != null ==> pots[i] != pots[j]) &&
      (forall i :: 0 <= i < MaxPots && pots[i] != null && pots[i] in parts ==> pots[i].Valid())
    }

    /** Every registered LED belongs to `parts`, sits in one slot only, and is valid. */
    ghost predicate LedsReady(parts: set<object>)
      reads leds, parts
    {
      leds.Length == MaxDigitalLeds && this !in parts && leds !in parts &&
      (forall i :: 0 <= i < MaxDigitalLeds && leds[i] != null ==> leds[i] in parts) &&
      (forall i, j :: 0 <= i < j < MaxDigitalLeds && leds[i] != null ==> leds[i] != leds[j]) &&
      (forall i :: 0 <= i < MaxDigitalLeds && leds[i] != null && leds[i] in parts ==> leds[i].Valid())
    }

    /** Every registered gate input and its LED belong to `parts`, no two slots share either,
        and every gate input is valid. */
    ghost predicate GtlsReady(parts: set<object>)
      reads gtls, parts
    {
      gtls.Length == MaxGtls && this !in parts && gtls !in parts &&
      (forall i :: 0 <= i < MaxGtls && gtls[i] != null ==> gtls[i] in parts && gtls[i].led in parts) &&
      (forall i, j :: 0 <= i < j < MaxGtls && gtls[i] != null && gtls[j] != null ==>
        gtls[i] != gtls[j] && gtls[i].led != gtls[j].led) &&
      (forall i :: 0 <= i < MaxGtls && gtls[i] != null && gtls[i] in parts && gtls[i].led in parts ==>
        gtls[i].Valid())
    }

    /** `ControlState()` at time `now`: every slot NULL. */
    constructor (now: int)
      requires IsUint32(now)
      ensures Valid() && ms == now && lastMs == now
      ensures fresh(buttons) && fresh(pots) && fresh(leds) && fresh(gtls)
      ensures forall i :: 0 <= i < MaxButtons ==> buttons[i] == null
      ensures forall i :: 0 <= i < MaxPots ==> pots[i] == null
      ensures forall i :: 0 <= i < MaxDigitalLeds ==> leds[i] == null
      ensures forall i :: 0 <= i < MaxGtls ==> gtls[i] == null
    {
      ms := now;
      lastMs := now;
      buttons := new Button?[MaxButtons](_ => null);
      leds := new DigitalLed?[MaxDigitalLeds](_ => null);
      pots := new Potentiometer?[MaxPots](_ => null);
      gtls := new GateTrigger?[MaxGtls](_ => null);
      buttonParts, potParts, ledParts, gtlParts := {}, {}, {}, {};
    }

    /** `loop()` at time `now`, with the pin readings each registered component would take.
        Once `CONTROL_RATE` ms have passed it records the time and polls every component:
        buttons, potentiometers, LEDs, then gate inputs; otherwise no component changes. */
    method Loop(now: int, buttonReads: seq<int>, potReads: seq<int>, gtlReads: seq<int>,
                mapRange: int -> int) returns (polled: bool)
      requires Valid() && IsUint32(now)
      requires |buttonReads| == MaxButtons && |potReads| == MaxPots && |gtlReads| == MaxGtls
      modifies this, Parts()
      ensures Valid() && ms == now && Parts() == old(Parts())
      ensures polled == PollDue(old(lastMs), now)
      ensures lastMs == if polled then now else old(lastMs)
      ensures !polled ==> unchanged(Parts())
      ensures polled ==> forall i :: 0 <= i < MaxButtons && buttons[i] != null ==>
        buttons[i].State() == ButtonStep(old(buttons[i].State()), buttonReads[i], now)
      ensures polled ==> forall i :: 0 <= i < MaxPots && pots[i] != null ==>
        pots[i].Polled(old(pots[i].Ring()), potReads[i], mapRange)
      ensures polled ==> forall i :: 0 <= i < MaxDigitalLeds && leds[i] != null ==>
        leds[i].State() == LedLoop(old(leds[i].State()), now)
      ensures polled ==> forall i :: 0 <= i < MaxGtls && gtls[i] != null ==>
        gtls[i].State() == GateStep(old(gtls[i].State()), gtlReads[i], now)
    {
      ms := now;
      if U32(ms - lastMs) >= ControlRate {
        lastMs := ms;
        PollAll(buttonReads, potReads, gtlReads, mapRange);
        return true;
      }
      return false;
    }

    /** The four loops of `loop()`, each component polled at `_ms`. */
    method PollAll(buttonReads: seq<int>, potReads: seq<int>, gtlReads: seq<int>, mapRange: int -> int)
      requires Apart() && ButtonsReady(buttonParts) && PotsReady(potParts) && IsUint32(ms)
      requires LedsReady(ledParts) && GtlsReady(gtlParts)
      requires |buttonReads| == MaxButtons && |potReads| == MaxPots && |gtlReads| == MaxGtls
      modifies Parts()
      ensures ButtonsReady(buttonParts) && PotsReady(potParts)
      ensures LedsReady(ledParts) && GtlsReady(gtlParts)
      ensures forall i :: 0 <= i < MaxButtons && buttons[i] != null ==>
        buttons[i].State() == ButtonStep(old(buttons[i].State()), buttonReads[i], ms)
      ensures forall i :: 0 <= i < MaxPots && pots[i] != null ==>
        pots[i].Polled(old(pots[i].Ring()), potReads[i], mapRange)
      ensures forall i :: 0 <= i < MaxDigitalLeds && leds[i] != null ==>
        leds[i].State() == LedLoop(old(leds[i].State()), ms)
      ensures forall i :: 0 <= i < MaxGtls && gtls[i] != null ==>
        gtls[i].State() == GateStep(old(gtls[i].State()), gtlReads[i], ms)
    {
      PollInputs(buttonReads, potReads, mapRange);
      PollOutputs(gtlReads);
    }

    /** The first two loops of `loop()`: buttons, then potentiometers. */
    method PollInputs(buttonReads: seq<int>, potReads: seq<int>, mapRange: int -> int)
      requires Apart() && ButtonsReady(buttonParts) && PotsReady(potParts) && IsUint32(ms)
      requires |buttonReads| == MaxButtons && |potReads| == MaxPots
      modifies buttonParts, potParts
      ensures ButtonsReady(buttonParts) && PotsReady(potParts)
      ensures forall i :: 0 <= i < MaxButtons && buttons[i] != null ==>
        buttons[i].State() == ButtonStep(old(buttons[i].State()), buttonReads[i], ms)
      ensures forall i :: 0 <= i < MaxPots && pots[i] != null ==>
        pots[i].Polled(old(pots[i].Ring()), potReads[i], mapRange)
    {
      PollButtons(buttonReads);
      PollPots(potReads, mapRange);
    }

    /** The last two loops of `loop()`: LEDs, then gate inputs. */
    method PollOutputs(gtlReads: seq<int>)
      requires Apart() && LedsReady(ledParts) && GtlsReady(gtlParts) && IsUint32(ms)
      requires |gtlReads| == MaxGtls
      modifies ledParts, gtlParts
      ensures LedsReady(ledParts) && GtlsReady(gtlParts)
      ensures forall i :: 0 <= i < MaxDigitalLeds && leds[i] != null ==>
        leds[i].State() == LedLoop(old(leds[i].State()), ms)
      ensures forall i :: 0 <= i < MaxGtls && gtls[i] != null ==>
        gtls[i].State() == GateStep(old(gtls[i].State()), gtlReads[i], ms)
    {
      PollLeds();
      PollGtls(gtlReads);
    }

    method PollButtons(readings: seq<int>)
      requires ButtonsReady(buttonParts) && |readings| == MaxButtons && IsUint32(ms)
      modifies buttonParts
      ensures ButtonsReady(buttonParts)
      ensures forall i :: 0 <= i < MaxButtons && buttons[i] != null ==>
        buttons[i].State() == ButtonStep(old(buttons[i].State()), readings[i], ms)
    {
      for i := 0 to MaxButtons
        invariant ButtonsReady(buttonParts)
        invariant forall k :: 0 <= k < i && buttons[k] != null ==>
          buttons[k].State() == ButtonStep(old(buttons[k].State()), readings[k], ms)
        invariant forall k :: i <= k < MaxButtons && buttons[k] != null ==>
          buttons[k].State() == old(buttons[k].State())
      {
        if buttons[i] != null {
          buttons[i].Loop(readings[i], ms);
        }
      }
    }

    method PollPots(readings: seq<int>, mapRange: int -> int)
      requires PotsReady(potParts) && |readings| == MaxPots
      modifies potParts
      ensures PotsReady(potParts)
      ensures forall i :: 0 <= i < MaxPots && pots[i] != null ==>
        pots[i].Polled(old(pots[i].Ring()), readings[i], mapRange)
    {
      for i := 0 to MaxPots
        invariant PotsReady(potParts)
        invariant forall k :: 0 <= k < i && pots[k] != null ==>
          pots[k].Polled(old(pots[k].Ring()), readings[k], mapRange)
        invariant forall k :: i <= k < MaxPots && pots[k] != null ==> unchanged(pots[k])
      {
        if pots[i] != null {
          PollPot(pots[i], readings[i], mapRange);
        }
      }
    }

    /** One potentiometer's `loop()` as the registry calls it: the ring step and the smoothed
        value; the sorted copy is scratch storage. */
    static method PollPot(pot: Potentiometer, reading: int, mapRange: int -> int)
      requires pot.Valid()
      modifies pot
      ensures pot.Polled(old(pot.Ring()), reading, mapRange)
    {
      var _ := pot.Loop(reading, mapRange);
    }

    method PollLeds()
      requires LedsReady(ledParts) && IsUint32(ms)
      modifies ledParts
      ensures LedsReady(ledParts)
      ensures forall i :: 0 <= i < MaxDigitalLeds && leds[i] != null ==>
        leds[i].State() == LedLoop(old(leds[i].State()), ms)
    {
      for i := 0 to MaxDigitalLeds
        invariant LedsReady(ledParts)
        invariant forall k :: 0 <= k < i && leds[k] != null ==>
          leds[k].State() == LedLoop(old(leds[k].State()), ms)
        invariant forall k :: i <= k < MaxDigitalLeds && leds[k] != null ==>
          leds[k].State() == old(leds[k].State())
      {
        if leds[i] != null {
          leds[i].Loop(ms);
        }
      }
    }

    method PollGtls(readings: seq<int>)
      requires GtlsReady(gtlParts) && |readings| == MaxGtls && IsUint32(ms)
      modifies gtlParts
      ensures GtlsReady(gtlParts)
      ensures forall i :: 0 <= i < MaxGtls && gtls[i] != null ==>
        gtls[i].State() == GateStep(old(gtls[i].State()), readings[i], ms)
    {
      for i := 0 to MaxGtls
        invariant GtlsReady(gtlParts)
        invariant forall k :: 0 <= k < i && gtls[k] != null ==>
          gtls[k].State() == GateStep(old(gtls[k].State()), readings[k], ms)
        invariant forall k :: i <= k < MaxGtls && gtls[k] != null ==>
          gtls[k].State() == old(gtls[k].State())
      {
        if gtls[i] != null {
          gtls[i].Loop(readings[i], ms);
        }
      }
    }

    /** `register_button(index, pin)`: a new button in slot `index`; past the last slot,
        nothing. A negative index is outside the array in the C++ and is excluded. */
    method RegisterButton(index: int, pin: int)
      requires Valid() && 0 <= index
      modifies this, buttons
      ensures Valid() && lastMs == old(lastMs) && ms == old(ms)
      ensures index >= MaxButtons ==> buttons[..] == old(buttons[..])
      ensures index < MaxButtons ==>
        fresh(buttons[index]) && buttons[..] == old(buttons[..])[index := buttons[index]] &&
        buttons[index].State() == ButtonInit() && buttons[index].pin == pin
    {
      if index >= MaxButtons {
        return;
      }
      var btn := new Button(pin);
      buttons[index] := btn;
      buttonParts := buttonParts + {btn};
    }

    /** `register_pot(index, pin)`. */
    method RegisterPot(index: int, pin: int)
      requires Valid() && 0 <= index
      modifies this, pots
      ensures Valid() && lastMs == old(lastMs) && ms == old(ms)
      ensures index >= MaxPots ==> pots[..] == old(pots[..])
      ensures index < MaxPots ==>
        fresh(pots[index]) && pots[..] == old(pots[..])[index := pots[index]] &&
        pots[index].Ring() == Ring(seq(PotSmoothSamples, _ => 0), 0) &&
        pots[index].value == 0 && pots[index].pin == pin
    {
      if index >= MaxPots {
        return;
      }
      var pot := new Potentiometer(pin);
      pots[index] := pot;
      potParts := potParts + {pot};
    }

    /** `register_led(index, pin)`. */
    method RegisterLed(index: int, pin: int)
      requires Valid() && 0 <= index
      modifies this, leds
      ensures Valid() && lastMs == old(lastMs) && ms == old(ms)
      ensures index >= MaxDigitalLeds ==> leds[..] == old(leds[..])
      ensures index < MaxDigitalLeds ==>
        fresh(leds[index]) && leds[..] == old(leds[..])[index := leds[index]] &&
        leds[index].State() == LedInit() && leds[index].pin == pin
    {
      if index >= MaxDigitalLeds {
        return;
      }
      var led := new DigitalLed(pin);
      leds[index] := led;
      ledParts := ledParts + {led};
    }

    /** `register_gtl(index, input_pin, led_pin)`. */
    method RegisterGtl(index: int, inputPin: int, ledPin: int)
      requires Valid() && 0 <= index
      modifies this, gtls
      ensures Valid() && lastMs == old(lastMs) && ms == old(ms)
      ensures index >= MaxGtls ==> gtls[..] == old(gtls[..])
      ensures index < MaxGtls ==>
        fresh(gtls[index]) && gtls[..] == old(gtls[..])[index := gtls[index]] &&
        gtls[index].State() == GateInit() && gtls[index].inputPin == inputPin
    {
      if index >= MaxGtls {
        return;
      }
      var gtl := new GateTrigger(inputPin, ledPin);
      gtls[index] := gtl;
      gtlParts := gtlParts + {gtl} + {gtl.led};
    }

    /** `get_button(index)`: the button in slot `index`, NULL past the last slot. */
    function GetButton(index: int): (b: Button?)
      requires buttons.Length == MaxButtons && 0 <= index
      reads buttons
      ensures index >= MaxButtons ==> b == null
      ensures index < MaxButtons ==> b == buttons[index]
    {
      if index >= MaxButtons then null else buttons[index]
    }

    /** `get_potentiometer(index)`. */
    function GetPotentiometer(index: int): (p: Potentiometer?)
      requires pots.Length == MaxPots && 0 <= index
      reads pots
      ensures index >= MaxPots ==> p == null
      ensures index < MaxPots ==> p == pots[index]
    {
      if index >= MaxPots then null else pots[index]
    }

    /** `get_led(index)`. */
    function GetLed(index: int): (l: DigitalLed?)
      requires leds.Length == MaxDigitalLeds && 0 <= index
      reads leds
      ensures index >= MaxDigitalLeds ==> l == null
      ensures index < MaxDigitalLeds ==> l == leds[index]
    {
      if index >= MaxDigitalLeds then null else leds[index]
    }

    /** `get_gtl(index)`. */
    function GetGtl(index: int): (g: GateTrigger?)
      requires gtls.Length == MaxGtls && 0 <= index
      reads gtls
      ensures index >= MaxGtls ==> g == null
      ensures index < MaxGtls ==> g == gtls[index]
    {
      if index >= MaxGtls then null else gtls[index]
    }
  }
}
