/** `GrainScrubEffect` (effect.cpp): the one-shot engine as an object whose methods update its
    fields in place. Every method is proved to leave the object in the state the corresponding
    function of EffectSpec computes. */
module Effect {
  import opened FixedPoint
  import opened Grain
  import opened Staging
  import opened EffectSpec

  class GrainScrubEffect {
    var sampleBank: array?<int>
    var maxSampleLen: int
    var lengthMs: real
    var readHead: int
    var writeHead: int
    var prevInput: int
    var playbackRate: int
    var nextPlaybackRate: int
    var accumulator: int
    var reversed: bool
    var nextReversed: bool
    var sampleLoaded: bool
    var writeEnabled: bool
    var zeroFound: bool
    var running: bool
    var offset: int
    var length: int
    var nextOffset: int
    var nextLength: int

    /** The scalar fields as an EffectState value. */
    ghost function State(): EffectState
      reads this
    {
      EffectState(maxSampleLen, writeHead, readHead, prevInput, accumulator, running, zeroFound,
                  writeEnabled, sampleLoaded, Params(offset, length, playbackRate, reversed),
                  Params(nextOffset, nextLength, nextPlaybackRate, nextReversed))
    }

    /** Fields hold values of their C types, the capture flags follow a zero crossing,
        `length_ms` is the duration of the buffer, and once a bank is attached the state is well
        formed for it. */
    ghost predicate Valid()
      reads this
    {
      InRange(State()) && Latches(State()) && lengthMs == LengthMs(maxSampleLen) &&
      (sampleBank != null ==> WellFormed(State(), sampleBank.Length))
    }

    /** A fresh object: the C++ leaves most fields unassigned, the model starts every field at
        zero with no bank attached. */
    constructor ()
      ensures Valid() && sampleBank == null
      ensures State() == EffectState(0, 0, 0, 0, 0, false, false, false, false, Params(0, 0, 0, false),
                                     Params(0, 0, 0, false))
    {
      sampleBank := null;
      maxSampleLen, lengthMs := 0, 0.0;
      readHead, writeHead, prevInput := 0, 0, 0;
      playbackRate, nextPlaybackRate, accumulator := 0, 0, 0;
      reversed, nextReversed := false, false;
      sampleLoaded, writeEnabled, zeroFound, running := false, false, false, false;
      offset, length, nextOffset, nextLength := 0, 0, 0, 0;
    }

    method Begin(bankDef: array<int>, maxLenDef: int)
      requires Valid() && 1 <= maxLenDef <= bankDef.Length && IsInt16(maxLenDef)
      modifies this
      ensures Valid() && sampleBank == bankDef
      ensures State() == Begun(old(State()), maxLenDef)
    {
      maxSampleLen := maxLenDef;
      lengthMs := LengthMs(maxSampleLen);
      Rewind();
      ResetRates();
      sampleBank := bankDef;
    }

    /** The resets of `begin` that restart recording: both heads, `prev_input` and the
        accumulator at 0, and no grain loaded. */
    method Rewind()
      modifies this
      ensures sampleBank == old(sampleBank) && lengthMs == old(lengthMs)
      ensures State() == old(State()).(readHead := 0, writeHead := 0, prevInput := 0, accumulator := 0,
                                       sampleLoaded := false)
    {
      readHead := 0;
      writeHead := 0;
      prevInput := 0;
      accumulator := 0;
      sampleLoaded := false;
    }

    /** The resets of `begin` that make both parameter sets play forward at unit rate. */
    method ResetRates()
      modifies this
      ensures sampleBank == old(sampleBank) && lengthMs == old(lengthMs)
      ensures State() == old(State()).(active := old(State()).active.(rate := UnitRate, reversed := false),
                                       pending := old(State()).pending.(rate := UnitRate, reversed := false))
    {
      playbackRate := UnitRate;
      nextPlaybackRate := UnitRate;
      reversed := false;
      nextReversed := false;
    }

    method Start()
      requires Valid()
      modifies this
      ensures Valid() && sampleBank == old(sampleBank)
      ensures State() == Started(old(State()))
    {
      if running {
        return;
      }
      sampleLoaded := false;
      writeEnabled := false;
      zeroFound := false;
      running := true;
      CommitPending();
    }

    /** `offset = next_offset; length = next_length; playback_rate = next_playback_rate;
        reversed = next_reversed;` (in `start` and at every grain boundary of `update`). */
    method CommitPending()
      modifies this
      ensures sampleBank == old(sampleBank) && lengthMs == old(lengthMs)
      ensures State() == old(State()).(active := old(State()).pending)
    {
      offset := nextOffset;
      length := nextLength;
      playbackRate := nextPlaybackRate;
      reversed := nextReversed;
    }

    method Stop()
      requires Valid()
      modifies this
      ensures Valid() && sampleBank == old(sampleBank)
      ensures State() == Stopped(old(State()))
    {
      running := false;
      zeroFound := false;
      sampleLoaded := false;
      writeEnabled := false;
    }

    /** One audio block. Without a bank or without a block nothing happens; otherwise bank, block
        and fields end as `Updated` says. */
    method Update(block: array?<int>)
      requires Valid()
      requires block != null ==> block.Length == AudioBlockSamples && block != sampleBank
      modifies this, sampleBank, block
      ensures Valid() && sampleBank == old(sampleBank) && lengthMs == old(lengthMs)
      ensures old(sampleBank) == null || block == null ==>
        State() == old(State()) && (block != null ==> block[..] == old(block[..])) &&
        (old(sampleBank) != null ==> sampleBank[..] == old(sampleBank[..]))
      ensures old(sampleBank) != null && block != null ==>
        var r := Updated(old(State()), old(sampleBank[..]), old(block[..]));
        State() == r.state && sampleBank[..] == r.bank && block[..] == r.out
    {
      if sampleBank == null || block == null {
        return;
      }
      if !running {
        prevInput := block[AudioBlockSamples - 1];
      } else {
        RunningBlock(block);
      }
    }

    /** The running branch of `update`: the three steps for every sample of the block, the block
        slot overwritten with the output. */
    method RunningBlock(block: array<int>)
      requires Valid() && sampleBank != null && running && block != sampleBank
      modifies this, sampleBank, block
      ensures Valid() && sampleBank == old(sampleBank) && lengthMs == old(lengthMs)
      ensures var r := RunBlock(old(State()), old(sampleBank[..]), old(block[..]));
              State() == r.state && sampleBank[..] == r.bank && block[..] == r.out
    {
      var bank := sampleBank;
      ghost var e0, b0, xs := State(), bank[..], block[..];
      var i := 0;
      while i < block.Length
        invariant 0 <= i <= block.Length
        invariant Valid() && sampleBank == bank && lengthMs == old(lengthMs)
        invariant forall k :: i <= k < block.Length ==> block[k] == xs[k]
        invariant RunBlock(e0, b0, xs[..i]) == BlockResult(State(), bank[..], block[..i])
      {
        ghost var e, b, out := State(), bank[..], block[..i];
        var y := ProcessSample(block[i]);
        BlockStep(e0, b0, xs, i, e, b, out, State(), bank[..], y);
        WriteSlot(block, i, y);
        i := i + 1;
      }
      assert xs[..i] == xs;
    }

    /** One sample of the running loop: find the zero crossing, capture, play. */
    method ProcessSample(x: int) returns (y: int)
      requires Valid() && sampleBank != null
      modifies this, sampleBank
      ensures Valid() && sampleBank == old(sampleBank) && lengthMs == old(lengthMs)
      ensures SampleStep(old(State()), old(sampleBank[..]), x) == SampleResult(State(), sampleBank[..], y)
    {
      DetectCrossing(x);
      CaptureSample(x);
      y := PlaySample(x);
    }

    /** Step 1: the zero-crossing search. */
    method DetectCrossing(x: int)
      requires Valid() && sampleBank != null
      modifies this
      ensures Valid() && sampleBank == old(sampleBank) && lengthMs == old(lengthMs)
      ensures State() == Detect(old(State()), x)
    {
      if !zeroFound {
        var currentInput := x;
        if (currentInput < 0 && prevInput >= 0) || (currentInput >= 0 && prevInput < 0) {
          writeEnabled := true;
          writeHead := 0;
          readHead := 0;
          zeroFound := true;
        } else {
          prevInput := currentInput;
        }
      }
    }

    /** Step 2: `sample_bank[write_head++] = x` while capture is enabled, then the loaded and end
        of buffer tests. */
    method CaptureSample(x: int)
      requires Valid() && sampleBank != null
      modifies this, sampleBank
      ensures Valid() && sampleBank == old(sampleBank) && lengthMs == old(lengthMs)
      ensures CaptureStep(old(State()), old(sampleBank[..]), x) == Captured(State(), sampleBank[..])
    {
      if writeEnabled {
        sampleBank[writeHead] := x;
        writeHead := writeHead + 1;
        if writeHead >= offset + length {
          sampleLoaded := true;
        }
        if writeHead >= maxSampleLen {
          writeEnabled := false;
        }
      }
    }

    /** Step 3: once the grain is loaded, one cursor step, the read and the fade; before that the
        input is passed through. */
    method PlaySample(x: int) returns (y: int)
      requires Valid() && sampleBank != null
      modifies this
      ensures Valid() && sampleBank == old(sampleBank) && lengthMs == old(lengthMs)
      ensures PlayStep(old(State()), sampleBank[..], x) == Played(State(), y)
    {
      if !sampleLoaded {
        y := x;
        return;
      }
      var reverseBranch := reversed;
      if !reverseBranch {
        StepForward();
      } else {
        StepReverse();
      }
      y := Play(reverseBranch);
    }

    /** The read `sample_bank[offset + read_head]` and the fade of the branch taken. */
    method Play(reverseBranch: bool) returns (y: int)
      requires sampleBank != null
      ensures var i := offset + readHead;
              y == Wrap16(EffectFade(if 0 <= i < sampleBank.Length then sampleBank[i] else 0,
                                     length, readHead, reverseBranch))
    {
      var i := offset + readHead;
      var sample := if 0 <= i < sampleBank.Length then sampleBank[i] else 0;
      var fadeOut := sample;
      if length - readHead < 20 {
        if reverseBranch {
          fadeOut := Scale(sample, readHead, 20);
        } else {
          fadeOut := Scale(sample, length - readHead, 20);
        }
      } else if readHead < 20 {
        fadeOut := Scale(sample, readHead, 20);
      }
      y := Wrap16(fadeOut);
    }

    /** The forward step: `read_head = accumulator >> 16`, and at the end of the grain a restart
        at its first sample with the pending set. */
    method StepForward()
      requires InRange(State()) && !reversed
      modifies this
      ensures sampleBank == old(sampleBank) && lengthMs == old(lengthMs)
      ensures var c := Advance(old(accumulator), old(State()).active, old(State()).pending);
              State() == old(State()).(accumulator := c.accumulator, readHead := c.readHead, active := c.active)
    {
      ghost var c := Advance(accumulator, State().active, State().pending);
      accumulator := U32(accumulator + playbackRate);
      readHead := Wrap16(accumulator / Pow16);
      if readHead >= length || readHead < 0 {
        accumulator := 0;
        readHead := 0;
        CommitPending();
        assert c.committed;
      } else {
        assert !c.committed;
      }
    }

    /** The reverse step: `read_head = length - (accumulator >> 16) - 1`, and past the start of
        the grain a restart at `length - 1` of the grain that just ended. */
    method StepReverse()
      requires InRange(State()) && reversed
      modifies this
      ensures sampleBank == old(sampleBank) && lengthMs == old(lengthMs)
      ensures var c := Advance(old(accumulator), old(State()).active, old(State()).pending);
              State() == old(State()).(accumulator := c.accumulator, readHead := c.readHead, active := c.active)
    {
      ghost var c := Advance(accumulator, State().active, State().pending);
      accumulator := U32(accumulator + playbackRate);
      readHead := Wrap16(length - accumulator / Pow16 - 1);
      if readHead < 0 || readHead >= length {
        accumulator := 0;
        readHead := Wrap16(length - 1);
        CommitPending();
        assert c.committed;
      } else {
        assert !c.committed;
      }
    }
  }
}
