/** `GrainScrubEffectCircular` (circular.h, circular.cpp): the double-buffered freeze/scrub
    engine as an object whose methods update its fields in place. Every method is proved to leave
    the object in the state the corresponding function of CircularSpec computes. */
module Circular {
  import opened FixedPoint
  import opened Grain
  import opened Staging
  import opened CircularSpec

  class GrainScrubEffectCircular {
    var sampleBank: array?<int>
    var playbackRate: int
    var nextPlaybackRate: int
    var accumulator: int
    var maxSampleLen: int
    var writeHead: int
    var readHead: int
    var readHeadOffset: int
    var activeBuffer: int
    var offset: int
    var length: int
    var idealLength: int
    var nextLength: int
    var nextOffset: int
    var lengthMs: real
    var running: bool
    var reversed: bool
    var nextReversed: bool

    /** The scalar fields as an Engine value. */
    ghost function State(): Engine
      reads this
    {
      Engine(maxSampleLen, writeHead, readHead, readHeadOffset, activeBuffer, accumulator, running,
             Params(offset, length, playbackRate, reversed),
             Params(nextOffset, nextLength, nextPlaybackRate, nextReversed), idealLength)
    }

    /** Fields hold values of their C types, `length_ms` is the duration of one half, and once a
        bank is attached the engine is well formed for it. */
    ghost predicate Valid()
      reads this
    {
      InRange(State()) && lengthMs == LengthMs(maxSampleLen) &&
      (sampleBank != null ==> WellFormed(State(), sampleBank.Length))
    }

    /** A fresh object: the C++ leaves most fields unassigned, the model starts every field at
        zero with no bank attached. */
    constructor ()
      ensures Valid() && sampleBank == null
      ensures State() == Engine(0, 0, 0, 0, 0, 0, false, Params(0, 0, 0, false), Params(0, 0, 0, false), 0)
    {
      sampleBank := null;
      playbackRate, nextPlaybackRate, accumulator := 0, 0, 0;
      maxSampleLen, writeHead, readHead, readHeadOffset, activeBuffer := 0, 0, 0, 0, 0;
      offset, length, idealLength, nextLength, nextOffset := 0, 0, 0, 0, 0;
      lengthMs := 0.0;
      running, reversed, nextReversed := false, false, false;
    }

    method Begin(bankDef: array<int>, maxLenDef: int)
      requires Valid() && 2 <= maxLenDef <= bankDef.Length && IsInt16(maxLenDef)
      modifies this
      ensures Valid() && sampleBank == bankDef
      ensures State() == Begun(old(State()), maxLenDef)
    {
      maxSampleLen := CQuot(maxLenDef, 2);
      lengthMs := LengthMs(maxSampleLen);
      Rewind();
      sampleBank := bankDef;
    }

    /** The resets of `begin`: half 0 selected, both heads and the accumulator at 0, and both
        parameter sets forward at unit rate. */
    method Rewind()
      modifies this
      ensures sampleBank == old(sampleBank) && lengthMs == old(lengthMs)
      ensures State() == old(State()).(activeBuffer := 0, readHead := 0, writeHead := 0, accumulator := 0,
                                       active := old(State()).active.(rate := UnitRate, reversed := false),
                                       pending := old(State()).pending.(rate := UnitRate, reversed := false))
    {
      activeBuffer := 0;
      readHead := 0;
      writeHead := 0;
      ResetRates();
      accumulator := 0;
    }

    method ResetRates()
      modifies this
      ensures sampleBank == old(sampleBank) && lengthMs == old(lengthMs)
      ensures State() == old(State()).(active := old(State()).active.(rate := UnitRate, reversed := false),
                                       pending := old(State()).pending.(rate := UnitRate, reversed := false))
    {
      playbackRate := UnitRate;
      nextPlaybackRate := UnitRate;
      reversed := false;
      nextReversed := false;
    }

    method Start()
      requires Valid()
      modifies this
      ensures Valid() && sampleBank == old(sampleBank)
      ensures State() == Started(old(State()))
    {
      if running {
        return;
      }
      activeBuffer := if activeBuffer == 0 then 1 else 0;
      readHead := 0;
      readHeadOffset := writeHead;
      running := true;
      CommitPending();
    }

    /** `offset = next_offset; length = next_length; playback_rate = next_playback_rate;
        reversed = next_reversed;`: the pending set becomes the active one (in `start` and at every
        grain boundary of `update`). */
    method CommitPending()
      modifies this
      ensures sampleBank == old(sampleBank) && lengthMs == old(lengthMs)
      ensures State() == old(State()).(active := old(State()).pending)
    {
      offset := nextOffset;
      length := nextLength;
      playbackRate := nextPlaybackRate;
      reversed := nextReversed;
    }

    method Stop()
      requires Valid()
      modifies this
      ensures Valid() && sampleBank == old(sampleBank)
      ensures State() == Stopped(old(State()))
    {
      running := false;
    }

    method SetSpeed(ratio: real)
      requires Valid()
      modifies this
      ensures Valid() && sampleBank == old(sampleBank)
      ensures State() == old(State()).(pending := old(State()).pending.(rate := SpeedRate(ratio)))
    {
      var r := ratio;
      if r < -4.0 {
        r := -4.0;
      } else if r < 0.0 && r >= -0.125 {
        r := -0.125;
      } else if r < 0.125 {
        r := 0.125;
      } else if r > 4.0 {
        r := 4.0;
      }
      nextPlaybackRate := TruncReal(r * 65536.0 + 0.499);
    }

    method Reverse()
      requires Valid()
      modifies this
      ensures Valid() && sampleBank == old(sampleBank)
      ensures State() == old(State()).(pending := old(State()).pending.(reversed := true))
    {
      nextReversed := true;
    }

    method Forward()
      requires Valid()
      modifies this
      ensures Valid() && sampleBank == old(sampleBank)
      ensures State() == old(State()).(pending := old(State()).pending.(reversed := false))
    {
      nextReversed := false;
    }

    method SetStartMs(ms: real)
      requires Valid()
      modifies this
      ensures Valid() && sampleBank == old(sampleBank)
      ensures State() == StartMsStaged(old(State()), ms)
    {
      var m := ms;
      if m < 0.0 {
        m := 0.0;
      } else if m > lengthMs {
        m := lengthMs - 1.0;
      }
      var newOffset := Wrap16(TruncReal(MsToSamples(m)));
      nextOffset := newOffset;
      if idealLength + nextOffset > maxSampleLen {
        nextLength := Wrap16(maxSampleLen - nextOffset);
      } else {
        nextLength := idealLength;
      }
    }

    method SetStartPos(pos: real)
      requires Valid()
      modifies this
      ensures Valid() && sampleBank == old(sampleBank)
      ensures State() == StartPosStaged(old(State()), pos)
    {
      var p := pos;
      if p < 0.0 {
        p := 0.0;
      } else if p > 0.99 {
        p := 0.99;
      }
      assert p == ClampStartPos(pos);
      var newOffset := Wrap16(TruncReal(FractionOfHalf(p, maxSampleLen)));
      assert newOffset == StartOffsetPos(pos, maxSampleLen);
      nextOffset := newOffset;
      if idealLength + nextOffset > maxSampleLen {
        nextLength := Wrap16(maxSampleLen - nextOffset - 1);
      } else {
        nextLength := idealLength;
      }
    }

    method SetLengthMs(ms: real)
      requires Valid()
      modifies this
      ensures Valid() && sampleBank == old(sampleBank)
      ensures State() == LengthMsStaged(old(State()), ms)
    {
      var m := ms;
      if m < 1.0 {
        m := 1.0;
      } else if m > lengthMs {
        m := lengthMs;
      }
      var newLength := Wrap16(TruncReal(MsToSamples(m) - offset as real));
      if newLength < MinGrainLength {
        newLength := Wrap16(maxSampleLen - offset - 1);
      }
      nextLength := newLength;
      idealLength := nextLength;
    }

    method SetLengthPos(pos: real)
      requires Valid()
      modifies this
      ensures Valid() && sampleBank == old(sampleBank)
      ensures State() == LengthPosStaged(old(State()), pos)
    {
      var p := pos;
      if p < 0.01 {
        p := 0.01;
      } else if p > 1.0 {
        p := 1.0;
      }
      assert p == ClampLengthPos(pos);
      var newLength := Wrap16(TruncReal(FractionOfHalf(p, maxSampleLen) - offset as real));
      assert newLength == LengthSamplesPos(pos, maxSampleLen, offset);
      if newLength < MinGrainLength {
        newLength := Wrap16(maxSampleLen - offset - 1);
      }
      nextLength := newLength;
      idealLength := nextLength;
    }

    /** One audio block. Without a bank or without a block nothing happens; otherwise the block
        is recorded sample by sample and, while running, overwritten with the scrubbed output:
        bank, block and fields end as `RunBlock` says. */
    method Update(block: array?<int>)
      requires Valid()
      requires block != null ==> block.Length == AudioBlockSamples && block != sampleBank
      modifies this, sampleBank, block
      ensures Valid() && sampleBank == old(sampleBank) && lengthMs == old(lengthMs)
      ensures old(sampleBank) == null || block == null ==>
        State() == old(State()) && (block != null ==> block[..] == old(block[..])) &&
        (old(sampleBank) != null ==> sampleBank[..] == old(sampleBank[..]))
      ensures old(sampleBank) != null && block != null ==>
        var r := RunBlock(old(State()), old(sampleBank[..]), old(block[..]));
        State() == r.engine && sampleBank[..] == r.bank && block[..] == r.out
    {
      if sampleBank == null || block == null {
        return;
      }
      if !running {
        RecordBlock(block);
      } else {
        ScrubBlock(block);
      }
    }

    /** The stopped branch of `update`: every sample goes to both halves and the block passes
        through untouched. */
    method RecordBlock(block: array<int>)
      requires Valid() && sampleBank != null && !running && block != sampleBank
      modifies this, sampleBank
      ensures Valid() && sampleBank == old(sampleBank) && lengthMs == old(lengthMs)
      ensures var r := RunBlock(old(State()), old(sampleBank[..]), block[..]);
              State() == r.engine && sampleBank[..] == r.bank && block[..] == r.out
    {
      var bank := sampleBank;
      ghost var e0, b0, xs := State(), bank[..], block[..];
      var i := 0;
      while i < block.Length
        invariant 0 <= i <= block.Length
        invariant Valid() && sampleBank == bank && lengthMs == old(lengthMs) && !running
        invariant RunBlock(e0, b0, xs[..i]) == BlockResult(State(), bank[..], xs[..i])
      {
        ghost var e, b := State(), bank[..];
        RecordSample(block[i]);
        BlockStep(e0, b0, xs, i, e, b, xs[..i], State(), bank[..], xs[i]);
        TakeOneMore(xs, i, xs[..i] + [xs[i]]);
        i := i + 1;
      }
      assert xs[..i] == xs;
    }

    /** One sample of the stopped loop: written to both halves, then `write_head++` with wrap. */
    method RecordSample(x: int)
      requires Valid() && sampleBank != null && !running
      modifies this, sampleBank
      ensures Valid() && sampleBank == old(sampleBank) && lengthMs == old(lengthMs)
      ensures SampleStep(old(State()), old(sampleBank[..]), x) == SampleResult(State(), sampleBank[..], x)
    {
      StoppedStep(State(), sampleBank[..], x);
      sampleBank[writeHead] := x;
      sampleBank[writeHead + maxSampleLen] := x;
      writeHead := writeHead + 1;
      if writeHead >= maxSampleLen {
        writeHead := 0;
      }
    }

    /** The running branch of `update`: each sample is recorded into the half not being played,
        the cursor advances, and the block slot is overwritten with the faded grain sample. */
    method ScrubBlock(block: array<int>)
      requires Valid() && sampleBank != null && running && block != sampleBank
      modifies this, sampleBank, block
      ensures Valid() && sampleBank == old(sampleBank) && lengthMs == old(lengthMs)
      ensures var r := RunBlock(old(State()), old(sampleBank[..]), old(block[..]));
              State() == r.engine && sampleBank[..] == r.bank && block[..] == r.out
    {
      var bank := sampleBank;
      ghost var e0, b0, xs := State(), bank[..], block[..];
      var i := 0;
      while i < block.Length
        invariant 0 <= i <= block.Length
        invariant Valid() && sampleBank == bank && lengthMs == old(lengthMs) && running
        invariant forall k :: i <= k < block.Length ==> block[k] == xs[k]
        invariant RunBlock(e0, b0, xs[..i]) == BlockResult(State(), bank[..], block[..i])
      {
        ghost var e, b, out := State(), bank[..], block[..i];
        var y := ScrubSample(block[i]);
        BlockStep(e0, b0, xs, i, e, b, out, State(), bank[..], y);
        WriteSlot(block, i, y);
        i := i + 1;
      }
      assert xs[..i] == xs;
    }

    /** One sample of the running loop: step 1 records it into the half not being played,
        step 2 advances the cursor and produces the faded grain sample. */
    method ScrubSample(x: int) returns (y: int)
      requires Valid() && sampleBank != null && running
      modifies this, sampleBank
      ensures Valid() && sampleBank == old(sampleBank) && lengthMs == old(lengthMs)
      ensures var s := SampleStep(old(State()), old(sampleBank[..]), x);
              State() == s.engine && sampleBank[..] == s.bank && y == s.out
    {
      RunningStep(State(), sampleBank[..], x);
      // Step 1: record into the half that is not being played.
      if activeBuffer == 0 {
        sampleBank[writeHead + maxSampleLen] := x;
      } else {
        sampleBank[writeHead] := x;
      }
      writeHead := writeHead + 1;
      if writeHead >= maxSampleLen {
        writeHead := 0;
      }
      // Step 2: advance the cursor, commit at a grain boundary, read and fade.
      Step();
      y := Play();
    }

    /** The read and the fade of step 2: `read_index` into the played half, then the output
        sample. */
    method Play() returns (y: int)
      requires Valid() && sampleBank != null
      ensures var i := ReadIndex(offset, readHead, readHeadOffset, maxSampleLen, activeBuffer);
              y == Wrap16(CircularFade(if 0 <= i then sampleBank[i] else 0, length, readHead))
    {
      var readIndex := CRem(offset + readHead + readHeadOffset, maxSampleLen);
      if activeBuffer == 1 {
        readIndex := readIndex + maxSampleLen;
      }
      var sample := if 0 <= readIndex then sampleBank[readIndex] else 0;
      y := Wrap16(CircularFade(sample, length, readHead));
    }

    /** Step 2 of `update` up to the read: `accumulator += playback_rate`, the new `read_head`,
        and at a grain boundary the reset and the commit of the pending set. */
    method Step()
      requires InRange(State())
      modifies this
      ensures sampleBank == old(sampleBank) && lengthMs == old(lengthMs)
      ensures var c := Advance(old(accumulator), old(State()).active, old(State()).pending);
              State() == old(State()).(accumulator := c.accumulator, readHead := c.readHead, active := c.active)
    {
      if !reversed {
        StepForward();
      } else {
        StepReverse();
      }
    }

    /** The forward branch: `read_head = accumulator >> 16`, and at the end of the grain a restart
        at its first sample. */
    method StepForward()
      requires InRange(State()) && !reversed
      modifies this
      ensures sampleBank == old(sampleBank) && lengthMs == old(lengthMs)
      ensures var c := Advance(old(accumulator), old(State()).active, old(State()).pending);
              State() == old(State()).(accumulator := c.accumulator, readHead := c.readHead, active := c.active)
    {
      ghost var c := Advance(accumulator, State().active, State().pending);
      accumulator := U32(accumulator + playbackRate);
      readHead := Wrap16(accumulator / Pow16);
      if readHead >= length || readHead < 0 {
        accumulator := 0;
        readHead := 0;
        CommitPending();
        assert c.committed;
      } else {
        assert !c.committed;
      }
    }

    /** The reverse branch: `read_head = length - (accumulator >> 16) - 1`, and past the start of
        the grain a restart at `length - 1` of the grain that just ended. */
    method StepReverse()
      requires InRange(State()) && reversed
      modifies this
      ensures sampleBank == old(sampleBank) && lengthMs == old(lengthMs)
      ensures var c := Advance(old(accumulator), old(State()).active, old(State()).pending);
              State() == old(State()).(accumulator := c.accumulator, readHead := c.readHead, active := c.active)
    {
      ghost var c := Advance(accumulator, State().active, State().pending);
      accumulator := U32(accumulator + playbackRate);
      readHead := Wrap16(length - accumulator / Pow16 - 1);
      if readHead < 0 || readHead >= length {
        accumulator := 0;
        readHead := Wrap16(length - 1);
        CommitPending();
        assert c.committed;
      } else {
        assert !c.committed;
      }
    }
  }
}
