/** The playback cursor shared by both grain effects (circular.cpp:79-122, effect.cpp:92-128):
    a 16.16 unsigned phase accumulator stepped by a signed rate, whose integer part is the position
    in the grain, and the grain-boundary commit that copies the pending parameters into the active
    ones. */
module Grain {
  import opened FixedPoint

  /** One parameter set: `offset`, `length`, `playback_rate`, `reversed` (the active set) or
      `next_offset`, `next_length`, `next_playback_rate`, `next_reversed` (the pending set). */
  datatype Params = Params(offset: int, length: int, rate: int, reversed: bool)

  /** The cursor after one step, and whether that step was a grain boundary. */
  datatype Cursor = Cursor(accumulator: int, readHead: int, active: Params, committed: bool)

  /** `AUDIO_BLOCK_SAMPLES`: the samples in one audio block of the audio library. */
  const AudioBlockSamples: int := 128

  /** The 1.0 rate in 16.16 fixed point, set by `begin`. */
  const UnitRate: int := 65536

  /** `block->data[i] = y`, the output write of both engines' `update` loops, stated for the
      prefix written so far and the suffix still unread. */
  method WriteSlot(block: array<int>, i: int, y: int)
    requires 0 <= i < block.Length
    modifies block
    ensures block[..i + 1] == old(block[..i]) + [y]
    ensures forall k :: i < k < block.Length ==> block[k] == old(block[k])
  {
    block[i] := y;
    assert block[..i + 1] == block[..i] + [y];
  }

  /** The position the step aims at before any narrowing: the accumulator's integer part counted
      from the start of the grain, or from its end when the grain plays in reverse. */
  function Position(accumulator: int, p: Params): (pos: int)
    ensures var k := if p.reversed then p.length - 1 - pos else pos;
            k * Pow16 <= accumulator < (k + 1) * Pow16
  {
    if p.reversed then p.length - 1 - accumulator / Pow16 else accumulator / Pow16
  }

  /** `accumulator += playback_rate`, then `read_head` (an int16_t) from `accumulator >> 16`, and a
      commit of the pending set when `read_head` falls outside `[0, length)`. On a reverse commit
      `read_head` becomes `length - 1` of the grain that just ended. */
  function Advance(acc: int, active: Params, pending: Params): (c: Cursor)
    requires IsUint32(acc) && IsInt16(active.length)
    ensures IsUint32(c.accumulator)
    ensures c.committed <==> !(0 <= Position(U32(acc + active.rate), active) < active.length)
    ensures !c.committed ==>
      c.active == active && c.accumulator == U32(acc + active.rate) &&
      c.readHead == Position(c.accumulator, active) && 0 <= c.readHead < active.length
    ensures c.committed ==> c.accumulator == 0 && c.active == pending
    ensures c.committed && !active.reversed ==> c.readHead == 0
    ensures c.committed && active.reversed ==> c.readHead == Wrap16(active.length - 1)
  {
    var acc1 := U32(acc + active.rate);
    var q := acc1 / Pow16;
    assert 0 <= q < Pow16;
    if !active.reversed then
      var head := Wrap16(q);
      assert (0 <= head < active.length) <==> (0 <= q < active.length) by {
        if q >= 32768 { assert head == q - Pow16; }
      }
      if head >= active.length || head < 0 then Cursor(0, 0, pending, true)
      else Cursor(acc1, head, active, false)
    else
      var v := active.length - q - 1;
      var head := Wrap16(v);
      assert (0 <= head < active.length) <==> (0 <= v < active.length) by {
        if v < -65536 { assert head == v + Pow16; }
        else if v < -32768 { assert head == v + Pow16; }
      }
      if head < 0 || head >= active.length then Cursor(0, Wrap16(active.length - 1), pending, true)
      else Cursor(acc1, head, active, false)
  }

  /** Changing the pending set cannot affect a step that is not a grain boundary, and it does not
      decide whether a step is one: staged parameters reach playback only through a commit. */
  lemma PendingInvisibleMidGrain(acc: int, active: Params, p1: Params, p2: Params)
    requires IsUint32(acc) && IsInt16(active.length)
    ensures Advance(acc, active, p1).committed == Advance(acc, active, p2).committed
    ensures !Advance(acc, active, p1).committed ==> Advance(acc, active, p1) == Advance(acc, active, p2)
  {
  }

  /** Reverse symmetry: for the same grain, rate and accumulator, reverse playback reaches a grain
      boundary exactly when forward playback does, and otherwise reads the mirror position
      `length - 1 - k` of the forward position `k`. */
  lemma ReverseMirrorsForward(acc: int, offset: int, length: int, rate: int, pending: Params)
    requires IsUint32(acc) && IsInt16(length) && length >= 0
    ensures var f := Advance(acc, Params(offset, length, rate, false), pending);
            var r := Advance(acc, Params(offset, length, rate, true), pending);
            f.committed == r.committed &&
            (!f.committed ==> r.readHead == length - 1 - f.readHead && r.accumulator == f.accumulator)
  {
    var q := U32(acc + rate) / Pow16;
    assert Position(U32(acc + rate), Params(offset, length, rate, true)) == length - 1 - q;
    assert Position(U32(acc + rate), Params(offset, length, rate, false)) == q;
  }

  /** A negative rate makes the unsigned accumulator wrap below zero; as an int16_t the position is
      then negative, which is what the `read_head < 0` test catches: a forward grain with a negative
      rate commits at every sample. */
  lemma NegativeRateCommitsAtOnce(active: Params, pending: Params)
    requires !active.reversed && IsInt16(active.length) && -65536 <= active.rate < 0
    ensures Advance(0, active, pending).committed
    ensures Advance(0, active, pending).readHead == 0
  {
    assert U32(active.rate) == active.rate + Pow32;
    assert U32(active.rate) / Pow16 >= 65535;
  }
}
