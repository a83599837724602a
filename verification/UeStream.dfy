/** The sample streams of the NR UE main loop (UE_thread and RU_write, executables/nr-ue.c):
    how many samples each slot reads and writes, and when, across timing-advance,
    N_TA_offset and drift-shift changes. The radio is a counter: a read of n samples
    returns the old position and advances it by n. */
module UeStream {
  import opened Arithmetic
  import opened SlotGrid

  /** A stretch of samples, of a stream or of a buffer. */
  datatype Block = Block(start: int, size: int)

  /** Blocks laid end to end from `from` to `to`. */
  predicate Contiguous(blocks: seq<Block>, from: int, to: int) {
    if blocks == [] then from == to
    else blocks[0].start == from && blocks[0].size >= 0 && Contiguous(blocks[1..], from + blocks[0].size, to)
  }

  lemma {:induction false} ContiguousConcat(a: seq<Block>, b: seq<Block>, from: int, mid: int, to: int)
    requires Contiguous(a, from, mid) && Contiguous(b, mid, to)
    ensures Contiguous(a + b, from, to)
  {
    if a == [] {
      assert a + b == b;
    } else {
      assert (a + b)[1..] == a[1..] + b;
      ContiguousConcat(a[1..], b, from + a[0].size, mid, to);
    }
  }

  /** Every sample of a contiguous stretch is in exactly one block. */
  lemma {:induction false} EachSampleOnce(blocks: seq<Block>, from: int, to: int, x: int) returns (k: nat)
    requires Contiguous(blocks, from, to) && from <= x < to
    ensures k < |blocks| && blocks[k].start <= x < blocks[k].start + blocks[k].size
    ensures forall j :: 0 <= j < |blocks| && blocks[j].start <= x < blocks[j].start + blocks[j].size ==> j == k
  {
    if x < from + blocks[0].size {
      k := 0;
      StartsAfter(blocks[1..], from + blocks[0].size, to);
      forall j | 0 < j < |blocks|
        ensures blocks[j].start > x
      {
        assert blocks[j] == blocks[1..][j - 1];
      }
    } else {
      var k' := EachSampleOnce(blocks[1..], from + blocks[0].size, to, x);
      k := k' + 1;
      forall j | 0 <= j < |blocks| && blocks[j].start <= x < blocks[j].start + blocks[j].size
        ensures j == k
      {
        if j > 0 {
          assert blocks[j] == blocks[1..][j - 1];
        }
      }
    }
  }

  lemma {:induction false} StartsAfter(blocks: seq<Block>, from: int, to: int)
    requires Contiguous(blocks, from, to)
    ensures forall j :: 0 <= j < |blocks| ==> blocks[j].start >= from
    ensures from <= to
  {
    if blocks != [] {
      StartsAfter(blocks[1..], from + blocks[0].size, to);
      forall j | 0 < j < |blocks|
        ensures blocks[j].start >= from
      {
        assert blocks[j] == blocks[1..][j - 1];
      }
    }
  }

  // ---- RU_write ----

  /** The dummy block RU_write sends while more than a slot is left. */
  function Dummy(size: nat, max: nat): (dummy: nat)
    requires 0 < max < size
    ensures 0 < dummy <= max <= size - dummy
  {
    if size - max < max then size - max else max
  }

  /** What RU_write cuts a slot's write into. */
  function RuBlocks(timestamp: int, size: nat, max: nat): seq<Block>
    requires max > 0
    decreases size
  {
    if size == 0 then []
    else if size <= max then [Block(timestamp, size)]
    else [Block(timestamp, Dummy(size, max))] + RuBlocks(timestamp + Dummy(size, max), size - Dummy(size, max), max)
  }

  /** The blocks cover the write end to end, each at most a slot; an over-long write ends with a full slot. */
  ghost predicate Tiles(blocks: seq<Block>, timestamp: int, size: int, max: nat) {
    && Contiguous(blocks, timestamp, timestamp + size) && (size > 0 ==> blocks != [])
    && (forall k :: 0 <= k < |blocks| ==> 0 < blocks[k].size <= max)
    && (size >= max > 0 ==> |blocks| > 0 && blocks[|blocks| - 1].size == max)
  }

  lemma {:induction false} RuBlocksTile(timestamp: int, size: nat, max: nat)
    requires max > 0
    ensures Tiles(RuBlocks(timestamp, size, max), timestamp, size, max)
    decreases size
  {
    var blocks := RuBlocks(timestamp, size, max);
    if size > max {
      var dummy := Dummy(size, max);
      RuBlocksTile(timestamp + dummy, size - dummy, max);
      hide Dummy;
      assert blocks[0] == Block(timestamp, dummy) && blocks[1..] == RuBlocks(timestamp + dummy, size - dummy, max);
      assert forall k :: 0 < k < |blocks| ==> blocks[k] == blocks[1..][k - 1];
    } else if size > 0 {
      assert blocks == [Block(timestamp, size)] && blocks[0].size == size;
      assert blocks[1..] == [] && Contiguous(blocks[1..], timestamp + size, timestamp + size);
    }
  }

  /** All blocks of a slot's write have `least` samples or more exactly when the write is empty, or both it
      and a slot have and what exceeds whole slots has or is nothing. */
  predicate CutsLong(size: nat, max: nat, least: nat)
    requires max > 0
  {
    size == 0 || (size >= least && max >= least && (size % max == 0 || size % max >= least))
  }

  ghost predicate AtLeast(blocks: seq<Block>, least: nat) { forall k :: 0 <= k < |blocks| ==> blocks[k].size >= least }

  lemma {:induction false} AtLeastConcat(a: seq<Block>, b: seq<Block>, least: nat)
    ensures AtLeast(a + b, least) <==> AtLeast(a, least) && AtLeast(b, least)
  {
    if AtLeast(a + b, least) {
      forall k | 0 <= k < |a|
        ensures a[k].size >= least
      {
        assert (a + b)[k] == a[k];
      }
      forall k | 0 <= k < |b|
        ensures b[k].size >= least
      {
        assert (a + b)[|a| + k] == b[k];
      }
    }
  }

  lemma {:induction false} AtLeastOne(b: Block, least: nat)
    ensures AtLeast([b], least) <==> b.size >= least
  {
    assert [b][0] == b;
  }

  lemma {:induction false} BlocksLong(timestamp: int, size: nat, max: nat, least: nat)
    requires max > 0
    ensures AtLeast(RuBlocks(timestamp, size, max), least) <==> CutsLong(size, max, least)
    decreases size
  {
    if size == 0 {
    } else if size <= max {
      AtLeastOne(Block(timestamp, size), least);
      CutNone(size, max, least);
      hide CutsLong;
      hide AtLeast;
    } else {
      var dummy := Dummy(size, max);
      BlocksLong(timestamp + dummy, size - dummy, max, least);
      AtLeastOne(Block(timestamp, dummy), least);
      AtLeastConcat([Block(timestamp, dummy)], RuBlocks(timestamp + dummy, size - dummy, max), least);
      CutOne(size, max, dummy, least);
      hide CutsLong;
      hide AtLeast;
      hide Dummy;
    }
  }

  lemma {:induction false} CutNone(size: nat, max: nat, least: nat)
    requires 0 < size <= max
    ensures CutsLong(size, max, least) <==> size >= least
  {
    if size < max {
      DivUnique(size, max, 0, size);
    } else {
      DivUnique(size, max, 1, 0);
    }
  }

  lemma {:induction false} CutOne(size: nat, max: nat, dummy: nat, least: nat)
    requires 0 < max < size && dummy == Dummy(size, max)
    ensures dummy >= least && CutsLong(size - dummy, max, least) <==> CutsLong(size, max, least)
  {
    if size - max < max {
      DivUnique(size, max, 1, dummy);
      DivUnique(max, max, 1, 0);
    } else {
      DivAdd(size - max, max, max);
      DivRecompose(size - max, max);
      DivUnique((size - max) % max + max, max, 1, (size - max) % max);
    }
  }

  /** A write that is not so cut has a shorter block, and one longer than a slot has one before its last. */
  lemma {:induction false} ShortBlock(timestamp: int, size: nat, max: nat, least: nat) returns (i: nat)
    requires max > 0 && !CutsLong(size, max, least)
    ensures i < |RuBlocks(timestamp, size, max)| && RuBlocks(timestamp, size, max)[i].size < least
    ensures size > max ==> i + 1 < |RuBlocks(timestamp, size, max)|
  {
    var blocks := RuBlocks(timestamp, size, max);
    BlocksLong(timestamp, size, max, least);
    RuBlocksTile(timestamp, size, max);
    i :| 0 <= i < |blocks| && blocks[i].size < least;
    if size > max && i + 1 == |blocks| {
      AtLeastTwo(timestamp, size, max);
      i := 0;
    }
  }

  lemma {:induction false} AtLeastTwo(timestamp: int, size: nat, max: nat)
    requires 0 < max < size
    ensures |RuBlocks(timestamp, size, max)| >= 2
  {
    RuBlocksTile(timestamp + Dummy(size, max), size - Dummy(size, max), max);
  }

  /** Near a slot's length: a write that exceeds the slot by less than `least` samples is cut short. */
  lemma {:induction false} NearSlot(size: nat, max: nat, least: nat)
    requires 0 < least <= max && size < 2 * max
    ensures CutsLong(size, max, least) <==> size == 0 || least <= size <= max || size >= max + least
  {
    if size < max {
      DivUnique(size, max, 0, size);
    } else {
      DivUnique(size, max, 1, size - max);
    }
  }

  lemma {:induction false} NoBlock(timestamp: int, max: nat)
    requires 0 < max
    ensures RuBlocks(timestamp, 0, max) == []
  {}

  lemma {:induction false} FirstBlock(timestamp: int, size: nat, max: nat)
    requires 0 < max && 0 < size
    ensures RuBlocks(timestamp, size, max)
            == if size <= max then [Block(timestamp, size)]
               else [Block(timestamp, Dummy(size, max))] + RuBlocks(timestamp + Dummy(size, max), size - Dummy(size, max), max)
  {}

  lemma {:induction false} Regroup(a: seq<Block>, b: Block, c: seq<Block>)
    ensures a + ([b] + c) == a + [b] + c
  {}

  /** RU_write: dummy blocks until what is left fits in a slot, then the slot itself. */
  method RuWrite(timestamp: int, writeBlockSize: int, maxWriteBlockSize: nat) returns (writes: seq<Block>)
    requires maxWriteBlockSize > 0 && writeBlockSize >= 0
    ensures writes == RuBlocks(timestamp, writeBlockSize, maxWriteBlockSize)
    ensures Tiles(writes, timestamp, writeBlockSize, maxWriteBlockSize)
  {
    hide *;
    RuBlocksTile(timestamp, writeBlockSize, maxWriteBlockSize);
    ghost var all := RuBlocks(timestamp, writeBlockSize, maxWriteBlockSize);
    writes := [];
    if writeBlockSize == 0 {
      NoBlock(timestamp, maxWriteBlockSize);
      return;
    }
    var start, left := timestamp, writeBlockSize;
    while left > maxWriteBlockSize
      invariant 0 < left
      invariant all == writes + RuBlocks(start, left, maxWriteBlockSize)
    {
      var dummy := Dummy(left, maxWriteBlockSize);
      FirstBlock(start, left, maxWriteBlockSize);
      Regroup(writes, Block(start, dummy), RuBlocks(start + dummy, left - dummy, maxWriteBlockSize));
      writes := writes + [Block(start, dummy)];
      start := start + dummy;
      left := left - dummy;
    }
    FirstBlock(start, left, maxWriteBlockSize);
    writes := writes + [Block(start, left)];
  }

  // ---- the read and write arithmetic of one slot ----

  /** get_readBlockSize: the rest of this slot and, within the frame, the next slot's first symbol. */
  function ReadBlockSize(fp: FrameParms, slot: nat): int
    requires fp.Valid()
  {
    fp.SamplesPerSlot(slot) - fp.FirstSymSamp(slot)
    + (if slot < fp.SlotsPerFrame() - 1 then fp.FirstSymSamp(slot + 1) else 0)
  }

  /** `slot` is the absolute slot, `position` the radio's, `timingAdvance` the loop's own copy,
      `nTaOffset` the one in force. */
  datatype Ue = Ue(slot: nat, position: int, timingAdvance: int, nTaOffset: int)

  /** What the rest of the modem asks for in a slot: the drift shift pending, and the timing
      advance and N_TA offset now wanted. */
  datatype Request = Request(shift: int, timingAdvance: int, nTaOffset: int)

  /** The drift shift is applied in the last slot of a frame only. */
  function AppliedShift(fp: FrameParms, slot: nat, r: Request): int
    requires fp.Valid()
  {
    if slot % fp.SlotsPerFrame() == fp.SlotsPerFrame() - 1 then r.shift else 0
  }

  /** Samples read in a slot, counting the next frame's first symbol read after the last slot. */
  function SamplesRead(fp: FrameParms, slot: nat, shift: int): int
    requires fp.Valid()
  {
    var nr := slot % fp.SlotsPerFrame();
    ReadBlockSize(fp, nr) - shift + (if nr == fp.SlotsPerFrame() - 1 then fp.longSymbol else 0)
  }

  /** The write timestamp, computed from the timing advance before this slot. */
  function WriteTimestamp(fp: FrameParms, d: nat, ue: Ue): int
    requires fp.Valid()
  {
    var nr := ue.slot % fp.SlotsPerFrame();
    ue.position + fp.SlotDuration(nr, d) - fp.FirstSymSamp(nr) - ue.nTaOffset - ue.timingAdvance
  }

  /** The write size before clamping, computed from the timing advance now wanted. */
  function RawBlockSize(fp: FrameParms, d: nat, ue: Ue, r: Request): int
    requires fp.Valid()
  {
    var n := fp.SlotsPerFrame();
    fp.SamplesPerSlot((ue.slot % n + d) % n) - AppliedShift(fp, ue.slot, r)
    - (r.timingAdvance - ue.timingAdvance) - (r.nTaOffset - ue.nTaOffset)
  }

  /** One slot of the loop, for a fixed distance d from receive to transmit. */
  function Iterate(fp: FrameParms, d: nat, ue: Ue, r: Request): (Ue, Block)
    requires fp.Valid()
  {
    var raw := RawBlockSize(fp, d, ue, r);
    var position := ue.position + SamplesRead(fp, ue.slot, AppliedShift(fp, ue.slot, r));
    (Ue(ue.slot + 1, position, r.timingAdvance + (if raw < 0 then raw else 0), r.nTaOffset),
     Block(WriteTimestamp(fp, d, ue), if raw < 0 then 0 else raw))
  }

  /** The same as UE_thread runs it, its locals updated in turn. */
  class UeThread {
    const fp: FrameParms
    const durationRxToTx: nat
    var absoluteSlot: nat
    var position: int
    var timingAdvance: int
    var nTaOffset: int

    function View(): Ue
      reads this
    {
      Ue(absoluteSlot, position, timingAdvance, nTaOffset)
    }

    constructor (fp: FrameParms, durationRxToTx: nat, start: Ue)
      requires fp.Valid()
      ensures this.fp == fp && this.durationRxToTx == durationRxToTx && View() == start
    {
      this.fp, this.durationRxToTx := fp, durationRxToTx;
      absoluteSlot, position := start.slot, start.position;
      timingAdvance, nTaOffset := start.timingAdvance, start.nTaOffset;
    }

    /** trx_read_func: the timestamp of the first sample read. */
    method Read(samples: int) returns (timestamp: int)
      modifies this`position
      ensures timestamp == old(position) && position == old(position) + samples
    {
      timestamp := position;
      position := position + samples;
    }

    method ProcessSlot(r: Request) returns (write: Block)
      requires fp.Valid()
      modifies this
      ensures (View(), write) == Iterate(fp, durationRxToTx, old(View()), r)
    {
      hide FrameParms.Valid;
      hide FrameParms.FirstSymSamp;
      hide FrameParms.SamplesPerSlot;
      hide FrameParms.SlotDuration;
      hide ReadBlockSize;
      var n := fp.SlotsPerFrame();
      var slotNr := absoluteSlot % n;
      var firstSymSamp := fp.FirstSymSamp(slotNr);
      var shift := if slotNr == n - 1 then r.shift else 0;
      var rxTimestamp := Read(ReadBlockSize(fp, slotNr) - shift);
      if slotNr == n - 1 {
        var ignored := Read(fp.longSymbol);
      }
      var writeTimestamp := rxTimestamp + fp.SlotDuration(slotNr, durationRxToTx) - firstSymSamp - nTaOffset - timingAdvance;
      var writeBlockSize := fp.SamplesPerSlot((slotNr + durationRxToTx) % n) - shift;
      if r.timingAdvance != timingAdvance {
        writeBlockSize := writeBlockSize - (r.timingAdvance - timingAdvance);
        timingAdvance := r.timingAdvance;
      }
      if r.nTaOffset != nTaOffset {
        writeBlockSize := writeBlockSize - (r.nTaOffset - nTaOffset);
        nTaOffset := r.nTaOffset;
      }
      if writeBlockSize < 0 {
        timingAdvance := timingAdvance + writeBlockSize;
        writeBlockSize := 0;
      }
      absoluteSlot := absoluteSlot + 1;
      write := Block(writeTimestamp, writeBlockSize);
    }
  }

  // ---- in terms of absolute slots ----

  /** The grid functions at a slot of the frame are those at the absolute slot. */
  lemma {:induction false} AtAbsoluteSlot(fp: FrameParms, slot: nat, d: nat)
    requires fp.Valid()
    ensures var n := fp.SlotsPerFrame();
            && fp.SlotDuration(slot % n, d) == Start(fp, slot + d) - Start(fp, slot)
            && fp.SamplesPerSlot((slot % n + d) % n) == fp.SamplesPerSlot(slot + d)
            && fp.FirstSymSamp(slot % n) == fp.FirstSymSamp(slot)
            && fp.SamplesPerSlot(slot % n) == fp.SamplesPerSlot(slot)
  {
    var n := fp.SlotsPerFrame();
    var m, r := slot / n, slot % n;
    DivRecompose(slot, n);
    SlotTimestampIsStart(fp, r);
    SlotTimestampIsStart(fp, r + d);
    StartInFrame(fp, slot, m, r);
    StartInFrame(fp, slot + d, m, r + d);
    DivRecompose(r + d, n);
    StartInFrame(fp, r + d, (r + d) / n, (r + d) % n);
  }

  /** A slot reads its own samples, ahead by one symbol, less the shift. */
  lemma {:induction false} ReadAdvance(fp: FrameParms, slot: nat, shift: int)
    requires fp.Valid()
    ensures SamplesRead(fp, slot, shift)
            == fp.SamplesPerSlot(slot) - fp.FirstSymSamp(slot) + fp.FirstSymSamp(slot + 1) - shift
  {
    var n := fp.SlotsPerFrame();
    AtAbsoluteSlot(fp, slot, 0);
    DivRecompose(slot, n);
    if slot % n == n - 1 {
      Distribute(slot / n, 1, n);
      StartInFrame(fp, slot + 1, slot / n + 1, 0);
    } else {
      StartInFrame(fp, slot + 1, slot / n, slot % n + 1);
    }
  }

  lemma {:induction false} WriteTimestampAt(fp: FrameParms, d: nat, ue: Ue)
    requires fp.Valid()
    ensures WriteTimestamp(fp, d, ue)
            == ue.position + Start(fp, ue.slot + d) - Start(fp, ue.slot) - fp.FirstSymSamp(ue.slot)
               - ue.nTaOffset - ue.timingAdvance
  {
    AtAbsoluteSlot(fp, ue.slot, d);
  }

  // ---- runs of the loop ----

  function Final(fp: FrameParms, d: nat, ue: Ue, rs: seq<Request>): Ue
    requires fp.Valid()
    decreases |rs|
  {
    if rs == [] then ue else Final(fp, d, Iterate(fp, d, ue, rs[0]).0, rs[1..])
  }

  /** The block written for each slot of the run. */
  function Writes(fp: FrameParms, d: nat, ue: Ue, rs: seq<Request>): seq<Block>
    requires fp.Valid()
    decreases |rs|
  {
    if rs == [] then []
    else [Iterate(fp, d, ue, rs[0]).1] + Writes(fp, d, Iterate(fp, d, ue, rs[0]).0, rs[1..])
  }

  /** The next slot's write begins where this slot's ends, although its timestamp comes from
      the old timing advance and its size from the new one, clamped or not. */
  lemma {:induction false} NoGap(fp: FrameParms, d: nat, ue: Ue, r: Request)
    requires fp.Valid()
    ensures var (next, write) := Iterate(fp, d, ue, r);
            && write.start == WriteTimestamp(fp, d, ue) && write.size >= 0
            && WriteTimestamp(fp, d, next) == write.start + write.size
  {
    var next := Iterate(fp, d, ue, r).0;
    WriteTimestampAt(fp, d, ue);
    WriteTimestampAt(fp, d, next);
    ReadAdvance(fp, ue.slot, AppliedShift(fp, ue.slot, r));
    AtAbsoluteSlot(fp, ue.slot, d);
  }

  /** Over any run, with any requests, the transmitted stream has no gap and no overlap: the
      slots' blocks lie end to end, and by EachSampleOnce every sample time in between is
      written for exactly one slot. */
  lemma {:induction false} GapFreeStream(fp: FrameParms, d: nat, ue: Ue, rs: seq<Request>)
    requires fp.Valid()
    ensures |Writes(fp, d, ue, rs)| == |rs|
    ensures Contiguous(Writes(fp, d, ue, rs), WriteTimestamp(fp, d, ue), WriteTimestamp(fp, d, Final(fp, d, ue, rs)))
    decreases |rs|
  {
    if rs != [] {
      NoGap(fp, d, ue, rs[0]);
      GapFreeStream(fp, d, Iterate(fp, d, ue, rs[0]).0, rs[1..]);
    }
  }

  /** Slot lengths less drift shifts: the samples the run's slots stand for. */
  function Elapsed(fp: FrameParms, d: nat, slot: nat, rs: seq<Request>): int
    requires fp.Valid()
    decreases |rs|
  {
    if rs == [] then 0
    else fp.SamplesPerSlot(slot + d) - AppliedShift(fp, slot, rs[0]) + Elapsed(fp, d, slot + 1, rs[1..])
  }

  /** Conservation: what is written is the elapsed samples less the advances gained. */
  lemma {:induction false} WrittenTotal(fp: FrameParms, d: nat, ue: Ue, rs: seq<Request>)
    requires fp.Valid()
    ensures var last := Final(fp, d, ue, rs);
            WriteTimestamp(fp, d, last) - WriteTimestamp(fp, d, ue)
            == Elapsed(fp, d, ue.slot, rs) - (last.timingAdvance - ue.timingAdvance) - (last.nTaOffset - ue.nTaOffset)
    decreases |rs|
  {
    if rs != [] {
      OneSlot(fp, d, ue, rs);
      SlotGain(fp, d, ue, rs[0]);
      hide *;
      WrittenTotal(fp, d, Iterate(fp, d, ue, rs[0]).0, rs[1..]);
    }
  }

  /** The first slot of a run and the rest. */
  lemma {:induction false} OneSlot(fp: FrameParms, d: nat, ue: Ue, rs: seq<Request>)
    requires fp.Valid() && rs != []
    ensures var (next, write) := Iterate(fp, d, ue, rs[0]);
            && Final(fp, d, ue, rs) == Final(fp, d, next, rs[1..]) && next.slot == ue.slot + 1
            && Writes(fp, d, ue, rs) == [write] + Writes(fp, d, next, rs[1..])
            && Elapsed(fp, d, ue.slot, rs)
               == fp.SamplesPerSlot(ue.slot + d) - AppliedShift(fp, ue.slot, rs[0]) + Elapsed(fp, d, ue.slot + 1, rs[1..])
  {}

  lemma {:induction false} NoSlot(fp: FrameParms, d: nat, ue: Ue, slot: nat)
    requires fp.Valid()
    ensures Final(fp, d, ue, []) == ue && Writes(fp, d, ue, []) == [] && Elapsed(fp, d, slot, []) == 0
  {}

  /** How far one slot moves the write timestamp. */
  lemma {:induction false} SlotGain(fp: FrameParms, d: nat, ue: Ue, r: Request)
    requires fp.Valid()
    ensures var next := Iterate(fp, d, ue, r).0;
            WriteTimestamp(fp, d, next) - WriteTimestamp(fp, d, ue)
            == fp.SamplesPerSlot(ue.slot + d) - AppliedShift(fp, ue.slot, r)
               - (next.timingAdvance - ue.timingAdvance) - (next.nTaOffset - ue.nTaOffset)
  {
    NoGap(fp, d, ue, r);
    AtAbsoluteSlot(fp, ue.slot, d);
    hide WriteTimestamp;
    hide AppliedShift;
    hide FrameParms.SamplesPerSlot;
    hide FrameParms.Valid;
  }

  /** The longest block RU_write sends for a slot: the transmit slot's length. */
  function SlotMax(fp: FrameParms, d: nat, slot: nat): (max: nat)
    requires fp.Valid()
    ensures max > 0
  {
    var n := fp.SlotsPerFrame();
    SlotLengthPositive(fp, (slot % n + d) % n);
    fp.SamplesPerSlot((slot % n + d) % n)
  }

  /** What RU_write sends for a slot. */
  function SlotBlocks(fp: FrameParms, d: nat, ue: Ue, r: Request): seq<Block>
    requires fp.Valid()
  {
    var write := Iterate(fp, d, ue, r).1;
    RuBlocks(write.start, write.size, SlotMax(fp, d, ue.slot))
  }

  /** ... and for the slots of a run, in order. */
  function Blocks(fp: FrameParms, d: nat, ue: Ue, rs: seq<Request>): seq<Block>
    requires fp.Valid()
    decreases |rs|
  {
    if rs == [] then []
    else SlotBlocks(fp, d, ue, rs[0]) + Blocks(fp, d, Iterate(fp, d, ue, rs[0]).0, rs[1..])
  }

  lemma {:induction false} BlocksTile(fp: FrameParms, d: nat, ue: Ue, rs: seq<Request>)
    requires fp.Valid()
    ensures Contiguous(Blocks(fp, d, ue, rs), WriteTimestamp(fp, d, ue), WriteTimestamp(fp, d, Final(fp, d, ue, rs)))
    decreases |rs|
  {
    if rs != [] {
      var (next, write) := Iterate(fp, d, ue, rs[0]);
      NoGap(fp, d, ue, rs[0]);
      RuBlocksTile(write.start, write.size, SlotMax(fp, d, ue.slot));
      BlocksTile(fp, d, next, rs[1..]);
      hide Iterate;
      hide WriteTimestamp;
      ContiguousConcat(SlotBlocks(fp, d, ue, rs[0]), Blocks(fp, d, next, rs[1..]), write.start, write.start + write.size,
                       WriteTimestamp(fp, d, Final(fp, d, ue, rs)));
    }
  }

  /** The whole transmit path: the loop and RU_write together hand the radio one stream without gap
      or overlap, whatever the requests. */
  method Transmit(ue: UeThread, rs: seq<Request>) returns (writes: seq<Block>)
    requires ue.fp.Valid()
    modifies ue
    ensures writes == Blocks(ue.fp, ue.durationRxToTx, old(ue.View()), rs)
    ensures ue.View() == Final(ue.fp, ue.durationRxToTx, old(ue.View()), rs)
    ensures Contiguous(writes, WriteTimestamp(ue.fp, ue.durationRxToTx, old(ue.View())),
                       WriteTimestamp(ue.fp, ue.durationRxToTx, ue.View()))
  {
    var fp, d := ue.fp, ue.durationRxToTx;
    ghost var start := ue.View();
    BlocksTile(fp, d, start, rs);
    writes := [];
    for k := 0 to |rs|
      invariant Final(fp, d, start, rs) == Final(fp, d, ue.View(), rs[k..])
      invariant Blocks(fp, d, start, rs) == writes + Blocks(fp, d, ue.View(), rs[k..])
    {
      ghost var before := ue.View();
      var max := SlotMax(fp, d, ue.absoluteSlot);
      var write := ue.ProcessSlot(rs[k]);
      NoGap(fp, d, before, rs[k]);
      hide Iterate;
      assert rs[k..][1..] == rs[k + 1..];
      var blocks := RuWrite(write.start, write.size, max);
      writes := writes + blocks;
    }
  }

  // ---- a jump of the timing advance ----

  /** What a slot is asked for is in force after it: the N_TA offset always, the timing advance unless nothing
      is written. */
  lemma {:induction false} RequestApplied(fp: FrameParms, d: nat, ue: Ue, r: Request)
    requires fp.Valid()
    ensures var (next, write) := Iterate(fp, d, ue, r);
            && next.nTaOffset == r.nTaOffset && next.timingAdvance <= r.timingAdvance
            && (write.size > 0 ==> next.timingAdvance == r.timingAdvance)
  {
    hide FrameParms.SamplesPerSlot;
    hide FrameParms.FirstSymSamp;
  }

  lemma {:induction false} LastRequestApplied(fp: FrameParms, d: nat, ue: Ue, rs: seq<Request>)
    requires fp.Valid() && rs != []
    ensures Final(fp, d, ue, rs).nTaOffset == rs[|rs| - 1].nTaOffset
    decreases |rs|
  {
    var next := Iterate(fp, d, ue, rs[0]).0;
    OneSlot(fp, d, ue, rs);
    RequestApplied(fp, d, ue, rs[0]);
    hide *;
    if |rs| == 1 {
      assert rs[1..] == [];
      NoSlot(fp, d, next, next.slot);
    } else {
      LastRequestApplied(fp, d, next, rs[1..]);
    }
  }

  /** The same timing advance and N_TA offset asked for in every slot, drift shifts below a slot. */
  predicate Settled(fp: FrameParms, d: nat, slot: nat, rs: seq<Request>, target: int, offset: int)
    requires fp.Valid()
  {
    forall k :: 0 <= k < |rs| ==>
      && rs[k].timingAdvance == target && rs[k].nTaOffset == offset
      && AppliedShift(fp, slot + k, rs[k]) < fp.SamplesPerSlot(slot + k + d)
  }

  lemma {:induction false} SettledRest(fp: FrameParms, d: nat, slot: nat, rs: seq<Request>, target: int, offset: int)
    requires fp.Valid() && rs != [] && Settled(fp, d, slot, rs, target, offset)
    ensures Settled(fp, d, slot + 1, rs[1..], target, offset)
  {
    forall k | 0 <= k < |rs| - 1
      ensures var r := rs[1..][k];
              && r.timingAdvance == target && r.nTaOffset == offset
              && AppliedShift(fp, slot + 1 + k, r) < fp.SamplesPerSlot(slot + 1 + k + d)
    {
      assert rs[1..][k] == rs[k + 1] && slot + 1 + k == slot + (k + 1);
    }
  }

  /** How early the UE transmits: timing advance and N_TA offset together. */
  function Early(ue: Ue): int { ue.timingAdvance + ue.nTaOffset }

  /** One slot towards the target: all of the way if the slot has samples enough, else by the
      whole slot, writing nothing. */
  lemma {:induction false} OneSlotTowards(fp: FrameParms, d: nat, ue: Ue, rs: seq<Request>, target: int, offset: int)
    requires fp.Valid() && rs != [] && Settled(fp, d, ue.slot, rs, target, offset)
    ensures var room := fp.SamplesPerSlot(ue.slot + d) - AppliedShift(fp, ue.slot, rs[0]);
            var gap := target + offset - Early(ue);
            var (next, write) := Iterate(fp, d, ue, rs[0]);
            && room > 0 && next.nTaOffset == offset
            && (gap > room ==> write.size == 0 && Early(next) == Early(ue) + room)
            && (gap <= room ==> write.size == room - gap && next.timingAdvance == target)
  {
    AtAbsoluteSlot(fp, ue.slot, d);
    assert AppliedShift(fp, ue.slot + 0, rs[0]) < fp.SamplesPerSlot(ue.slot + 0 + d);
    hide FrameParms.SamplesPerSlot;
    hide FrameParms.FirstSymSamp;
    hide FrameParms.Valid;
  }

  /** After a jump of the timing advance, the N_TA offset or both the loop writes nothing while the jump exceeds
      the samples elapsed, moving by exactly those, and reaches the target in the first slot whose samples
      make up the difference; a jump down is absorbed at once. */
  lemma {:induction false} CatchUp(fp: FrameParms, d: nat, ue: Ue, rs: seq<Request>, target: int, offset: int)
    requires fp.Valid() && rs != [] && Settled(fp, d, ue.slot, rs, target, offset)
    ensures var gap := target + offset - Early(ue);
            var elapsed := Elapsed(fp, d, ue.slot, rs);
            var last := Final(fp, d, ue, rs);
            && elapsed >= |rs| && last.nTaOffset == offset
            && (gap > elapsed ==>
                  && Early(last) == Early(ue) + elapsed
                  && forall k :: 0 <= k < |rs| ==> |Writes(fp, d, ue, rs)| == |rs| && Writes(fp, d, ue, rs)[k].size == 0)
            && (gap <= elapsed ==> last.timingAdvance == target)
    decreases |rs|
  {
    var next := Iterate(fp, d, ue, rs[0]).0;
    OneSlot(fp, d, ue, rs);
    OneSlotTowards(fp, d, ue, rs, target, offset);
    SettledRest(fp, d, ue.slot, rs, target, offset);
    EarlyMeans(ue);
    EarlyMeans(next);
    EarlyMeans(Final(fp, d, ue, rs));
    hide *;
    if |rs| == 1 {
      assert rs[1..] == [];
      NoSlot(fp, d, next, next.slot);
    } else {
      CatchUp(fp, d, next, rs[1..], target, offset);
      GapFreeStream(fp, d, next, rs[1..]);
    }
  }

  lemma {:induction false} EarlyMeans(ue: Ue)
    ensures Early(ue) == ue.timingAdvance + ue.nTaOffset
  {}

  /** So a jump of any size is reached exactly, after at most as many slots as it has samples. */
  lemma {:induction false} JumpIsReached(fp: FrameParms, d: nat, ue: Ue, rs: seq<Request>, target: int, offset: int)
    requires fp.Valid() && rs != [] && Settled(fp, d, ue.slot, rs, target, offset)
    requires |rs| >= target + offset - Early(ue)
    ensures Final(fp, d, ue, rs).timingAdvance == target && Final(fp, d, ue, rs).nTaOffset == offset
  {
    CatchUp(fp, d, ue, rs, target, offset);
  }

  // ---- the reads of a frame ----

  /** Where the reads of slots slot..n-1 of a frame go in the frame buffer. */
  function ReadsFrom(fp: FrameParms, slot: nat, shift: int): seq<Block>
    requires fp.Valid() && slot <= fp.SlotsPerFrame()
    decreases fp.SlotsPerFrame() - slot
  {
    if slot == fp.SlotsPerFrame() then []
    else
      var size := ReadBlockSize(fp, slot) - (if slot == fp.SlotsPerFrame() - 1 then shift else 0);
      [Block(fp.FirstSymSamp(slot) + fp.SlotTimestamp(slot), size)] + ReadsFrom(fp, slot + 1, shift)
  }

  lemma {:induction false} ReadsTile(fp: FrameParms, slot: nat, shift: int)
    requires fp.Valid() && slot < fp.SlotsPerFrame() && shift <= ReadBlockSize(fp, fp.SlotsPerFrame() - 1)
    ensures Contiguous(ReadsFrom(fp, slot, shift), fp.FirstSymSamp(slot) + Start(fp, slot), fp.SamplesPerFrame() - shift)
    decreases fp.SlotsPerFrame() - slot
  {
    SlotTimestampIsStart(fp, slot);
    if slot == fp.SlotsPerFrame() - 1 {
      FrameSamples(fp);
    } else {
      ReadsTile(fp, slot + 1, shift);
    }
  }

  /** A frame's reads, from the first symbol read early to the short last slot, tile the frame
      buffer once without gap or overlap, up to the samples given up to the shift. */
  lemma {:induction false} FrameReadsTile(fp: FrameParms, shift: int)
    requires fp.Valid() && shift <= ReadBlockSize(fp, fp.SlotsPerFrame() - 1)
    ensures Contiguous([Block(0, fp.longSymbol)] + ReadsFrom(fp, 0, shift), 0, fp.SamplesPerFrame() - shift)
  {
    ReadsTile(fp, 0, shift);
    ContiguousConcat([Block(0, fp.longSymbol)], ReadsFrom(fp, 0, shift), 0, fp.longSymbol, fp.SamplesPerFrame() - shift);
  }

  function AppliedShifts(fp: FrameParms, slot: nat, rs: seq<Request>): int
    requires fp.Valid()
    decreases |rs|
  {
    if rs == [] then 0 else AppliedShift(fp, slot, rs[0]) + AppliedShifts(fp, slot + 1, rs[1..])
  }

  /** Over a frame the shift applied is the one pending in its last slot. */
  lemma {:induction false} FrameShiftIsLast(fp: FrameParms, slot: nat, rs: seq<Request>)
    requires fp.Valid() && rs != [] && slot % fp.SlotsPerFrame() + |rs| == fp.SlotsPerFrame()
    ensures AppliedShifts(fp, slot, rs) == rs[|rs| - 1].shift
    decreases |rs|
  {
    var n := fp.SlotsPerFrame();
    DivRecompose(slot, n);
    if |rs| == 1 {
      assert rs[1..] == [];
    } else {
      DivUnique(slot + 1, n, slot / n, slot % n + 1);
      hide FrameParms.Valid;
      FrameShiftIsLast(fp, slot + 1, rs[1..]);
    }
  }

  /** Over any run the radio position moves by the slots processed, less the shifts applied: a whole
      frame consumes exactly its samples less its shift. */
  lemma {:induction false} SamplesConsumed(fp: FrameParms, d: nat, ue: Ue, rs: seq<Request>)
    requires fp.Valid()
    ensures var last := Final(fp, d, ue, rs);
            && last.slot == ue.slot + |rs|
            && last.position - fp.FirstSymSamp(last.slot) - Start(fp, last.slot)
               == ue.position - fp.FirstSymSamp(ue.slot) - Start(fp, ue.slot) - AppliedShifts(fp, ue.slot, rs)
    ensures |rs| == fp.SlotsPerFrame() ==>
              Final(fp, d, ue, rs).position - ue.position == fp.SamplesPerFrame() - AppliedShifts(fp, ue.slot, rs)
    decreases |rs|
  {
    if rs != [] {
      ReadAdvance(fp, ue.slot, AppliedShift(fp, ue.slot, rs[0]));
      SamplesConsumed(fp, d, Iterate(fp, d, ue, rs[0]).0, rs[1..]);
      hide AppliedShift;
      hide SamplesRead;
    }
    hide FrameParms.Valid;
    hide FrameParms.FirstSymSamp;
    hide FrameParms.SamplesPerSlot;
    if |rs| == fp.SlotsPerFrame() {
      StartPeriod(fp, ue.slot);
      GridPeriod(fp, ue.slot);
    }
  }
}
