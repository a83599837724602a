/** Reception from a local radio: rx_rf and the frame and slot counters of ru_thread
    (executables/nr-ru.c). The device may return any timestamp; drift is absorbed into
    ts_offset so that the logical receive time stays on the slot grid. */
module RfClock {
  import opened Arithmetic
  import opened SlotGrid
  import opened TxAhead

  /** RU_proc_t's timing fields, ru->ts_offset and the two local counters of ru_thread. */
  datatype Clock = Clock(timestampRx: int, tsOffset: int, firstRx: bool,
                         frameRx: int, ttiRx: int, frame: int, slot: int, exited: bool)

  /** The counters move on by one slot at the top of the loop. */
  function Advance(fp: FrameParms, c: Clock): Clock {
    if c.slot == fp.SlotsPerFrame() - 1 then c.(slot := 0, frame := (c.frame + 1) % MAX_FRAMES)
    else c.(slot := c.slot + 1)
  }

  /** The logical time of a device timestamp, and the offset it leaves. */
  function AbsorbDrift(fp: FrameParms, c: Clock, ts: int): (int, int)
    requires fp.Valid()
  {
    var raw := ts - c.tsOffset;
    var previous := fp.SamplesPerSlot(c.slot - 1);
    if !c.firstRx && raw - c.timestampRx != previous then
      var offset := c.tsOffset + (raw - c.timestampRx - previous);
      (ts - offset, offset)
    else (raw, c.tsOffset)
  }

  /** Reading is possible: time has not gone below zero before the first reception. */
  predicate Readable(c: Clock, ts: int) {
    if c.firstRx then ts >= c.tsOffset else c.timestampRx >= 0
  }

  /** rx_rf. A mismatch between the received time and the counters exits the program. */
  function RxRf(fp: FrameParms, c: Clock, ts: int): Clock
    requires fp.Valid() && Readable(c, ts)
  {
    HalfPositive(fp);
    var (t, offset) := AbsorbDrift(fp, c, ts);
    var frameRx := t / fp.SamplesPerFrame() % MAX_FRAMES;
    SlotFromTimestampContains(fp, t);
    var tti := fp.SlotFromTimestamp(t);
    var now := c.(timestampRx := t, tsOffset := offset, frameRx := frameRx, ttiRx := tti);
    if !c.firstRx then now.(exited := tti != c.slot || frameRx != c.frame)
    else AlignToSlot(fp, now.(firstRx := false, frame := frameRx, slot := tti))
  }

  /** The first reception discards samples up to the next slot boundary. */
  function AlignToSlot(fp: FrameParms, c: Clock): Clock
    requires fp.Valid() && c.timestampRx >= 0 && c.slot >= 0
  {
    HalfPositive(fp);
    var within := c.timestampRx % fp.SamplesPerFrame() - fp.SlotTimestamp(c.slot);
    if within > 0 then
      c.(timestampRx := c.timestampRx + (fp.SamplesPerSlot(c.slot) - within),
         frame := if c.slot + 1 >= fp.SlotsPerFrame() then c.frame + 1 else c.frame,
         slot := (c.slot + 1) % fp.SlotsPerFrame())
    else c
  }

  function Iterate(fp: FrameParms, c: Clock, ts: int): Clock
    requires fp.Valid() && Readable(c, ts)
  {
    RxRf(fp, Advance(fp, c), ts)
  }

  /** What a slot is transmitted with: the time of its first sample, its frame and slot numbers. */
  datatype TxSlot = TxSlot(timestamp: int, tick: Tick)

  /** ru_thread's transmit fields, from the time and the numbers rx_rf left. */
  function TxOf(fp: FrameParms, c: Clock, ahead: nat): TxSlot
    requires fp.Valid() && c.ttiRx >= 0
  {
    TxSlot(c.timestampRx + Lengths(fp, c.ttiRx, ahead),
           TxByComparison(fp.SlotsPerFrame(), Tick(c.frameRx, c.ttiRx), ahead))
  }

  /** ru_thread's part of the receive loop, with the fields updated in place. */
  class RuProc {
    const fp: FrameParms
    var timestampRx: int
    var tsOffset: int
    var firstRx: bool
    var frameRx: int
    var ttiRx: int
    var frame: int
    var slot: int
    var exited: bool

    function View(): Clock
      reads this
    {
      Clock(timestampRx, tsOffset, firstRx, frameRx, ttiRx, frame, slot, exited)
    }

    constructor (fp: FrameParms)
      requires fp.Valid()
      ensures this.fp == fp && View() == Initial(fp, 0)
    {
      this.fp := fp;
      timestampRx, tsOffset, firstRx, frameRx, ttiRx := 0, 0, true, 0, 0;
      frame, slot, exited := MAX_FRAMES - 1, fp.SlotsPerFrame() - 1, false;
    }

    method ReceiveSlot(ts: int)
      requires fp.Valid() && Readable(View(), ts)
      modifies this
      ensures View() == Iterate(fp, old(View()), ts)
    {
      AdvanceCounters();
      ReadSamples(ts);
      HalfPositive(fp);
      frameRx := timestampRx / fp.SamplesPerFrame() % MAX_FRAMES;
      SlotFromTimestampContains(fp, timestampRx);
      ttiRx := fp.SlotFromTimestamp(timestampRx);
      if !firstRx {
        exited := ttiRx != slot || frameRx != frame;
      } else {
        firstRx := false;
        frame := frameRx;
        slot := ttiRx;
        AlignToBoundary();
      }
    }

    /** ru_thread after the reception: the timestamp, slot and frame to transmit. */
    method TransmitSlot(ahead: nat) returns (tx: TxSlot)
      requires fp.Valid() && ttiRx >= 0
      ensures tx == TxOf(fp, View(), ahead)
    {
      var timestampTx := TxTimestamp(fp, timestampRx, ttiRx, ahead);
      var ttiTx := (ttiRx + ahead) % fp.SlotsPerFrame();
      var frameTx := if ttiRx > ttiTx then (frameRx + 1) % MAX_FRAMES else frameRx;
      tx := TxSlot(timestampTx, Tick(frameTx, ttiTx));
    }

    method AdvanceCounters()
      modifies this
      ensures View() == Advance(fp, old(View()))
    {
      if slot == fp.SlotsPerFrame() - 1 {
        slot := 0;
        frame := (frame + 1) % MAX_FRAMES;
      } else {
        slot := slot + 1;
      }
    }

    method ReadSamples(ts: int)
      requires fp.Valid()
      modifies this
      ensures var (t, offset) := AbsorbDrift(fp, old(View()), ts);
              View() == old(View()).(timestampRx := t, tsOffset := offset)
    {
      var oldTs := timestampRx;
      timestampRx := ts - tsOffset;
      if !firstRx {
        var previous := fp.SamplesPerSlot(slot - 1);
        if timestampRx - oldTs != previous {
          tsOffset := tsOffset + (timestampRx - oldTs - previous);
          timestampRx := ts - tsOffset;
        }
      }
    }

    method AlignToBoundary()
      requires fp.Valid() && timestampRx >= 0 && slot >= 0
      modifies this
      ensures View() == AlignToSlot(fp, old(View()))
    {
      HalfPositive(fp);
      var within := timestampRx % fp.SamplesPerFrame() - fp.SlotTimestamp(slot);
      if within > 0 {
        timestampRx := timestampRx + (fp.SamplesPerSlot(slot) - within);
        if slot + 1 >= fp.SlotsPerFrame() {
          frame := frame + 1;
        }
        slot := (slot + 1) % fp.SlotsPerFrame();
      }
    }
  }

  /** Before the first reception; the counters stand just before frame 0, slot 0. */
  function Initial(fp: FrameParms, tsOffset: int): Clock {
    Clock(0, tsOffset, true, 0, 0, MAX_FRAMES - 1, fp.SlotsPerFrame() - 1, false)
  }

  /** Logical time is the start of absolute slot `abs`, and the counters say so. */
  predicate InSync(fp: FrameParms, c: Clock, abs: nat)
    requires fp.Valid()
  {
    && !c.firstRx && !c.exited && c.timestampRx == Start(fp, abs)
    && Tick(c.frame, c.slot) == TickOf(fp.SlotsPerFrame(), abs)
  }

  /** Logical time is the start of absolute slot `abs`, and the receive numbers passed on say so. */
  predicate Named(fp: FrameParms, c: Clock, abs: nat)
    requires fp.Valid()
  {
    c.timestampRx == Start(fp, abs) && Tick(c.frameRx, c.ttiRx) == TickOf(fp.SlotsPerFrame(), abs)
  }

  /** Sample t lies in absolute slot k. */
  predicate Holds(fp: FrameParms, k: nat, t: int)
    requires fp.Valid()
  {
    Start(fp, k) <= t < Start(fp, k + 1)
  }

  /** Every sample lies in a slot, and what the source computes from t describes that slot. */
  lemma {:induction false} SampleSlot(fp: FrameParms, t: nat) returns (k: nat)
    requires fp.Valid()
    ensures fp.SamplesPerFrame() > 0 && Holds(fp, k, t)
    ensures k / fp.SlotsPerFrame() == t / fp.SamplesPerFrame()
    ensures k % fp.SlotsPerFrame() == fp.SlotFromTimestamp(t)
    ensures t - Start(fp, k) == t % fp.SamplesPerFrame() - Start(fp, fp.SlotFromTimestamp(t))
    ensures fp.SamplesPerSlot(k) == fp.SamplesPerSlot(fp.SlotFromTimestamp(t))
  {
    SlotFromTimestampContains(fp, t);
    hide FrameParms.SlotFromTimestamp;
    DivRecompose(t, fp.SamplesPerFrame());
    var m, r := t / fp.SamplesPerFrame(), fp.SlotFromTimestamp(t);
    MulNonNegative(m, fp.SlotsPerFrame());
    k := m * fp.SlotsPerFrame() + r;
    StartInFrame(fp, k, m, r);
    DivUnique(k, fp.SlotsPerFrame(), m, r);
  }

  lemma {:induction false} NextTick(fp: FrameParms, c: Clock, abs: nat)
    requires fp.Valid() && Tick(c.frame, c.slot) == TickOf(fp.SlotsPerFrame(), abs)
    ensures Tick(Advance(fp, c).frame, Advance(fp, c).slot) == TickOf(fp.SlotsPerFrame(), abs + 1)
  {
    TickStep(fp.SlotsPerFrame(), abs);
    hide TickOf;
  }

  /** Whatever the device returns, time moves to the next slot of the grid, and the receive numbers
      name that slot, whatever the frame counter says. */
  lemma {:induction false} TimeAdvances(fp: FrameParms, c: Clock, abs: nat, ts: int)
    requires fp.Valid() && !c.firstRx && c.timestampRx == Start(fp, abs) && c.slot == abs % fp.SlotsPerFrame()
    ensures Readable(c, ts) && Named(fp, Iterate(fp, c, ts), abs + 1)
  {
    StartMonotone(fp, 0, abs);
    TickStep(fp.SlotsPerFrame(), abs);
    var a := Advance(fp, c);
    PreviousSlot(fp, a.slot, abs);
    assert AbsorbDrift(fp, a, ts).0 == Start(fp, abs + 1);
    SlotStartRecognised(fp, abs + 1);
  }

  /** ... and a state in step with the grid stays in step. */
  lemma {:induction false} DriftAbsorbed(fp: FrameParms, c: Clock, abs: nat, ts: int)
    requires fp.Valid() && InSync(fp, c, abs)
    ensures Readable(c, ts)
    ensures InSync(fp, Iterate(fp, c, ts), abs + 1) && Named(fp, Iterate(fp, c, ts), abs + 1)
  {
    TimeAdvances(fp, c, abs, ts);
    NextTick(fp, c, abs);
    hide TickOf;
    hide FrameParms.SlotFromTimestamp;
  }

  /** A reception after the first exits exactly if the slot its time lies in is not the one the counters name. */
  lemma {:induction false} ExitsExactly(fp: FrameParms, c: Clock, ts: int, k: nat)
    requires fp.Valid() && !c.firstRx && c.timestampRx >= 0 && Holds(fp, k, Iterate(fp, c, ts).timestampRx)
    ensures Iterate(fp, c, ts).exited <==> Tick(Advance(fp, c).frame, Advance(fp, c).slot) != TickOf(fp.SlotsPerFrame(), k)
  {
    var t := Iterate(fp, c, ts).timestampRx;
    var k' := SampleSlot(fp, t);
    HoldsMeans(fp, k, t);
    HoldsMeans(fp, k', t);
    SameSlot(fp, k, k', t);
    hide FrameParms.SlotFromTimestamp;
    hide FrameParms.SamplesPerSlot;
    hide Start;
    hide Holds;
  }

  /** get_samples_per_slot at the slot before slot (abs + 1) mod n is the length of slot abs. */
  lemma {:induction false} PreviousSlot(fp: FrameParms, slot: int, abs: nat)
    requires fp.Valid() && slot == (abs + 1) % fp.SlotsPerFrame()
    ensures fp.SamplesPerSlot(slot - 1) == fp.SamplesPerSlot(abs)
  {
    var n := fp.SlotsPerFrame();
    BeforeFirstSlot(fp);
    hide FrameParms.SamplesPerSlot;
    DivRecompose(abs + 1, n);
    if slot > 0 {
      StartInFrame(fp, abs, (abs + 1) / n, slot - 1);
    } else {
      Distribute((abs + 1) / n, 1, n);
      StartInFrame(fp, abs, (abs + 1) / n - 1, n - 1);
    }
  }

  /** Slot -1 is as long as the last slot of a frame. */
  lemma {:induction false} BeforeFirstSlot(fp: FrameParms)
    requires fp.Valid()
    ensures fp.SamplesPerSlot(-1) == fp.SamplesPerSlot(fp.SlotsPerFrame() - 1)
  {
    if fp.numerology != 0 {
      var h := fp.Half();
      DivUnique(-1, h, -1, h - 1);
      DivUnique(20 * h - 1, h, 19, h - 1);
    }
  }

  /** The first slot whose samples are kept when the first sample, t, lies in slot k. */
  function FirstSlot(fp: FrameParms, k: nat, t: int): nat
    requires fp.Valid()
  {
    if Start(fp, k) == t then k else k + 1
  }

  /** The first sample lies strictly inside the last slot of a frame numbered 1023. */
  predicate CrossesLastFrame(fp: FrameParms, k: nat, t: int)
    requires fp.Valid()
  {
    Start(fp, k) < t && TickOf(fp.SlotsPerFrame(), k) == Tick(MAX_FRAMES - 1, fp.SlotsPerFrame() - 1)
  }

  /** The first reception lands on a slot boundary. The frame counter is right unless the
      alignment left frame 1023, where it reads 1024 instead of 0. The receive numbers stay those
      of the slot the sample was in, even when the alignment moved the time past it. */
  lemma {:induction false} FirstReception(fp: FrameParms, c: Clock, ts: int, k: nat)
    requires fp.Valid() && c.firstRx && !c.exited && ts >= c.tsOffset && Holds(fp, k, ts - c.tsOffset)
    ensures var t := ts - c.tsOffset;
            var now := Iterate(fp, c, ts);
            && now.timestampRx == Start(fp, FirstSlot(fp, k, t)) && !now.firstRx && !now.exited
            && (!CrossesLastFrame(fp, k, t) ==> InSync(fp, now, FirstSlot(fp, k, t)))
            && (CrossesLastFrame(fp, k, t) ==> now.frame == MAX_FRAMES && now.slot == 0)
            && Tick(now.frameRx, now.ttiRx) == TickOf(fp.SlotsPerFrame(), k)
  {
    assert Readable(c, ts);
    hide *;
    var t, n := ts - c.tsOffset, fp.SlotsPerFrame();
    FrameSamples(fp);
    FrameHasSlots(fp);
    var a := FirstFields(fp, c, ts);
    AlignKeeps(fp, a);
    Aligned(fp, a, k);
    var k' := SampleSlot(fp, t);
    HoldsMeans(fp, k, t);
    HoldsMeans(fp, k', t);
    SameSlot(fp, k, k', t);
    SlotNumbers(fp, a, k);
    InSyncMeans(fp, Iterate(fp, c, ts), FirstSlot(fp, k, t));
  }

  /** The fields before the alignment. */
  lemma {:induction false} FirstFields(fp: FrameParms, c: Clock, ts: int) returns (a: Clock)
    requires fp.Valid() && c.firstRx && !c.exited && ts >= c.tsOffset && fp.SamplesPerFrame() > 0
    ensures !a.firstRx && !a.exited && a.timestampRx == ts - c.tsOffset && a.slot >= 0
    ensures a.slot == a.ttiRx == fp.SlotFromTimestamp(ts - c.tsOffset)
    ensures a.frame == a.frameRx == (ts - c.tsOffset) / fp.SamplesPerFrame() % MAX_FRAMES
    ensures Iterate(fp, c, ts) == AlignToSlot(fp, a)
  {
    var t := ts - c.tsOffset;
    SlotFromTimestampContains(fp, t);
    hide FrameParms.SlotFromTimestamp;
    hide FrameParms.Valid;
    hide FrameParms.SamplesPerSlot;
    a := Advance(fp, c).(firstRx := false, timestampRx := t, ttiRx := fp.SlotFromTimestamp(t),
                         frameRx := t / fp.SamplesPerFrame() % MAX_FRAMES,
                         frame := t / fp.SamplesPerFrame() % MAX_FRAMES, slot := fp.SlotFromTimestamp(t));
    hide AlignToSlot;
  }

  lemma {:induction false} AlignKeeps(fp: FrameParms, a: Clock)
    requires fp.Valid() && a.timestampRx >= 0 && a.slot >= 0
    ensures AlignToSlot(fp, a).frameRx == a.frameRx && AlignToSlot(fp, a).ttiRx == a.ttiRx
  {}

  lemma {:induction false} InSyncMeans(fp: FrameParms, c: Clock, abs: nat)
    requires fp.Valid()
    ensures InSync(fp, c, abs)
            <==> !c.firstRx && !c.exited && c.timestampRx == Start(fp, abs) && Tick(c.frame, c.slot) == TickOf(fp.SlotsPerFrame(), abs)
  {}

  lemma {:induction false} Aligned(fp: FrameParms, c: Clock, k: nat)
    requires fp.Valid() && c.timestampRx >= 0 && Holds(fp, k, c.timestampRx) && fp.SamplesPerFrame() > 0
    requires c.slot == fp.SlotFromTimestamp(c.timestampRx) && c.slot >= 0
    requires c.frame == c.timestampRx / fp.SamplesPerFrame() % MAX_FRAMES
    ensures var t, now := c.timestampRx, AlignToSlot(fp, c);
            && now.timestampRx == Start(fp, FirstSlot(fp, k, t))
            && (!CrossesLastFrame(fp, k, t) ==>
                  Tick(now.frame, now.slot) == TickOf(fp.SlotsPerFrame(), FirstSlot(fp, k, t)))
            && (CrossesLastFrame(fp, k, t) ==> now.frame == MAX_FRAMES && now.slot == 0)
            && now.firstRx == c.firstRx && now.exited == c.exited
  {
    hide *;
    var t, n := c.timestampRx, fp.SlotsPerFrame();
    var k' := SampleSlot(fp, t);
    HoldsMeans(fp, k, t);
    HoldsMeans(fp, k', t);
    SameSlot(fp, k, k', t);
    FrameHasSlots(fp);
    AlignValue(fp, c, k);
    SlotNumbers(fp, c, k);
    TickStep(n, k);
    CaseMeans(fp, k, t);
    NextNumber(c.slot, n);
    NextNumber(c.frame, MAX_FRAMES);
  }

  lemma {:induction false} FrameHasSlots(fp: FrameParms)
    requires fp.Valid()
    ensures fp.SlotsPerFrame() > 0
  {}

  lemma {:induction false} HoldsMeans(fp: FrameParms, k: nat, t: int)
    requires fp.Valid()
    ensures Holds(fp, k, t) <==> Start(fp, k) <= t < Start(fp, k + 1)
    ensures Start(fp, k + 1) == Start(fp, k) + fp.SamplesPerSlot(k)
  {}

  lemma {:induction false} CaseMeans(fp: FrameParms, k: nat, t: int)
    requires fp.Valid()
    ensures FirstSlot(fp, k, t) == if Start(fp, k) == t then k else k + 1
    ensures CrossesLastFrame(fp, k, t)
            <==> Start(fp, k) < t && TickOf(fp.SlotsPerFrame(), k) == Tick(MAX_FRAMES - 1, fp.SlotsPerFrame() - 1)
  {}

  lemma {:induction false} SlotNumbers(fp: FrameParms, c: Clock, k: nat)
    requires fp.Valid() && fp.SamplesPerFrame() > 0 && fp.SlotsPerFrame() > 0 && c.slot == k % fp.SlotsPerFrame()
    requires c.frame == c.timestampRx / fp.SamplesPerFrame() % MAX_FRAMES
    requires k / fp.SlotsPerFrame() == c.timestampRx / fp.SamplesPerFrame()
    ensures Tick(c.frame, c.slot) == TickOf(fp.SlotsPerFrame(), k)
    ensures 0 <= c.slot < fp.SlotsPerFrame() && 0 <= c.frame < MAX_FRAMES
  {
    hide FrameParms.SlotsPerFrame;
    hide FrameParms.SamplesPerFrame;
    hide FrameParms.Valid;
    DivRecompose(k, fp.SlotsPerFrame());
  }

  /** The alignment in terms of the slot that holds the sample. */
  lemma {:induction false} AlignValue(fp: FrameParms, c: Clock, k: nat)
    requires fp.Valid() && c.timestampRx >= 0 && c.slot >= 0 && fp.SamplesPerFrame() > 0 && fp.SlotsPerFrame() > 0
    requires c.timestampRx - Start(fp, k) == c.timestampRx % fp.SamplesPerFrame() - Start(fp, c.slot)
    requires fp.SamplesPerSlot(k) == fp.SamplesPerSlot(c.slot)
    ensures AlignToSlot(fp, c) ==
            if Start(fp, k) < c.timestampRx then
              c.(timestampRx := Start(fp, k) + fp.SamplesPerSlot(k),
                 frame := if c.slot + 1 >= fp.SlotsPerFrame() then c.frame + 1 else c.frame,
                 slot := (c.slot + 1) % fp.SlotsPerFrame())
            else c
  {
    SlotTimestampIsStart(fp, c.slot);
    hide FrameParms.SlotTimestamp;
    hide FrameParms.SamplesPerSlot;
    hide FrameParms.Valid;
    hide Start;
  }

  lemma {:induction false} NextNumber(x: int, n: nat)
    requires 0 <= x < n
    ensures (x + 1) % n == if x + 1 < n then x + 1 else 0
  {
    if x + 1 < n {
      DivUnique(x + 1, n, 0, x + 1);
    } else {
      DivUnique(n, n, 1, 0);
    }
  }

  /** A run of ru_thread: the device timestamps it read and the states between them. */
  predicate IsRun(fp: FrameParms, tsOffset: int, cs: seq<Clock>, tss: seq<int>)
    requires fp.Valid()
  {
    && |cs| == |tss| + 1 && cs[0] == Initial(fp, tsOffset)
    && (tss != [] ==> tss[0] >= tsOffset)
    && forall i :: 0 <= i < |tss| ==>
         !cs[i].exited && Readable(cs[i], tss[i]) && cs[i + 1] == Iterate(fp, cs[i], tss[i])
  }

  /** Whatever timestamps the device returns: a run whose first sample lies inside the last slot
      of frame 1023 exits at its second reception. Every other run stays on the grid: after i
      receptions the time is the start of slot first + i - 1 and the counters name that
      slot, so neither mismatch exit is ever taken. */
  lemma {:induction false} ReceiveRun(fp: FrameParms, tsOffset: int, cs: seq<Clock>, tss: seq<int>, k: nat, i: nat)
    requires fp.Valid() && IsRun(fp, tsOffset, cs, tss) && 1 <= i <= |tss| && Holds(fp, k, tss[0] - tsOffset)
    ensures var t := tss[0] - tsOffset;
            && (!CrossesLastFrame(fp, k, t) ==> InSync(fp, cs[i], FirstSlot(fp, k, t) + i - 1))
            && (CrossesLastFrame(fp, k, t) ==> (cs[i].exited <==> i == 2) && i <= 2)
    decreases i
  {
    var t := tss[0] - tsOffset;
    FirstReception(fp, cs[0], tss[0], k);
    hide Iterate;
    if i > 1 {
      ReceiveRun(fp, tsOffset, cs, tss, k, i - 1);
      if CrossesLastFrame(fp, k, t) {
        StartMonotone(fp, 0, FirstSlot(fp, k, t));
        WrongFrameExits(fp, cs[1], tss[1]);
      } else {
        DriftAbsorbed(fp, cs[i - 1], FirstSlot(fp, k, t) + i - 2, tss[i - 1]);
      }
    }
  }

  lemma {:induction false} WrongFrameExits(fp: FrameParms, c: Clock, ts: int)
    requires fp.Valid() && !c.firstRx && c.timestampRx >= 0 && c.frame == MAX_FRAMES && c.slot == 0
    ensures Iterate(fp, c, ts).exited
  {
    HalfPositive(fp);
  }

  /** The numbers passed on: right from the second reception on, and at the first exactly when no
      alignment was needed. */
  lemma {:induction false} ReceivedNumbers(fp: FrameParms, tsOffset: int, cs: seq<Clock>, tss: seq<int>, k: nat, i: nat)
    requires fp.Valid() && IsRun(fp, tsOffset, cs, tss) && 1 <= i <= |tss| && Holds(fp, k, tss[0] - tsOffset)
    ensures var t := tss[0] - tsOffset;
            && cs[i].timestampRx == Start(fp, FirstSlot(fp, k, t) + i - 1)
            && Tick(cs[i].frameRx, cs[i].ttiRx) == TickOf(fp.SlotsPerFrame(), if i == 1 then k else FirstSlot(fp, k, t) + i - 1)
    decreases i
  {
    hide *;
    RunStep(fp, tsOffset, cs, tss, 0);
    RunStep(fp, tsOffset, cs, tss, i - 1);
    var t := tss[0] - tsOffset;
    var first := FirstSlot(fp, k, t);
    FirstReception(fp, cs[0], tss[0], k);
    if i > 1 {
      ReceivedNumbers(fp, tsOffset, cs, tss, k, i - 1);
      OnTheSlot(fp, tsOffset, cs, tss, k, i - 1);
      TimeAdvances(fp, cs[i - 1], first + i - 2, tss[i - 1]);
      NamedMeans(fp, cs[i], first + i - 1);
    }
  }

  lemma {:induction false} RunStep(fp: FrameParms, tsOffset: int, cs: seq<Clock>, tss: seq<int>, i: nat)
    requires fp.Valid() && IsRun(fp, tsOffset, cs, tss) && i < |tss|
    ensures |cs| == |tss| + 1 && Readable(cs[i], tss[i]) && cs[i + 1] == Iterate(fp, cs[i], tss[i]) && !cs[i].exited
    ensures i == 0 ==> cs[0].firstRx && cs[0].tsOffset == tsOffset && tss[0] >= tsOffset
  {}

  lemma {:induction false} NamedMeans(fp: FrameParms, c: Clock, abs: nat)
    requires fp.Valid()
    ensures Named(fp, c, abs) <==> c.timestampRx == Start(fp, abs) && Tick(c.frameRx, c.ttiRx) == TickOf(fp.SlotsPerFrame(), abs)
  {}

  /** After every reception the slot counter names the slot of the time, whatever the frame counter says. */
  lemma {:induction false} OnTheSlot(fp: FrameParms, tsOffset: int, cs: seq<Clock>, tss: seq<int>, k: nat, i: nat)
    requires fp.Valid() && IsRun(fp, tsOffset, cs, tss) && 1 <= i < |tss| && Holds(fp, k, tss[0] - tsOffset)
    ensures fp.SlotsPerFrame() > 0 && !cs[i].firstRx
    ensures cs[i].slot == (FirstSlot(fp, k, tss[0] - tsOffset) + i - 1) % fp.SlotsPerFrame()
  {
    hide *;
    RunStep(fp, tsOffset, cs, tss, 0);
    RunStep(fp, tsOffset, cs, tss, i);
    var t, n := tss[0] - tsOffset, fp.SlotsPerFrame();
    FrameHasSlots(fp);
    FirstReception(fp, cs[0], tss[0], k);
    ReceiveRun(fp, tsOffset, cs, tss, k, i);
    CaseMeans(fp, k, t);
    TickStep(n, k);
    InSyncMeans(fp, cs[i], FirstSlot(fp, k, t) + i - 1);
    TickMeans(n, FirstSlot(fp, k, t) + i - 1);
  }

  lemma {:induction false} TickMeans(n: nat, abs: nat)
    requires n > 0
    ensures TickOf(n, abs).slot == abs % n
  {}

  /** Logical time and offset together are the device's time. */
  lemma {:induction false} DeviceTime(fp: FrameParms, c: Clock, ts: int)
    requires fp.Valid() && !c.firstRx && Readable(c, ts)
    ensures Iterate(fp, c, ts).timestampRx + Iterate(fp, c, ts).tsOffset == ts
  {
    hide FrameParms.SlotFromTimestamp;
    hide FrameParms.SamplesPerSlot;
  }

  lemma {:induction false} FirstDeviceTime(fp: FrameParms, c: Clock, ts: int)
    requires fp.Valid() && c.firstRx && Readable(c, ts)
    ensures Iterate(fp, c, ts).tsOffset == c.tsOffset
  {
    hide FrameParms.SlotFromTimestamp;
    hide FrameParms.SamplesPerSlot;
    hide FrameParms.SlotTimestamp;
  }

  /** Over every run the offset holds all the drift there was: from the second reception on, the start of the slot
      received is at the device timestamp of its first sample; after the first, the offset is as it was. */
  lemma {:induction false} DeviceRun(fp: FrameParms, tsOffset: int, cs: seq<Clock>, tss: seq<int>, k: nat, i: nat)
    requires fp.Valid() && IsRun(fp, tsOffset, cs, tss) && 1 <= i <= |tss| && Holds(fp, k, tss[0] - tsOffset)
    ensures var slot := FirstSlot(fp, k, tss[0] - tsOffset) + i - 1;
            && cs[i].timestampRx == Start(fp, slot)
            && cs[i].tsOffset == if i == 1 then tsOffset else tss[i - 1] - Start(fp, slot)
  {
    hide *;
    RunStep(fp, tsOffset, cs, tss, 0);
    RunStep(fp, tsOffset, cs, tss, i - 1);
    ReceivedNumbers(fp, tsOffset, cs, tss, k, i);
    if i == 1 {
      FirstDeviceTime(fp, cs[0], tss[0]);
    } else {
      NotFirst(fp, tsOffset, cs, tss, k, i - 1);
      DeviceTime(fp, cs[i - 1], tss[i - 1]);
    }
  }

  lemma {:induction false} NotFirst(fp: FrameParms, tsOffset: int, cs: seq<Clock>, tss: seq<int>, k: nat, i: nat)
    requires fp.Valid() && IsRun(fp, tsOffset, cs, tss) && 1 <= i < |tss| && Holds(fp, k, tss[0] - tsOffset)
    ensures !cs[i].firstRx
  {
    hide *;
    OnTheSlot(fp, tsOffset, cs, tss, k, i);
  }

  /** The device time a slot is written at (tx_rf). */
  function WrittenAt(c: Clock, tx: TxSlot): int { tx.timestamp + c.tsOffset }

  /** So a slot is written at the device time of the slot received plus the slots looked ahead, whatever the drift
      has been. */
  lemma {:induction false} WrittenOnTime(fp: FrameParms, tsOffset: int, cs: seq<Clock>, tss: seq<int>, k: nat, i: nat, ahead: nat)
    requires fp.Valid() && IsRun(fp, tsOffset, cs, tss) && 2 <= i <= |tss| && Holds(fp, k, tss[0] - tsOffset)
    ensures cs[i].ttiRx >= 0
    ensures var slot := FirstSlot(fp, k, tss[0] - tsOffset) + i - 1;
            WrittenAt(cs[i], TxOf(fp, cs[i], ahead)) == tss[i - 1] + Start(fp, slot + ahead) - Start(fp, slot)
  {
    hide *;
    var slot, n := FirstSlot(fp, k, tss[0] - tsOffset) + i - 1, fp.SlotsPerFrame();
    FrameHasSlots(fp);
    RunStep(fp, tsOffset, cs, tss, i - 1);
    DeviceRun(fp, tsOffset, cs, tss, k, i);
    ReceivedNumbers(fp, tsOffset, cs, tss, k, i);
    TickMeans(n, slot);
    TxTime(fp, cs[i], slot, ahead);
  }

  lemma {:induction false} TxTime(fp: FrameParms, c: Clock, slot: nat, ahead: nat)
    requires fp.Valid() && fp.SlotsPerFrame() > 0 && c.ttiRx == slot % fp.SlotsPerFrame()
    ensures c.ttiRx >= 0
    ensures WrittenAt(c, TxOf(fp, c, ahead)) == c.timestampRx + c.tsOffset + Start(fp, slot + ahead) - Start(fp, slot)
  {
    DivRecompose(slot, fp.SlotsPerFrame());
    LengthsBetweenStarts(fp, slot, ahead);
    hide Lengths;
    hide FrameParms.Valid;
  }

  /** What ru_thread transmits with, over every run: the time, frame and slot of the slot `ahead` after
      the one just received exactly from the second reception on, or from the first when it needed
      no alignment. After an aligned first reception the time is that of one slot and the numbers
      are those of the slot before. (The whole frames looked ahead must vanish modulo 1024, as
      they do for less than a frame.) */
  lemma {:induction false} TransmitRun(fp: FrameParms, tsOffset: int, cs: seq<Clock>, tss: seq<int>, k: nat, i: nat, ahead: nat)
    requires fp.Valid() && IsRun(fp, tsOffset, cs, tss) && 1 <= i <= |tss| && Holds(fp, k, tss[0] - tsOffset)
    ensures cs[i].ttiRx >= 0
    ensures var t, n := tss[0] - tsOffset, fp.SlotsPerFrame();
            var slot := FirstSlot(fp, k, t) + i - 1 + ahead;
            TxOf(fp, cs[i], ahead) == TxSlot(Start(fp, slot), TickOf(n, slot))
            <==> (i >= 2 || t == Start(fp, k)) && ahead / n % MAX_FRAMES == 0
  {
    var t, n := tss[0] - tsOffset, fp.SlotsPerFrame();
    var abs := FirstSlot(fp, k, t) + i - 1;
    ReceivedNumbers(fp, tsOffset, cs, tss, k, i);
    if i == 1 && t != Start(fp, k) {
      SlotsDiffer(n, k, k + 1, ahead);
    } else {
      TxOfNamed(fp, cs[i], abs, ahead);
    }
  }

  lemma {:induction false} TxOfNamed(fp: FrameParms, c: Clock, abs: nat, ahead: nat)
    requires fp.Valid() && Named(fp, c, abs)
    ensures c.ttiRx >= 0
    ensures TxOf(fp, c, ahead) == TxSlot(Start(fp, abs + ahead), TickOf(fp.SlotsPerFrame(), abs + ahead))
            <==> ahead / fp.SlotsPerFrame() % MAX_FRAMES == 0
  {
    var n := fp.SlotsPerFrame();
    LaterTick(n, abs, ahead);
    ComparisonExact(n, TickOf(n, abs), ahead);
    LengthsBetweenStarts(fp, abs, ahead);
    hide Later;
    hide TxByComparison;
  }

  /** Looking equally far ahead from two neighbouring slots never gives the same slot number. */
  lemma {:induction false} SlotsDiffer(n: nat, a: nat, b: nat, ahead: nat)
    requires n > 1 && b == a + 1
    ensures a % n >= 0 && (a % n + ahead) % n != (b + ahead) % n
  {
    DivRecompose(a, n);
    DivAdd(a, ahead, n);
    TickStep(n, a + ahead);
  }

  /** The input: from the second sample of slot 0 on, the first slot transmitted gets the time of slot
      1 + ahead and the number of slot `ahead`. */
  lemma {:induction false} FirstTransmitWrong(fp: FrameParms, ahead: nat)
    requires fp.Valid() && fp.SamplesPerSlot(0) > 1 && ahead < fp.SlotsPerFrame()
    ensures var c := Iterate(fp, Initial(fp, 0), 1);
            && c.ttiRx == 0 && c.timestampRx == Start(fp, 1)
            && TxOf(fp, c, ahead).tick == TickOf(fp.SlotsPerFrame(), ahead)
            && TxOf(fp, c, ahead).timestamp == Start(fp, 1) + Start(fp, ahead)
  {
    var n := fp.SlotsPerFrame();
    assert Start(fp, 1) == Start(fp, 0) + fp.SamplesPerSlot(0);
    FirstReception(fp, Initial(fp, 0), 1, 0);
    hide Iterate;
    DivUnique(0, n, 0, 0);
    DivUnique(ahead, n, 0, ahead);
    LengthsBetweenStarts(fp, 0, ahead);
  }

  /** The exiting family is not empty: the second sample of the last slot before frame 0 is in it. */
  lemma {:induction false} CrossingHappens(fp: FrameParms, k: nat)
    requires fp.Valid() && fp.SamplesPerSlot(k) > 1 && k == MAX_FRAMES * fp.SlotsPerFrame() - 1
    ensures Holds(fp, k, Start(fp, k) + 1) && CrossesLastFrame(fp, k, Start(fp, k) + 1)
  {
    var n := fp.SlotsPerFrame();
    DivUnique(k, n, MAX_FRAMES - 1, n - 1);
  }
}
