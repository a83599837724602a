/** From the slot just received to the slot to transmit: the frame and slot formulas of
    executables/nr-ru.c, executables/lte-enb.c and executables/lte-ru.c, and the looped
    transmit timestamp. The reference is addition on the absolute slot index. */
module TxAhead {
  import opened Arithmetic
  import opened SlotGrid

  datatype Tick = Tick(frame: int, slot: int)

  /** `ahead` slots later, on the absolute index, with n slots in a frame. */
  function Later(n: nat, rx: Tick, ahead: nat): Tick
    requires n > 0
  {
    var abs := rx.frame * n + rx.slot + ahead;
    Tick(abs / n % MAX_FRAMES, abs % n)
  }

  /** executables/nr-ru.c, ru_thread: the frame wraps when the receive slot exceeds the transmit slot. */
  function TxByComparison(n: nat, rx: Tick, ahead: nat): Tick
    requires n > 0
  {
    var slot := (rx.slot + ahead) % n;
    Tick(if rx.slot > slot then (rx.frame + 1) % MAX_FRAMES else rx.frame, slot)
  }

  /** The receivers of lte-ru.c and nr-ru.c and the wake-ups of lte-enb.c: the frame wraps
      when the receive slot exceeds the last slot less the look-ahead. LTE has n = 10. */
  function TxByThreshold(n: nat, rx: Tick, ahead: nat): Tick
    requires n > 0
  {
    Tick(if rx.slot > n - 1 - ahead then (rx.frame + 1) % MAX_FRAMES else rx.frame, (rx.slot + ahead) % n)
  }

  predicate ValidTick(n: nat, t: Tick) {
    0 <= t.frame < MAX_FRAMES && 0 <= t.slot < n
  }

  /** Addition on the absolute index, by slot sum. */
  lemma {:induction false} LaterSum(n: nat, rx: Tick, ahead: nat)
    requires n > 0
    ensures var sum := rx.slot + ahead;
            Later(n, rx, ahead) == Tick((rx.frame + sum / n) % MAX_FRAMES, sum % n)
  {
    var sum := rx.slot + ahead;
    DivUnique(rx.frame * n, n, rx.frame, 0);
    DivAdd(rx.frame * n, sum, n);
  }

  /** The slot sum as whole frames looked ahead, when the rest stays in the frame ... */
  lemma {:induction false} NoCarry(n: nat, slot: nat, ahead: nat)
    requires n > 0 && slot + ahead % n < n
    ensures (slot + ahead) / n == ahead / n && (slot + ahead) % n == slot + ahead % n
  {
    DivRecompose(ahead, n);
    DivUnique(slot + ahead, n, ahead / n, slot + ahead % n);
  }

  /** ... and when it leads into the next. */
  lemma {:induction false} WithCarry(n: nat, slot: nat, ahead: nat)
    requires slot < n <= slot + ahead % n
    ensures (slot + ahead) / n == ahead / n + 1 && (slot + ahead) % n == slot + ahead % n - n
  {
    DivRecompose(ahead, n);
    Distribute(ahead / n, 1, n);
    DivUnique(slot + ahead, n, ahead / n + 1, slot + ahead % n - n);
  }

  /** The comparison formula is addition exactly when the whole frames looked ahead vanish
      modulo 1024; in particular for every look-ahead shorter than a frame. */
  lemma {:induction false} ComparisonExact(n: nat, rx: Tick, ahead: nat)
    requires n > 0 && ValidTick(n, rx)
    ensures TxByComparison(n, rx, ahead) == Later(n, rx, ahead) <==> ahead / n % MAX_FRAMES == 0
    ensures ahead < n ==> TxByComparison(n, rx, ahead) == Later(n, rx, ahead)
  {
    LaterSum(n, rx, ahead);
    hide Later;
    DivRecompose(ahead, n);
    if rx.slot + ahead % n < n {
      NoCarry(n, rx.slot, ahead);
      ComparisonAt(n, rx, ahead, rx.slot + ahead % n, ahead / n);
    } else {
      WithCarry(n, rx.slot, ahead);
      ComparisonAt(n, rx, ahead, rx.slot + ahead % n - n, ahead / n + 1);
    }
    if ahead < n {
      DivUnique(ahead, n, 0, ahead);
    }
  }

  /** The comparison formula against given results of the sum. */
  lemma {:induction false} ComparisonAt(n: nat, rx: Tick, ahead: nat, slot: int, frames: int)
    requires n > 0 && ValidTick(n, rx) && (rx.slot + ahead) % n == slot
    ensures TxByComparison(n, rx, ahead) == Tick((rx.frame + frames) % MAX_FRAMES, slot)
            <==> (frames - if rx.slot > slot then 1 else 0) % MAX_FRAMES == 0
  {
    FrameShift(rx.frame, frames);
  }

  /** The threshold formula is addition exactly when the sum crosses no frame boundary, or
      crosses one modulo 1024; in particular for every look-ahead of at most a frame. */
  lemma {:induction false} ThresholdExact(n: nat, rx: Tick, ahead: nat)
    requires n > 0 && ValidTick(n, rx)
    ensures TxByThreshold(n, rx, ahead) == Later(n, rx, ahead)
            <==> (rx.slot + ahead < n || (rx.slot + ahead) / n % MAX_FRAMES == 1)
    ensures ahead <= n ==> TxByThreshold(n, rx, ahead) == Later(n, rx, ahead)
  {
    var sum := rx.slot + ahead;
    LaterSum(n, rx, ahead);
    hide Later;
    FrameShift(rx.frame, sum / n);
    if sum < n {
      DivUnique(sum, n, 0, sum);
    } else if ahead <= n {
      DivUnique(sum, n, 1, sum - n);
    }
  }

  /** Which frame sums leave the frame number, and which add one to it. */
  lemma {:induction false} FrameShift(f: int, k: int)
    requires 0 <= f < MAX_FRAMES
    ensures (f + k) % MAX_FRAMES == f <==> k % MAX_FRAMES == 0
    ensures (f + k) % MAX_FRAMES == (f + 1) % MAX_FRAMES <==> k % MAX_FRAMES == 1
    ensures k % MAX_FRAMES == 1 <==> (k - 1) % MAX_FRAMES == 0
  {}

  /** The frame and slot numbers of an absolute slot. */
  function TickOf(n: nat, abs: nat): Tick
    requires n > 0
  {
    Tick(abs / n % MAX_FRAMES, abs % n)
  }

  /** Looking ahead from the numbers of a slot gives the numbers of the slot looked ahead to,
      across any number of frame-number wraps. */
  lemma {:induction false} LaterTick(n: nat, abs: nat, ahead: nat)
    requires n > 0
    ensures ValidTick(n, TickOf(n, abs))
    ensures Later(n, TickOf(n, abs), ahead) == TickOf(n, abs + ahead)
  {
    DivRecompose(abs, n);
    LaterSum(n, TickOf(n, abs), ahead);
    hide Later;
    DivAdd(abs, ahead, n);
    FrameAdd(abs / n, (abs % n + ahead) / n);
  }

  lemma {:induction false} FrameAdd(a: int, b: int)
    ensures (a % MAX_FRAMES + b) % MAX_FRAMES == (a + b) % MAX_FRAMES
  {}

  /** One slot later. */
  lemma {:induction false} TickStep(n: nat, abs: nat)
    requires n > 0
    ensures var now := TickOf(n, abs);
            && now.slot < n
            && TickOf(n, abs + 1) == if now.slot == n - 1 then Tick((now.frame + 1) % MAX_FRAMES, 0)
                                     else Tick(now.frame, now.slot + 1)
  {
    var q, r := abs / n, abs % n;
    DivRecompose(abs, n);
    if r == n - 1 {
      Distribute(q, 1, n);
      DivUnique(abs + 1, n, q + 1, 0);
      FrameAdd(q, 1);
    } else {
      DivUnique(abs + 1, n, q, r + 1);
    }
  }

  /** The lengths of `count` slots from slot `slot` of a frame on. */
  function Lengths(fp: FrameParms, slot: nat, count: nat): int
    requires fp.Valid()
  {
    if count == 0 then 0
    else Lengths(fp, slot, count - 1) + fp.SamplesPerSlot((slot + count - 1) % fp.SlotsPerFrame())
  }

  /** They lead from the start of any absolute slot with that number to the start of the slot
      `count` later. */
  lemma {:induction false} LengthsBetweenStarts(fp: FrameParms, abs: nat, count: nat)
    requires fp.Valid()
    ensures Lengths(fp, abs % fp.SlotsPerFrame(), count) == Start(fp, abs + count) - Start(fp, abs)
    decreases count
  {
    if count > 0 {
      LengthsBetweenStarts(fp, abs, count - 1);
      SlotOfTheFrame(fp, abs % fp.SlotsPerFrame() + count - 1, abs + count - 1, abs % fp.SlotsPerFrame(), abs);
    }
  }

  /** The transmit timestamp of ru_thread: the receive timestamp plus the lengths of the slots
      in between. */
  method TxTimestamp(fp: FrameParms, timestampRx: int, slot: nat, ahead: nat) returns (ts: int)
    requires fp.Valid()
    ensures ts == timestampRx + Lengths(fp, slot, ahead)
  {
    ts := timestampRx;
    for i := slot to slot + ahead
      invariant ts == timestampRx + Lengths(fp, slot, i - slot)
    {
      ts := ts + fp.SamplesPerSlot(i % fp.SlotsPerFrame());
    }
  }

  lemma {:induction false} SlotOfTheFrame(fp: FrameParms, i: nat, k: nat, slot: nat, abs: nat)
    requires fp.Valid() && slot == abs % fp.SlotsPerFrame() && i >= slot && k == abs + (i - slot)
    ensures fp.SamplesPerSlot(i % fp.SlotsPerFrame()) == fp.SamplesPerSlot(k)
  {
    var n := fp.SlotsPerFrame();
    DivRecompose(i, n);
    DivRecompose(abs, n);
    Distribute(i / n, abs / n, n);
    StartInFrame(fp, k, i / n + abs / n, i % n);
  }
}
