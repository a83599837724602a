/** The absolute slot counter of the NR UE main loop (UE_thread, executables/nr-ue.c): its jumps
    at resynchronisation and the hyperframe, frame and slot numbers derived from it. */
module UeSlots {
  import opened Arithmetic

  /** The absolute slot after a resynchronisation that decoded frame `decoded`, with n slots in a
      frame. It stands one before the frame it starts, as the loop increments it first. */
  function Resync(n: nat, absolute: nat, decoded: nat): int
    requires n > 0
  {
    var frame := (decoded + 1) % MAX_FRAMES;
    var previous := absolute / n % MAX_FRAMES;
    var hfn := absolute / n / MAX_FRAMES + (if frame <= previous then 1 else 0);
    (hfn * MAX_FRAMES + frame) * n - 1
  }

  /** The absolute frame the resynchronised stream starts with. */
  function StartFrame(n: nat, absolute: nat, decoded: nat): int
    requires n > 0
  {
    (Resync(n, absolute, decoded) + 1) / n
  }

  /** The next slot starts a frame: the least frame after the previous one whose number modulo 1024
      is the one following the decoded frame. The counter never goes back. */
  lemma {:induction false} ResyncIsLeastLaterFrame(n: nat, absolute: nat, decoded: nat, other: int)
    requires n > 0
    ensures (Resync(n, absolute, decoded) + 1) % n == 0
    ensures StartFrame(n, absolute, decoded) % MAX_FRAMES == (decoded + 1) % MAX_FRAMES
    ensures StartFrame(n, absolute, decoded) > absolute / n
    ensures other > absolute / n && other % MAX_FRAMES == (decoded + 1) % MAX_FRAMES
            ==> other >= StartFrame(n, absolute, decoded)
    ensures Resync(n, absolute, decoded) >= absolute
  {
    var f := (decoded + 1) % MAX_FRAMES;
    var was := absolute / n;
    var hfn := was / MAX_FRAMES + (if f <= was % MAX_FRAMES then 1 else 0);
    var frame := hfn * MAX_FRAMES + f;
    LeastFrame(was, f, other);
    assert Resync(n, absolute, decoded) == frame * n - 1;
    hide Resync;
    DivUnique(frame * n, n, frame, 0);
    DivRecompose(absolute, n);
    Distribute(frame, was, n);
    MulAtLeast(frame - was, n);
  }

  /** The least frame after `was` with number f. */
  lemma {:induction false} LeastFrame(was: int, f: int, other: int)
    requires 0 <= f < MAX_FRAMES
    ensures var frame := (was / MAX_FRAMES + (if f <= was % MAX_FRAMES then 1 else 0)) * MAX_FRAMES + f;
            && frame > was && frame % MAX_FRAMES == f && (other > was && other % MAX_FRAMES == f ==> other >= frame)
  {}

  datatype Proc = Proc(hfn: int, frame: int, slot: int)

  /** The numbers the loop gives to absolute slot `absolute`. */
  function Numbers(n: nat, absolute: nat): Proc
    requires n > 0
  {
    Proc(absolute / n / MAX_FRAMES, absolute / n % MAX_FRAMES, absolute % n)
  }

  /** The numbers recompose to the slot, so different slots have different numbers. */
  lemma {:induction false} NumbersRecompose(n: nat, absolute: nat)
    requires n > 0
    ensures var p := Numbers(n, absolute);
            && (p.hfn * MAX_FRAMES + p.frame) * n + p.slot == absolute
            && 0 <= p.frame < MAX_FRAMES && 0 <= p.slot < n && 0 <= p.hfn
  {
    DivRecompose(absolute, n);
    assert absolute / n / MAX_FRAMES * MAX_FRAMES + absolute / n % MAX_FRAMES == absolute / n;
  }

  datatype Event = Resynchronised(decoded: nat) | NextSlot

  function Apply(n: nat, absolute: nat, e: Event): nat
    requires n > 0
  {
    match e
    case NextSlot => absolute + 1
    case Resynchronised(decoded) =>
      ResyncIsLeastLaterFrame(n, absolute, decoded, 0);
      Resync(n, absolute, decoded)
  }

  function Run(n: nat, absolute: nat, events: seq<Event>): nat
    requires n > 0
    decreases |events|
  {
    if events == [] then absolute else Run(n, Apply(n, absolute, events[0]), events[1..])
  }

  function SlotsProcessed(events: seq<Event>): nat
    decreases |events|
  {
    if events == [] then 0 else (if events[0].NextSlot? then 1 else 0) + SlotsProcessed(events[1..])
  }

  /** Over any run the counter never goes back: every slot processed gets a later number than all
      slots before it, whatever frames the resynchronisations decode. */
  lemma {:induction false} NeverBack(n: nat, absolute: nat, events: seq<Event>)
    requires n > 0
    ensures Run(n, absolute, events) >= absolute + SlotsProcessed(events)
    decreases |events|
  {
    if events != [] {
      if events[0].Resynchronised? {
        ResyncIsLeastLaterFrame(n, absolute, events[0].decoded, 0);
      }
      NeverBack(n, Apply(n, absolute, events[0]), events[1..]);
    }
  }

  /** Without a resynchronisation slots are numbered one after the other, ... */
  lemma {:induction false} Consecutive(n: nat, absolute: nat, events: seq<Event>)
    requires n > 0 && forall k :: 0 <= k < |events| ==> events[k].NextSlot?
    ensures Run(n, absolute, events) == absolute + |events|
    decreases |events|
  {
    if events != [] {
      Consecutive(n, Apply(n, absolute, events[0]), events[1..]);
    }
  }

  /** ... and after one from slot 0 of the frame following the decoded frame on: the slot i later has the
      numbers i slots after that one's. */
  lemma {:induction false} AfterResync(n: nat, absolute: nat, decoded: nat, events: seq<Event>, i: nat)
    requires n > 0 && events == [Resynchronised(decoded)] + seq(i + 1, _ => NextSlot)
    ensures var start, p := StartFrame(n, absolute, decoded), Numbers(n, Run(n, absolute, events));
            && start % MAX_FRAMES == (decoded + 1) % MAX_FRAMES && start > absolute / n
            && p.slot == i % n && p.hfn * MAX_FRAMES + p.frame == start + i / n && 0 <= p.frame < MAX_FRAMES
  {
    ResyncIsLeastLaterFrame(n, absolute, decoded, 0);
    var from := Apply(n, absolute, events[0]);
    assert events[1..] == seq(i + 1, _ => NextSlot);
    Consecutive(n, from, events[1..]);
    assert Run(n, absolute, events) == Run(n, from, events[1..]);
    hide Run;
    hide Resync;
    FrameAndSlot(n, from + 1, i);
  }

  lemma {:induction false} FrameAndSlot(n: nat, start: nat, i: nat)
    requires n > 0 && start % n == 0
    ensures var p := Numbers(n, start + i);
            p.slot == i % n && p.hfn * MAX_FRAMES + p.frame == start / n + i / n && 0 <= p.frame < MAX_FRAMES
  {
    DivRecompose(start, n);
    DivRecompose(i, n);
    Distribute(start / n, i / n, n);
    DivUnique(start + i, n, start / n + i / n, i % n);
  }

  /** The counter and the numbers as UE_thread keeps them. */
  class SlotCounter {
    const slotsPerFrame: nat
    const durationRxToTx: nat
    var absoluteSlot: nat

    constructor (slotsPerFrame: nat, durationRxToTx: nat)
      requires slotsPerFrame > 0
      ensures this.slotsPerFrame == slotsPerFrame && this.durationRxToTx == durationRxToTx && absoluteSlot == 0
    {
      this.slotsPerFrame, this.durationRxToTx := slotsPerFrame, durationRxToTx;
      absoluteSlot := 0;
    }

    method Resynchronise(decodedFrame: nat)
      requires slotsPerFrame > 0
      modifies this
      ensures absoluteSlot == Apply(slotsPerFrame, old(absoluteSlot), Resynchronised(decodedFrame))
    {
      ResyncIsLeastLaterFrame(slotsPerFrame, absoluteSlot, decodedFrame, 0);
      var frame := (decodedFrame + 1) % MAX_FRAMES;
      var prevFrame := absoluteSlot / slotsPerFrame % MAX_FRAMES;
      var hfn := absoluteSlot / slotsPerFrame / MAX_FRAMES;
      if frame <= prevFrame {
        hfn := hfn + 1;
      }
      absoluteSlot := (hfn * MAX_FRAMES + frame) * slotsPerFrame - 1;
    }

    method Next() returns (rx: Proc, tx: Proc)
      requires slotsPerFrame > 0
      modifies this
      ensures absoluteSlot == Apply(slotsPerFrame, old(absoluteSlot), NextSlot)
      ensures (rx.hfn * MAX_FRAMES + rx.frame) * slotsPerFrame + rx.slot == absoluteSlot
      ensures (tx.hfn * MAX_FRAMES + tx.frame) * slotsPerFrame + tx.slot == absoluteSlot + durationRxToTx
      ensures 0 <= rx.slot < slotsPerFrame && 0 <= rx.frame < MAX_FRAMES && 0 <= rx.hfn
      ensures 0 <= tx.slot < slotsPerFrame && 0 <= tx.frame < MAX_FRAMES && 0 <= tx.hfn
    {
      absoluteSlot := absoluteSlot + 1;
      NumbersRecompose(slotsPerFrame, absoluteSlot);
      NumbersRecompose(slotsPerFrame, absoluteSlot + durationRxToTx);
      rx := Numbers(slotsPerFrame, absoluteSlot);
      tx := Numbers(slotsPerFrame, absoluteSlot + durationRxToTx);
    }
  }
}
