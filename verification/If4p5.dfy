/** Collection of IF4p5 uplink symbols into subframes (fh_if4p5_south_in, executables/lte-ru.c).
    Packets of several subframes arrive interleaved; a call returns when the expected one is
    complete, judged by comparing its bit mask, as a number, with the full mask. */
module If4p5 {
  import opened Arithmetic

  const SUBFRAMES: nat := 10
  const MASK_BITS: nat := 32

  datatype Kind = PulFft | PulTick | Other

  datatype Packet = Packet(kind: Kind, frame: nat, subframe: nat, symbol: nat)

  predicate ValidPacket(p: Packet) { p.subframe < SUBFRAMES && p.symbol < MASK_BITS }

  /** The set bits of a symbol mask. */
  type Mask = set<nat>

  function Pow2(k: nat): nat { if k == 0 then 1 else 2 * Pow2(k - 1) }

  /** The number formed by the mask's lowest k bits. */
  function Value(m: Mask, k: nat): nat {
    if k == 0 then 0 else Value(m, k - 1) + (if k - 1 in m then Pow2(k - 1) else 0)
  }

  /** 0xffff, set by a tick. */
  function TickMask(): Mask { {0, 1, 2, 3, 4, 5, 6, 7, 8, 9, 10, 11, 12, 13, 14, 15} }

  /** The source's test that a mask has reached (1 << symbols) - 1. */
  predicate Complete(m: Mask, symbols: nat) {
    Value(m, MASK_BITS) >= Pow2(symbols) - 1
  }

  lemma {:induction false} LowBits(m: Mask, k: nat)
    ensures Value(m, k) <= Pow2(k) - 1
    ensures Value(m, k) == Pow2(k) - 1 <==> forall i :: 0 <= i < k ==> i in m
    decreases k
  {
    if k > 0 {
      LowBits(m, k - 1);
    }
  }

  lemma {:induction false} HighBits(m: Mask, low: nat, k: nat)
    requires low <= k
    ensures Pow2(low) <= Pow2(k)
    ensures if exists i :: low <= i < k && i in m then Value(m, k) >= Value(m, low) + Pow2(low)
            else Value(m, k) == Value(m, low)
    decreases k
  {
    if low < k {
      HighBits(m, low, k - 1);
    }
  }

  /** The numeric test means: every wanted symbol is there, or some bit beyond them is. */
  lemma {:induction false} CompleteMeans(m: Mask, symbols: nat)
    requires symbols <= MASK_BITS
    ensures Complete(m, symbols) <==>
            (forall i :: 0 <= i < symbols ==> i in m) || (exists i :: symbols <= i < MASK_BITS && i in m)
  {
    LowBits(m, symbols);
    HighBits(m, symbols, MASK_BITS);
  }

  // ---- packets into masks ----

  function Apply(masks: seq<Mask>, p: Packet): seq<Mask>
    requires |masks| == SUBFRAMES && ValidPacket(p)
  {
    match p.kind
    case PulFft => masks[p.subframe := masks[p.subframe] + {p.symbol}]
    case PulTick => masks[p.subframe := TickMask()]
    case Other => masks
  }

  function Collected(masks: seq<Mask>, packets: seq<Packet>): (r: seq<Mask>)
    requires |masks| == SUBFRAMES && forall k :: 0 <= k < |packets| ==> ValidPacket(packets[k])
    ensures |r| == SUBFRAMES
    decreases |packets|
  {
    if packets == [] then masks else Collected(Apply(masks, packets[0]), packets[1..])
  }

  /** What a packet contributes to bit i of subframe sf. */
  predicate Brings(p: Packet, sf: nat, i: nat) {
    p.subframe == sf && ((p.kind.PulFft? && p.symbol == i) || (p.kind.PulTick? && i < 16))
  }

  /** The masks hold exactly the symbols received, whatever the interleaving. Symbol numbers are
      below 16, as in every LTE subframe. */
  lemma {:induction false} CollectedExactly(masks: seq<Mask>, packets: seq<Packet>, sf: nat, i: nat)
    requires |masks| == SUBFRAMES && sf < SUBFRAMES
    requires forall k :: 0 <= k < |packets| ==> ValidPacket(packets[k]) && packets[k].symbol < 16
    requires forall j :: j in masks[sf] ==> j < 16
    ensures i in Collected(masks, packets)[sf]
            <==> i in masks[sf] || exists k :: 0 <= k < |packets| && Brings(packets[k], sf, i)
    decreases |packets|
  {
    if packets != [] {
      CollectedExactly(Apply(masks, packets[0]), packets[1..], sf, i);
      assert forall k :: 0 < k < |packets| ==> packets[k] == packets[1..][k - 1];
      if exists k :: 0 <= k < |packets| && Brings(packets[k], sf, i) {
        var k :| 0 <= k < |packets| && Brings(packets[k], sf, i);
        assert k > 0 ==> Brings(packets[1..][k - 1], sf, i);
      }
    }
  }

  // ---- one call ----

  /** `Waiting` when the packets at hand do not complete the subframe and the call blocks. */
  datatype Outcome = Waiting | Returned(masks: seq<Mask>, rest: seq<Packet>, frame: nat, tti: nat)

  predicate Usable(o: Outcome) {
    o.Returned? ==> |o.masks| == SUBFRAMES && o.tti < SUBFRAMES && forall k :: 0 <= k < |o.rest| ==> ValidPacket(o.rest[k])
  }

  /** The receive loop; the frame and subframe reported are those of the last packet. */
  function ReadUntil(masks: seq<Mask>, inbox: seq<Packet>, sf: nat, symbols: nat): (o: Outcome)
    requires |masks| == SUBFRAMES && sf < SUBFRAMES && forall k :: 0 <= k < |inbox| ==> ValidPacket(inbox[k])
    ensures Usable(o)
    decreases |inbox|
  {
    if inbox == [] then Waiting
    else
      var next := Apply(masks, inbox[0]);
      if Complete(next[sf], symbols) then Returned(next, inbox[1..], inbox[0].frame, inbox[0].subframe)
      else ReadUntil(next, inbox[1..], sf, symbols)
  }

  /** fh_if4p5_south_in: no read at all when earlier calls already completed the subframe. */
  function SouthIn(masks: seq<Mask>, inbox: seq<Packet>, frame: nat, sf: nat, symbols: nat): (r: Outcome)
    requires |masks| == SUBFRAMES && sf < SUBFRAMES && forall k :: 0 <= k < |inbox| ==> ValidPacket(inbox[k])
    ensures Usable(r)
  {
    var o := if Complete(masks[sf], symbols) then Returned(masks, inbox, frame, sf)
             else ReadUntil(masks, inbox, sf, symbols);
    if o.Returned? then o.(masks := o.masks[o.tti := {}]) else o
  }

  /** The call reads the shortest prefix that completes the expected subframe, and the packet that
      completes it is one of that subframe. */
  lemma {:induction false} ReadsShortestPrefix(masks: seq<Mask>, inbox: seq<Packet>, sf: nat, symbols: nat) returns (taken: nat)
    requires |masks| == SUBFRAMES && sf < SUBFRAMES && forall k :: 0 <= k < |inbox| ==> ValidPacket(inbox[k])
    requires !Complete(masks[sf], symbols)
    ensures taken <= |inbox|
    ensures forall j :: 0 <= j < taken ==> !Complete(Collected(masks, inbox[..j])[sf], symbols)
    ensures match ReadUntil(masks, inbox, sf, symbols)
            case Waiting => taken == |inbox| && !Complete(Collected(masks, inbox)[sf], symbols)
            case Returned(after, rest, f, tti) =>
              && after == Collected(masks, inbox[..taken]) && rest == inbox[taken..]
              && Complete(after[sf], symbols) && tti == sf && 0 < taken && f == inbox[taken - 1].frame
    decreases |inbox|
  {
    hide Complete;
    if inbox == [] {
      taken := 0;
    } else {
      var next := Apply(masks, inbox[0]);
      if Complete(next[sf], symbols) {
        taken := 1;
        assert inbox[..1] == [inbox[0]];
      } else {
        var t := ReadsShortestPrefix(next, inbox[1..], sf, symbols);
        taken := t + 1;
        assert inbox[..taken][1..] == inbox[1..][..t];
        forall j | 0 <= j < taken
          ensures !Complete(Collected(masks, inbox[..j])[sf], symbols)
        {
          if j > 0 {
            assert inbox[..j][1..] == inbox[1..][..j - 1];
          }
        }
      }
    }
  }

  /** A call that returns reports the expected subframe, so the branch that would resynchronise the
      subframe counter is dead, and the frame of the last packet read, or the caller's when none is. It
      does so when that subframe has all its symbols, a tick or a symbol out of range; it clears
      that subframe's mask and leaves every other subframe with what was received for it. */
  lemma {:induction false} DeliversExpected(masks: seq<Mask>, inbox: seq<Packet>, frame: nat, sf: nat, symbols: nat) returns (taken: nat)
    requires |masks| == SUBFRAMES && sf < SUBFRAMES && symbols <= MASK_BITS
    requires forall k :: 0 <= k < |inbox| ==> ValidPacket(inbox[k])
    ensures taken <= |inbox|
    ensures match SouthIn(masks, inbox, frame, sf, symbols)
            case Waiting => !Complete(Collected(masks, inbox)[sf], symbols)
            case Returned(after, rest, f, tti) =>
              && tti == sf && rest == inbox[taken..] && f == (if taken == 0 then frame else inbox[taken - 1].frame)
              && after == Collected(masks, inbox[..taken])[sf := {}]
              && var m := Collected(masks, inbox[..taken])[sf];
                 (forall i :: 0 <= i < symbols ==> i in m) || (exists i :: symbols <= i < MASK_BITS && i in m)
  {
    if Complete(masks[sf], symbols) {
      taken := 0;
      assert inbox[..0] == [];
    } else {
      taken := ReadsShortestPrefix(masks, inbox, sf, symbols);
    }
    CompleteMeans(Collected(masks, inbox[..taken])[sf], symbols);
  }

  // ---- successive calls ----

  /** `frame` and `subframe` are ru_thread's own counters. */
  datatype Receiver = Receiver(masks: seq<Mask>, inbox: seq<Packet>, frame: nat, subframe: nat)

  predicate Good(r: Receiver) {
    && |r.masks| == SUBFRAMES && r.frame < MAX_FRAMES && r.subframe < SUBFRAMES
    && forall k :: 0 <= k < |r.inbox| ==> ValidPacket(r.inbox[k])
  }

  /** One turn of ru_thread: the counters move on by one subframe, then the call returns. `wanted` gives each
      subframe's symbol count; the subframe counter takes the subframe the call reports. */
  predicate Turn(r: Receiver, r': Receiver, wanted: seq<nat>)
    requires |wanted| == SUBFRAMES && Good(r)
  {
    var next := if r.subframe == SUBFRAMES - 1 then 0 else r.subframe + 1;
    var frame := if r.subframe == SUBFRAMES - 1 then (r.frame + 1) % MAX_FRAMES else r.frame;
    match SouthIn(r.masks, r.inbox, frame, next, wanted[next])
    case Waiting => false
    case Returned(masks, rest, _, tti) => r' == Receiver(masks, rest, frame, tti)
  }

  /** The subframe the counters stand at, counted from frame 0. */
  function Position(r: Receiver): nat { r.frame * SUBFRAMES + r.subframe }

  lemma {:induction false} TurnReportsNext(r: Receiver, r': Receiver, wanted: seq<nat>)
    requires |wanted| == SUBFRAMES && Good(r) && Turn(r, r', wanted)
    requires forall k :: 0 <= k < |wanted| ==> wanted[k] <= MASK_BITS
    ensures Good(r') && Position(r') == (Position(r) + 1) % (MAX_FRAMES * SUBFRAMES)
  {
    hide SouthIn;
    hide ReadUntil;
    hide Collected;
    hide Pow2;
    hide Value;
    var next := if r.subframe == SUBFRAMES - 1 then 0 else r.subframe + 1;
    var frame := if r.subframe == SUBFRAMES - 1 then (r.frame + 1) % MAX_FRAMES else r.frame;
    var taken := DeliversExpected(r.masks, r.inbox, frame, next, wanted[next]);
    assert Good(r') && r'.frame == frame && r'.subframe == next;
    hide *;
    PositionStep(r, r');
  }

  lemma {:induction false} PositionStep(r: Receiver, r': Receiver)
    requires Good(r) && r'.subframe == (if r.subframe == SUBFRAMES - 1 then 0 else r.subframe + 1)
    requires r'.frame == if r.subframe == SUBFRAMES - 1 then (r.frame + 1) % MAX_FRAMES else r.frame
    ensures Position(r') == (Position(r) + 1) % (MAX_FRAMES * SUBFRAMES)
  {
    NextPosition(r.frame, r.subframe);
  }

  lemma {:induction false} NextPosition(frame: nat, subframe: nat)
    requires frame < MAX_FRAMES && subframe < SUBFRAMES
    ensures (frame * SUBFRAMES + subframe + 1) % (MAX_FRAMES * SUBFRAMES)
            == if subframe < SUBFRAMES - 1 then frame * SUBFRAMES + subframe + 1 else (frame + 1) % MAX_FRAMES * SUBFRAMES
  {}

  /** Whatever packets arrive, in whatever order, successive calls deliver subframes in cyclic order. */
  lemma {:induction false} CyclicOrder(rs: seq<Receiver>, wanted: seq<nat>, k: nat)
    requires |wanted| == SUBFRAMES && forall j :: 0 <= j < |wanted| ==> wanted[j] <= MASK_BITS
    requires k < |rs| && Good(rs[0])
    requires forall i :: 0 <= i < |rs| - 1 ==> Good(rs[i]) && Turn(rs[i], rs[i + 1], wanted)
    ensures Position(rs[k]) == (Position(rs[0]) + k) % (MAX_FRAMES * SUBFRAMES) && Good(rs[k])
    decreases k
  {
    hide Turn;
    if k == 0 {
      assert Position(rs[0]) < MAX_FRAMES * SUBFRAMES;
    } else {
      CyclicOrder(rs, wanted, k - 1);
      TurnReportsNext(rs[k - 1], rs[k], wanted);
      OneOn(Position(rs[0]) + k - 1);
      hide Good;
      hide Position;
    }
  }

  lemma {:induction false} OneOn(x: nat)
    ensures (x % (MAX_FRAMES * SUBFRAMES) + 1) % (MAX_FRAMES * SUBFRAMES) == (x + 1) % (MAX_FRAMES * SUBFRAMES)
  {}

  /** fh_if4p5_south_in as it runs, on the mask array. `blocked` when the inbox ran out. */
  method FhIf4p5SouthIn(symbolMask: array<Mask>, inbox: seq<Packet>, frame: nat, subframe: nat, symbols: nat)
    returns (blocked: bool, taken: nat, frameRx: nat, ttiRx: nat)
    requires symbolMask.Length == SUBFRAMES && subframe < SUBFRAMES && symbols <= MASK_BITS
    requires forall k :: 0 <= k < |inbox| ==> ValidPacket(inbox[k])
    modifies symbolMask
    ensures taken <= |inbox|
    ensures blocked == SouthIn(old(symbolMask[..]), inbox, frame, subframe, symbols).Waiting?
    ensures !blocked ==>
      && SouthIn(old(symbolMask[..]), inbox, frame, subframe, symbols) == Returned(symbolMask[..], inbox[taken..], frameRx, ttiRx)
      && ttiRx == subframe
  {
    ghost var t := DeliversExpected(symbolMask[..], inbox, frame, subframe, symbols);
    hide Value;
    hide Pow2;
    hide Collected;
    taken, frameRx, ttiRx := 0, frame, subframe;
    if Value(symbolMask[subframe], MASK_BITS) < Pow2(symbols) - 1 {
      while Value(symbolMask[subframe], MASK_BITS) < Pow2(symbols) - 1
        invariant taken <= |inbox|
        invariant !Complete(symbolMask[subframe], symbols) ==>
          ReadUntil(old(symbolMask[..]), inbox, subframe, symbols) == ReadUntil(symbolMask[..], inbox[taken..], subframe, symbols)
        invariant Complete(symbolMask[subframe], symbols) ==>
          ReadUntil(old(symbolMask[..]), inbox, subframe, symbols) == Returned(symbolMask[..], inbox[taken..], frameRx, ttiRx)
        decreases |inbox| - taken
      {
        if taken == |inbox| {
          return true, taken, frameRx, ttiRx;
        }
        var p := inbox[taken];
        ghost var before := symbolMask[..];
        frameRx, ttiRx := p.frame, p.subframe;
        if p.kind.PulFft? {
          symbolMask[p.subframe] := symbolMask[p.subframe] + {p.symbol};
        } else if p.kind.PulTick? {
          symbolMask[p.subframe] := TickMask();
        }
        assert symbolMask[..] == Apply(before, p);
        taken := taken + 1;
      }
    }
    blocked := false;
    symbolMask[ttiRx] := {};
  }
}
