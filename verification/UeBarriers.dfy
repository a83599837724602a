/** How the NR UE orders its transmit slots (UE_thread and processSlotTX, executables/nr-ue.c, and
    the joins of openair1/SCHED_NR_UE/phy_procedures_nr_ue.c). A transmit slot's job is to start
    once the slot before it has passed its own join point and every downlink transport block whose
    acknowledgement it carries has been decoded. The main thread charges one join per block
    received, to a ring with an entry per slot of a frame; the decoder joins once per codeword. The
    main thread, the decoders and the transmit jobs take steps in any interleaving; a run
    starts at a resynchronisation. */
module UeBarriers {
  import opened Arithmetic
  import opened DynamicBarrier

  /** NUM_PROCESS_SLOT_TX_BARRIERS */
  const BARRIERS: nat := 512

  /** What a slot received: the feedback offset, 0 when nothing is to be acknowledged, and the number
      of codewords. */
  datatype Block = Block(k1: nat, codewords: nat)

  /** A slot without a block to acknowledge. */
  const SILENT: Block := Block(0, 0)

  /** Slots per frame, slots from reception to transmission, and the first slot received. */
  datatype Config = Config(n: nat, d: nat, rx0: nat)
  {
    /** The first transmit slot of the run. */
    function First(): nat { rx0 + d }

    /** What the MAC lets through: it asserts k1 >= d, and a DCI schedules one or two codewords. */
    predicate Accepts(b: Block) { b.k1 == 0 || (d <= b.k1 && 1 <= b.codewords <= 2) }

    /** A feedback offset the ring can carry. */
    predicate Reaches(b: Block) { b.k1 == 0 || d <= b.k1 < d + n }

    /** The transmit slot that acknowledges block i. */
    function Ack(i: nat, b: Block): int { rx0 + i + b.k1 }

    /** The transmit slot that is charged for it: the one slot of the next frame of transmit slots
        with the same place in the ring. */
    function Charge(i: nat, b: Block): int
      requires n > 0
    {
      First() + i + (b.k1 - d) % n
    }
  }

  /** `joined[i]` counts the joins made for block i, `log` lists the transmit slots started, `running`
      those that have not yet joined. `arming` is set between the two halves of an iteration. */
  datatype State = State(c: Config, arming: bool, wait: seq<nat>, barriers: seq<Barrier>,
                         blocks: seq<Block>, joined: seq<nat>, log: seq<nat>, running: set<nat>)
  {
    /** The next transmit slot the main thread will arm. */
    function NextArm(): int { c.First() + |blocks| - (if arming then 1 else 0) }

    /** The first transmit slot not yet started. */
    function Pending(): nat { c.First() + |log| }
  }

  // ---- barrier indices ----

  /** The barrier a transmit slot waits on, from its frame and slot numbers. */
  function WaitIndex(n: nat, t: nat): nat
    requires n > 0
  {
    MulNonNegative(t / n % MAX_FRAMES, n);
    DivRecompose(t, n);
    (t % n + t / n % MAX_FRAMES * n) % BARRIERS
  }

  /** The barrier joined for a block received in slot `rx` with feedback offset k1. */
  function AckIndex(n: nat, rx: nat, k1: nat): nat
    requires n > 0
  {
    MulNonNegative(rx / n % MAX_FRAMES, n);
    DivRecompose(rx, n);
    (rx % n + k1 + rx / n % MAX_FRAMES * n) % BARRIERS
  }

  /** The barrier transmit slot t joins for its successor. */
  function NextIndex(t: nat): nat { (t + 1) % BARRIERS }

  /** Frame numbers wrap every 1024 frames, a multiple of the barrier count, so all three index
      computations agree with the absolute slot. */
  lemma {:induction false} IndicesAgree(n: nat, rx: nat, k1: nat)
    requires n > 0
    ensures AckIndex(n, rx, k1) == (rx + k1) % BARRIERS && WaitIndex(n, rx) == rx % BARRIERS
  {
    var q := rx / n;
    DivRecompose(rx, n);
    var h := q / MAX_FRAMES;
    assert q == h * MAX_FRAMES + q % MAX_FRAMES;
    Distribute(h * MAX_FRAMES, q % MAX_FRAMES, n);
    assert h * MAX_FRAMES * n == BARRIERS * (2 * (h * n));
    Congruent(rx % n + k1 + q % MAX_FRAMES * n, 2 * (h * n));
    Congruent(rx % n + q % MAX_FRAMES * n, 2 * (h * n));
  }

  lemma {:induction false} Congruent(x: int, m: int)
    ensures (x + BARRIERS * m) % BARRIERS == x % BARRIERS
  {}

  // ---- the ring ----

  lemma {:induction false} RingDistinct(n: nat, t: nat, u: nat)
    requires n > 0 && t < u < t + n
    ensures t % n != u % n
  {
    DivRecompose(t, n);
    DivAdd(t, u - t, n);
    var x := t % n + (u - t);
    if x < n {
      DivUnique(x, n, 0, x);
    } else {
      DivUnique(x, n, 1, x - n);
    }
  }

  /** The slot charged for a block lies in the frame of transmit slots that begins with its own, has the
      ring place the source computes, and is the acknowledging slot exactly for d <= k1 < d + n. A
      larger offset charges an earlier slot. */
  lemma {:induction false} ChargedSlot(c: Config, i: nat, b: Block)
    requires c.n > 0
    ensures c.First() + i <= c.Charge(i, b) < c.First() + i + c.n
    ensures c.Charge(i, b) % c.n == ((c.rx0 + i) % c.n + b.k1) % c.n
    ensures c.Charge(i, b) == c.Ack(i, b) <==> c.d <= b.k1 < c.d + c.n
    ensures b.k1 >= c.d + c.n ==> c.Charge(i, b) < c.Ack(i, b)
  {
    var n, rx := c.n, c.rx0 + i;
    DivAdd(rx, b.k1, n);
    DivRecompose(b.k1 - c.d, n);
    DivRecompose(rx + b.k1, n);
    Distribute((rx + b.k1) / n, (b.k1 - c.d) / n, n);
    DivUnique(c.Charge(i, b), n, (rx + b.k1) / n - (b.k1 - c.d) / n, (rx + b.k1) % n);
    if c.d <= b.k1 < c.d + n {
      DivUnique(b.k1 - c.d, n, 0, b.k1 - c.d);
    }
  }

  // ---- counting blocks ----

  predicate Charges(c: Config, blocks: seq<Block>, i: nat, t: int)
    requires c.n > 0 && i < |blocks|
  {
    blocks[i].k1 != 0 && c.Charge(i, blocks[i]) == t
  }

  predicate Acknowledges(c: Config, blocks: seq<Block>, i: nat, t: int)
    requires i < |blocks|
  {
    blocks[i].k1 != 0 && c.Ack(i, blocks[i]) == t
  }

  /** Blocks received whose slot plus k1 is t. */
  function Acks(c: Config, blocks: seq<Block>, t: int): nat {
    if blocks == [] then 0
    else Acks(c, blocks[..|blocks| - 1], t) + (if Acknowledges(c, blocks, |blocks| - 1, t) then 1 else 0)
  }

  /** Blocks received that are charged to t. */
  function Charged(c: Config, blocks: seq<Block>, t: int): nat
    requires c.n > 0
  {
    if blocks == [] then 0
    else Charged(c, blocks[..|blocks| - 1], t) + (if Charges(c, blocks, |blocks| - 1, t) then 1 else 0)
  }

  /** ... and joined for. */
  function Done(c: Config, blocks: seq<Block>, joined: seq<nat>, t: int): nat
    requires c.n > 0 && |joined| == |blocks|
    decreases |blocks|
  {
    if blocks == [] then 0
    else
      var k := |blocks| - 1;
      Done(c, blocks[..k], joined[..k], t) + (if Charges(c, blocks, k, t) && joined[k] > 0 then 1 else 0)
  }

  lemma {:induction false} ChargedAppend(c: Config, blocks: seq<Block>, b: Block, t: int)
    requires c.n > 0
    ensures Charged(c, blocks + [b], t)
            == Charged(c, blocks, t) + (if b.k1 != 0 && c.Charge(|blocks|, b) == t then 1 else 0)
  {
    assert (blocks + [b])[..|blocks|] == blocks;
  }

  lemma {:induction false} DoneAppend(c: Config, blocks: seq<Block>, joined: seq<nat>, b: Block, t: int)
    requires c.n > 0 && |joined| == |blocks|
    ensures Done(c, blocks + [b], joined + [0], t) == Done(c, blocks, joined, t)
  {
    assert (blocks + [b])[..|blocks|] == blocks;
    assert (joined + [0])[..|blocks|] == joined;
  }

  lemma {:induction false} DoneJoin(c: Config, blocks: seq<Block>, joined: seq<nat>, i: nat, t: int)
    requires c.n > 0 && |joined| == |blocks| && i < |blocks| && joined[i] == 0
    ensures Done(c, blocks, joined[i := 1], t)
            == Done(c, blocks, joined, t) + (if Charges(c, blocks, i, t) then 1 else 0)
    decreases |blocks|
  {
    var k := |blocks| - 1;
    if i < k {
      assert joined[i := 1][..k] == joined[..k][i := 1];
      DoneJoin(c, blocks[..k], joined[..k], i, t);
    } else {
      assert joined[i := 1][..k] == joined[..k];
    }
  }

  /** Blocks joined for are among the charged ones, all of them exactly when none is left. */
  lemma {:induction false} DoneAtMost(c: Config, blocks: seq<Block>, joined: seq<nat>, t: int)
    requires c.n > 0 && |joined| == |blocks|
    ensures Done(c, blocks, joined, t) <= Charged(c, blocks, t)
    ensures Done(c, blocks, joined, t) == Charged(c, blocks, t)
            <==> forall i :: 0 <= i < |blocks| && Charges(c, blocks, i, t) ==> joined[i] > 0
    decreases |blocks|
  {
    if blocks != [] {
      var k := |blocks| - 1;
      DoneAtMost(c, blocks[..k], joined[..k], t);
      assert forall i :: 0 <= i < k ==> (Charges(c, blocks, i, t) <==> Charges(c, blocks[..k], i, t));
    }
  }

  /** No block is charged before its own transmit slot or a frame beyond it. */
  lemma {:induction false} ChargeRange(c: Config, blocks: seq<Block>, t: int)
    requires c.n > 0 && (t < c.First() || t >= c.First() + |blocks| + c.n - 1)
    ensures Charged(c, blocks, t) == 0
    decreases |blocks|
  {
    if blocks != [] {
      var k := |blocks| - 1;
      ChargedSlot(c, k, blocks[k]);
      ChargeRange(c, blocks[..k], t);
    }
  }

  /** Later blocks are not charged to slots already reached. */
  lemma {:induction false} ChargedFinal(c: Config, blocks: seq<Block>, more: seq<Block>, t: int)
    requires c.n > 0 && t < c.First() + |blocks|
    ensures Charged(c, blocks + more, t) == Charged(c, blocks, t)
    decreases |more|
  {
    if more == [] {
      assert blocks + more == blocks;
    } else {
      var k := |more| - 1;
      assert (blocks + more)[..|blocks| + k] == blocks + more[..k];
      ChargedFinal(c, blocks, more[..k], t);
      ChargedSlot(c, |blocks| + k, more[k]);
    }
  }

  ghost predicate Accepted(c: Config, blocks: seq<Block>) { forall i :: 0 <= i < |blocks| ==> c.Accepts(blocks[i]) }

  ghost predicate InRange(c: Config, blocks: seq<Block>) { forall i :: 0 <= i < |blocks| ==> c.Reaches(blocks[i]) }

  /** Every block to be acknowledged has one codeword. */
  ghost predicate Single(blocks: seq<Block>) {
    forall i :: 0 <= i < |blocks| && blocks[i].k1 != 0 ==> blocks[i].codewords == 1
  }

  /** Beyond every out-of-range block's slot the two counts agree; at the last one they do not. */
  lemma {:induction false} AcksExceed(c: Config, blocks: seq<Block>, t: int)
    requires c.n > 0 && Accepted(c, blocks)
    requires forall i :: 0 <= i < |blocks| && !c.Reaches(blocks[i]) ==> c.Ack(i, blocks[i]) <= t
    ensures Acks(c, blocks, t) >= Charged(c, blocks, t)
    ensures forall i :: 0 <= i < |blocks| && !c.Reaches(blocks[i]) && c.Ack(i, blocks[i]) == t ==>
              Acks(c, blocks, t) > Charged(c, blocks, t)
    ensures InRange(c, blocks) ==> Acks(c, blocks, t) == Charged(c, blocks, t)
    decreases |blocks|
  {
    if blocks != [] {
      var k := |blocks| - 1;
      AcksExceed(c, blocks[..k], t);
      ChargedSlot(c, k, blocks[k]);
      assert c.Accepts(blocks[k]);
      forall i | 0 <= i < |blocks| && !c.Reaches(blocks[i]) && c.Ack(i, blocks[i]) == t
        ensures Acks(c, blocks, t) > Charged(c, blocks, t)
      {
        if i < k {
          assert blocks[..k][i] == blocks[i];
        }
      }
    }
  }

  lemma {:induction false} LastOutOfRange(c: Config, blocks: seq<Block>) returns (i: nat)
    requires !InRange(c, blocks)
    ensures i < |blocks| && !c.Reaches(blocks[i])
    ensures forall j :: 0 <= j < |blocks| && !c.Reaches(blocks[j]) ==> c.Ack(j, blocks[j]) <= c.Ack(i, blocks[i])
    decreases |blocks|
  {
    var k := |blocks| - 1;
    if InRange(c, blocks[..k]) {
      i := k;
      assert forall j :: 0 <= j < k ==> blocks[..k][j] == blocks[j];
    } else {
      i := LastOutOfRange(c, blocks[..k]);
      assert forall j :: 0 <= j < k ==> blocks[..k][j] == blocks[j];
      if !c.Reaches(blocks[k]) && c.Ack(k, blocks[k]) > c.Ack(i, blocks[i]) {
        i := k;
      }
    }
  }

  /** Every transmit slot is charged for exactly the blocks it acknowledges if and only if every feedback
      offset is in range. */
  lemma {:induction false} ChargesAreAcks(c: Config, blocks: seq<Block>)
    requires c.n > 0 && Accepted(c, blocks)
    ensures (forall t: int :: Charged(c, blocks, t) == Acks(c, blocks, t)) <==> InRange(c, blocks)
  {
    if InRange(c, blocks) {
      forall t: int
        ensures Charged(c, blocks, t) == Acks(c, blocks, t)
      {
        AcksExceed(c, blocks, t);
      }
    } else {
      var i := LastOutOfRange(c, blocks);
      AcksExceed(c, blocks, c.Ack(i, blocks[i]));
    }
  }

  // ---- steps ----

  datatype Step = Preprocess(block: Block) | Arm | Decode(i: nat) | TxJoin(t: nat)

  /** The main thread stays so little ahead of the transmit slots that the barriers do not wrap. */
  predicate Timely(s: State) { |s.blocks| - |s.log| + s.c.n <= BARRIERS }

  predicate Shape(s: State) {
    && s.c.n > 0 && |s.wait| == s.c.n && |s.barriers| == BARRIERS && |s.joined| == |s.blocks|
    && (s.arming ==> s.blocks != [])
  }

  predicate Enabled(s: State, step: Step)
    requires Shape(s)
  {
    match step
    case Preprocess(b) => !s.arming && s.c.Accepts(b) && Timely(s)
    case Arm => s.arming
    case Decode(i) => i < |s.blocks| && s.blocks[i].k1 != 0 && s.joined[i] < s.blocks[i].codewords
    case TxJoin(t) => t in s.running
  }

  /** Storing the barrier, and starting the job it releases, if any. */
  function After(s: State, index: nat, outcome: (Barrier, Fired)): State
    requires index < |s.barriers|
  {
    var s1 := s.(barriers := s.barriers[index := outcome.0]);
    match outcome.1
    case Nothing => s1
    case Starts(job) => s1.(log := s.log + [job], running := s.running + {job})
  }

  /** The ring place of a block's acknowledgement (UE_dl_preprocessing). */
  function RingIndex(s: State, k1: nat): nat
    requires s.c.n > 0
  {
    DivRecompose(s.c.rx0 + |s.blocks|, s.c.n);
    DivRecompose((s.c.rx0 + |s.blocks|) % s.c.n + k1, s.c.n);
    ((s.c.rx0 + |s.blocks|) % s.c.n + k1) % s.c.n
  }

  function Next(s: State, step: Step): State
    requires Shape(s) && Enabled(s, step)
  {
    match step
    case Preprocess(b) =>
      s.(arming := true, blocks := s.blocks + [b], joined := s.joined + [0],
         wait := if b.k1 == 0 then s.wait else s.wait[RingIndex(s, b.k1) := s.wait[RingIndex(s, b.k1)] + 1])
    case Arm =>
      var t: nat := s.NextArm();
      DivRecompose(t, s.c.n);
      var joins := s.wait[t % s.c.n] + (if t == s.c.First() then 0 else 1);
      var index := WaitIndex(s.c.n, t);
      After(s, index, OnUpdate(s.barriers[index], joins, t)).(arming := false, wait := s.wait[t % s.c.n := 0])
    case Decode(i) =>
      var index := AckIndex(s.c.n, s.c.rx0 + i, s.blocks[i].k1);
      After(s, index, OnJoin(s.barriers[index])).(joined := s.joined[i := s.joined[i] + 1])
    case TxJoin(t) =>
      After(s.(running := s.running - {t}), NextIndex(t), OnJoin(s.barriers[NextIndex(t)]))
  }

  function Init(c: Config): State {
    State(c, false, seq(c.n, _ => 0), seq(BARRIERS, _ => Barrier(0, NotArmed)), [], [], [], {})
  }

  datatype Outcome = Stuck | At(s: State)

  /** Where a sequence of steps leads from the start; any interleaving is such a sequence. */
  function Run(c: Config, steps: seq<Step>): Outcome
    decreases |steps|
  {
    if steps == [] then At(Init(c))
    else
      var k := |steps| - 1;
      match Run(c, steps[..k])
      case Stuck => Stuck
      case At(s) => if Shape(s) && Enabled(s, steps[k]) then At(Next(s, steps[k])) else Stuck
  }

  lemma {:induction false} RunAppend(c: Config, steps: seq<Step>, step: Step)
    requires Run(c, steps).At? && Shape(Run(c, steps).s) && Enabled(Run(c, steps).s, step)
    ensures Run(c, steps + [step]) == At(Next(Run(c, steps).s, step))
  {
    assert (steps + [step])[..|steps|] == steps;
  }

  // ---- what is charged, on every run ----

  /** The ring holds the counts of the next frame of transmit slots. */
  ghost predicate RingExact(s: State)
    requires Shape(s)
  {
    forall t :: s.NextArm() <= t < s.NextArm() + s.c.n ==> s.wait[t % s.c.n] == Charged(s.c, s.blocks, t)
  }

  lemma {:induction false} PreprocessRing(s: State, b: Block)
    requires Shape(s) && RingExact(s) && Enabled(s, Preprocess(b))
    ensures RingExact(Next(s, Preprocess(b)))
  {
    var s', n := Next(s, Preprocess(b)), s.c.n;
    var charge := s.c.Charge(|s.blocks|, b);
    ChargedSlot(s.c, |s.blocks|, b);
    forall u | s'.NextArm() <= u < s'.NextArm() + n
      ensures s'.wait[u % n] == Charged(s.c, s'.blocks, u)
    {
      DivRecompose(u, n);
      ChargedAppend(s.c, s.blocks, b, u);
      if u < charge {
        RingDistinct(n, u, charge);
      } else if charge < u {
        RingDistinct(n, charge, u);
      }
    }
  }

  lemma {:induction false} ArmRing(s: State)
    requires Shape(s) && RingExact(s) && s.arming
    ensures RingExact(Next(s, Arm))
  {
    var t: nat := s.NextArm();
    var s', n := Next(s, Arm), s.c.n;
    forall u | s'.NextArm() <= u < s'.NextArm() + n
      ensures s'.wait[u % n] == Charged(s.c, s.blocks, u)
    {
      DivRecompose(u, n);
      if u < t + n {
        RingDistinct(n, t, u);
      } else {
        DivAdd(t, n, n);
        DivRecompose(t, n);
        DivUnique(t % n + n, n, 1, t % n);
        ChargeRange(s.c, s.blocks, u);
      }
    }
  }

  /** Every step keeps the ring exact, whatever the offsets and the codewords. */
  lemma {:induction false} RingKept(s: State, step: Step)
    requires Shape(s) && RingExact(s) && Enabled(s, step)
    ensures Shape(Next(s, step)) && RingExact(Next(s, step))
  {
    match step
    case Preprocess(b) => PreprocessRing(s, b);
    case Arm => ArmRing(s);
    case _ =>
  }

  lemma {:induction false} RingInit(c: Config)
    requires c.n > 0
    ensures Shape(Init(c)) && RingExact(Init(c))
  {
    var s := Init(c);
    forall t | s.NextArm() <= t < s.NextArm() + c.n
      ensures s.wait[t % c.n] == Charged(c, [], t)
    {
      DivRecompose(t, c.n);
    }
  }

  /** On every run: the shape, the ring, and what never changes. */
  lemma {:induction false} RunRing(c: Config, steps: seq<Step>)
    requires c.n > 0 && Run(c, steps).At?
    ensures var s := Run(c, steps).s; Shape(s) && RingExact(s) && s.c == c && Accepted(c, s.blocks)
    decreases |steps|
  {
    if steps == [] {
      RingInit(c);
    } else {
      var k := |steps| - 1;
      RunRing(c, steps[..k]);
      RingKept(Run(c, steps[..k]).s, steps[k]);
    }
  }

  lemma {:induction false} BlocksGrow(c: Config, steps: seq<Step>, more: seq<Step>)
    requires c.n > 0 && Run(c, steps + more).At?
    ensures Run(c, steps).At? && Run(c, steps).s.blocks <= Run(c, steps + more).s.blocks
    decreases |more|
  {
    if more == [] {
      assert steps + more == steps;
    } else {
      var k := |more| - 1;
      assert (steps + more)[..|steps| + k] == steps + more[..k];
      BlocksGrow(c, steps, more[..k]);
    }
  }

  /** On every run the count a transmit slot is armed with is the number of blocks charged to it, and no
      block received later adds to it. */
  lemma {:induction false} ChargedExactly(c: Config, steps: seq<Step>, more: seq<Step>)
    requires c.n > 0 && Run(c, steps + more).At? && Run(c, steps).At? && Run(c, steps).s.arming
    ensures var s, later := Run(c, steps).s, Run(c, steps + more).s;
            && |s.wait| == c.n
            && s.wait[s.NextArm() % c.n] == Charged(c, s.blocks, s.NextArm()) == Charged(c, later.blocks, s.NextArm())
  {
    RunRing(c, steps);
    BlocksGrow(c, steps, more);
    ChargedNext(Run(c, steps).s, Run(c, steps + more).s.blocks);
  }

  lemma {:induction false} ChargedNext(s: State, later: seq<Block>)
    requires Shape(s) && RingExact(s) && s.arming && s.blocks <= later
    ensures s.wait[s.NextArm() % s.c.n] == Charged(s.c, s.blocks, s.NextArm()) == Charged(s.c, later, s.NextArm())
  {
    DivRecompose(s.NextArm(), s.c.n);
    ChargedFinal(s.c, s.blocks, later[|s.blocks|..], s.NextArm());
    hide Charged;
    assert s.blocks + later[|s.blocks|..] == later;
  }

  // ---- the invariant of runs whose joins are those charged ----

  /** Joins a transmit slot needs: those charged, and its predecessor except at the start. */
  function Needed(s: State, t: int): nat
    requires s.c.n > 0
  {
    Charged(s.c, s.blocks, t) + (if t > s.c.First() then 1 else 0)
  }

  /** Joins it has had. */
  function Had(s: State, t: int): nat
    requires s.c.n > 0 && |s.joined| == |s.blocks|
  {
    Done(s.c, s.blocks, s.joined, t) + (if t == s.Pending() && t > s.c.First() && s.running == {} then 1 else 0)
  }

  /** What the barrier of an unstarted transmit slot holds. */
  function Expected(s: State, t: nat): Barrier
    requires s.c.n > 0 && |s.joined| == |s.blocks|
  {
    Barrier(Had(s, t), if t < s.NextArm() then Armed(Needed(s, t), t) else NotArmed)
  }

  ghost predicate InOrder(s: State) {
    && (forall k :: 0 <= k < |s.log| ==> s.log[k] == s.c.First() + k)
    && s.Pending() <= s.NextArm()
    && (s.running == {} || (s.log != [] && s.running == {s.Pending() - 1}))
  }

  /** No block has been joined for twice, and none whose offset is out of range. */
  ghost predicate JoinsCharged(s: State)
    requires |s.joined| == |s.blocks|
  {
    forall i :: 0 <= i < |s.blocks| ==>
      s.joined[i] == 0 || (s.joined[i] == 1 && s.blocks[i].k1 != 0 && s.c.Reaches(s.blocks[i]))
  }

  /** Every barrier holds the joins of exactly one unstarted slot. */
  ghost predicate BarriersExact(s: State)
    requires Shape(s)
  {
    forall t :: s.Pending() <= t < s.Pending() + BARRIERS ==> s.barriers[t % BARRIERS] == Expected(s, t)
  }

  /** Started slots have had all joins charged. */
  ghost predicate PastDone(s: State)
    requires Shape(s)
  {
    forall t :: t < s.Pending() ==> Done(s.c, s.blocks, s.joined, t) == Charged(s.c, s.blocks, t)
  }

  ghost predicate Consistent(s: State) {
    && Shape(s) && InOrder(s) && JoinsCharged(s) && RingExact(s) && BarriersExact(s) && PastDone(s)
    && |s.blocks| - |s.log| + s.c.n <= BARRIERS + 1
  }

  /** ... and the first unstarted slot, once armed, still lacks a join. */
  ghost predicate Inv(s: State) {
    Consistent(s) && (s.Pending() < s.NextArm() ==> Had(s, s.Pending()) < Needed(s, s.Pending()))
  }

  lemma {:induction false} InitInv(c: Config)
    requires 0 < c.n <= BARRIERS
    ensures Inv(Init(c))
  {
    RingInit(c);
  }

  /** A step that makes no join beyond those charged: the first for a block in range. */
  predicate Ordinary(s: State, step: Step)
    requires Shape(s) && Enabled(s, step)
  {
    step.Decode? ==> s.joined[step.i] == 0 && s.c.Reaches(s.blocks[step.i])
  }

  /** A slot's joins never exceed what it needs, and only the first unstarted slot can have all. */
  lemma {:induction false} HadAtMost(s: State, t: nat)
    requires Shape(s) && t >= s.Pending()
    ensures Had(s, t) <= Needed(s, t)
    ensures Had(s, t) == Needed(s, t) && t > s.c.First() ==> t == s.Pending() && s.running == {}
  {
    DoneAtMost(s.c, s.blocks, s.joined, t);
  }

  /** Two slots less than a round of barriers apart use different barriers. */
  lemma {:induction false} BarriersDistinct(low: nat, t: nat, u: nat)
    requires low <= t < low + BARRIERS && low <= u < low + BARRIERS && t != u
    ensures t % BARRIERS != u % BARRIERS
  {}

  /** The state in which the first unstarted slot has just been started. */
  function Started(s: State): State
    requires |s.barriers| == BARRIERS
  {
    var t := s.Pending();
    s.(barriers := s.barriers[t % BARRIERS := Barrier(0, NotArmed)], log := s.log + [t], running := s.running + {t})
  }

  lemma {:induction false} StartBarrier(s: State, u: nat)
    requires Consistent(s) && s.running == {} && s.Pending() < u <= s.Pending() + BARRIERS
    ensures Started(s).barriers[u % BARRIERS] == Expected(Started(s), u)
  {
    hide RingExact;
    hide PastDone;
    hide JoinsCharged;
    if u < s.Pending() + BARRIERS {
      hide Charged;
      hide Done;
      BarriersDistinct(s.Pending(), s.Pending(), u);
      assert s.barriers[u % BARRIERS] == Expected(s, u);
    } else {
      ChargeRange(s.c, s.blocks, u);
      DoneAtMost(s.c, s.blocks, s.joined, u);
    }
  }

  lemma {:induction false} StartBarriers(s: State)
    requires Consistent(s) && s.running == {}
    ensures BarriersExact(Started(s))
  {
    var s' := Started(s);
    forall u | s'.Pending() <= u < s'.Pending() + BARRIERS
      ensures s'.barriers[u % BARRIERS] == Expected(s', u)
    {
      StartBarrier(s, u);
    }
  }

  lemma {:induction false} StartKeeps(s: State)
    requires Consistent(s) && s.Pending() < s.NextArm() && Had(s, s.Pending()) == Needed(s, s.Pending())
    ensures Inv(Started(s))
  {
    hide Charged;
    hide Done;
    var t, s' := s.Pending(), Started(s);
    HadAtMost(s, t);
    ChargeRange(s.c, s.blocks, s.c.First() - 1);
    assert s.running == {};
    StartBarriers(s);
    hide BarriersExact;
    DoneAtMost(s.c, s.blocks, s.joined, t);
    DoneAtMost(s.c, s.blocks, s.joined, t + 1);
  }

  /** A join for slot t, not yet counting a start it may cause. */
  function Joined(s: State, t: nat): State
    requires |s.barriers| == BARRIERS
  {
    var b := s.barriers[t % BARRIERS];
    s.(barriers := s.barriers[t % BARRIERS := b.(completed := b.completed + 1)])
  }

  /** A join that leaves a consistent state leaves the invariant, once it has started the slot it
      completes. */
  lemma {:induction false} JoinKeeps(s: State, s1: State, t: nat)
    requires Inv(s) && Consistent(s1) && s.Pending() <= t < s.Pending() + BARRIERS
    requires s1.barriers == Joined(s, t).barriers && s1.log == s.log && s1.blocks == s.blocks
    requires s1.arming == s.arming && s1.c == s.c
    requires Had(s1, t) == Had(s, t) + 1 && (t != s.Pending() ==> Had(s1, s.Pending()) == Had(s, s.Pending()))
    ensures var s2 := After(s1, t % BARRIERS, OnJoin(s.barriers[t % BARRIERS]));
            && Inv(s2)
            && (s2 == s1 || (s2 == Started(s1) && t == s.Pending() < s.NextArm() && Had(s1, t) == Needed(s1, t)))
  {
    hide Charged;
    hide Done;
    assert s.barriers[t % BARRIERS] == Expected(s, t);
    HadAtMost(s1, t);
    var s2 := After(s1, t % BARRIERS, OnJoin(s.barriers[t % BARRIERS]));
    if t < s.NextArm() && Had(s1, t) == Needed(s1, t) {
      assert t == s.Pending();
      StartKeeps(s1);
      assert s2.barriers == Started(s1).barriers;
    } else {
      assert s2.barriers == s1.barriers;
    }
  }

  /** A block in range not joined for belongs to a slot that has not started, within the barriers' reach. */
  lemma {:induction false} DecodeTarget(s: State, i: nat)
    requires Inv(s) && Enabled(s, Decode(i)) && Ordinary(s, Decode(i))
    ensures s.c.Charge(i, s.blocks[i]) == s.c.Ack(i, s.blocks[i])
    ensures s.Pending() <= s.c.Ack(i, s.blocks[i]) < s.Pending() + BARRIERS
    ensures AckIndex(s.c.n, s.c.rx0 + i, s.blocks[i].k1) == s.c.Ack(i, s.blocks[i]) % BARRIERS
  {
    var t := s.c.Ack(i, s.blocks[i]);
    IndicesAgree(s.c.n, s.c.rx0 + i, s.blocks[i].k1);
    ChargedSlot(s.c, i, s.blocks[i]);
    assert Charges(s.c, s.blocks, i, t);
    DoneAtMost(s.c, s.blocks, s.joined, t);
  }

  /** The state with block i joined for and its join counted. */
  function DecodeJoined(s: State, i: nat): State
    requires Shape(s) && i < |s.blocks|
  {
    Joined(s, s.c.Ack(i, s.blocks[i])).(joined := s.joined[i := 1])
  }

  lemma {:induction false} DecodeCounts(s: State, i: nat)
    requires Inv(s) && Enabled(s, Decode(i)) && Ordinary(s, Decode(i))
    ensures forall u: int :: Done(s.c, s.blocks, s.joined[i := 1], u)
              == Done(s.c, s.blocks, s.joined, u) + (if u == s.c.Ack(i, s.blocks[i]) then 1 else 0)
  {
    DecodeTarget(s, i);
    forall u: int
      ensures Done(s.c, s.blocks, s.joined[i := 1], u)
              == Done(s.c, s.blocks, s.joined, u) + (if u == s.c.Ack(i, s.blocks[i]) then 1 else 0)
    {
      DoneJoin(s.c, s.blocks, s.joined, i, u);
    }
  }

  lemma {:induction false} DecodeBarriers(s: State, i: nat)
    requires Inv(s) && Enabled(s, Decode(i)) && Ordinary(s, Decode(i))
    ensures BarriersExact(DecodeJoined(s, i))
  {
    hide Charged;
    hide Done;
    hide AckIndex;
    var t, s1 := s.c.Ack(i, s.blocks[i]), DecodeJoined(s, i);
    DecodeTarget(s, i);
    forall u | s.Pending() <= u < s.Pending() + BARRIERS
      ensures s1.barriers[u % BARRIERS] == Expected(s1, u)
    {
      assert s.barriers[u % BARRIERS] == Expected(s, u);
      DecodeCounts(s, i);
      if u != t {
        BarriersDistinct(s.Pending(), u, t);
      }
    }
  }

  lemma {:induction false} DecodeConsistent(s: State, i: nat)
    requires Inv(s) && Enabled(s, Decode(i)) && Ordinary(s, Decode(i))
    ensures Consistent(DecodeJoined(s, i))
  {
    hide Charged;
    hide Done;
    hide AckIndex;
    DecodeTarget(s, i);
    DecodeCounts(s, i);
    DecodeBarriers(s, i);
    hide BarriersExact;
  }

  lemma {:induction false} DecodeKeeps(s: State, i: nat)
    requires Inv(s) && Enabled(s, Decode(i)) && Ordinary(s, Decode(i))
    ensures Inv(Next(s, Decode(i)))
    ensures s.c.Ack(i, s.blocks[i]) >= s.NextArm() || s.running != {} ==> Next(s, Decode(i)).log == s.log
    ensures Next(s, Decode(i)).log == s.log ==> Next(s, Decode(i)).running == s.running
  {
    hide *;
    InvShape(s);
    DecodeIndex(s, i);
    var t, s1 := s.c.Ack(i, s.blocks[i]), DecodeJoined(s, i);
    DecodeTarget(s, i);
    DecodeConsistent(s, i);
    DecodeHad(s, i);
    DecodeIs(s, i, t);
    JoinKeeps(s, s1, t);
    StartedOnly(s1);
  }

  lemma {:induction false} InvShape(s: State)
    requires Inv(s)
    ensures Shape(s) && |s.barriers| == BARRIERS > 0 && |s.joined| == |s.blocks| && s.c.n > 0
  {}

  lemma {:induction false} DecodeIndex(s: State, i: nat)
    requires Shape(s) && Enabled(s, Decode(i))
    ensures i < |s.blocks|
  {}

  lemma {:induction false} StartedOnly(s: State)
    requires |s.barriers| == BARRIERS
    ensures Started(s).log == s.log + [s.Pending()]
  {}

  lemma {:induction false} DecodeIs(s: State, i: nat, t: nat)
    requires Shape(s) && Enabled(s, Decode(i)) && s.joined[i] == 0 && s.c.Ack(i, s.blocks[i]) == t
    requires AckIndex(s.c.n, s.c.rx0 + i, s.blocks[i].k1) == t % BARRIERS
    ensures var s1 := DecodeJoined(s, i);
            && s1.barriers == Joined(s, t).barriers && |s1.barriers| == BARRIERS && s1.log == s.log && s1.blocks == s.blocks
            && s1.arming == s.arming && s1.c == s.c && s1.running == s.running && s1.joined == s.joined[i := 1]
            && Next(s, Decode(i)) == After(s1, t % BARRIERS, OnJoin(s.barriers[t % BARRIERS]))
  {
    hide AckIndex;
  }

  /** Only the acknowledging slot has one join more; so if its predecessor is running it lacks one still. */
  lemma {:induction false} DecodeHad(s: State, i: nat)
    requires Inv(s) && Enabled(s, Decode(i)) && Ordinary(s, Decode(i))
    ensures var s1, t := DecodeJoined(s, i), s.c.Ack(i, s.blocks[i]);
            && Shape(s1) && Shape(s) && s.joined[i] == 0 && t >= 0 && Had(s1, t) == Had(s, t) + 1
            && (t != s.Pending() ==> Had(s1, s.Pending()) == Had(s, s.Pending()))
            && (s.running != {} && s.Pending() < s.NextArm() ==> Had(s1, s.Pending()) < Needed(s1, s.Pending()))
  {
    hide Charged;
    hide Done;
    hide AckIndex;
    hide RingExact;
    hide BarriersExact;
    var s1 := DecodeJoined(s, i);
    DecodeCounts(s, i);
    if s.Pending() > s.c.First() || s.running == {} {
      HadAtMost(s1, s.Pending());
    }
  }

  lemma {:induction false} TxJoinKeeps(s: State, t: nat)
    requires Inv(s) && Enabled(s, TxJoin(t))
    ensures Inv(Next(s, TxJoin(t)))
    ensures s.Pending() >= s.NextArm() ==> Next(s, TxJoin(t)).log == s.log && Next(s, TxJoin(t)).running == {}
  {
    hide *;
    InvShape(s);
    TxJoinConsistent(s, t);
    TxJoinIs(s, t);
    JoinedOnly(s, t + 1);
    JoinKeeps(s, Joined(s, t + 1).(running := {}), t + 1);
  }

  lemma {:induction false} JoinedOnly(s: State, t: nat)
    requires |s.barriers| == BARRIERS
    ensures Joined(s, t) == s.(barriers := Joined(s, t).barriers) && |Joined(s, t).barriers| == BARRIERS
  {}

  lemma {:induction false} TxJoinIs(s: State, t: nat)
    requires Shape(s) && s.running == {t}
    ensures var s1 := Joined(s, t + 1).(running := {});
            Next(s, TxJoin(t)) == After(s1, (t + 1) % BARRIERS, OnJoin(s.barriers[(t + 1) % BARRIERS]))
  {
    assert s.running - {t} == {};
  }

  lemma {:induction false} TxJoinConsistent(s: State, t: nat)
    requires Inv(s) && Enabled(s, TxJoin(t))
    ensures var s1 := Joined(s, t + 1).(running := {});
            Consistent(s1) && Had(s1, t + 1) == Had(s, t + 1) + 1 && s.Pending() == t + 1 && s.running == {t} && Shape(s)
  {
    hide Charged;
    hide Done;
    hide RingExact;
    hide BarriersExact;
    var s1 := Joined(s, t + 1).(running := {});
    TxJoinBarriers(s, t);
    RingOnly(s, s1);
  }

  lemma {:induction false} RingOnly(s: State, s': State)
    requires Shape(s) && RingExact(s) && Shape(s') && s'.wait == s.wait && s'.blocks == s.blocks && s'.c == s.c && s'.arming == s.arming
    ensures RingExact(s')
  {}

  lemma {:induction false} TxJoinBarriers(s: State, t: nat)
    requires Inv(s) && Enabled(s, TxJoin(t))
    ensures t + 1 == s.Pending() && s.running == {t} && BarriersExact(Joined(s, t + 1).(running := {}))
  {
    hide Charged;
    hide Done;
    hide RingExact;
    hide PastDone;
    hide JoinsCharged;
    var s1 := Joined(s, t + 1).(running := {});
    forall u | s.Pending() <= u < s.Pending() + BARRIERS
      ensures s1.barriers[u % BARRIERS] == Expected(s1, u)
    {
      assert s.barriers[u % BARRIERS] == Expected(s, u);
      if u != t + 1 {
        BarriersDistinct(s.Pending(), u, t + 1);
      }
    }
  }

  /** The state with the next slot armed, not yet counting a start this may cause. */
  function ArmedState(s: State): State
    requires Shape(s) && s.arming
  {
    var t: nat := s.NextArm();
    DivRecompose(t, s.c.n);
    s.(arming := false, wait := s.wait[t % s.c.n := 0],
       barriers := s.barriers[t % BARRIERS := s.barriers[t % BARRIERS].(arming := Armed(Needed(s, t), t))])
  }

  lemma {:induction false} ArmBarriers(s: State)
    requires Inv(s) && s.arming && s.NextArm() < s.Pending() + BARRIERS
    ensures BarriersExact(ArmedState(s))
  {
    hide Charged;
    hide Done;
    var t, s1 := s.NextArm(), ArmedState(s);
    forall u | s1.Pending() <= u < s1.Pending() + BARRIERS
      ensures s1.barriers[u % BARRIERS] == Expected(s1, u)
    {
      assert s.barriers[u % BARRIERS] == Expected(s, u);
      if u != t {
        BarriersDistinct(s.Pending(), u, t);
      }
    }
  }

  lemma {:induction false} ArmConsistent(s: State)
    requires Inv(s) && s.arming
    ensures Consistent(ArmedState(s))
  {
    hide Charged;
    hide Done;
    ArmRing(s);
    assert RingExact(ArmedState(s));
    hide RingExact;
    ArmBarriers(s);
    hide BarriersExact;
  }

  lemma {:induction false} ArmKeeps(s: State)
    requires Inv(s) && s.arming
    ensures Inv(Next(s, Arm))
    ensures Next(s, Arm).log == s.log ==> Next(s, Arm).running == s.running
  {
    hide *;
    InvShape(s);
    ArmReady(s);
    ArmConsistent(s);
    ArmIs(s);
    if Had(s, s.NextArm()) == Needed(s, s.NextArm()) {
      StartKeeps(ArmedState(s));
      StartedOnly(ArmedState(s));
    } else {
      StillLacks(s);
    }
  }

  lemma {:induction false} ArmReady(s: State)
    requires Shape(s) && s.arming
    ensures s.NextArm() >= 0 && Enabled(s, Arm)
  {}

  /** Arming a slot starts it exactly when it has had its joins, and then it is the first unstarted one. */
  lemma {:induction false} ArmIs(s: State)
    requires Inv(s) && s.arming && s.NextArm() >= 0
    ensures var s1, t := ArmedState(s), s.NextArm();
            && |s1.barriers| == BARRIERS && s1.log == s.log && s1.running == s.running && Shape(s1)
            && if Had(s, t) == Needed(s, t)
               then t == s.Pending() && Next(s, Arm) == Started(s1) && s1.Pending() < s1.NextArm()
                    && Had(s1, s1.Pending()) == Needed(s1, s1.Pending())
               else Next(s, Arm) == s1
  {
    var t: nat := s.NextArm();
    hide Charged;
    hide Done;
    hide PastDone;
    hide JoinsCharged;
    DivRecompose(t, s.c.n);
    IndicesAgree(s.c.n, t, 0);
    hide WaitIndex;
    assert s.barriers[t % BARRIERS] == Expected(s, t);
    assert s.wait[t % s.c.n] == Charged(s.c, s.blocks, t);
    HadAtMost(s, t);
    hide RingExact;
    hide BarriersExact;
    if Had(s, t) == Needed(s, t) {
      assert Next(s, Arm).barriers == Started(ArmedState(s)).barriers;
    } else {
      assert Next(s, Arm).barriers == ArmedState(s).barriers;
    }
  }

  lemma {:induction false} StillLacks(s: State)
    requires Inv(s) && s.arming && s.NextArm() >= 0 && Consistent(ArmedState(s)) && Had(s, s.NextArm()) != Needed(s, s.NextArm())
    ensures Inv(ArmedState(s))
  {
    hide Charged;
    hide Done;
    hide RingExact;
    hide BarriersExact;
    hide PastDone;
    HadAtMost(s, s.NextArm());
  }

  lemma {:induction false} PreprocessKeeps(s: State, b: Block)
    requires Inv(s) && Enabled(s, Preprocess(b))
    ensures Inv(Next(s, Preprocess(b)))
  {
    hide Charged;
    hide Done;
    hide RingExact;
    var s' := Next(s, Preprocess(b));
    PreprocessRing(s, b);
    PreprocessCounts(s, b);
    PreprocessBarriers(s, b);
    hide BarriersExact;
    ChargedSlot(s.c, |s.blocks|, b);
    assert s'.Pending() == s.Pending() && s'.NextArm() == s.NextArm();
    assert forall u: int :: u < s.NextArm() ==> Charged(s.c, s'.blocks, u) == Charged(s.c, s.blocks, u);
  }

  lemma {:induction false} PreprocessCounts(s: State, b: Block)
    requires Shape(s) && Enabled(s, Preprocess(b))
    ensures var s' := Next(s, Preprocess(b));
            && (forall u: int :: Charged(s.c, s'.blocks, u)
                  == Charged(s.c, s.blocks, u) + (if b.k1 != 0 && s.c.Charge(|s.blocks|, b) == u then 1 else 0))
            && (forall u: int :: Done(s.c, s'.blocks, s'.joined, u) == Done(s.c, s.blocks, s.joined, u))
  {
    hide Charged;
    hide Done;
    forall u: int
      ensures Charged(s.c, s.blocks + [b], u)
              == Charged(s.c, s.blocks, u) + (if b.k1 != 0 && s.c.Charge(|s.blocks|, b) == u then 1 else 0)
      ensures Done(s.c, s.blocks + [b], s.joined + [0], u) == Done(s.c, s.blocks, s.joined, u)
    {
      ChargedAppend(s.c, s.blocks, b, u);
      DoneAppend(s.c, s.blocks, s.joined, b, u);
    }
  }

  lemma {:induction false} PreprocessBarriers(s: State, b: Block)
    requires Inv(s) && Enabled(s, Preprocess(b))
    ensures BarriersExact(Next(s, Preprocess(b)))
  {
    hide Charged;
    hide Done;
    hide RingExact;
    hide PastDone;
    hide JoinsCharged;
    var s' := Next(s, Preprocess(b));
    PreprocessCounts(s, b);
    ChargedSlot(s.c, |s.blocks|, b);
    forall u | s'.Pending() <= u < s'.Pending() + BARRIERS
      ensures s'.barriers[u % BARRIERS] == Expected(s', u)
    {
      assert s.barriers[u % BARRIERS] == Expected(s, u);
    }
  }

  /** Every step that makes no surplus join keeps the invariant, whoever takes it. */
  lemma {:induction false} InvKept(s: State, step: Step)
    requires Inv(s) && Enabled(s, step) && Ordinary(s, step)
    ensures Inv(Next(s, step))
  {
    match step
    case Preprocess(b) => PreprocessKeeps(s, b);
    case Arm => ArmKeeps(s);
    case Decode(i) => DecodeKeeps(s, i);
    case TxJoin(t) => TxJoinKeeps(s, t);
  }
}
