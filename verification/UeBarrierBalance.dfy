/** When every run of the transmit-slot protocol is safe and prompt, for every sequence of blocks the MAC
    lets through. The joins a slot will get, one per codeword of the blocks it acknowledges, have to
    be those it is charged; if they are not, a run that makes all joins in time stalls there. */
module UeBarrierBalance {
  import opened Arithmetic
  import opened DynamicBarrier
  import opened UeBarriers
  import opened UeBarrierRuns

  /** The joins transmit slot t gets in the end. */
  function Joins(c: Config, blocks: seq<Block>, t: int): nat {
    if blocks == [] then 0
    else
      var k := |blocks| - 1;
      Joins(c, blocks[..k], t) + (if Acknowledges(c, blocks, k, t) then blocks[k].codewords else 0)
  }

  /** At least one per block it acknowledges, and more with two codewords. */
  lemma {:induction false} JoinsAtLeast(c: Config, blocks: seq<Block>, t: int)
    requires Accepted(c, blocks)
    ensures Joins(c, blocks, t) >= Acks(c, blocks, t)
    ensures forall i :: 0 <= i < |blocks| && Acknowledges(c, blocks, i, t) && blocks[i].codewords == 2 ==>
              Joins(c, blocks, t) > Acks(c, blocks, t)
    decreases |blocks|
  {
    if blocks != [] {
      var k := |blocks| - 1;
      assert c.Accepts(blocks[k]);
      assert Accepted(c, blocks[..k]);
      JoinsAtLeast(c, blocks[..k], t);
      assert forall i :: 0 <= i < k ==> (Acknowledges(c, blocks, i, t) <==> Acknowledges(c, blocks[..k], i, t));
    }
  }

  /** Some slot gets other joins than it is charged, unless every block has one codeword and is in range. */
  lemma {:induction false} Unbalanced(c: Config, blocks: seq<Block>) returns (t: int)
    requires c.n > 0 && Accepted(c, blocks) && !(Single(blocks) && InRange(c, blocks))
    ensures t >= c.First() && Joins(c, blocks, t) != Charged(c, blocks, t)
  {
    var i: nat;
    if !InRange(c, blocks) {
      i := LastOutOfRange(c, blocks);
    } else {
      i :| 0 <= i < |blocks| && blocks[i].k1 != 0 && blocks[i].codewords != 1;
    }
    t := c.Ack(i, blocks[i]);
    assert c.Accepts(blocks[i]);
    assert Acknowledges(c, blocks, i, t);
    AcksExceed(c, blocks, t);
    JoinsAtLeast(c, blocks, t);
  }

  // ---- what has been received by the time a slot is armed ----

  /** The first m blocks of a plan. */
  function Prefix(plan: seq<Block>, m: nat): seq<Block> {
    seq(m, k => if 0 <= k < |plan| then plan[k] else SILENT)
  }

  lemma {:induction false} PrefixAccepted(c: Config, plan: seq<Block>, m: nat)
    requires Accepted(c, plan)
    ensures Accepted(c, Prefix(plan, m)) && Follows(Prefix(plan, m), plan)
  {}

  /** A block received later is neither charged to nor acknowledged by a slot already reached. */
  lemma {:induction false} LaterBlock(c: Config, blocks: seq<Block>, b: Block, t: int)
    requires c.n > 0 && c.Accepts(b) && (t < c.First() + |blocks| || b == SILENT)
    ensures Charged(c, blocks + [b], t) == Charged(c, blocks, t) && Joins(c, blocks + [b], t) == Joins(c, blocks, t)
  {
    assert (blocks + [b])[..|blocks|] == blocks;
    ChargedAppend(c, blocks, b, t);
    ChargedSlot(c, |blocks|, b);
  }

  lemma {:induction false} CountsSettle(c: Config, plan: seq<Block>, t: int, m: nat, m': nat)
    requires c.n > 0 && Accepted(c, plan) && m <= m' && (t < c.First() + m || m >= |plan|)
    ensures Charged(c, Prefix(plan, m'), t) == Charged(c, Prefix(plan, m), t)
    ensures Joins(c, Prefix(plan, m'), t) == Joins(c, Prefix(plan, m), t)
    decreases m'
  {
    if m < m' {
      CountsSettle(c, plan, t, m, m' - 1);
      var b := if m' - 1 < |plan| then plan[m' - 1] else SILENT;
      LaterBlock(c, Prefix(plan, m' - 1), b, t);
      assert Prefix(plan, m') == Prefix(plan, m' - 1) + [b];
    }
  }

  /** The slot armed after m + 1 blocks gets the joins it is charged. */
  predicate Balanced(c: Config, plan: seq<Block>, m: nat)
    requires c.n > 0
  {
    Joins(c, Prefix(plan, m + 1), c.First() + m) == Charged(c, Prefix(plan, m + 1), c.First() + m)
  }

  lemma {:induction false} SomeUnbalanced(c: Config, plan: seq<Block>) returns (m: nat)
    requires c.n > 0 && Accepted(c, plan) && !(Single(plan) && InRange(c, plan))
    ensures !Balanced(c, plan, m)
  {
    var t := Unbalanced(c, plan);
    m := t - c.First();
    assert Prefix(plan, |plan|) == plan;
    if m + 1 <= |plan| {
      CountsSettle(c, plan, t, m + 1, |plan|);
    } else {
      CountsSettle(c, plan, t, |plan|, m + 1);
    }
  }

  lemma {:induction false} FirstUnbalanced(c: Config, plan: seq<Block>, from: nat, m: nat) returns (first: nat)
    requires c.n > 0 && from <= m && !Balanced(c, plan, m) && forall k :: 0 <= k < from ==> Balanced(c, plan, k)
    ensures !Balanced(c, plan, first) && forall k :: 0 <= k < first ==> Balanced(c, plan, k)
    decreases m - from
  {
    if Balanced(c, plan, from) {
      first := FirstUnbalanced(c, plan, from + 1, m);
    } else {
      first := from;
    }
  }

  // ---- a run that makes all joins of a slot just before it is armed ----

  /** No barrier is armed and none has joins, but for one. */
  ghost predicate Fresh(barriers: seq<Barrier>, x: nat, joins: nat) {
    |barriers| == BARRIERS && forall k :: 0 <= k < BARRIERS ==> barriers[k] == Barrier(if k == x then joins else 0, NotArmed)
  }

  /** The run has armed, started and finished m transmit slots and received `received` blocks of the plan. */
  ghost predicate Common(c: Config, plan: seq<Block>, s: State, m: nat, received: nat) {
    && Shape(s) && RingExact(s) && s.c == c && s.blocks == Prefix(plan, received)
    && s.running == {} && s.log == seq(m, k => c.First() + k)
  }

  /** The joins block i makes for slots before t. */
  function MadeBefore(c: Config, plan: seq<Block>, i: nat, t: int): nat {
    if i < |plan| && plan[i].k1 != 0 && c.Ack(i, plan[i]) < t then plan[i].codewords else 0
  }

  /** Its joins when those for slot t of blocks before j have been made, and q of block j. */
  function MadeSoFar(c: Config, plan: seq<Block>, i: nat, t: int, j: nat, q: nat): nat {
    if i < j then MadeBefore(c, plan, i, t + 1) else MadeBefore(c, plan, i, t) + (if i == j then q else 0)
  }

  function Predecessor(m: nat): nat { if m > 0 then 1 else 0 }

  /** Nothing is outstanding. */
  ghost predicate Even(c: Config, plan: seq<Block>, s: State, m: nat) {
    && Common(c, plan, s, m, m) && !s.arming && Fresh(s.barriers, (c.First() + m) % BARRIERS, Predecessor(m))
    && (forall i :: 0 <= i < m ==> s.joined[i] == MadeBefore(c, plan, i, c.First() + m))
  }

  /** Slot First + m is about to be armed; all joins for it by blocks before j are made, and q by block j. */
  ghost predicate Joining(c: Config, plan: seq<Block>, s: State, m: nat, j: nat, q: nat) {
    && Common(c, plan, s, m, m + 1) && s.arming && j <= m + 1
    && Fresh(s.barriers, (c.First() + m) % BARRIERS, Predecessor(m) + Joins(c, Prefix(plan, j), c.First() + m) + q)
    && (forall i :: 0 <= i <= m ==> s.joined[i] == MadeSoFar(c, plan, i, c.First() + m, j, q))
  }

  lemma {:induction false} EvenAtStart(c: Config, plan: seq<Block>)
    requires 0 < c.n <= BARRIERS
    ensures Run(c, []) == At(Init(c)) && Even(c, plan, Init(c), 0)
  {
    RingInit(c);
    assert Init(c).blocks == Prefix(plan, 0);
  }

  /** Receiving the block of the slot. */
  lemma {:induction false} ReceiveNext(c: Config, plan: seq<Block>, before: seq<Step>, m: nat) returns (steps: seq<Step>)
    requires 0 < c.n <= BARRIERS && Accepted(c, plan) && Run(c, before).At? && Even(c, plan, Run(c, before).s, m)
    ensures Run(c, steps).At? && Joining(c, plan, Run(c, steps).s, m, 0, 0)
  {
    var s := Run(c, before).s;
    var b := if m < |plan| then plan[m] else SILENT;
    RunAppend(c, before, Preprocess(b));
    steps := before + [Preprocess(b)];
    hide Run;
    PreprocessRing(s, b);
    NothingJoined(c, plan, s, m, b);
  }

  lemma {:induction false} NothingJoined(c: Config, plan: seq<Block>, s: State, m: nat, b: Block)
    requires 0 < c.n <= BARRIERS && Accepted(c, plan) && Even(c, plan, s, m) && b == (if m < |plan| then plan[m] else SILENT)
    requires Enabled(s, Preprocess(b)) && RingExact(Next(s, Preprocess(b)))
    ensures Joining(c, plan, Next(s, Preprocess(b)), m, 0, 0)
  {
    hide RingExact;
    hide Fresh;
    hide Next;
    hide MadeBefore;
    ReceiveStep(s, b);
    NoneMade(c, plan, m);
    assert Next(s, Preprocess(b)).blocks == Prefix(plan, m + 1);
    assert Prefix(plan, 0) == [];
    NoJoins(c, c.First() + m);
  }

  lemma {:induction false} NoJoins(c: Config, t: int)
    ensures Joins(c, [], t) == 0
  {}

  lemma {:induction false} NoneMade(c: Config, plan: seq<Block>, m: nat)
    requires Accepted(c, plan)
    ensures MadeBefore(c, plan, m, c.First() + m) == 0
  {
    if m < |plan| {
      assert c.Accepts(plan[m]);
    }
  }

  lemma {:induction false} ReceiveStep(s: State, b: Block)
    requires Shape(s) && Enabled(s, Preprocess(b))
    ensures var s' := Next(s, Preprocess(b));
            s' == s.(arming := true, blocks := s.blocks + [b], joined := s.joined + [0], wait := s'.wait) && Shape(s')
  {}

  lemma {:induction false} FreshJoin(barriers: seq<Barrier>, x: nat, joins: nat)
    requires Fresh(barriers, x, joins) && x < BARRIERS
    ensures OnJoin(barriers[x]) == (Barrier(joins + 1, NotArmed), Nothing)
    ensures Fresh(barriers[x := Barrier(joins + 1, NotArmed)], x, joins + 1)
  {}

  lemma {:induction false} RingSame(s: State, s': State)
    requires Shape(s) && RingExact(s) && Shape(s') && s'.wait == s.wait && s'.blocks == s.blocks && s'.c == s.c && s'.arming == s.arming
    ensures RingExact(s')
  {}

  /** The state after a join by block j for slot t, which is not armed. */
  lemma {:induction false} DecodeStep(s: State, j: nat, t: nat, joins: nat)
    requires Shape(s) && Enabled(s, Decode(j)) && s.c.Ack(j, s.blocks[j]) == t && Fresh(s.barriers, t % BARRIERS, joins)
    ensures Next(s, Decode(j)) == s.(barriers := s.barriers[t % BARRIERS := Barrier(joins + 1, NotArmed)],
                                     joined := s.joined[j := s.joined[j] + 1])
  {
    IndicesAgree(s.c.n, s.c.rx0 + j, s.blocks[j].k1);
    FreshJoin(s.barriers, t % BARRIERS, joins);
  }

  /** One join by block j. */
  lemma {:induction false} JoinOnce(c: Config, plan: seq<Block>, before: seq<Step>, m: nat, j: nat, q: nat) returns (steps: seq<Step>)
    requires 0 < c.n <= BARRIERS && Run(c, before).At? && Joining(c, plan, Run(c, before).s, m, j, q)
    requires j <= m && j < |plan| && plan[j].k1 != 0 && c.Ack(j, plan[j]) == c.First() + m && q < plan[j].codewords
    ensures Run(c, steps).At? && Joining(c, plan, Run(c, steps).s, m, j, q + 1)
  {
    hide *;
    JoinState(c, plan, Run(c, before).s, m, j, q);
    RunAppend(c, before, Decode(j));
    steps := before + [Decode(j)];
  }

  lemma {:induction false} JoinState(c: Config, plan: seq<Block>, s: State, m: nat, j: nat, q: nat)
    requires c.n > 0 && Joining(c, plan, s, m, j, q)
    requires j <= m && j < |plan| && plan[j].k1 != 0 && c.Ack(j, plan[j]) == c.First() + m && q < plan[j].codewords
    ensures Shape(s) && Enabled(s, Decode(j)) && Joining(c, plan, Next(s, Decode(j)), m, j, q + 1)
  {
    hide RingExact;
    hide Fresh;
    hide Joins;
    var t := c.First() + m;
    assert s.blocks[j] == plan[j] && s.joined[j] == q;
    var joins := Predecessor(m) + Joins(c, Prefix(plan, j), t) + q;
    DecodeStep(s, j, t, joins);
    FreshJoin(s.barriers, t % BARRIERS, joins);
    RingSame(s, Next(s, Decode(j)));
    hide Next;
  }

  /** All joins by block j. */
  lemma {:induction false} JoinBlock(c: Config, plan: seq<Block>, before: seq<Step>, m: nat, j: nat, q: nat) returns (steps: seq<Step>)
    requires 0 < c.n <= BARRIERS && Run(c, before).At? && Joining(c, plan, Run(c, before).s, m, j, q)
    requires j <= m && j < |plan| && plan[j].k1 != 0 && c.Ack(j, plan[j]) == c.First() + m && q <= plan[j].codewords
    ensures Run(c, steps).At? && Joining(c, plan, Run(c, steps).s, m, j, plan[j].codewords)
    decreases plan[j].codewords - q
  {
    hide Run;
    hide Joining;
    if q == plan[j].codewords {
      steps := before;
    } else {
      steps := JoinOnce(c, plan, before, m, j, q);
      steps := JoinBlock(c, plan, steps, m, j, q + 1);
    }
  }

  /** The joins block j makes for slot t. */
  function JoinsOf(c: Config, plan: seq<Block>, j: nat, t: int): nat {
    if j < |plan| && plan[j].k1 != 0 && c.Ack(j, plan[j]) == t then plan[j].codewords else 0
  }

  lemma {:induction false} JoinsNext(c: Config, plan: seq<Block>, j: nat, t: int)
    ensures Joins(c, Prefix(plan, j + 1), t) == Joins(c, Prefix(plan, j), t) + JoinsOf(c, plan, j, t)
  {
    assert Prefix(plan, j + 1)[..j] == Prefix(plan, j);
  }

  /** Moving on to the next block. */
  lemma {:induction false} BlockDone(c: Config, plan: seq<Block>, s: State, m: nat, j: nat)
    requires Joining(c, plan, s, m, j, JoinsOf(c, plan, j, c.First() + m)) && j <= m
    ensures Joining(c, plan, s, m, j + 1, 0)
  {
    JoinsNext(c, plan, j, c.First() + m);
    hide Joins;
    hide RingExact;
  }

  /** The joins for the slot by blocks from j on. */
  lemma {:induction false} JoinAll(c: Config, plan: seq<Block>, before: seq<Step>, m: nat, j: nat) returns (steps: seq<Step>)
    requires 0 < c.n <= BARRIERS && Run(c, before).At? && Joining(c, plan, Run(c, before).s, m, j, 0) && j <= m + 1
    ensures Run(c, steps).At? && Joining(c, plan, Run(c, steps).s, m, m + 1, 0)
    decreases m + 1 - j
  {
    hide Run;
    hide Joining;
    steps := before;
    if j <= m {
      if JoinsOf(c, plan, j, c.First() + m) > 0 {
        steps := JoinBlock(c, plan, steps, m, j, 0);
      }
      BlockDone(c, plan, Run(c, steps).s, m, j);
      steps := JoinAll(c, plan, steps, m, j + 1);
    }
  }

  // ---- arming the slot ----

  /** The state after arming slot t: started if its joins are those it needs. */
  lemma {:induction false} ArmStep(s: State, t: nat, joins: nat)
    requires Shape(s) && RingExact(s) && s.arming && s.NextArm() == t && Fresh(s.barriers, t % BARRIERS, joins)
    ensures var needed := Charged(s.c, s.blocks, t) + (if t == s.c.First() then 0 else 1);
            var armed := s.(arming := false, wait := Next(s, Arm).wait);
            Next(s, Arm) == if joins == needed
                            then armed.(barriers := s.barriers[t % BARRIERS := Barrier(0, NotArmed)], log := s.log + [t],
                                        running := s.running + {t})
                            else armed.(barriers := s.barriers[t % BARRIERS := Barrier(joins, Armed(needed, t))])
    ensures RingExact(Next(s, Arm)) && Shape(Next(s, Arm))
  {
    DivRecompose(t, s.c.n);
    IndicesAgree(s.c.n, t, 0);
    assert s.wait[t % s.c.n] == Charged(s.c, s.blocks, t);
    ArmRing(s);
    hide Charged;
  }

  /** The state after the join of slot t for the next. */
  lemma {:induction false} TxJoinStep(s: State, t: nat)
    requires Shape(s) && s.running == {t} && Fresh(s.barriers, t % BARRIERS, 0)
    ensures Enabled(s, TxJoin(t))
    ensures Next(s, TxJoin(t)) == s.(running := {}, barriers := s.barriers[(t + 1) % BARRIERS := Barrier(1, NotArmed)])
    ensures Fresh(Next(s, TxJoin(t)).barriers, (t + 1) % BARRIERS, 1)
  {
    assert s.barriers[(t + 1) % BARRIERS] == Barrier(0, NotArmed);
    assert {t} - {t} == {};
  }

  /** A balanced slot starts and joins for the next. */
  lemma {:induction false} ArmNext(c: Config, plan: seq<Block>, before: seq<Step>, m: nat) returns (steps: seq<Step>)
    requires 0 < c.n <= BARRIERS && Run(c, before).At? && Joining(c, plan, Run(c, before).s, m, m + 1, 0) && Balanced(c, plan, m)
    ensures Run(c, steps).At? && Even(c, plan, Run(c, steps).s, m + 1)
  {
    hide *;
    var t := c.First() + m;
    StartState(c, plan, Run(c, before).s, m, t);
    RunAppend(c, before, Arm);
    steps := before + [Arm];
    RunAppend(c, steps, TxJoin(t));
    steps := steps + [TxJoin(t)];
  }

  lemma {:induction false} StartState(c: Config, plan: seq<Block>, s: State, m: nat, t: nat)
    requires c.n > 0 && Joining(c, plan, s, m, m + 1, 0) && Balanced(c, plan, m) && t == c.First() + m
    ensures Shape(s) && Enabled(s, Arm)
    ensures var s1 := Next(s, Arm); Shape(s1) && Enabled(s1, TxJoin(t)) && Even(c, plan, Next(s1, TxJoin(t)), m + 1)
  {
    hide RingExact;
    hide Fresh;
    hide Joins;
    hide Charged;
    hide Next;
    ArmStep(s, t, Predecessor(m) + Joins(c, Prefix(plan, m + 1), t));
    var s1 := Next(s, Arm);
    FreshReset(s.barriers, t % BARRIERS, Predecessor(m) + Joins(c, Prefix(plan, m + 1), t));
    assert s.running + {t} == {t};
    TxJoinStep(s1, t);
    EvenAgain(c, plan, s, s1, Next(s1, TxJoin(t)), m);
  }

  lemma {:induction false} FreshReset(barriers: seq<Barrier>, x: nat, joins: nat)
    requires Fresh(barriers, x, joins) && x < BARRIERS
    ensures Fresh(barriers[x := Barrier(0, NotArmed)], x, 0)
  {}

  lemma {:induction false} EvenAgain(c: Config, plan: seq<Block>, s: State, s1: State, s2: State, m: nat)
    requires Joining(c, plan, s, m, m + 1, 0) && s1.log == s.log + [c.First() + m] && Shape(s1) && RingExact(s1)
    requires s2 == s1.(running := {}, barriers := s2.barriers) && s1.blocks == s.blocks && s1.joined == s.joined && s1.c == c && !s1.arming
    requires Fresh(s2.barriers, (c.First() + m + 1) % BARRIERS, 1)
    ensures Even(c, plan, s2, m + 1)
  {
    assert s2.log == seq(m + 1, k => c.First() + k);
    RingSame(s1, s2);
    hide RingExact;
    hide Fresh;
  }

  /** An unbalanced slot does not start, although its predecessor has joined and its blocks are decoded. */
  lemma {:induction false} ArmStalls(c: Config, plan: seq<Block>, before: seq<Step>, m: nat) returns (steps: seq<Step>)
    requires 0 < c.n <= BARRIERS && Run(c, before).At? && Joining(c, plan, Run(c, before).s, m, m + 1, 0) && !Balanced(c, plan, m)
    ensures IsRun(c, plan, steps)
    ensures var s := Run(c, steps).s; |s.joined| == |s.blocks| && !Prompt(s)
  {
    var s, t := Run(c, before).s, c.First() + m;
    hide Run;
    ArmStep(s, t, Predecessor(m) + Joins(c, Prefix(plan, m + 1), t));
    RunAppend(c, before, Arm);
    steps := before + [Arm];
    var s1 := Next(s, Arm);
    hide Next;
    hide Joins;
    hide Charged;
    NotPrompt(c, plan, s, s1, m);
  }

  lemma {:induction false} NotPrompt(c: Config, plan: seq<Block>, s: State, s1: State, m: nat)
    requires Joining(c, plan, s, m, m + 1, 0) && s1.log == s.log && s1.running == {} && s1.blocks == s.blocks && s1.joined == s.joined
    requires s1.c == c && !s1.arming
    ensures Follows(s1.blocks, plan) && |s1.joined| == |s1.blocks| && !Prompt(s1)
  {
    var t := c.First() + m;
    hide RingExact;
    hide Fresh;
    hide Joins;
    forall i | 0 <= i < |s1.blocks| && Acknowledges(c, s1.blocks, i, t)
      ensures s1.joined[i] == s1.blocks[i].codewords
    {
      assert s1.joined[i] == MadeSoFar(c, plan, i, t, m + 1, 0);
    }
    assert t !in s1.log;
    if m > 0 {
      assert s1.log[m - 1] == t - 1;
    }
    assert PredecessorJoined(s1, t) && Decoded(s1, t);
  }

  /** As long as all slots are balanced, such a run goes on. */
  lemma {:induction false} GoesOn(c: Config, plan: seq<Block>, m: nat) returns (steps: seq<Step>)
    requires 0 < c.n <= BARRIERS && Accepted(c, plan) && forall k :: 0 <= k < m ==> Balanced(c, plan, k)
    ensures Run(c, steps).At? && Even(c, plan, Run(c, steps).s, m)
    decreases m
  {
    hide *;
    if m == 0 {
      steps := [];
      EvenAtStart(c, plan);
    } else {
      steps := GoesOn(c, plan, m - 1);
      steps := ReceiveNext(c, plan, steps, m - 1);
      steps := JoinAll(c, plan, steps, m - 1, 0);
      steps := ArmNext(c, plan, steps, m - 1);
    }
  }

  /** Every plan with a two-codeword block or an offset out of range has a run that stalls: a slot is armed, its
      predecessor has joined, every block it acknowledges is decoded, and it has not started. */
  lemma {:induction false} StallRun(c: Config, plan: seq<Block>) returns (steps: seq<Step>)
    requires 0 < c.n <= BARRIERS && Accepted(c, plan) && !(Single(plan) && InRange(c, plan))
    ensures IsRun(c, plan, steps)
    ensures var s := Run(c, steps).s; |s.joined| == |s.blocks| && !Prompt(s)
  {
    var some := SomeUnbalanced(c, plan);
    var m := FirstUnbalanced(c, plan, 0, some);
    hide *;
    steps := GoesOn(c, plan, m);
    steps := ReceiveNext(c, plan, steps, m);
    steps := JoinAll(c, plan, steps, m, 0);
    steps := ArmStalls(c, plan, steps, m);
  }

  /** For every sequence of blocks the MAC lets through, all runs are prompt, and then all are safe too, if and
      only if every block to be acknowledged has one codeword and every feedback offset is in range. */
  lemma {:induction false} PlansExact(c: Config, plan: seq<Block>)
    requires 0 < c.n <= BARRIERS && Accepted(c, plan)
    ensures AllPrompt(c, plan) <==> Single(plan) && InRange(c, plan)
    ensures AllSafe(c, plan) && AllPrompt(c, plan) <==> Single(plan) && InRange(c, plan)
  {
    if Single(plan) && InRange(c, plan) {
      AllGood(c, plan);
    } else {
      var steps := StallRun(c, plan);
    }
  }
}
