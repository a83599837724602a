/** What the runs of the transmit-slot protocol of UeBarriers guarantee, and exactly when. A plan
    lists the blocks a run receives, slot by slot; after its end nothing is to be acknowledged. */
module UeBarrierRuns {
  import opened UeBarriers
  import opened DynamicBarrier

  ghost predicate Follows(blocks: seq<Block>, plan: seq<Block>) {
    forall k :: 0 <= k < |blocks| ==> blocks[k] == if k < |plan| then plan[k] else SILENT
  }

  /** The steps are a run of the protocol that receives what the plan says. */
  ghost predicate IsRun(c: Config, plan: seq<Block>, steps: seq<Step>) {
    Run(c, steps).At? && Follows(Run(c, steps).s.blocks, plan)
  }

  /** The transmit slots started are consecutive from the first, each once; all of them but the last
      have passed their join point; and of every block that a started slot acknowledges, every
      codeword has been decoded. */
  ghost predicate Safe(s: State)
    requires |s.joined| == |s.blocks|
  {
    && (forall j :: 0 <= j < |s.log| ==> s.log[j] == s.c.First() + j)
    && (forall t :: t in s.running ==> s.log != [] && t == s.log[|s.log| - 1])
    && (forall j, i :: 0 <= j < |s.log| && 0 <= i < |s.blocks| && Acknowledges(s.c, s.blocks, i, s.log[j])
                       ==> s.joined[i] == s.blocks[i].codewords)
  }

  /** The slot before t has passed its join point, or t is the first. */
  predicate PredecessorJoined(s: State, t: nat) {
    t == s.c.First() || (t > 0 && t - 1 in s.log && t - 1 !in s.running)
  }

  /** Every block that slot t acknowledges has been decoded. */
  ghost predicate Decoded(s: State, t: nat)
    requires |s.joined| == |s.blocks|
  {
    forall i :: 0 <= i < |s.blocks| && Acknowledges(s.c, s.blocks, i, t) ==> s.joined[i] == s.blocks[i].codewords
  }

  /** A slot that has been armed, and whose predecessor and blocks are done, has started. */
  ghost predicate Prompt(s: State)
    requires |s.joined| == |s.blocks|
  {
    forall t: nat :: s.c.First() <= t < s.NextArm() && PredecessorJoined(s, t) && Decoded(s, t) ==> t in s.log
  }

  // ---- runs with one codeword per block and offsets in range ----

  /** Then every step is ordinary, so the invariant holds throughout. */
  lemma {:induction false} RunInv(c: Config, steps: seq<Step>)
    requires 0 < c.n <= BARRIERS && Run(c, steps).At?
    requires InRange(c, Run(c, steps).s.blocks) && Single(Run(c, steps).s.blocks)
    ensures Inv(Run(c, steps).s) && Run(c, steps).s.c == c
    decreases |steps|
  {
    if steps == [] {
      InitInv(c);
    } else {
      var k := |steps| - 1;
      var s := Run(c, steps[..k]).s;
      assert Run(c, steps[..k]).At? && Shape(s) && Enabled(s, steps[k]) && Run(c, steps).s == Next(s, steps[k]);
      GoodBefore(c, s, steps[k]);
      hide *;
      RunInv(c, steps[..k]);
      GoodIsOrdinary(s, steps[k]);
      InvKept(s, steps[k]);
      ConfigStays(s, steps[k]);
    }
  }

  lemma {:induction false} GoodBefore(c: Config, s: State, step: Step)
    requires Shape(s) && Enabled(s, step) && InRange(c, Next(s, step).blocks) && Single(Next(s, step).blocks)
    ensures InRange(c, s.blocks) && Single(s.blocks)
  {
    var s' := Next(s, step);
    assert s.blocks <= s'.blocks;
    assert forall i :: 0 <= i < |s.blocks| ==> s.blocks[i] == s'.blocks[i];
    hide Next;
  }

  lemma {:induction false} GoodIsOrdinary(s: State, step: Step)
    requires Shape(s) && Enabled(s, step) && InRange(s.c, s.blocks) && Single(s.blocks)
    ensures Ordinary(s, step)
  {}

  lemma {:induction false} ConfigStays(s: State, step: Step)
    requires Shape(s) && Enabled(s, step)
    ensures Next(s, step).c == s.c
  {}

  /** An armed slot whose predecessor has joined, with all joins charged made, has started. */
  lemma {:induction false} NoStall(s: State)
    requires Inv(s) && s.running == {}
    requires forall i :: 0 <= i < |s.blocks| && Charges(s.c, s.blocks, i, s.Pending()) ==> s.joined[i] > 0
    ensures s.Pending() == s.NextArm()
  {
    DoneAtMost(s.c, s.blocks, s.joined, s.Pending());
  }

  /** A started slot has had all joins charged to it. */
  lemma {:induction false} StartedDone(s: State, t: int, i: nat)
    requires Inv(s) && t < s.Pending() && i < |s.blocks| && Charges(s.c, s.blocks, i, t)
    ensures s.joined[i] == 1
  {
    DoneAtMost(s.c, s.blocks, s.joined, t);
  }

  lemma {:induction false} SafeAndPrompt(s: State)
    requires Inv(s) && InRange(s.c, s.blocks) && Single(s.blocks)
    ensures Safe(s) && Prompt(s)
  {
    forall j, i | 0 <= j < |s.log| && 0 <= i < |s.blocks| && Acknowledges(s.c, s.blocks, i, s.log[j])
      ensures s.joined[i] == s.blocks[i].codewords
    {
      ChargedSlot(s.c, i, s.blocks[i]);
      StartedDone(s, s.log[j], i);
    }
    forall t: nat | s.c.First() <= t < s.NextArm() && PredecessorJoined(s, t) && Decoded(s, t)
      ensures t in s.log
    {
      if t < s.Pending() {
        assert s.log[t - s.c.First()] == t;
      } else {
        assert t == s.Pending();
        assert s.running == {};
        forall i | 0 <= i < |s.blocks| && Charges(s.c, s.blocks, i, t)
          ensures s.joined[i] > 0
        {
          ChargedSlot(s.c, i, s.blocks[i]);
          assert Acknowledges(s.c, s.blocks, i, t);
        }
        NoStall(s);
      }
    }
  }

  /** In every state of every run, in any interleaving, whose blocks have one codeword each and offsets in
      range: transmit slots start in order and only when they may, and as soon as they may. */
  lemma {:induction false} TxSlotsInOrder(c: Config, steps: seq<Step>)
    requires 0 < c.n <= BARRIERS && Run(c, steps).At?
    requires InRange(c, Run(c, steps).s.blocks) && Single(Run(c, steps).s.blocks)
    ensures var s := Run(c, steps).s; |s.joined| == |s.blocks| && Safe(s) && Prompt(s)
  {
    RunInv(c, steps);
    hide Run;
    SafeAndPrompt(Run(c, steps).s);
  }

  // ---- a run that keeps everything up to date ----

  /** The run has received m blocks of the plan, and armed and started all their transmit slots. Every
      block in range has been joined for once, except block `skip`. */
  ghost predicate UpToDate(c: Config, plan: seq<Block>, skip: nat, s: State, m: nat) {
    Received(c, plan, skip, s, m) && s.Pending() == s.NextArm()
  }

  ghost predicate Received(c: Config, plan: seq<Block>, skip: nat, s: State, m: nat) {
    && Inv(s) && s.c == c && !s.arming && |s.blocks| == m && Follows(s.blocks, plan)
    && forall i :: 0 <= i < m && s.blocks[i].k1 != 0 && c.Reaches(s.blocks[i]) ==> s.joined[i] == if i == skip then 0 else 1
  }

  /** No block that such a run leaves without its join is charged before slot `bound`. */
  ghost predicate OthersBefore(c: Config, plan: seq<Block>, skip: nat, bound: int)
    requires c.n > 0
  {
    forall i :: 0 <= i < |plan| && plan[i].k1 != 0 && (!c.Reaches(plan[i]) || i == skip) ==> c.Charge(i, plan[i]) >= bound
  }

  /** Receiving one block, joining for it at once unless it is skipped, and arming the next transmit slot. */
  lemma {:induction false} ReceiveOne(c: Config, plan: seq<Block>, skip: nat, before: seq<Step>, m: nat) returns (steps: seq<Step>)
    requires 0 < c.n <= BARRIERS && Accepted(c, plan) && Run(c, before).At? && UpToDate(c, plan, skip, Run(c, before).s, m)
    ensures Run(c, steps).At? && Received(c, plan, skip, Run(c, steps).s, m + 1)
    ensures var s, s' := Run(c, before).s, Run(c, steps).s;
            s.log <= s'.log && if s'.log == s.log then s'.running == s.running else s'.running != {}
  {
    hide Run;
    hide InOrder;
    hide JoinsCharged;
    hide RingExact;
    hide BarriersExact;
    hide PastDone;
    hide Had;
    var b := if m < |plan| then plan[m] else SILENT;
    steps := AddBlock(c, before, b);
    if b.k1 != 0 && c.Reaches(b) && m != skip {
      steps := AddJoin(c, steps, m);
    }
    steps := AddArm(c, steps);
  }

  lemma {:induction false} AddBlock(c: Config, before: seq<Step>, b: Block) returns (steps: seq<Step>)
    requires 0 < c.n <= BARRIERS && c.Accepts(b) && Run(c, before).At?
    requires var s := Run(c, before).s; s.c == c && Inv(s) && !s.arming && s.Pending() == s.NextArm()
    ensures Run(c, steps).At?
    ensures var s, s' := Run(c, before).s, Run(c, steps).s;
            && Inv(s') && s'.c == c && s'.arming && s'.blocks == s.blocks + [b] && s'.joined == s.joined + [0]
            && s'.log == s.log && s'.running == s.running
  {
    var s := Run(c, before).s;
    PreprocessKeeps(s, b);
    hide Inv;
    RunAppend(c, before, Preprocess(b));
    steps := before + [Preprocess(b)];
  }

  /** Joining for the block just received starts nothing: its slot is not armed yet. */
  lemma {:induction false} AddJoin(c: Config, before: seq<Step>, m: nat) returns (steps: seq<Step>)
    requires 0 < c.n <= BARRIERS && Run(c, before).At?
    requires var s := Run(c, before).s;
             && s.c == c && Inv(s) && s.arming && |s.blocks| == m + 1 && s.joined[m] == 0
             && s.blocks[m].k1 != 0 && c.Reaches(s.blocks[m]) && s.blocks[m].codewords > 0
    ensures Run(c, steps).At?
    ensures var s, s' := Run(c, before).s, Run(c, steps).s;
            && Inv(s') && s'.c == c && s'.arming && s'.blocks == s.blocks && s'.joined == s.joined[m := 1]
            && s'.log == s.log && s'.running == s.running
  {
    var s := Run(c, before).s;
    DecodeKeeps(s, m);
    hide Inv;
    RunAppend(c, before, Decode(m));
    steps := before + [Decode(m)];
  }

  lemma {:induction false} AddArm(c: Config, before: seq<Step>) returns (steps: seq<Step>)
    requires 0 < c.n <= BARRIERS && Run(c, before).At?
    requires var s := Run(c, before).s; s.c == c && Inv(s) && s.arming
    ensures Run(c, steps).At?
    ensures var s, s' := Run(c, before).s, Run(c, steps).s;
            && Inv(s') && s'.c == c && !s'.arming && s'.blocks == s.blocks && s'.joined == s.joined
            && s.log <= s'.log && (if s'.log == s.log then s'.running == s.running else s'.running != {})
  {
    var s := Run(c, before).s;
    ArmKeeps(s);
    hide Inv;
    RunAppend(c, before, Arm);
    steps := before + [Arm];
  }

  /** Before the bound, with the slot before joined, the transmit slot armed starts. */
  lemma {:induction false} AdvanceOne(c: Config, plan: seq<Block>, skip: nat, bound: int, before: seq<Step>, m: nat) returns (steps: seq<Step>)
    requires 0 < c.n <= BARRIERS && Accepted(c, plan) && OthersBefore(c, plan, skip, bound) && c.First() + m < bound
    requires Run(c, before).At? && UpToDate(c, plan, skip, Run(c, before).s, m) && Run(c, before).s.running == {}
    ensures Run(c, steps).At? && UpToDate(c, plan, skip, Run(c, steps).s, m + 1)
    ensures Run(c, steps).s.running == {c.First() + m}
  {
    hide Run;
    hide Inv;
    steps := ReceiveOne(c, plan, skip, before, m);
    if Run(c, steps).s.log == Run(c, before).s.log {
      MustStart(c, plan, skip, bound, Run(c, steps).s, m);
    }
    FullLog(Run(c, steps).s);
  }

  /** A slot before the bound cannot be left waiting. */
  lemma {:induction false} MustStart(c: Config, plan: seq<Block>, skip: nat, bound: int, s: State, m: nat)
    requires c.n > 0 && OthersBefore(c, plan, skip, bound) && c.First() + m < bound
    requires Received(c, plan, skip, s, m + 1) && s.running == {}
    ensures |s.log| != m
  {
    if |s.log| == m {
      forall i | 0 <= i < |s.blocks| && Charges(c, s.blocks, i, s.Pending())
        ensures s.joined[i] > 0
      {
        assert s.blocks[i] == plan[i];
      }
      NoStall(s);
    }
  }

  /** The log cannot be longer than the slots armed, and of the jobs only the last may be running. */
  lemma {:induction false} FullLog(s: State)
    requires Inv(s) && !s.arming && |s.log| >= |s.blocks| > 0
    ensures s.Pending() == s.NextArm() && (s.running == {} || s.running == {s.Pending() - 1})
  {}

  lemma {:induction false} SettleOne(c: Config, plan: seq<Block>, skip: nat, before: seq<Step>, m: nat, t: nat) returns (steps: seq<Step>)
    requires 0 < c.n <= BARRIERS && Run(c, before).At? && UpToDate(c, plan, skip, Run(c, before).s, m)
    requires Run(c, before).s.running == {t}
    ensures Run(c, steps).At? && UpToDate(c, plan, skip, Run(c, steps).s, m) && Run(c, steps).s.running == {}
  {
    var s := Run(c, before).s;
    TxJoinKeeps(s, t);
    RunAppend(c, before, TxJoin(t));
    hide Inv;
    steps := before + [TxJoin(t)];
  }

  lemma {:induction false} UpToFirst(c: Config, plan: seq<Block>, skip: nat) returns (steps: seq<Step>)
    requires 0 < c.n <= BARRIERS
    ensures Run(c, steps).At? && UpToDate(c, plan, skip, Run(c, steps).s, 0) && Run(c, steps).s.running == {}
  {
    steps := [];
    InitInv(c);
  }

  /** Up to the bound such a run exists for every plan. */
  lemma {:induction false} UpTo(c: Config, plan: seq<Block>, skip: nat, bound: int, m: nat) returns (steps: seq<Step>)
    requires 0 < c.n <= BARRIERS && Accepted(c, plan) && OthersBefore(c, plan, skip, bound) && c.First() + m <= bound
    ensures Run(c, steps).At? && UpToDate(c, plan, skip, Run(c, steps).s, m) && Run(c, steps).s.running == {}
    decreases m
  {
    hide *;
    if m == 0 {
      steps := UpToFirst(c, plan, skip);
    } else {
      steps := UpTo(c, plan, skip, bound, m - 1);
      steps := AdvanceOne(c, plan, skip, bound, steps, m - 1);
      steps := SettleOne(c, plan, skip, steps, m, c.First() + m - 1);
    }
  }

  /** Arming the slot at the bound, to which block i is charged without having been joined for. */
  lemma {:induction false} ArmAtBound(c: Config, plan: seq<Block>, skip: nat, before: seq<Step>, m: nat, i: nat) returns (steps: seq<Step>)
    requires 0 < c.n <= BARRIERS && Accepted(c, plan)
    requires Run(c, before).At? && UpToDate(c, plan, skip, Run(c, before).s, m)
    requires i < |plan| && plan[i].k1 != 0 && (!c.Reaches(plan[i]) || i == skip) && c.Charge(i, plan[i]) == c.First() + m
    ensures Run(c, steps).At? && Received(c, plan, skip, Run(c, steps).s, m + 1) && i <= m
    ensures Run(c, steps).s.log == Run(c, before).s.log && Run(c, steps).s.running == Run(c, before).s.running
    ensures Run(c, steps).s.joined[i] == 0
  {
    hide Run;
    steps := ReceiveOne(c, plan, skip, before, m);
    var s := Run(c, steps).s;
    ChargedSlot(c, i, plan[i]);
    assert s.blocks[i] == plan[i];
    assert s.joined[i] == 0;
    if s.log != Run(c, before).s.log {
      StartedDone(s, c.First() + m, i);
    }
  }

  // ---- all runs of a plan ----

  ghost predicate AllPrompt(c: Config, plan: seq<Block>)
    requires c.n > 0
  {
    forall steps {:induction false} | IsRun(c, plan, steps) :: |Run(c, steps).s.joined| == |Run(c, steps).s.blocks| && Prompt(Run(c, steps).s)
  }

  ghost predicate AllSafe(c: Config, plan: seq<Block>)
    requires c.n > 0
  {
    forall steps {:induction false} | IsRun(c, plan, steps) :: |Run(c, steps).s.joined| == |Run(c, steps).s.blocks| && Safe(Run(c, steps).s)
  }

  /** With one codeword per block in range, all runs of a plan are safe and prompt. */
  lemma {:induction false} AllGood(c: Config, plan: seq<Block>)
    requires 0 < c.n <= BARRIERS && InRange(c, plan) && Single(plan)
    ensures AllSafe(c, plan) && AllPrompt(c, plan)
  {
    forall steps | IsRun(c, plan, steps)
      ensures var s := Run(c, steps).s; |s.joined| == |s.blocks| && Safe(s) && Prompt(s)
    {
      TxSlotsInOrder(c, steps);
    }
  }

  /** The input at numerology 0: ten slots per frame, three to the transmit slot, offset 13. The block is
      charged to the first transmit slot and joined for ten slots later, so when everything received is
      decoded and no job is running, the first transmit slot still waits. */
  lemma {:induction false} StallAtOffset13(rx0: nat) returns (steps: seq<Step>)
    ensures var c := Config(10, 3, rx0);
            && IsRun(c, [Block(13, 1)], steps)
            && var s := Run(c, steps).s;
               && s.joined == [1] && s.running == {} && s.log == [] && s.NextArm() == c.First() + 1
               && s.barriers[c.First() % BARRIERS] == Barrier(0, Armed(1, c.First()))
  {
    var c, plan := Config(10, 3, rx0), [Block(13, 1)];
    InitInv(c);
    assert Run(c, []) == At(Init(c));
    hide Run;
    steps := ArmAtBound(c, plan, 1, [], 0, 0);
    var s := Run(c, steps).s;
    LateJoin(s);
    hide Inv;
    RunAppend(c, steps, Decode(0));
    steps := steps + [Decode(0)];
  }

  lemma {:induction false} LateJoin(s: State)
    requires Inv(s) && s.c == Config(10, 3, s.c.rx0) && s.blocks == [Block(13, 1)] && s.joined == [0] && !s.arming && s.log == []
    ensures Enabled(s, Decode(0))
    ensures var s' := Next(s, Decode(0));
            && s' == s.(joined := [1], barriers := s'.barriers) && |s'.barriers| == BARRIERS
            && s'.barriers[s.c.First() % BARRIERS] == Barrier(0, Armed(1, s.c.First()))
  {
    var first := s.c.First();
    IndicesAgree(10, s.c.rx0, 13);
    BarriersDistinct(first, first, first + 10);
    assert s.barriers[first % BARRIERS] == Expected(s, first);
    assert s.barriers[(first + 10) % BARRIERS] == Expected(s, first + 10);
    DoneAtMost(s.c, s.blocks, s.joined, first);
    ChargedAppend(s.c, [], Block(13, 1), first);
  }

  // ---- two codewords ----

  lemma {:induction false} SkipOnly(c: Config, plan: seq<Block>, i: nat)
    requires c.n > 0 && InRange(c, plan) && i < |plan| && plan[i].k1 != 0
    ensures OthersBefore(c, plan, i, c.Charge(i, plan[i])) && c.Charge(i, plan[i]) == c.Ack(i, plan[i])
  {
    ChargedSlot(c, i, plan[i]);
  }

  /** Every plan with a two-codeword block has a run that starts the acknowledging slot after the first
      codeword. */
  lemma {:induction false} StartsHalfDecoded(c: Config, plan: seq<Block>, i: nat) returns (steps: seq<Step>)
    requires 0 < c.n <= BARRIERS && Accepted(c, plan) && InRange(c, plan)
    requires i < |plan| && plan[i].k1 != 0 && plan[i].codewords == 2
    ensures IsRun(c, plan, steps)
    ensures var s := Run(c, steps).s;
            |s.joined| == |s.blocks| && i < |s.blocks| && c.Ack(i, plan[i]) in s.log && s.joined[i] == 1 && !Safe(s)
  {
    hide Run;
    hide Inv;
    SkipOnly(c, plan, i);
    ChargedSlot(c, i, plan[i]);
    var m := c.Charge(i, plan[i]) - c.First();
    steps := UpTo(c, plan, i, c.First() + m, m);
    steps := ArmAtBound(c, plan, i, steps, m, i);
    steps := JoinSkipped(c, plan, steps, m, i);
    HalfDecoded(c, plan, Run(c, steps).s, m, i);
  }

  lemma {:induction false} HalfDecoded(c: Config, plan: seq<Block>, s: State, m: nat, i: nat)
    requires c.n > 0 && i <= m && i < |plan| && plan[i].k1 != 0 && plan[i].codewords == 2 && c.Ack(i, plan[i]) == c.First() + m
    requires Inv(s) && s.c == c && !s.arming && |s.blocks| == m + 1 && s.blocks[i] == plan[i]
    requires forall j :: 0 <= j <= m && s.blocks[j].k1 != 0 ==> s.joined[j] == 1
    requires |s.log| >= m && (|s.log| == m ==> s.running == {})
    ensures |s.joined| == |s.blocks| && c.First() + m in s.log && !Safe(s)
  {
    if |s.log| == m {
      NoStall(s);
    }
    assert s.log[m] == c.First() + m;
    assert Acknowledges(c, s.blocks, i, s.log[m]);
  }

  /** The first join for the skipped block. */
  lemma {:induction false} JoinSkipped(c: Config, plan: seq<Block>, before: seq<Step>, m: nat, i: nat) returns (steps: seq<Step>)
    requires 0 < c.n <= BARRIERS && InRange(c, plan) && i < |plan| && plan[i].k1 != 0 && plan[i].codewords > 0
    requires Run(c, before).At? && Received(c, plan, i, Run(c, before).s, m + 1) && i <= m
    ensures Run(c, steps).At?
    ensures var s, s' := Run(c, before).s, Run(c, steps).s;
            && Inv(s') && s'.c == c && !s'.arming && s'.blocks == s.blocks && s'.joined == s.joined[i := 1]
            && Follows(s'.blocks, plan) && s.log <= s'.log
            && (s.running != {} ==> s'.log == s.log) && (s'.log == s.log ==> s'.running == s.running)
            && (forall j :: 0 <= j <= m && s'.blocks[j].k1 != 0 ==> s'.joined[j] == 1)
  {
    var s := Run(c, before).s;
    assert s.blocks[i] == plan[i];
    forall j | 0 <= j <= m && s.blocks[j].k1 != 0
      ensures c.Reaches(s.blocks[j])
    {
      assert s.blocks[j] == plan[j];
    }
    DecodeKeeps(s, i);
    RunAppend(c, before, Decode(i));
    steps := before + [Decode(i)];
    hide Inv;
    hide Run;
  }

  /** With every feedback offset in range, every run of a plan is safe if and only if every block to be
      acknowledged has one codeword. */
  lemma {:induction false} CodewordsExact(c: Config, plan: seq<Block>)
    requires 0 < c.n <= BARRIERS && Accepted(c, plan) && InRange(c, plan)
    ensures AllSafe(c, plan) <==> Single(plan)
  {
    if Single(plan) {
      AllGood(c, plan);
    } else {
      var i :| 0 <= i < |plan| && plan[i].k1 != 0 && plan[i].codewords != 1;
      assert c.Accepts(plan[i]);
      var steps := StartsHalfDecoded(c, plan, i);
    }
  }

  /** ... and if the slot is not the first, one that starts it before its predecessor has joined: the second
      codeword's join is taken for the predecessor's. */
  lemma {:induction false} OvertakesPredecessor(c: Config, plan: seq<Block>, i: nat) returns (steps: seq<Step>)
    requires 0 < c.n <= BARRIERS && Accepted(c, plan) && InRange(c, plan)
    requires i < |plan| && plan[i].k1 != 0 && plan[i].codewords == 2 && c.Ack(i, plan[i]) > c.First()
    ensures IsRun(c, plan, steps)
    ensures var s, t := Run(c, steps).s, c.Ack(i, plan[i]); s.log != [] && s.log[|s.log| - 1] == t && t - 1 in s.running
  {
    hide Run;
    hide Inv;
    SkipOnly(c, plan, i);
    ChargedSlot(c, i, plan[i]);
    var m := c.Charge(i, plan[i]) - c.First();
    steps := UpTo(c, plan, i, c.First() + m, m - 1);
    steps := AdvanceOne(c, plan, i, c.First() + m, steps, m - 1);
    steps := ArmAtBound(c, plan, i, steps, m, i);
    steps := JoinSkipped(c, plan, steps, m, i);
    hide Received;
    hide OthersBefore;
    hide Next;
    hide Enabled;
    assert Run(c, steps).s.blocks[i] == plan[i];
    SurplusStarts(Run(c, steps).s, i);
    RunAppend(c, steps, Decode(i));
    steps := steps + [Decode(i)];
  }

  /** A second join for a block of the first unstarted slot, all of whose blocks have joined, starts it
      although its predecessor is running. */
  lemma {:induction false} SurplusStarts(s: State, i: nat)
    requires Inv(s) && i < |s.blocks| && s.blocks[i].k1 != 0 && s.joined[i] == 1 && s.blocks[i].codewords == 2
    requires s.running != {} && s.c.First() < s.Pending() < s.NextArm() && s.c.Ack(i, s.blocks[i]) == s.Pending()
    requires forall j :: 0 <= j < |s.blocks| && s.blocks[j].k1 != 0 ==> s.joined[j] == 1
    ensures Shape(s) && Enabled(s, Decode(i))
    ensures Next(s, Decode(i)).log == s.log + [s.Pending()] && s.running <= Next(s, Decode(i)).running
    ensures Next(s, Decode(i)).blocks == s.blocks
  {
    hide *;
    InvShape(s);
    var joins := PendingBarrier(s);
    DecodeFires(s, i, s.Pending(), joins);
  }

  /** The barrier of the first unstarted slot, all of whose blocks have joined, lacks its predecessor's join. */
  lemma {:induction false} PendingBarrier(s: State) returns (joins: nat)
    requires Inv(s) && s.running != {} && s.c.First() < s.Pending() < s.NextArm() && |s.joined| == |s.blocks|
    requires forall j :: 0 <= j < |s.blocks| && s.blocks[j].k1 != 0 ==> s.joined[j] == 1
    ensures |s.barriers| == BARRIERS && s.barriers[s.Pending() % BARRIERS] == Barrier(joins, Armed(joins + 1, s.Pending()))
  {
    var t := s.Pending();
    joins := Charged(s.c, s.blocks, t);
    DoneAtMost(s.c, s.blocks, s.joined, t);
    hide Charged;
    hide Done;
    hide RingExact;
    hide PastDone;
    assert s.barriers[t % BARRIERS] == Expected(s, t);
  }

  lemma {:induction false} DecodeFires(s: State, i: nat, t: nat, joins: nat)
    requires Shape(s) && i < |s.blocks| && s.blocks[i].k1 != 0 && s.joined[i] < s.blocks[i].codewords && s.c.Ack(i, s.blocks[i]) == t
    requires s.barriers[t % BARRIERS] == Barrier(joins, Armed(joins + 1, t))
    ensures Enabled(s, Decode(i))
    ensures var s' := Next(s, Decode(i)); s'.log == s.log + [t] && s.running <= s'.running && s'.blocks == s.blocks
  {
    IndicesAgree(s.c.n, s.c.rx0 + i, s.blocks[i].k1);
    hide AckIndex;
  }
}
