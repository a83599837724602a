/** The hand-over of subframes from the L1 receive thread to the L1 transmit thread (wakeup_tx and
    L1_thread_tx, executables/lte-enb.c): a one-place mailbox guarded by a counter and a
    condition variable both threads wait on. Each lock-protected section is one step. */
module L1Handover {

  datatype Msg = Msg(frame: nat, subframe: nat, timestamp: int)

  /** The receive thread in wakeup_tx: about to test the counter, or asleep on the condition. */
  datatype RxPhase = RxElsewhere | RxTesting(msg: Msg) | RxAsleep(waiting: Msg)

  /** The transmit thread: testing the counter, asleep, or in phy_procedures_eNB_TX, which reads the
      mailbox throughout. `taken` is what the mailbox held when it woke. */
  datatype TxPhase = TxTesting | TxAsleep | TxBusy(taken: Msg)

  /** `count` is instance_cnt; `handed` and `processed` record what was put in and what was done. */
  datatype State = State(count: int, box: Msg, rx: RxPhase, tx: TxPhase, handed: seq<Msg>, processed: seq<Msg>)

  /** `Spurious` wake-ups may happen at any time. */
  datatype Step = Call(msg: Msg, uplink: bool) | RxTest | TxTest | TxFinish | RxSpurious | TxSpurious

  predicate Enabled(s: State, step: Step) {
    match step
    case Call(_, _) => s.rx.RxElsewhere?
    case RxTest => s.rx.RxTesting?
    case TxTest => s.tx.TxTesting?
    case TxFinish => s.tx.TxBusy?
    case RxSpurious => s.rx.RxAsleep?
    case TxSpurious => s.tx.TxAsleep?
  }

  /** A signal by one thread wakes the other if it sleeps. */
  function WakeTx(tx: TxPhase): TxPhase { if tx.TxAsleep? then TxTesting else tx }

  function WakeRx(rx: RxPhase): RxPhase { if rx.RxAsleep? then RxTesting(rx.waiting) else rx }

  function Next(s: State, step: Step): State
    requires Enabled(s, step)
  {
    match step
    case Call(m, uplink) => if uplink then s else s.(rx := RxTesting(m))
    case RxTest =>
      if s.count == 0 then s.(rx := RxAsleep(s.rx.msg))
      else s.(count := 0, box := s.rx.msg, handed := s.handed + [s.rx.msg], rx := RxElsewhere, tx := WakeTx(s.tx))
    case TxTest => if s.count < 0 then s.(tx := TxAsleep) else s.(tx := TxBusy(s.box))
    case TxFinish => s.(count := -1, processed := s.processed + [s.box], tx := TxTesting, rx := WakeRx(s.rx))
    case RxSpurious => s.(rx := RxTesting(s.rx.waiting))
    case TxSpurious => s.(tx := TxTesting)
  }

  /** Everything handed over has been processed, but for the one subframe in the mailbox; the mailbox
      holds what the transmit thread is working on; and a sleeper has something to wait for. */
  predicate Inv(s: State) {
    && (s.count == 0 || s.count == -1)
    && s.handed == s.processed + (if s.count == 0 then [s.box] else [])
    && (s.tx.TxBusy? ==> s.count == 0 && s.tx.taken == s.box)
    && (s.rx.RxAsleep? ==> s.count == 0)
    && (s.tx.TxAsleep? ==> s.count == -1)
  }

  function Init(box: Msg): (s: State)
    ensures Inv(s)
  {
    State(-1, box, RxElsewhere, TxTesting, [], [])
  }

  lemma {:induction false} InvKept(s: State, step: Step)
    requires Inv(s) && Enabled(s, step)
    ensures Inv(Next(s, step))
  {
    if step.TxFinish? {
      assert s.processed + [s.box] + [] == s.handed;
    } else if step.RxTest? {
      assert s.handed + [s.rx.msg] == s.processed + [] + [s.rx.msg] || s.count == 0;
    }
  }

  ghost predicate IsRun(states: seq<State>, steps: seq<Step>) {
    && |states| == |steps| + 1 && states[0] == Init(states[0].box)
    && forall k :: 0 <= k < |steps| ==> Enabled(states[k], steps[k]) && states[k + 1] == Next(states[k], steps[k])
  }

  lemma {:induction false} Reachable(states: seq<State>, steps: seq<Step>, k: nat)
    requires IsRun(states, steps) && k < |states|
    ensures Inv(states[k])
    decreases k
  {
    if k > 0 {
      Reachable(states, steps, k - 1);
      InvKept(states[k - 1], steps[k - 1]);
    }
  }

  /** In every run, each subframe handed over is processed exactly once, in order, with the fields it
      was handed over with, and at most one is outstanding. */
  lemma {:induction false} ProcessedInOrder(states: seq<State>, steps: seq<Step>, k: nat)
    requires IsRun(states, steps) && k < |states|
    ensures var s := states[k];
            && s.processed <= s.handed && |s.handed| <= |s.processed| + 1
            && (s.count == -1 ==> s.processed == s.handed)
            && (s.tx.TxBusy? ==> |s.processed| < |s.handed| && s.box == s.tx.taken == s.handed[|s.processed|])
  {
    Reachable(states, steps, k);
  }

  /** The fields never change while they are being processed. */
  lemma {:induction false} FieldsStable(s: State, step: Step)
    requires Inv(s) && Enabled(s, step) && s.tx.TxBusy? && Next(s, step).tx.TxBusy?
    ensures Next(s, step).box == s.box && Next(s, step).tx == s.tx && Next(s, step).count == 0
  {}

  /** No wake-up is lost: while anything is outstanding or the receive thread wants to hand over, one of
      the two threads can take a real step. */
  lemma {:induction false} NeverDeadlocked(s: State) returns (step: Step)
    requires Inv(s) && (s.handed != s.processed || !s.rx.RxElsewhere?)
    ensures Enabled(s, step) && step in {RxTest, TxTest, TxFinish}
  {
    step := if s.rx.RxTesting? then RxTest else if s.tx.TxTesting? then TxTest else TxFinish;
  }

  /** Real steps left before everything outstanding is processed and the receive thread is free. */
  function Work(s: State): nat {
    (if s.rx.RxElsewhere? then 0 else 4)
    + (if s.rx.RxAsleep? then 0 else if s.rx.RxTesting? && s.count == 0 then 1 else 0)
    + (if s.count == 0 then 2 else 0)
    + (if s.tx.TxTesting? then 1 else 0)
  }

  /** Every real step uses up work, so without new calls the threads settle. */
  lemma {:induction false} StepsUseWork(s: State, step: Step)
    requires Inv(s) && Enabled(s, step) && step in {RxTest, TxTest, TxFinish}
    ensures Work(Next(s, step)) < Work(s)
  {}

  /** A spurious wake-up adds one step: the sleeper tests again. */
  lemma {:induction false} SpuriousAddsOne(s: State, step: Step)
    requires Inv(s) && Enabled(s, step) && (step.RxSpurious? || step.TxSpurious?)
    ensures Work(Next(s, step)) == Work(s) + 1
  {}

  /** Real steps and spurious wake-ups among the steps. */
  function RealSteps(steps: seq<Step>): nat {
    if steps == [] then 0 else (if steps[0] in {RxTest, TxTest, TxFinish} then 1 else 0) + RealSteps(steps[1..])
  }

  function Spurious(steps: seq<Step>): nat {
    if steps == [] then 0 else (if steps[0].RxSpurious? || steps[0].TxSpurious? then 1 else 0) + Spurious(steps[1..])
  }

  /** A stretch of any run without new calls has at most as many real steps as there is work at its start, plus
      its spurious wake-ups. With NeverDeadlocked: whatever the scheduling, everything handed over is processed
      and the receive thread gets free after that many. */
  lemma {:induction false} Settles(states: seq<State>, steps: seq<Step>)
    requires |states| == |steps| + 1 && Inv(states[0])
    requires forall k :: 0 <= k < |steps| ==>
               !steps[k].Call? && Enabled(states[k], steps[k]) && states[k + 1] == Next(states[k], steps[k])
    ensures RealSteps(steps) + Work(states[|steps|]) <= Work(states[0]) + Spurious(steps)
    decreases |steps|
  {
    if steps != [] {
      InvKept(states[0], steps[0]);
      if steps[0] in {RxTest, TxTest, TxFinish} {
        StepsUseWork(states[0], steps[0]);
      } else {
        SpuriousAddsOne(states[0], steps[0]);
      }
      Settles(states[1..], steps[1..]);
      hide Next;
      hide Work;
    }
  }

  // ---- the receive thread's own wake-up ----

  datatype Field = Frame | Subframe | Timestamp

  function Get(m: Msg, f: Field): int {
    match f case Frame => m.frame case Subframe => m.subframe case Timestamp => m.timestamp
  }

  /** `got` with field f as in m. */
  function With(got: Msg, f: Field, m: Msg): Msg {
    match f
    case Frame => got.(frame := m.frame)
    case Subframe => got.(subframe := m.subframe)
    case Timestamp => got.(timestamp := m.timestamp)
  }

  function AllFields(): set<Field> { {Frame, Subframe, Timestamp} }

  /** The L1 receive thread between wakeup_rxtx and wakeup_tx. It gives its own counter back before it
      reads, one after the other, the fields it passes to wakeup_tx. */
  datatype RxThread = Idle | Running(job: Msg) | GivenBack(job: Msg, read: set<Field>, got: Msg)

  /** `fields` are L1_proc's frame, subframe and timestamp; `accepted` the subframes wakeup_rxtx took;
      `finished` the jobs run; `passedOn` what wakeup_tx was called with. */
  datatype Chain = Chain(count: int, fields: Msg, thread: RxThread,
                         accepted: seq<Msg>, finished: seq<Msg>, passedOn: seq<Msg>)

  /** The fields are the arguments of a call, so they may be read in any order. */
  datatype ChainStep = WakeupRxtx(msg: Msg) | Begin | GiveBack | ReadField(field: Field) | PassOn

  predicate CanStep(c: Chain, step: ChainStep) {
    match step
    case WakeupRxtx(_) => true
    case Begin => c.thread.Idle? && c.count == 0
    case GiveBack => c.thread.Running?
    case ReadField(f) => c.thread.GivenBack? && f !in c.thread.read
    case PassOn => c.thread.GivenBack? && c.thread.read == AllFields()
  }

  function ChainNext(c: Chain, step: ChainStep): Chain
    requires CanStep(c, step)
  {
    match step
    case WakeupRxtx(m) =>
      if c.count == 0 then c // busy: the subframe is dropped
      else c.(count := 0, fields := m, accepted := c.accepted + [m])
    case Begin => c.(thread := Running(c.fields))
    case GiveBack =>
      c.(thread := GivenBack(c.thread.job, {}, c.thread.job), count := -1, finished := c.finished + [c.thread.job])
    case ReadField(f) =>
      c.(thread := c.thread.(read := c.thread.read + {f}, got := With(c.thread.got, f, c.fields)))
    case PassOn => c.(thread := Idle, passedOn := c.passedOn + [c.thread.got])
  }

  /** A wake-up overtakes when it is taken between giving back and passing on, and changes a field that is
      still to be read. */
  ghost predicate Overtakes(c: Chain, step: ChainStep) {
    && step.WakeupRxtx? && c.thread.GivenBack? && c.count != 0
    && exists f :: f !in c.thread.read && Get(step.msg, f) != Get(c.thread.job, f)
  }

  /** What has been read, and what is still to be read, are the job's own fields. */
  ghost predicate ReadsOwn(c: Chain)
    requires c.thread.GivenBack?
  {
    && (forall f :: f in c.thread.read ==> Get(c.thread.got, f) == Get(c.thread.job, f))
    && (forall f :: f !in c.thread.read ==> Get(c.fields, f) == Get(c.thread.job, f))
  }

  /** Everything accepted is passed on, but for the job under way and one that may already wait. */
  ghost predicate ChainInv(c: Chain) {
    && (c.count == 0 || c.count == -1)
    && var waiting := if c.count == 0 then [c.fields] else [];
       match c.thread
       case Idle => c.accepted == c.passedOn + waiting && c.finished == c.passedOn
       case Running(j) => c.count == 0 && j == c.fields && c.accepted == c.passedOn + [j] && c.finished == c.passedOn
       case GivenBack(j, _, _) =>
         ReadsOwn(c) && c.accepted == c.passedOn + [j] + waiting && c.finished == c.passedOn + [j]
  }

  lemma {:induction false} SameFields(a: Msg, b: Msg)
    requires forall f :: f in AllFields() ==> Get(a, f) == Get(b, f)
    ensures a == b
  {
    assert Get(a, Frame) == Get(b, Frame) && Get(a, Subframe) == Get(b, Subframe) && Get(a, Timestamp) == Get(b, Timestamp);
  }

  lemma {:induction false} ChainInvKept(c: Chain, step: ChainStep)
    requires ChainInv(c) && CanStep(c, step) && !Overtakes(c, step)
    ensures ChainInv(ChainNext(c, step))
  {
    match step
    case PassOn => SameFields(c.thread.got, c.thread.job);
    case WakeupRxtx(m) =>
      assert c.passedOn + [] == c.passedOn;
      if c.thread.GivenBack? {
        assert c.passedOn + [c.thread.job] + [] == c.passedOn + [c.thread.job];
      }
    case GiveBack => assert c.passedOn + [c.thread.job] + [] == c.passedOn + [c.thread.job];
    case _ =>
  }

  function ChainInit(fields: Msg): Chain { Chain(-1, fields, Idle, [], [], []) }

  ghost predicate IsChainRun(cs: seq<Chain>, steps: seq<ChainStep>) {
    && |cs| == |steps| + 1 && cs[0] == ChainInit(cs[0].fields)
    && forall k :: 0 <= k < |steps| ==> CanStep(cs[k], steps[k]) && cs[k + 1] == ChainNext(cs[k], steps[k])
  }

  /** As long as no wake-up overtakes, every subframe wakeup_rxtx took is passed on exactly once, in
      order and with its own fields. */
  lemma {:induction false} PassedOnInOrder(cs: seq<Chain>, steps: seq<ChainStep>, k: nat)
    requires IsChainRun(cs, steps) && k < |cs| && forall i :: 0 <= i < k ==> !Overtakes(cs[i], steps[i])
    ensures ChainInv(cs[k]) && cs[k].passedOn <= cs[k].accepted && |cs[k].accepted| <= |cs[k].passedOn| + 2
    decreases k
  {
    if k > 0 {
      PassedOnInOrder(cs, steps, k - 1);
      ChainInvKept(cs[k - 1], steps[k - 1]);
    }
  }

  /** Job j is finished, but m has overtaken it in field f. */
  predicate Overtaken(c: Chain, j: Msg, m: Msg, f: Field) {
    && c.thread.GivenBack? && c.thread.job == j && c.count == 0 && c.fields == m && c.accepted == c.passedOn + [j, m]
    && (f in c.thread.read ==> Get(c.thread.got, f) == Get(m, f))
  }

  lemma {:induction false} StaysOvertaken(cs: seq<Chain>, steps: seq<ChainStep>, k: nat, p: nat, j: Msg, m: Msg, f: Field)
    requires IsChainRun(cs, steps) && k <= p < |cs| && Overtaken(cs[k], j, m, f)
    requires forall i :: k <= i < p ==> steps[i] != PassOn
    ensures Overtaken(cs[p], j, m, f)
    decreases p
  {
    if k < p {
      StaysOvertaken(cs, steps, k, p - 1, j, m, f);
      assert steps[p - 1].WakeupRxtx? || steps[p - 1].ReadField?;
    }
  }

  /** The condition is exact: once a wake-up overtakes, the next hand-over passes on a message that is not
      the finished subframe's, which is lost. */
  lemma {:induction false} OvertakenIsLost(cs: seq<Chain>, steps: seq<ChainStep>, k: nat, p: nat)
    requires IsChainRun(cs, steps) && k < p < |steps| && steps[p] == PassOn
    requires (forall i :: 0 <= i < k ==> !Overtakes(cs[i], steps[i])) && Overtakes(cs[k], steps[k])
    requires forall i :: k < i < p ==> steps[i] != PassOn
    ensures !(cs[p + 1].passedOn <= cs[p + 1].accepted)
  {
    PassedOnInOrder(cs, steps, k);
    var j, m := cs[k].thread.job, steps[k].msg;
    var f :| f !in cs[k].thread.read && Get(m, f) != Get(j, f);
    assert cs[k + 1].accepted == cs[k].passedOn + [j, m];
    StaysOvertaken(cs, steps, k + 1, p, j, m, f);
    var c := cs[p];
    assert f in AllFields() by { match f case Frame => case Subframe => case Timestamp => }
    assert cs[p + 1].passedOn[|c.passedOn|] == c.thread.got && cs[p + 1].accepted[|c.passedOn|] == j;
  }

  lemma {:induction false} Extend(cs: seq<Chain>, steps: seq<ChainStep>, step: ChainStep) returns (cs': seq<Chain>, steps': seq<ChainStep>)
    requires IsChainRun(cs, steps) && CanStep(cs[|cs| - 1], step)
    ensures IsChainRun(cs', steps') && |cs'| == |cs| + 1 && cs'[|cs|] == ChainNext(cs[|cs| - 1], step)
  {
    cs', steps' := cs + [ChainNext(cs[|cs| - 1], step)], steps + [step];
  }

  /** A finished thread reads all its fields and passes them on. */
  lemma {:induction false} ReadAndPass(cs: seq<Chain>, steps: seq<ChainStep>) returns (cs': seq<Chain>, steps': seq<ChainStep>)
    requires IsChainRun(cs, steps) && cs[|cs| - 1].thread.GivenBack? && cs[|cs| - 1].thread.read == {}
    ensures IsChainRun(cs', steps')
    ensures var c := cs[|cs| - 1]; cs'[|cs'| - 1] == c.(thread := Idle, passedOn := c.passedOn + [c.fields])
  {
    cs', steps' := Extend(cs, steps, ReadField(Frame));
    cs', steps' := Extend(cs', steps', ReadField(Subframe));
    cs', steps' := Extend(cs', steps', ReadField(Timestamp));
    assert cs'[|cs'| - 1].thread.read == AllFields();
    cs', steps' := Extend(cs', steps', PassOn);
  }

  /** It does happen: a run in which one subframe is lost and the next handed over twice. */
  lemma {:induction false} LostAndDoubled(a: Msg, b: Msg) returns (cs: seq<Chain>, steps: seq<ChainStep>)
    ensures IsChainRun(cs, steps)
    ensures var last := cs[|cs| - 1]; last.accepted == [a, b] && last.finished == [a, b] && last.passedOn == [b, b]
  {
    cs, steps := [ChainInit(a)], [];
    cs, steps := Extend(cs, steps, WakeupRxtx(a));
    cs, steps := Extend(cs, steps, Begin);
    cs, steps := Extend(cs, steps, GiveBack);
    cs, steps := Extend(cs, steps, WakeupRxtx(b));
    cs, steps := ReadAndPass(cs, steps);
    cs, steps := Extend(cs, steps, Begin);
    cs, steps := Extend(cs, steps, GiveBack);
    cs, steps := ReadAndPass(cs, steps);
  }

  /** ... and one in which what is handed over is a mixture of two subframes. */
  lemma {:induction false} Torn(a: Msg, b: Msg) returns (cs: seq<Chain>, steps: seq<ChainStep>)
    ensures IsChainRun(cs, steps)
    ensures var last := cs[|cs| - 1]; last.finished == [a] && last.passedOn == [Msg(a.frame, b.subframe, b.timestamp)]
  {
    cs, steps := [ChainInit(a)], [];
    cs, steps := Extend(cs, steps, WakeupRxtx(a));
    cs, steps := Extend(cs, steps, Begin);
    cs, steps := Extend(cs, steps, GiveBack);
    cs, steps := Extend(cs, steps, ReadField(Frame));
    cs, steps := Extend(cs, steps, WakeupRxtx(b));
    cs, steps := Extend(cs, steps, ReadField(Subframe));
    cs, steps := Extend(cs, steps, ReadField(Timestamp));
    assert cs[|cs| - 1].thread.read == AllFields();
    cs, steps := Extend(cs, steps, PassOn);
  }

  // ---- both hand-overs together ----

  /** From wakeup_rxtx to the transmit thread. `uplink` holds the subframes that are not transmitted. */
  datatype System = System(uplink: set<nat>, chain: Chain, mail: State)

  datatype SystemStep = ChainStep(chainStep: ChainStep) | MailStep(mailStep: Step)

  /** The receive thread is back from wakeup_tx when it waits for its next subframe; calling wakeup_tx is
      passing on. */
  predicate SystemCan(s: System, step: SystemStep) {
    match step
    case ChainStep(c) => CanStep(s.chain, c) && (c.Begin? || c.PassOn? ==> s.mail.rx.RxElsewhere?)
    case MailStep(m) => !m.Call? && Enabled(s.mail, m)
  }

  function SystemNext(s: System, step: SystemStep): System
    requires SystemCan(s, step)
  {
    match step
    case ChainStep(c) =>
      var s1 := s.(chain := ChainNext(s.chain, c));
      if c.PassOn? then
        var m := s.chain.thread.got;
        s1.(mail := Next(s.mail, Call(m, m.subframe in s.uplink)))
      else s1
    case MailStep(m) => s.(mail := Next(s.mail, m))
  }

  /** The subframes that are transmitted. */
  function Transmitted(uplink: set<nat>, ms: seq<Msg>): seq<Msg> {
    if ms == [] then []
    else
      var k := |ms| - 1;
      Transmitted(uplink, ms[..k]) + (if ms[k].subframe in uplink then [] else [ms[k]])
  }

  lemma {:induction false} TransmittedPrefix(uplink: set<nat>, a: seq<Msg>, b: seq<Msg>)
    requires a <= b
    ensures Transmitted(uplink, a) <= Transmitted(uplink, b)
    decreases |b|
  {
    if a == b {
    } else {
      TransmittedPrefix(uplink, a, b[..|b| - 1]);
    }
  }

  /** What wakeup_tx holds between its call and the mailbox. */
  function OnTheWay(rx: RxPhase): seq<Msg> {
    match rx case RxElsewhere => [] case RxTesting(m) => [m] case RxAsleep(m) => [m]
  }

  ghost predicate SystemInv(s: System) {
    ChainInv(s.chain) && Inv(s.mail) && s.mail.handed + OnTheWay(s.mail.rx) == Transmitted(s.uplink, s.chain.passedOn)
  }

  lemma {:induction false} SystemInvKept(s: System, step: SystemStep)
    requires SystemInv(s) && SystemCan(s, step) && (step.ChainStep? ==> !Overtakes(s.chain, step.chainStep))
    ensures SystemInv(SystemNext(s, step))
  {
    match step
    case ChainStep(c) =>
      ChainInvKept(s.chain, c);
      if c.PassOn? {
        var m := s.chain.thread.got;
        InvKept(s.mail, Call(m, m.subframe in s.uplink));
        assert (s.chain.passedOn + [m])[..|s.chain.passedOn|] == s.chain.passedOn;
        assert s.mail.handed + [] == s.mail.handed;
        assert Transmitted(s.uplink, s.chain.passedOn) + [] == Transmitted(s.uplink, s.chain.passedOn);
      }
    case MailStep(m) =>
      InvKept(s.mail, m);
      if m.RxTest? && s.mail.count != 0 {
        assert s.mail.handed + [s.mail.rx.msg] + [] == s.mail.handed + [s.mail.rx.msg];
      }
  }

  ghost predicate IsSystemRun(ss: seq<System>, steps: seq<SystemStep>) {
    && |ss| == |steps| + 1
    && ss[0] == System(ss[0].uplink, ChainInit(ss[0].chain.fields), Init(ss[0].mail.box))
    && forall k :: 0 <= k < |steps| ==> SystemCan(ss[k], steps[k]) && ss[k + 1] == SystemNext(ss[k], steps[k])
  }

  /** From end to end: as long as no wake-up overtakes, what the transmit thread processes are the subframes
      wakeup_rxtx took, without the uplink ones, in order and each once. */
  lemma {:induction false} EndToEnd(ss: seq<System>, steps: seq<SystemStep>, k: nat)
    requires IsSystemRun(ss, steps) && k < |ss|
    requires forall i :: 0 <= i < k && steps[i].ChainStep? ==> !Overtakes(ss[i].chain, steps[i].chainStep)
    ensures SystemInv(ss[k]) && ss[k].mail.processed <= Transmitted(ss[k].uplink, ss[k].chain.accepted)
    decreases k
  {
    if k == 0 {
      assert ss[0].mail.handed + [] == [];
    } else {
      EndToEnd(ss, steps, k - 1);
      SystemInvKept(ss[k - 1], steps[k - 1]);
      hide SystemNext;
      hide SystemInv;
    }
    Processed(ss[k]);
  }

  lemma {:induction false} Processed(s: System)
    requires SystemInv(s)
    ensures s.mail.processed <= Transmitted(s.uplink, s.chain.accepted)
  {
    assert s.chain.passedOn <= s.chain.accepted;
    TransmittedPrefix(s.uplink, s.chain.passedOn, s.chain.accepted);
  }
}
