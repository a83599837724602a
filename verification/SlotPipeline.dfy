/** The gNB slot pipeline: ru_thread and wait_free_rx_tti (executables/nr-ru.c), L1_tx_thread
    and L1_rx_thread (executables/nr-gnb.c), as atomic steps over the three queues and the
    busy array. A step of one thread may happen between any two steps of the others. */
module SlotPipeline {

  /** RU_RX_SLOT_DEPTH */
  const DEPTH: nat := 4

  datatype Job = Job(frame: nat, slot: nat)

  function Index(j: Job): nat { j.slot % DEPTH }

  /** The RU thread reads a slot, may wait for its RX buffer, and fills it before posting. */
  datatype RuPhase = Reading | Waiting(wanted: Job) | Filling(current: Job)

  /** The TX thread triggers reception of a job, then transmits. */
  datatype TxPhase = TxIdle | Scheduling(scheduled: Job) | Sending

  datatype RxPhase = RxIdle | Receiving(received: Job)

  /** `uplink` holds the slots nr_slot_select calls uplink or mixed (it ignores the frame). */
  datatype State = State(uplink: set<nat>, busy: seq<bool>, ru: RuPhase, l1TxOut: seq<Job>, tx: TxPhase,
                         respL1: seq<Job>, rx: RxPhase, l1RxOut: seq<Job>)

  predicate Uplink(s: State, j: Job) { j.slot in s.uplink }

  datatype Step = RuRead(job: Job) | RuPull | RuPost | TxPull | TxTrigger | TxSent | RxPull | RxDone

  predicate Enabled(s: State, step: Step) {
    match step
    case RuRead(_) => s.ru.Reading?
    case RuPull => s.ru.Waiting? && s.l1RxOut != []
    case RuPost => s.ru.Filling?
    case TxPull => s.tx.TxIdle? && s.l1TxOut != []
    case TxTrigger => s.tx.Scheduling?
    case TxSent => s.tx.Sending?
    case RxPull => s.rx.RxIdle? && s.respL1 != []
    case RxDone => s.rx.Receiving?
  }

  function Next(s: State, step: Step): State
    requires |s.busy| == DEPTH && Enabled(s, step)
  {
    match step
    case RuRead(j) =>
      if !Uplink(s, j) then s.(ru := Filling(j))
      else if s.busy[Index(j)] then s.(ru := Waiting(j))
      else s.(ru := Filling(j), busy := s.busy[Index(j) := true])
    case RuPull =>
      var busy := s.busy[Index(s.l1RxOut[0]) := false];
      if Index(s.l1RxOut[0]) == Index(s.ru.wanted) then
        s.(ru := Filling(s.ru.wanted), busy := busy[Index(s.ru.wanted) := true], l1RxOut := s.l1RxOut[1..])
      else s.(busy := busy, l1RxOut := s.l1RxOut[1..])
    case RuPost => s.(ru := Reading, l1TxOut := s.l1TxOut + [s.ru.current])
    case TxPull => s.(tx := Scheduling(s.l1TxOut[0]), l1TxOut := s.l1TxOut[1..])
    case TxTrigger => s.(tx := Sending, respL1 := s.respL1 + [s.tx.scheduled])
    case TxSent => s.(tx := TxIdle)
    case RxPull => s.(rx := Receiving(s.respL1[0]), respL1 := s.respL1[1..])
    case RxDone =>
      s.(rx := RxIdle, l1RxOut := s.l1RxOut + (if Uplink(s, s.rx.received) then [s.rx.received] else []))
  }

  /** Uplink jobs of a queue that use RX buffer i. */
  function Count(uplink: set<nat>, q: seq<Job>, i: nat): nat {
    if q == [] then 0
    else (if q[0].slot in uplink && Index(q[0]) == i then 1 else 0) + Count(uplink, q[1..], i)
  }

  lemma {:induction false} CountAppend(uplink: set<nat>, q: seq<Job>, j: Job, i: nat)
    ensures Count(uplink, q + [j], i) == Count(uplink, q, i) + Count(uplink, [j], i)
  {
    if q == [] {
      assert q + [j] == [j];
    } else {
      assert (q + [j])[1..] == q[1..] + [j];
      CountAppend(uplink, q[1..], j, i);
    }
  }

  function Held(s: State, j: Job, i: nat): nat {
    if Uplink(s, j) && Index(j) == i then 1 else 0
  }

  /** Uplink jobs using RX buffer i that the TX and RX threads or the RU thread's unread
      completions still hold: everything posted by the RU thread and not yet released. */
  function Posted(s: State, i: nat): nat {
    Count(s.uplink, s.l1TxOut, i)
    + (if s.tx.Scheduling? then Held(s, s.tx.scheduled, i) else 0)
    + Count(s.uplink, s.respL1, i)
    + (if s.rx.Receiving? then Held(s, s.rx.received, i) else 0)
    + Count(s.uplink, s.l1RxOut, i)
  }

  /** ... and the job whose buffer the RU thread is filling. */
  function InFlight(s: State, i: nat): nat {
    Posted(s, i) + (if s.ru.Filling? then Held(s, s.ru.current, i) else 0)
  }

  /** Each RX buffer has exactly one uplink job in flight when it is marked busy, none otherwise. */
  ghost predicate Inv(s: State) {
    && |s.busy| == DEPTH
    && (forall i :: 0 <= i < DEPTH ==> InFlight(s, i) == if s.busy[i] then 1 else 0)
    && (s.ru.Waiting? ==> Uplink(s, s.ru.wanted) && s.busy[Index(s.ru.wanted)])
    && (forall k :: 0 <= k < |s.l1RxOut| ==> Uplink(s, s.l1RxOut[k]))
  }

  function Init(uplink: set<nat>): (s: State)
    ensures Inv(s)
  {
    State(uplink, [false, false, false, false], Reading, [], TxIdle, [], RxIdle, [])
  }

  /** The TX and RX threads only move a job on to its next stage. */
  lemma {:induction false} WorkersMoveJobs(s: State, step: Step, i: nat)
    requires |s.busy| == DEPTH && Enabled(s, step) && !step.RuRead? && !step.RuPull? && !step.RuPost?
    ensures Posted(Next(s, step), i) == Posted(s, i)
  {
    match step
    case TxTrigger => CountAppend(s.uplink, s.respL1, s.tx.scheduled, i);
    case RxDone =>
      CountAppend(s.uplink, s.l1RxOut, s.rx.received, i);
      assert s.l1RxOut + [] == s.l1RxOut;
    case _ =>
  }

  /** Only the RU thread changes how many jobs use a buffer: it adds the one it starts to fill
      and removes the completion it reads. */
  lemma {:induction false} StepCount(s: State, step: Step, i: nat)
    requires |s.busy| == DEPTH && Enabled(s, step)
    ensures var s' := Next(s, step);
            InFlight(s', i) == InFlight(s, i)
                               + (if !s.ru.Filling? && s'.ru.Filling? then Held(s, s'.ru.current, i) else 0)
                               - (if step.RuPull? then Held(s, s.l1RxOut[0], i) else 0)
  {
    match step
    case RuRead(_) => ReadCount(s, step, i);
    case RuPull => PullCount(s, i);
    case RuPost => PostCount(s, i);
    case _ =>
      WorkersMoveJobs(s, step, i);
      WorkersLeaveRu(s, step);
      hide Posted;
      hide Next;
  }

  lemma {:induction false} WorkersLeaveRu(s: State, step: Step)
    requires |s.busy| == DEPTH && Enabled(s, step) && !step.RuRead? && !step.RuPull? && !step.RuPost?
    ensures Next(s, step).ru == s.ru && Next(s, step).uplink == s.uplink
  {}

  lemma {:induction false} ReadCount(s: State, step: Step, i: nat)
    requires |s.busy| == DEPTH && Enabled(s, step) && step.RuRead?
    ensures var s' := Next(s, step);
            InFlight(s', i) == InFlight(s, i) + (if s'.ru.Filling? then Held(s, s'.ru.current, i) else 0)
  {
    hide Count;
  }

  lemma {:induction false} PullCount(s: State, i: nat)
    requires |s.busy| == DEPTH && Enabled(s, RuPull)
    ensures var s' := Next(s, RuPull);
            InFlight(s', i) == InFlight(s, i) + (if s'.ru.Filling? then Held(s, s'.ru.current, i) else 0) - Held(s, s.l1RxOut[0], i)
  {
    assert Count(s.uplink, s.l1RxOut, i) == Held(s, s.l1RxOut[0], i) + Count(s.uplink, s.l1RxOut[1..], i);
    hide Count;
  }

  lemma {:induction false} PostCount(s: State, i: nat)
    requires |s.busy| == DEPTH && Enabled(s, RuPost)
    ensures InFlight(Next(s, RuPost), i) == InFlight(s, i)
  {
    CountAppend(s.uplink, s.l1TxOut, s.ru.current, i);
    assert Count(s.uplink, [s.ru.current], i) == Held(s, s.ru.current, i);
    hide Count;
  }

  /** Every step of every thread keeps the invariant. */
  lemma {:induction false} InvKept(s: State, step: Step)
    requires Inv(s) && Enabled(s, step)
    ensures Inv(Next(s, step))
  {
    var s' := Next(s, step);
    forall i | 0 <= i < DEPTH
      ensures InFlight(s', i) == if s'.busy[i] then 1 else 0
    {
      StepCount(s, step, i);
      if step.RuPull? {
        assert Uplink(s, s.l1RxOut[0]);
      }
    }
  }

  /** A run: steps of the three threads in any interleaving, from the initial state. */
  ghost predicate IsRun(uplink: set<nat>, states: seq<State>, steps: seq<Step>) {
    && |states| == |steps| + 1 && states[0] == Init(uplink)
    && forall k :: 0 <= k < |steps| ==>
         |states[k].busy| == DEPTH && Enabled(states[k], steps[k]) && states[k + 1] == Next(states[k], steps[k])
  }

  lemma {:induction false} Reachable(uplink: set<nat>, states: seq<State>, steps: seq<Step>, k: nat)
    requires IsRun(uplink, states, steps) && k < |states|
    ensures Inv(states[k]) && states[k].uplink == uplink
  {
    if k > 0 {
      Reachable(uplink, states, steps, k - 1);
      InvKept(states[k - 1], steps[k - 1]);
    }
  }

  /** In every run the RU thread fills an RX buffer only when no other job holds it, no buffer
      ever has two jobs, and so at most DEPTH uplink jobs exist. */
  lemma {:induction false} BufferExclusion(uplink: set<nat>, states: seq<State>, steps: seq<Step>, k: nat)
    requires IsRun(uplink, states, steps) && k < |states|
    ensures var s := states[k];
            && (s.ru.Filling? && Uplink(s, s.ru.current) ==> Posted(s, Index(s.ru.current)) == 0)
            && (s.ru.Filling? && s.rx.Receiving? && Uplink(s, s.ru.current) && Uplink(s, s.rx.received)
                ==> Index(s.rx.received) != Index(s.ru.current))
            && (forall i :: 0 <= i < DEPTH ==> InFlight(s, i) <= 1)
            && InFlight(s, 0) + InFlight(s, 1) + InFlight(s, 2) + InFlight(s, 3) <= DEPTH
  {
    Reachable(uplink, states, steps, k);
    var s := states[k];
    if s.ru.Filling? {
      assert InFlight(s, Index(s.ru.current)) <= 1;
    }
  }

  /** Steps the TX and RX threads, and the RU thread reading completions, can still take. */
  function Work(s: State): nat {
    6 * |s.l1TxOut| + (match s.tx case TxIdle => 0 case Scheduling(_) => 5 case Sending => 1)
    + 3 * |s.respL1| + (if s.rx.Receiving? then 2 else 0) + |s.l1RxOut|
  }

  /** While the RU thread waits, every possible step of any thread uses up work. */
  lemma {:induction false} WaitUsesWork(s: State, step: Step)
    requires |s.busy| == DEPTH && s.ru.Waiting? && Enabled(s, step)
    ensures Work(Next(s, step)) < Work(s)
  {}

  /** While the RU thread waits, some thread can take a step: the wanted buffer's job is still
      in the pipeline, so the wait cannot deadlock. */
  lemma {:induction false} WaitNotStuck(s: State) returns (step: Step)
    requires Inv(s) && s.ru.Waiting?
    ensures Posted(s, Index(s.ru.wanted)) == 1 && Enabled(s, step)
    ensures step in {RuPull, TxPull, TxTrigger, TxSent, RxPull, RxDone}
  {
    assert InFlight(s, Index(s.ru.wanted)) == 1;
    step := if s.l1RxOut != [] then RuPull
            else if s.rx.Receiving? then RxDone
            else if s.respL1 != [] then RxPull
            else if s.tx.Scheduling? then TxTrigger
            else if s.tx.Sending? then TxSent
            else TxPull;
  }

  /** wait_free_rx_tti ends: a stretch of any run throughout which the RU thread waits is no
      longer than the work at its beginning. With WaitNotStuck, and whatever the
      scheduling, the RU thread gets its buffer after finitely many steps. */
  lemma {:induction false} WaitEnds(states: seq<State>, steps: seq<Step>)
    requires |states| == |steps| + 1
    requires forall k :: 0 <= k < |steps| ==>
               |states[k].busy| == DEPTH && Enabled(states[k], steps[k]) && states[k + 1] == Next(states[k], steps[k])
    requires forall k :: 0 <= k < |steps| ==> states[k].ru.Waiting?
    ensures |steps| <= Work(states[0])
    decreases |steps|
  {
    if steps != [] {
      WaitUsesWork(states[0], steps[0]);
      WaitEnds(states[1..], steps[1..]);
    }
  }

  // ---- which jobs the threads get ----

  function RuHand(p: RuPhase): seq<Job> {
    match p case Reading => [] case Waiting(j) => [j] case Filling(j) => [j]
  }

  function TxHand(p: TxPhase): seq<Job> { if p.Scheduling? then [p.scheduled] else [] }

  function RxHand(p: RxPhase): seq<Job> { if p.Receiving? then [p.received] else [] }

  /** Jobs the TX thread has triggered and the RX thread has not finished, oldest first. */
  function Triggered(s: State): seq<Job> { RxHand(s.rx) + s.respL1 }

  /** Jobs read and not yet triggered, oldest first. */
  function Untriggered(s: State): seq<Job> { TxHand(s.tx) + s.l1TxOut + RuHand(s.ru) }

  /** Reading a slot adds its job at the end, and triggering takes the first away. */
  lemma {:induction false} UntriggeredStep(s: State, step: Step)
    requires |s.busy| == DEPTH && Enabled(s, step)
    ensures var s' := Next(s, step);
            match step
            case RuRead(j) => Untriggered(s') == Untriggered(s) + [j]
            case TxTrigger => Untriggered(s) == [s.tx.scheduled] + Untriggered(s')
            case _ => Untriggered(s') == Untriggered(s)
  {
    hide Index;
    hide Uplink;
    match step
    case RuPost => assert s.l1TxOut + [s.ru.current] + [] == s.l1TxOut + [s.ru.current];
    case TxPull => assert s.l1TxOut == [s.l1TxOut[0]] + s.l1TxOut[1..];
    case _ =>
  }

  /** Triggering adds a job at the end, and the RX thread finishes the first. */
  lemma {:induction false} TriggeredStep(s: State, step: Step)
    requires |s.busy| == DEPTH && Enabled(s, step)
    ensures var s' := Next(s, step);
            match step
            case TxTrigger => Triggered(s') == Triggered(s) + [s.tx.scheduled]
            case RxDone => Triggered(s) == [s.rx.received] + Triggered(s')
            case _ => Triggered(s') == Triggered(s)
  {
    hide Index;
    hide Uplink;
    match step
    case RxPull => assert s.respL1 == [s.respL1[0]] + s.respL1[1..];
    case _ =>
  }

  /** What the threads did in a run: the slots the RU thread read, the jobs the TX thread triggered, those the
      RX thread finished, the completions the RU thread read back, and how many jobs the TX thread sent. */
  datatype History = History(read: seq<Job>, triggered: seq<Job>, finished: seq<Job>, pulled: seq<Job>, sent: nat)

  function Record(h: History, s: State, step: Step): History
    requires Enabled(s, step)
  {
    match step
    case RuRead(j) => h.(read := h.read + [j])
    case TxTrigger => h.(triggered := h.triggered + [s.tx.scheduled])
    case RxDone => h.(finished := h.finished + [s.rx.received])
    case RuPull => h.(pulled := h.pulled + [s.l1RxOut[0]])
    case TxSent => h.(sent := h.sent + 1)
    case _ => h
  }

  function HistoryOf(states: seq<State>, steps: seq<Step>, k: nat): History
    requires k <= |steps| < |states| && forall i :: 0 <= i < |steps| ==> Enabled(states[i], steps[i])
  {
    if k == 0 then History([], [], [], [], 0)
    else Record(HistoryOf(states, steps, k - 1), states[k - 1], steps[k - 1])
  }

  /** The uplink jobs of a queue. */
  function Uplinks(uplink: set<nat>, q: seq<Job>): seq<Job> {
    if q == [] then []
    else Uplinks(uplink, q[..|q| - 1]) + (if q[|q| - 1].slot in uplink then [q[|q| - 1]] else [])
  }

  /** Every slot read is handed on once, in order: what the TX thread triggered and what it has still to
      trigger are the slots read; what the RX thread finished and what it has still to finish are the
      jobs triggered; the completions read back and those waiting are the uplink jobs finished. The TX thread
      sends a job after triggering it and before the next. */
  ghost predicate Traced(h: History, s: State) {
    && |h.triggered| == h.sent + (if s.tx.Sending? then 1 else 0)
    && h.read == h.triggered + Untriggered(s) && h.triggered == h.finished + Triggered(s)
    && Uplinks(s.uplink, h.finished) == h.pulled + s.l1RxOut
  }

  lemma {:induction false} TracedStep(h: History, s: State, step: Step)
    requires |s.busy| == DEPTH && Enabled(s, step) && Traced(h, s)
    ensures Traced(Record(h, s, step), Next(s, step))
  {
    ReadTrace(h, s, step);
    TriggerTrace(h, s, step);
    CompletionStep(h, s, step);
    SentStep(h, s, step);
    hide Enabled;
    hide Next;
    hide Record;
    hide Untriggered;
    hide Triggered;
    hide Uplinks;
  }

  lemma {:induction false} ReadTrace(h: History, s: State, step: Step)
    requires |s.busy| == DEPTH && Enabled(s, step) && h.read == h.triggered + Untriggered(s)
    ensures var h' := Record(h, s, step); h'.read == h'.triggered + Untriggered(Next(s, step))
  {
    UntriggeredStep(s, step);
    hide Next;
    hide Untriggered;
    match step
    case RuRead(j) => assert h.read + [j] == h.triggered + (Untriggered(s) + [j]);
    case TxTrigger =>
      var j, rest := s.tx.scheduled, Untriggered(Next(s, step));
      assert h.triggered + ([j] + rest) == h.triggered + [j] + rest;
    case _ =>
  }

  lemma {:induction false} TriggerTrace(h: History, s: State, step: Step)
    requires |s.busy| == DEPTH && Enabled(s, step) && h.triggered == h.finished + Triggered(s)
    ensures var h' := Record(h, s, step); h'.triggered == h'.finished + Triggered(Next(s, step))
  {
    TriggeredStep(s, step);
    hide Next;
    hide Triggered;
    match step
    case TxTrigger => assert h.triggered + [s.tx.scheduled] == h.finished + (Triggered(s) + [s.tx.scheduled]);
    case RxDone =>
      var j, rest := s.rx.received, Triggered(Next(s, step));
      assert h.finished + ([j] + rest) == h.finished + [j] + rest;
    case _ =>
  }

  lemma {:induction false} SentStep(h: History, s: State, step: Step)
    requires |s.busy| == DEPTH && Enabled(s, step) && |h.triggered| == h.sent + (if s.tx.Sending? then 1 else 0)
    ensures var h', s' := Record(h, s, step), Next(s, step);
            |h'.triggered| == h'.sent + (if s'.tx.Sending? then 1 else 0)
  {
    hide Index;
    hide Uplink;
  }

  lemma {:induction false} UplinksAppend(uplink: set<nat>, q: seq<Job>, j: Job)
    ensures Uplinks(uplink, q + [j]) == Uplinks(uplink, q) + (if j.slot in uplink then [j] else [])
  {
    assert (q + [j])[..|q|] == q;
  }

  lemma {:induction false} CompletionStep(h: History, s: State, step: Step)
    requires |s.busy| == DEPTH && Enabled(s, step) && Uplinks(s.uplink, h.finished) == h.pulled + s.l1RxOut
    ensures var h', s' := Record(h, s, step), Next(s, step);
            s'.uplink == s.uplink && Uplinks(s.uplink, h'.finished) == h'.pulled + s'.l1RxOut
  {
    hide Index;
    hide Uplinks;
    match step
    case RxDone =>
      UplinksAppend(s.uplink, h.finished, s.rx.received);
      assert s.l1RxOut + [] == s.l1RxOut;
    case RuPull => assert s.l1RxOut == [s.l1RxOut[0]] + s.l1RxOut[1..];
    case _ =>
  }

  /** In every run, in any interleaving: the jobs the TX thread triggered, and those the RX thread finished, are
      the slots the RU thread read, uplink or not, each once, in order and with their own frame and slot;
      and the RU thread gets back the uplink ones, in order. */
  lemma {:induction false} JobsInOrder(uplink: set<nat>, states: seq<State>, steps: seq<Step>, k: nat)
    requires IsRun(uplink, states, steps) && k <= |steps|
    ensures var h, s := HistoryOf(states, steps, k), states[k];
            && Traced(h, s) && s.uplink == uplink
            && h.finished <= h.triggered <= h.read && h.pulled <= Uplinks(uplink, h.finished)
    decreases k
  {
    if k == 0 {
      assert states[0] == Init(uplink);
    } else {
      JobsInOrder(uplink, states, steps, k - 1);
      TracedStep(HistoryOf(states, steps, k - 1), states[k - 1], steps[k - 1]);
      CompletionStep(HistoryOf(states, steps, k - 1), states[k - 1], steps[k - 1]);
      hide Next;
      hide Untriggered;
      hide Triggered;
      hide Uplinks;
    }
  }

  // ---- when the RU thread waits ----

  /** Some uplink job of the queue uses the buffer of slot `slot`: the slots differ by a multiple of four. */
  ghost predicate SharesBuffer(uplink: set<nat>, q: seq<Job>, slot: nat) {
    exists k :: 0 <= k < |q| && q[k].slot in uplink && (q[k].slot as int - slot) % 4 == 0
  }

  lemma {:induction false} SharesConcat(uplink: set<nat>, q: seq<Job>, q': seq<Job>, slot: nat)
    ensures SharesBuffer(uplink, q + q', slot) <==> SharesBuffer(uplink, q, slot) || SharesBuffer(uplink, q', slot)
  {
    if SharesBuffer(uplink, q, slot) {
      var k :| 0 <= k < |q| && q[k].slot in uplink && (q[k].slot as int - slot) % 4 == 0;
      assert (q + q')[k] == q[k];
    }
    if SharesBuffer(uplink, q', slot) {
      var k :| 0 <= k < |q'| && q'[k].slot in uplink && (q'[k].slot as int - slot) % 4 == 0;
      assert (q + q')[|q| + k] == q'[k];
    }
  }

  lemma {:induction false} CountShares(uplink: set<nat>, q: seq<Job>, j: Job)
    ensures Count(uplink, q, Index(j)) > 0 <==> SharesBuffer(uplink, q, j.slot)
    decreases |q|
  {
    if q != [] {
      CountShares(uplink, q[1..], j);
      SharesConcat(uplink, [q[0]], q[1..], j.slot);
      assert q == [q[0]] + q[1..];
      SameBuffer(uplink, q[0], j);
      hide SharesBuffer;
    }
  }

  lemma {:induction false} SameBuffer(uplink: set<nat>, a: Job, b: Job)
    ensures SharesBuffer(uplink, [a], b.slot) <==> a.slot in uplink && Index(a) == Index(b)
  {
    assert [a][0] == a;
  }

  /** Every job the pipeline holds: in hand, or completed and not yet read back. */
  function Holding(s: State): seq<Job> { Triggered(s) + Untriggered(s) + s.l1RxOut }

  lemma {:induction false} HoldingShares(s: State, j: Job)
    requires s.ru.Reading?
    ensures Posted(s, Index(j)) > 0 <==> SharesBuffer(s.uplink, Holding(s), j.slot)
  {
    var u := s.uplink;
    CountShares(u, s.l1TxOut, j);
    CountShares(u, s.respL1, j);
    CountShares(u, s.l1RxOut, j);
    if s.tx.Scheduling? {
      SameBuffer(u, s.tx.scheduled, j);
    }
    if s.rx.Receiving? {
      SameBuffer(u, s.rx.received, j);
    }
    SharesConcat(u, Triggered(s) + Untriggered(s), s.l1RxOut, j.slot);
    SharesConcat(u, Triggered(s), Untriggered(s), j.slot);
    SharesConcat(u, RxHand(s.rx), s.respL1, j.slot);
    SharesConcat(u, TxHand(s.tx) + s.l1TxOut, RuHand(s.ru), j.slot);
    SharesConcat(u, TxHand(s.tx), s.l1TxOut, j.slot);
    assert !SharesBuffer(u, [], j.slot);
    hide SharesBuffer;
    hide Count;
    hide Index;
  }

  /** In every state of every run a slot read has to wait exactly if it is an uplink slot and the pipeline still
      holds an uplink job whose slot differs from it by a multiple of four. */
  lemma {:induction false} WaitsExactly(uplink: set<nat>, states: seq<State>, steps: seq<Step>, k: nat, j: Job)
    requires IsRun(uplink, states, steps) && k <= |steps| && states[k].ru.Reading?
    ensures |states[k].busy| == DEPTH
    ensures Next(states[k], RuRead(j)).ru
            == if j.slot in uplink && SharesBuffer(uplink, Holding(states[k]), j.slot) then Waiting(j) else Filling(j)
  {
    Reachable(uplink, states, steps, k);
    HoldingShares(states[k], j);
    assert InFlight(states[k], Index(j)) == if states[k].busy[Index(j)] then 1 else 0;
    hide SharesBuffer;
    hide Holding;
    hide Posted;
  }

  // ---- wait_free_rx_tti as the RU thread runs it ----

  datatype Granted = Granted(busy: seq<bool>, rest: seq<Job>) | Aborted(busy: seq<bool>)

  /** Reading completions until one of buffer `idx`; the queue running dry stands for an abort. */
  function Drain(busy: seq<bool>, completions: seq<Job>, idx: nat): Granted
    requires |busy| == DEPTH && idx < DEPTH
    decreases |completions|
  {
    if completions == [] then Aborted(busy)
    else
      var freed := busy[Index(completions[0]) := false];
      if Index(completions[0]) == idx then Granted(freed[idx := true], completions[1..])
      else Drain(freed, completions[1..], idx)
  }

  /** The specification of wait_free_rx_tti for a slot. */
  function WaitFree(busy: seq<bool>, completions: seq<Job>, slot: nat): Granted
    requires |busy| == DEPTH
  {
    if busy[slot % DEPTH] then Drain(busy, completions, slot % DEPTH)
    else Granted(busy[slot % DEPTH := true], completions)
  }

  /** wait_free_rx_tti: true when the buffer was granted; `taken` counts the completions read. */
  method WaitFreeRxTti(rxTtiBusy: array<bool>, completions: seq<Job>, slot: nat) returns (ok: bool, taken: nat)
    requires rxTtiBusy.Length == DEPTH
    modifies rxTtiBusy
    ensures taken <= |completions|
    ensures ok == WaitFree(old(rxTtiBusy[..]), completions, slot).Granted?
    ensures WaitFree(old(rxTtiBusy[..]), completions, slot)
            == if ok then Granted(rxTtiBusy[..], completions[taken..]) else Aborted(rxTtiBusy[..])
  {
    var idx := slot % DEPTH;
    taken := 0;
    if rxTtiBusy[idx] {
      var notDone := true;
      while notDone
        invariant taken <= |completions|
        invariant notDone ==>
          Drain(old(rxTtiBusy[..]), completions, idx) == Drain(rxTtiBusy[..], completions[taken..], idx)
        invariant !notDone ==>
          Drain(old(rxTtiBusy[..]), completions, idx) == Granted(rxTtiBusy[..][idx := true], completions[taken..])
        decreases |completions| - taken, notDone
      {
        if taken == |completions| {
          return false, taken;
        }
        var info := completions[taken];
        rxTtiBusy[Index(info)] := false;
        if Index(info) == idx {
          notDone := false;
        }
        taken := taken + 1;
      }
    }
    rxTtiBusy[idx] := true;
    return true, taken;
  }

  /** The read step of the state machine and wait_free_rx_tti agree: from a slot just read, pulling
      the completions at hand grants the buffer exactly when the loop does, with the same
      busy array and the same completions left over. */
  lemma {:induction false} PullsAreDrain(s: State) returns (states: seq<State>)
    requires |s.busy| == DEPTH && s.ru.Waiting?
    ensures |states| > 0 && states[0] == s
    ensures forall k :: 0 <= k < |states| - 1 ==>
              |states[k].busy| == DEPTH && Enabled(states[k], RuPull) && states[k + 1] == Next(states[k], RuPull)
    ensures var last := states[|states| - 1];
            var granted := Drain(s.busy, s.l1RxOut, Index(s.ru.wanted));
            if granted.Granted? then last == s.(ru := Filling(s.ru.wanted), busy := granted.busy, l1RxOut := granted.rest)
            else last == s.(busy := granted.busy, l1RxOut := [])
    decreases |s.l1RxOut|
  {
    if s.l1RxOut == [] {
      states := [s];
    } else {
      var s' := Next(s, RuPull);
      if s'.ru.Filling? {
        states := [s, s'];
      } else {
        var rest := PullsAreDrain(s');
        states := [s] + rest;
      }
    }
  }

  /** From the read of an uplink slot on, the steps compute wait_free_rx_tti. */
  lemma {:induction false} ReadIsWaitFree(s: State, j: Job) returns (states: seq<State>)
    requires |s.busy| == DEPTH && s.ru.Reading? && Uplink(s, j)
    ensures |states| > 0 && states[0] == Next(s, RuRead(j))
    ensures forall k :: 0 <= k < |states| - 1 ==>
              |states[k].busy| == DEPTH && Enabled(states[k], RuPull) && states[k + 1] == Next(states[k], RuPull)
    ensures var last := states[|states| - 1];
            match WaitFree(s.busy, s.l1RxOut, j.slot)
            case Granted(busy, rest) => last == s.(ru := Filling(j), busy := busy, l1RxOut := rest)
            case Aborted(busy) => last == s.(ru := Waiting(j), busy := busy, l1RxOut := [])
  {
    var read := Next(s, RuRead(j));
    if read.ru.Waiting? {
      states := PullsAreDrain(read);
    } else {
      states := [read];
    }
  }
}
