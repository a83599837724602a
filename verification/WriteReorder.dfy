/** Reordering of writes to the radio (openair0_write_reorder_common, radio/COMMON/common_lib.c).
    Transmit jobs finish in any order; a write that is not next in time waits in a small queue
    until the one before it has gone out. "Next in time" means starting within MAX_GAP
    samples of where the last write ended. Calls interleave on two locks: mutex_store guards the
    queue, mutex_write is only ever tried, and its holder writes and scans the queue. */
module WriteReorder {

  const MAX_GAP: int := 100
  const WRITE_QUEUE_SZ: nat := 20

  /** A write; `buffer` stands for the sample buffers it points to. */
  datatype Write = Write(timestamp: int, size: nat, buffer: nat)

  datatype Entry = Inactive | Active(write: Write)

  predicate InSequence(timestamp: int, nextTs: int) {
    -MAX_GAP < timestamp - nextTs < MAX_GAP
  }

  /** The reorder context of a device; `written` records what went out (the source skips the device call,
      but nothing else, for a write without burst flags). */
  datatype Core = Core(initDone: bool, nextTs: int, queue: seq<Entry>, written: seq<Write>)

  /** The first write submitted sets where the stream starts. */
  function Prepared(core: Core, w: Write): Core {
    if core.initDone then core else core.(initDone := true, nextTs := w.timestamp)
  }

  function PutOut(core: Core, w: Write): Core {
    core.(written := core.written + [w], nextTs := w.timestamp + w.size)
  }

  /** The first place at or after i that is free; |queue| if there is none. */
  function FreePlace(queue: seq<Entry>, i: nat): (j: nat)
    requires i <= |queue|
    ensures i <= j <= |queue| && (forall k :: i <= k < j ==> queue[k].Active?) && (j < |queue| ==> queue[j].Inactive?)
    decreases |queue| - i
  {
    if i == |queue| || queue[i].Inactive? then i else FreePlace(queue, i + 1)
  }

  predicate HasRoom(core: Core) { FreePlace(core.queue, 0) < |core.queue| }

  /** writerEnqueue, when there is room. */
  function Stored(core: Core, w: Write): Core
    requires HasRoom(core)
  {
    core.(queue := core.queue[FreePlace(core.queue, 0) := Active(w)])
  }

  /** Place i holds a write that is next in time. */
  predicate Ready(core: Core, i: nat)
    requires i < |core.queue|
  {
    core.queue[i].Active? && InSequence(core.queue[i].write.timestamp, core.nextTs)
  }

  /** The first such place at or after i; |queue| if there is none. */
  function FirstReady(core: Core, i: nat): (j: nat)
    requires i <= |core.queue|
    ensures i <= j <= |core.queue| && (forall k :: i <= k < j ==> !Ready(core, k)) && (j < |core.queue| ==> Ready(core, j))
    decreases |core.queue| - i
  {
    if i == |core.queue| || Ready(core, i) then i else FirstReady(core, i + 1)
  }

  function TakeAt(core: Core, j: nat): Core
    requires j < |core.queue| && core.queue[j].Active?
  {
    PutOut(core.(queue := core.queue[j := Inactive]), core.queue[j].write)
  }

  function Actives(queue: seq<Entry>): nat {
    if queue == [] then 0 else Actives(queue[..|queue| - 1]) + (if queue[|queue| - 1].Active? then 1 else 0)
  }

  lemma {:induction false} ActivesTake(queue: seq<Entry>, j: nat)
    requires j < |queue| && queue[j].Active?
    ensures Actives(queue[j := Inactive]) == Actives(queue) - 1
    decreases |queue|
  {
    var k := |queue| - 1;
    if j < k {
      assert queue[j := Inactive][..k] == queue[..k][j := Inactive];
      ActivesTake(queue[..k], j);
    } else {
      assert queue[j := Inactive][..k] == queue[..k];
    }
  }

  /** writerProcessWaitingQueue from place i of a scan on: scans until one finds nothing. */
  function Scanned(core: Core, i: nat, found: bool): Core
    requires i <= |core.queue|
    decreases Actives(core.queue), found
  {
    var j := FirstReady(core, i);
    if j < |core.queue| then
      ActivesTake(core.queue, j);
      Scanned(TakeAt(core, j), j + 1, true)
    else if found then Scanned(core, 0, false)
    else core
  }

  /** The scan looks at one place after the other. */
  lemma {:induction false} ScannedOne(core: Core, i: nat, found: bool)
    requires i < |core.queue|
    ensures Scanned(core, i, found)
            == if Ready(core, i) then Scanned(TakeAt(core, i), i + 1, true) else Scanned(core, i + 1, found)
  {}

  lemma {:induction false} ScannedEnd(core: Core, found: bool)
    ensures Scanned(core, |core.queue|, found) == if found then Scanned(core, 0, false) else core
  {}

  /** When the scans end nothing in the queue is next in time. */
  lemma {:induction false} NothingReady(core: Core, i: nat, found: bool)
    requires i <= |core.queue| && (!found ==> forall k :: 0 <= k < i ==> !Ready(core, k))
    ensures var after := Scanned(core, i, found);
            |after.queue| == |core.queue| && forall k :: 0 <= k < |after.queue| ==> !Ready(after, k)
    decreases Actives(core.queue), found
  {
    var j := FirstReady(core, i);
    if j < |core.queue| {
      ActivesTake(core.queue, j);
      NothingReady(TakeAt(core, j), j + 1, true);
    } else if found {
      NothingReady(core, 0, false);
    }
  }

  /** The next time is where the last write ended. */
  predicate EndsAtLast(core: Core) {
    core.written != [] ==>
      var last := core.written[|core.written| - 1];
      core.initDone && core.nextTs == last.timestamp + last.size
  }

  lemma {:induction false} ScannedEndsAtLast(core: Core, i: nat, found: bool)
    requires i <= |core.queue| && EndsAtLast(core) && core.initDone
    ensures EndsAtLast(Scanned(core, i, found))
    decreases Actives(core.queue), found
  {
    var j := FirstReady(core, i);
    if j < |core.queue| {
      ActivesTake(core.queue, j);
      ScannedEndsAtLast(TakeAt(core, j), j + 1, true);
    } else if found {
      ScannedEndsAtLast(core, 0, false);
    }
  }

  lemma {:induction false} ScannedGrows(core: Core, i: nat, found: bool)
    requires i <= |core.queue|
    ensures core.written <= Scanned(core, i, found).written
    decreases Actives(core.queue), found
  {
    var j := FirstReady(core, i);
    if j < |core.queue| {
      ActivesTake(core.queue, j);
      ScannedGrows(TakeAt(core, j), j + 1, true);
    } else if found {
      ScannedGrows(core, 0, false);
    }
  }

  datatype Result = QueueFull | Returned(core: Core)

  /** openair0_write_reorder_common without interruption, when the write lock is free at the first try, at
      the second, or at neither. */
  function Call(core: Core, w: Write, lockFirst: bool, lockSecond: bool): Result {
    var core := Prepared(core, w);
    if lockFirst && InSequence(w.timestamp, core.nextTs) then Returned(Scanned(PutOut(core, w), 0, false))
    else if !HasRoom(core) then QueueFull
    else if lockFirst || lockSecond then Returned(Scanned(Stored(core, w), 0, false))
    else Returned(Stored(core, w))
  }

  /** After any call the next time is the end of the last write out. */
  lemma {:induction false} CallEndsAtLast(core: Core, w: Write, lockFirst: bool, lockSecond: bool)
    requires EndsAtLast(core) && Call(core, w, lockFirst, lockSecond).Returned?
    ensures EndsAtLast(Call(core, w, lockFirst, lockSecond).core)
  {
    var prepared := Prepared(core, w);
    ScannedEndsAtLast(PutOut(prepared, w), 0, false);
    if HasRoom(prepared) {
      ScannedEndsAtLast(Stored(prepared, w), 0, false);
    }
    hide Scanned;
  }

  /** A call that has the lock puts its write out at once exactly if it is the first or starts less than MAX_GAP
      samples before or after the end of the last; otherwise nothing goes out unless it was due before. */
  lemma {:induction false} TakenWithinGap(core: Core, w: Write)
    requires Call(core, w, true, false).Returned?
    ensures var out := Call(core, w, true, false).core.written;
            if !core.initDone || core.nextTs - 100 < w.timestamp < core.nextTs + 100 then core.written + [w] <= out
            else (forall i :: 0 <= i < |core.queue| ==> !Ready(core, i)) ==> out == core.written
  {
    var prepared := Prepared(core, w);
    if InSequence(w.timestamp, prepared.nextTs) {
      ScannedGrows(PutOut(prepared, w), 0, false);
      hide Scanned;
    } else if forall i :: 0 <= i < |core.queue| ==> !Ready(core, i) {
      var stored := Stored(core, w);
      forall i | 0 <= i < |core.queue|
        ensures !Ready(stored, i)
      {
        assert !Ready(core, i);
      }
      assert FirstReady(stored, 0) == |core.queue|;
    }
  }

  /** The context as the source keeps it. */
  class ReOrder {
    var initDone: bool
    var nextTs: int
    var queue: seq<Entry>
    var written: seq<Write>

    function View(): Core
      reads this
    {
      Core(initDone, nextTs, queue, written)
    }

    constructor ()
      ensures View() == Core(false, 0, seq(WRITE_QUEUE_SZ, _ => Inactive), [])
    {
      initDone, nextTs, written := false, 0, [];
      queue := seq(WRITE_QUEUE_SZ, _ => Inactive);
    }

    /** writerEnqueue: false stands for the fatal assertion that the queue is full. */
    method Enqueue(w: Write) returns (ok: bool)
      modifies this`queue
      ensures ok == old(HasRoom(View()))
      ensures if ok then View() == Stored(old(View()), w) else View() == old(View())
    {
      for i := 0 to |queue|
        invariant queue == old(queue) && FreePlace(queue, 0) == FreePlace(queue, i)
      {
        if queue[i].Inactive? {
          queue := queue[i := Active(w)];
          return true;
        }
      }
      return false;
    }

    /** One scan of writerProcessWaitingQueue: what the scans were going to leave, they still are. */
    method ScanOnce() returns (found: bool)
      modifies this`queue, this`nextTs, this`written
      ensures |queue| == |old(queue)|
      ensures old(Scanned(View(), 0, false)) == if found then Scanned(View(), 0, false) else View()
      ensures if found then Actives(queue) < old(Actives(queue)) else Actives(queue) == old(Actives(queue))
    {
      hide Scanned;
      hide Actives;
      ghost var goal, before := Scanned(View(), 0, false), Actives(queue);
      found := false;
      for i := 0 to |queue|
        invariant |queue| == |old(queue)| && goal == Scanned(View(), i, found)
        invariant if found then Actives(queue) < before else Actives(queue) == before
      {
        ghost var core := View();
        ScannedOne(core, i, found);
        if queue[i].Active? && InSequence(queue[i].write.timestamp, nextTs) {
          ActivesTake(queue, i);
          var w := queue[i].write;
          queue := queue[i := Inactive];
          found := true;
          written := written + [w];
          nextTs := w.timestamp + w.size;
          assert View() == TakeAt(core, i);
        }
      }
      ScannedEnd(View(), found);
    }

    /** writerProcessWaitingQueue */
    method ProcessWaitingQueue()
      modifies this`queue, this`nextTs, this`written
      ensures View() == Scanned(old(View()), 0, false)
      ensures forall i :: 0 <= i < |queue| ==> !Ready(View(), i)
    {
      NothingReady(View(), 0, false);
      hide Scanned;
      ghost var goal := Scanned(View(), 0, false);
      var found := true;
      while found
        invariant goal == if found then Scanned(View(), 0, false) else View()
        decreases Actives(queue), found
      {
        found := ScanOnce();
      }
    }

    /** openair0_write_reorder_common, not interrupted. */
    method WriteReorder(w: Write, lockFirst: bool, lockSecond: bool) returns (ok: bool)
      modifies this
      ensures ok == Call(old(View()), w, lockFirst, lockSecond).Returned?
      ensures ok ==> View() == Call(old(View()), w, lockFirst, lockSecond).core
      ensures ok && (lockFirst || lockSecond) ==> forall i :: 0 <= i < |queue| ==> !Ready(View(), i)
    {
      if !initDone {
        nextTs := w.timestamp;
        initDone := true;
      }
      ok := true;
      if lockFirst {
        if InSequence(w.timestamp, nextTs) {
          written := written + [w];
          nextTs := w.timestamp + w.size;
        } else {
          ok := Enqueue(w);
        }
        if ok {
          ProcessWaitingQueue();
        }
        return;
      }
      ok := Enqueue(w);
      if ok && lockSecond {
        ProcessWaitingQueue();
      }
    }
  }

  // ---- calls that interleave ----

  /** Where the call that submits a write is: not begun; about to try the lock; about to store, with the
      lock held or not; about to try again; scanning, holding the lock; about to release it; ended. */
  datatype Phase = Idle | Trying | Storing(held: bool) | Retrying | Scanning(i: nat, found: bool) | Unlocking | Done

  /** What is to be written: call k submits stream[k] for transmit slot slots[k]. Each slot is the job of one
      of the actors, taken in turn. */
  datatype Plan = Plan(stream: seq<Write>, slots: seq<nat>, actors: nat)
  {
    /** Call j has to end before call k can begin: a slot makes its calls one after the other, and a slot
        begins only after the slot before it has, on an actor that has ended its earlier slots. */
    predicate Before(j: nat, k: nat)
      requires j < |slots| && k < |slots|
    {
      j < k && (slots[j] == slots[k] || slots[j] + actors <= slots[k])
    }
  }

  /** `holder` is the call that holds mutex_write, -1 when it is free. */
  datatype State = State(plan: Plan, core: Core, holder: int, phases: seq<Phase>)

  datatype Step = Submit(k: nat) | TryLock(k: nat) | Store(k: nat) | Retry(k: nat) | Scan(k: nat) | Unlock(k: nat)

  predicate Shape(s: State) {
    && |s.plan.slots| == |s.phases| == |s.plan.stream| && |s.core.queue| == WRITE_QUEUE_SZ
    && forall k :: 0 <= k < |s.phases| && s.phases[k].Scanning? ==> s.phases[k].i <= WRITE_QUEUE_SZ
  }

  /** Storing in a full queue stops the program, so it is not a step. */
  predicate Enabled(s: State, step: Step)
    requires Shape(s)
  {
    step.k < |s.phases| &&
    match step
    case Submit(k) => s.phases[k].Idle? && forall j :: 0 <= j < k && s.plan.Before(j, k) ==> s.phases[j].Done?
    case TryLock(k) => s.phases[k].Trying?
    case Store(k) => s.phases[k].Storing? && HasRoom(s.core)
    case Retry(k) => s.phases[k].Retrying?
    case Scan(k) => s.phases[k].Scanning?
    case Unlock(k) => s.phases[k].Unlocking?
  }

  function Next(s: State, step: Step): State
    requires Shape(s) && Enabled(s, step)
  {
    match step
    case Submit(k) => s.(core := Prepared(s.core, s.plan.stream[k]), phases := s.phases[k := Trying])
    case TryLock(k) =>
      if s.holder != -1 then s.(phases := s.phases[k := Storing(false)])
      else if InSequence(s.plan.stream[k].timestamp, s.core.nextTs) then
        s.(core := PutOut(s.core, s.plan.stream[k]), holder := k, phases := s.phases[k := Scanning(0, false)])
      else s.(holder := k, phases := s.phases[k := Storing(true)])
    case Store(k) =>
      s.(core := Stored(s.core, s.plan.stream[k]),
         phases := s.phases[k := if s.phases[k].held then Scanning(0, false) else Retrying])
    case Retry(k) =>
      if s.holder != -1 then s.(phases := s.phases[k := Done])
      else s.(holder := k, phases := s.phases[k := Scanning(0, false)])
    case Scan(k) =>
      var j := FirstReady(s.core, s.phases[k].i);
      if j < |s.core.queue| then s.(core := TakeAt(s.core, j), phases := s.phases[k := Scanning(j + 1, true)])
      else s.(phases := s.phases[k := if s.phases[k].found then Scanning(0, false) else Unlocking])
    case Unlock(k) => s.(holder := -1, phases := s.phases[k := Done])
  }

  function EmptyQueue(): seq<Entry> { seq(WRITE_QUEUE_SZ, _ => Inactive) }

  function Init(plan: Plan): State {
    State(plan, Core(false, 0, EmptyQueue(), []), -1, seq(|plan.stream|, _ => Idle))
  }

  datatype Outcome = Stuck | At(s: State)

  /** Where a sequence of steps leads from the start; any interleaving is such a sequence. */
  function Run(plan: Plan, steps: seq<Step>): Outcome
    decreases |steps|
  {
    if steps == [] then At(Init(plan))
    else
      var m := |steps| - 1;
      match Run(plan, steps[..m])
      case Stuck => Stuck
      case At(s) => if Shape(s) && Enabled(s, steps[m]) then At(Next(s, steps[m])) else Stuck
  }

  lemma {:induction false} RunAppend(plan: Plan, steps: seq<Step>, step: Step)
    requires Run(plan, steps).At? && Shape(Run(plan, steps).s) && Enabled(Run(plan, steps).s, step)
    ensures Run(plan, steps + [step]) == At(Next(Run(plan, steps).s, step))
  {
    assert (steps + [step])[..|steps|] == steps;
  }

  lemma {:induction false} ShapeKept(s: State, step: Step)
    requires Shape(s) && Enabled(s, step)
    ensures Shape(Next(s, step)) && Next(s, step).plan == s.plan
  {}

  /** ... and in every run, in any interleaving. */
  lemma {:induction false} RunEndsAtLast(plan: Plan, steps: seq<Step>)
    requires Run(plan, steps).At?
    ensures var s := Run(plan, steps).s;
            EndsAtLast(s.core) && ((exists k :: 0 <= k < |s.phases| && !s.phases[k].Idle?) ==> s.core.initDone)
    decreases |steps|
  {
    if steps != [] {
      var m := |steps| - 1;
      RunEndsAtLast(plan, steps[..m]);
      var s := Run(plan, steps[..m]).s;
      assert steps[m].Submit? || !s.phases[steps[m].k].Idle?;
      hide Run;
    }
  }

  /** A call that has to store its write is refused exactly when twenty writes wait. */
  lemma {:induction false} RefusedWhenFull(plan: Plan, steps: seq<Step>, k: nat)
    requires Run(plan, steps).At? && Shape(Run(plan, steps).s) && k < |Run(plan, steps).s.phases|
    requires Run(plan, steps).s.phases[k].Storing?
    ensures var s := Run(plan, steps).s; Actives(s.core.queue) <= 20 && (Enabled(s, Store(k)) <==> Actives(s.core.queue) < 20)
  {
    QueueLength(plan, steps);
    RoomLeft(Run(plan, steps).s.core.queue);
  }

  lemma {:induction false} QueueLength(plan: Plan, steps: seq<Step>)
    requires Run(plan, steps).At?
    ensures |Run(plan, steps).s.core.queue| == WRITE_QUEUE_SZ
    decreases |steps|
  {
    if steps != [] {
      QueueLength(plan, steps[..|steps| - 1]);
    }
  }

  lemma {:induction false} RoomLeft(queue: seq<Entry>)
    ensures Actives(queue) <= |queue|
    ensures Actives(queue) == |queue| <==> forall i :: 0 <= i < |queue| ==> queue[i].Active?
    decreases |queue|
  {
    if queue != [] {
      RoomLeft(queue[..|queue| - 1]);
    }
  }

  /** The scans of a call that nothing interrupts compute writerProcessWaitingQueue. */
  lemma {:induction false} ScansAreScanned(s: State, k: nat) returns (states: seq<State>)
    requires Shape(s) && k < |s.phases| && s.phases[k].Scanning?
    ensures |states| > 0 && states[0] == s
    ensures forall m :: 0 <= m < |states| - 1 ==>
              Shape(states[m]) && Enabled(states[m], Scan(k)) && states[m + 1] == Next(states[m], Scan(k))
    ensures states[|states| - 1] == s.(core := Scanned(s.core, s.phases[k].i, s.phases[k].found), phases := s.phases[k := Unlocking])
    decreases Actives(s.core.queue), s.phases[k].found
  {
    var s' := Next(s, Scan(k));
    ShapeKept(s, Scan(k));
    ScanStep(s, k);
    hide Next;
    hide Scanned;
    hide Actives;
    if s'.phases[k].Unlocking? {
      states := [s, s'];
    } else {
      var rest := ScansAreScanned(s', k);
      states := [s] + rest;
    }
  }

  /** One scan step leaves what the scans were going to leave, and gets nearer to their end. */
  lemma {:induction false} ScanStep(s: State, k: nat)
    requires Shape(s) && k < |s.phases| && s.phases[k].Scanning?
    ensures var s', p := Next(s, Scan(k)), s.phases[k];
            && Shape(s') && s' == s.(core := s'.core, phases := s'.phases) && s'.phases[k := Unlocking] == s.phases[k := Unlocking]
            && var p' := s'.phases[k];
               if p'.Unlocking? then s'.core == Scanned(s.core, p.i, p.found) && s'.phases == s.phases[k := Unlocking]
               else && p'.Scanning? && Scanned(s'.core, p'.i, p'.found) == Scanned(s.core, p.i, p.found)
                    && (Actives(s'.core.queue) < Actives(s.core.queue)
                        || (Actives(s'.core.queue) == Actives(s.core.queue) && p.found && !p'.found))
  {
    ShapeKept(s, Scan(k));
    var j := FirstReady(s.core, s.phases[k].i);
    if j < |s.core.queue| {
      ActivesTake(s.core.queue, j);
    }
  }

  // ---- lost wake-ups ----

  /** A write that is next in time waits in the queue. */
  ghost predicate Waiting(s: State) {
    exists i :: 0 <= i < |s.core.queue| && Ready(s.core, i)
  }

  /** The call will not look at the queue. */
  predicate Quiet(p: Phase) { p.Idle? || p.Unlocking? || p.Done? }

  /** A write could go and no call under way will look. */
  ghost predicate Lost(s: State) {
    Waiting(s) && forall k :: 0 <= k < |s.phases| ==> Quiet(s.phases[k])
  }

  predicate HoldsLock(p: Phase) { p.Scanning? || p.Unlocking? || p == Storing(true) }

  /** The lock is held by exactly the call that scans, stores with it or is about to release it; a scan that has
      found nothing yet is at its beginning. */
  ghost predicate LockExact(s: State) {
    && (forall k :: 0 <= k < |s.phases| ==> (HoldsLock(s.phases[k]) <==> s.holder == k))
    && -1 <= s.holder < |s.phases|
    && (forall k :: 0 <= k < |s.phases| && s.phases[k].Scanning? && !s.phases[k].found ==> s.phases[k].i == 0)
  }

  lemma {:induction false} LockKept(s: State, step: Step)
    requires Shape(s) && LockExact(s) && Enabled(s, step)
    ensures LockExact(Next(s, step))
  {}

  /** The second try fails against a holder that has ended its last scan, with a write waiting and nobody
      else to look. */
  ghost predicate LosesWakeUp(s: State, step: Step) {
    && step.Retry? && 0 <= s.holder < |s.phases| && s.phases[s.holder].Unlocking? && Waiting(s)
    && forall k :: 0 <= k < |s.phases| && k != step.k ==> Quiet(s.phases[k])
  }

  lemma {:induction false} RetryLoses(s: State, k: nat)
    requires Shape(s) && LockExact(s) && Enabled(s, Retry(k))
    ensures Lost(Next(s, Retry(k))) <==> LosesWakeUp(s, Retry(k))
  {
    var s' := Next(s, Retry(k));
    assert Waiting(s') <==> Waiting(s);
    hide Waiting;
    if s.holder == -1 {
      assert !Quiet(s'.phases[k]);
    } else {
      assert s.holder != k;
      assert Quiet(s.phases[s.holder]) <==> s.phases[s.holder].Unlocking?;
      assert forall j :: 0 <= j < |s.phases| && j != k ==> s'.phases[j] == s.phases[j];
      if forall j :: 0 <= j < |s.phases| ==> Quiet(s'.phases[j]) {
        assert Quiet(s'.phases[s.holder]);
      }
    }
  }

  /** A wake-up is lost by exactly such a step. */
  lemma {:induction false} LostExactly(s: State, step: Step)
    requires Shape(s) && LockExact(s) && Enabled(s, step) && !Lost(s)
    ensures Lost(Next(s, step)) <==> LosesWakeUp(s, step)
  {
    var s' := Next(s, step);
    assert forall k :: 0 <= k < |s.phases| && k != step.k ==> s'.phases[k] == s.phases[k];
    match step
    case Retry(k) => RetryLoses(s, k);
    case Unlock(_) =>
      assert s'.core.queue == s.core.queue && (Waiting(s') <==> Waiting(s));
    case _ =>
      assert Quiet(s'.phases[step.k]) ==> step.Scan? && !Waiting(s');
  }

  lemma {:induction false} RunLocks(plan: Plan, steps: seq<Step>)
    requires |plan.slots| == |plan.stream| && Run(plan, steps).At?
    ensures var s := Run(plan, steps).s; Shape(s) && LockExact(s) && s.plan == plan
    decreases |steps|
  {
    if steps != [] {
      var m := |steps| - 1;
      RunLocks(plan, steps[..m]);
      ShapeKept(Run(plan, steps[..m]).s, steps[m]);
      LockKept(Run(plan, steps[..m]).s, steps[m]);
    }
  }

  lemma {:induction false} NotLostAtStart(plan: Plan)
    ensures Run(plan, []) == At(Init(plan)) && !Lost(Init(plan))
  {}

  lemma {:induction false} RunLast(plan: Plan, steps: seq<Step>)
    requires steps != [] && Run(plan, steps).At?
    ensures var before := Run(plan, steps[..|steps| - 1]);
            && before.At? && Shape(before.s) && Enabled(before.s, steps[|steps| - 1])
            && Run(plan, steps).s == Next(before.s, steps[|steps| - 1])
  {}

  /** If, in any run, all calls have ended and a write that is next in time still waits, then some call's
      second try failed after the holder's last scan and before its release. */
  lemma {:induction false} WaitsOnlyIfLost(plan: Plan, steps: seq<Step>) returns (p: nat)
    requires |plan.slots| == |plan.stream| && Run(plan, steps).At? && Lost(Run(plan, steps).s)
    ensures p < |steps| && Run(plan, steps[..p]).At? && LosesWakeUp(Run(plan, steps[..p]).s, steps[p])
    decreases |steps|
  {
    hide *;
    NotLostAtStart(plan);
    assert steps != [];
    var m := |steps| - 1;
    RunLast(plan, steps);
    var s := Run(plan, steps[..m]).s;
    RunLocks(plan, steps[..m]);
    if Lost(s) {
      p := WaitsOnlyIfLost(plan, steps[..m]);
      assert steps[..m][..p] == steps[..p];
    } else {
      LostExactly(s, steps[m]);
      p := m;
    }
  }
}
