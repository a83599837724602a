/** Whether a stream of writes leaves the reorder queue in order: in every interleaving of the calls that
    begins with the first, exactly when every write before the last that is shorter than MAX_GAP samples
    belongs to a slot whose calls overlap those of no other slot. */
module WriteOrder {
  import opened WriteReorder

  /** A stream to be written: end to end, the k-th write from buffer k. */
  predicate Stream(stream: seq<Write>) {
    && (forall k :: 0 <= k < |stream| ==> stream[k].buffer == k)
    && (forall k :: 0 < k < |stream| ==> stream[k].timestamp == stream[k - 1].timestamp + stream[k - 1].size)
  }

  predicate ValidPlan(p: Plan) {
    && p.stream != [] && |p.slots| == |p.stream| && p.actors > 0 && Stream(p.stream)
    && forall j, k :: 0 <= j < k < |p.slots| ==> p.slots[j] <= p.slots[k]
  }

  /** No call of another slot can be under way together with call k. */
  predicate Isolated(p: Plan, k: nat)
    requires k < |p.slots|
  {
    && (forall j :: 0 <= j < k ==> p.Before(j, k))
    && (forall j :: k < j < |p.slots| ==> p.Before(k, j))
  }

  /** Write k is shorter than the tolerance and not the last. */
  predicate Short(p: Plan, k: nat) { k + 1 < |p.stream| && p.stream[k].size < MAX_GAP }

  /** Where write k begins; for k = |stream|, where the stream ends. */
  function Begin(stream: seq<Write>, k: nat): int
    requires stream != [] && k <= |stream|
  {
    if k < |stream| then stream[k].timestamp else stream[k - 1].timestamp + stream[k - 1].size
  }

  lemma {:induction false} Apart(stream: seq<Write>, j: nat, k: nat)
    requires Stream(stream) && j < k < |stream|
    ensures stream[k].timestamp >= stream[j].timestamp + stream[j].size
    decreases k
  {
    if j < k - 1 {
      Apart(stream, j, k - 1);
    }
  }

  // ---- the invariant ----

  /** The call has put its write out or into the queue. */
  predicate GivenOver(p: Phase) { !p.Idle? && !p.Trying? && !p.Storing? }

  /** What has gone out is a prefix of the stream. */
  ghost predicate OutputExact(s: State)
    requires Shape(s)
  {
    && ValidPlan(s.plan) && |s.core.written| <= |s.plan.stream| && s.core.written == s.plan.stream[..|s.core.written|]
    && (s.core.initDone ==> s.core.nextTs == Begin(s.plan.stream, |s.core.written|))
    && (forall k :: 0 <= k < |s.core.written| ==> GivenOver(s.phases[k]))
  }

  /** The queue holds, once each, the writes given over and not yet out. */
  ghost predicate QueueExact(s: State)
    requires Shape(s)
  {
    && (forall i :: 0 <= i < |s.core.queue| && s.core.queue[i].Active? ==> Expected(s, s.core.queue[i].write))
    && (forall i, i' :: 0 <= i < i' < |s.core.queue| && s.core.queue[i].Active? && s.core.queue[i'].Active? ==>
          s.core.queue[i].write.buffer != s.core.queue[i'].write.buffer)
    && (forall k :: |s.core.written| <= k < |s.phases| && GivenOver(s.phases[k]) ==> Queued(s, k))
  }

  predicate Expected(s: State, w: Write)
    requires Shape(s)
  {
    |s.core.written| <= w.buffer < |s.plan.stream| && w == s.plan.stream[w.buffer] && GivenOver(s.phases[w.buffer])
  }

  ghost predicate Queued(s: State, k: nat) {
    exists i :: 0 <= i < |s.core.queue| && s.core.queue[i].Active? && s.core.queue[i].write.buffer == k
  }

  /** Calls that had to end before a call that has begun have ended. */
  ghost predicate BegunInOrder(s: State)
    requires Shape(s)
  {
    forall j, k :: 0 <= j < |s.phases| && 0 <= k < |s.phases| && s.plan.Before(j, k) && !s.phases[k].Idle? ==> s.phases[j].Done?
  }

  /** An isolated call gets the lock at the first try, and when it is through its write is out. */
  ghost predicate IsolatedOut(s: State)
    requires Shape(s)
  {
    forall k :: 0 <= k < |s.phases| && Isolated(s.plan, k) ==> IsolatedPhase(s, k)
  }

  predicate IsolatedPhase(s: State, k: nat)
    requires k < |s.phases|
  {
    && s.phases[k] != Storing(false) && !s.phases[k].Retrying?
    && (s.phases[k].Unlocking? || s.phases[k].Done? ==> k < |s.core.written|)
  }

  ghost predicate Inv(s: State) {
    Shape(s) && OutputExact(s) && QueueExact(s) && LockExact(s) && BegunInOrder(s) && IsolatedOut(s)
  }

  /** Every write that is short, and not the last, is isolated. */
  ghost predicate ShortIsolated(p: Plan)
    requires |p.slots| == |p.stream|
  {
    forall k :: 0 <= k < |p.stream| && Short(p, k) ==> Isolated(p, k)
  }

  /** Of the writes whose calls have begun, only the next is in sequence. */
  lemma {:induction false} OnlyNext(s: State, j: nat)
    requires Inv(s) && ShortIsolated(s.plan) && s.core.initDone
    requires |s.core.written| <= j < |s.phases| && !s.phases[j].Idle? && InSequence(s.plan.stream[j].timestamp, s.core.nextTs)
    ensures j == |s.core.written|
  {
    var w := |s.core.written|;
    if w < j {
      NextIsLong(s, j);
      Apart(s.plan.stream, w, j);
    }
  }

  lemma {:induction false} NextIsLong(s: State, j: nat)
    requires Inv(s) && ShortIsolated(s.plan) && |s.core.written| < j < |s.phases| && !s.phases[j].Idle?
    ensures s.plan.stream[|s.core.written|].size >= MAX_GAP
  {
    NextNotIsolated(s, j);
    assert !Short(s.plan, |s.core.written|);
  }

  lemma {:induction false} NextNotIsolated(s: State, j: nat)
    requires Inv(s) && |s.core.written| < j < |s.phases| && !s.phases[j].Idle?
    ensures !Isolated(s.plan, |s.core.written|)
  {
    var w := |s.core.written|;
    assert s.phases[w].Done? || !s.plan.Before(w, j);
  }

  // ---- every step keeps it ----

  lemma {:induction false} BegunKept(s: State, step: Step)
    requires Shape(s) && BegunInOrder(s) && Enabled(s, step)
    ensures Shape(Next(s, step)) && BegunInOrder(Next(s, step))
  {
    ShapeKept(s, step);
    var s' := Next(s, step);
    forall j, k | 0 <= j < |s'.phases| && 0 <= k < |s'.phases| && s'.plan.Before(j, k) && !s'.phases[k].Idle?
      ensures s'.phases[j].Done?
    {
      if step != Submit(k) {
        assert !s.phases[k].Idle?;
      }
    }
  }

  /** While an isolated call is under way no other is. */
  lemma {:induction false} Alone(s: State, k: nat)
    requires Shape(s) && LockExact(s) && BegunInOrder(s) && k < |s.phases| && Isolated(s.plan, k)
    requires !s.phases[k].Idle? && !s.phases[k].Done?
    ensures s.holder == -1 || s.holder == k
  {
    assert forall j :: 0 <= j < k ==> s.phases[j].Done?;
    assert forall j :: k < j < |s.phases| ==> s.plan.Before(k, j) && s.phases[j].Idle?;
    if s.holder != -1 {
      assert HoldsLock(s.phases[s.holder]);
    }
  }

  /** When an isolated call's scan finds nothing, everything up to its write is out. */
  lemma {:induction false} ScannedOut(s: State, k: nat)
    requires Inv(s) && s.core.initDone && k < |s.phases| && Isolated(s.plan, k) && s.phases[k] == Scanning(0, false)
    requires FirstReady(s.core, 0) == |s.core.queue|
    ensures k < |s.core.written|
  {
    var w := |s.core.written|;
    if w <= k {
      assert w < k ==> s.plan.Before(w, k);
      assert Queued(s, w);
      var i :| 0 <= i < |s.core.queue| && s.core.queue[i].Active? && s.core.queue[i].write.buffer == w;
      assert Expected(s, s.core.queue[i].write);
      assert Ready(s.core, i);
    }
  }

  lemma {:induction false} IsolatedKept(s: State, step: Step)
    requires Inv(s) && s.core.initDone && Enabled(s, step)
    ensures Shape(Next(s, step)) && IsolatedOut(Next(s, step))
  {
    ShapeKept(s, step);
    var s' := Next(s, step);
    WrittenGrows(s, step);
    forall k | 0 <= k < |s'.phases| && Isolated(s'.plan, k)
      ensures IsolatedPhase(s', k)
    {
      assert IsolatedPhase(s, k);
      if k == step.k {
        StepIsolated(s, step);
      } else {
        assert s'.phases[k] == s.phases[k];
      }
    }
  }

  lemma {:induction false} WrittenGrows(s: State, step: Step)
    requires Shape(s) && Enabled(s, step)
    ensures |s.core.written| <= |Next(s, step).core.written| && Next(s, step).plan == s.plan
  {}

  lemma {:induction false} StepIsolated(s: State, step: Step)
    requires Inv(s) && s.core.initDone && Enabled(s, step) && Isolated(s.plan, step.k) && IsolatedPhase(s, step.k)
    ensures IsolatedPhase(Next(s, step), step.k)
  {
    match step
    case TryLock(k) => Alone(s, k);
    case Scan(k) =>
      if FirstReady(s.core, s.phases[k].i) == |s.core.queue| && !s.phases[k].found {
        ScannedOut(s, k);
      }
    case _ =>
  }

  /** What the output and the queue have to satisfy. */
  ghost predicate Exact(s: State) { Shape(s) && OutputExact(s) && QueueExact(s) }

  /** Putting write k out directly. */
  lemma {:induction false} DirectKeeps(s: State, k: nat)
    requires Exact(s) && s.core.initDone && Enabled(s, TryLock(k)) && s.holder == -1 && k == |s.core.written|
    requires InSequence(s.plan.stream[k].timestamp, s.core.nextTs)
    ensures Exact(Next(s, TryLock(k)))
  {
    var s' := Next(s, TryLock(k));
    assert s.plan.stream[..k] + [s.plan.stream[k]] == s.plan.stream[..k + 1];
    forall j | |s'.core.written| <= j < |s'.phases| && GivenOver(s'.phases[j])
      ensures Queued(s', j)
    {
      assert Queued(s, j);
    }
  }

  lemma {:induction false} StoreKeeps(s: State, k: nat)
    requires Exact(s) && Enabled(s, Store(k))
    ensures Exact(Next(s, Store(k)))
  {
    var s', p := Next(s, Store(k)), FreePlace(s.core.queue, 0);
    assert s'.core.queue[p] == Active(s.plan.stream[k]);
    assert forall i :: 0 <= i < |s.core.queue| && i != p ==> s'.core.queue[i] == s.core.queue[i];
    hide FreePlace;
    hide Next;
    forall j | |s'.core.written| <= j < |s'.phases| && GivenOver(s'.phases[j])
      ensures Queued(s', j)
    {
      if j != k {
        assert Queued(s, j);
      }
    }
  }

  lemma {:induction false} TakeKeeps(s: State, k: nat, j: nat)
    requires Exact(s) && s.core.initDone && Enabled(s, Scan(k)) && j == FirstReady(s.core, s.phases[k].i) < |s.core.queue|
    requires s.core.queue[j].write.buffer == |s.core.written|
    ensures Exact(Next(s, Scan(k)))
  {
    var s', w := Next(s, Scan(k)), |s.core.written|;
    assert s'.core.queue == s.core.queue[j := Inactive];
    assert s.plan.stream[..w] + [s.plan.stream[w]] == s.plan.stream[..w + 1];
    assert s'.core.written == s.plan.stream[..w + 1] && s'.core.nextTs == Begin(s.plan.stream, w + 1);
    assert forall b :: 0 <= b < |s.phases| ==> GivenOver(s'.phases[b]) == GivenOver(s.phases[b]);
    hide Next;
    forall b | w + 1 <= b < |s'.phases| && GivenOver(s'.phases[b])
      ensures Queued(s', b)
    {
      assert Queued(s, b);
      var i :| 0 <= i < |s.core.queue| && s.core.queue[i].Active? && s.core.queue[i].write.buffer == b;
      assert s'.core.queue[i] == s.core.queue[i];
    }
  }

  /** A step that leaves the context alone and gives nothing over. */
  lemma {:induction false} OtherKeeps(s: State, s': State)
    requires Exact(s) && s'.core == s.core && s'.plan == s.plan && Shape(s')
    requires forall k :: 0 <= k < |s.phases| ==> GivenOver(s'.phases[k]) == GivenOver(s.phases[k])
    ensures Exact(s')
  {
    forall k | |s'.core.written| <= k < |s'.phases| && GivenOver(s'.phases[k])
      ensures Queued(s', k)
    {
      assert Queued(s, k);
    }
  }

  lemma {:induction false} ExactKept(s: State, step: Step)
    requires Inv(s) && ShortIsolated(s.plan) && s.core.initDone && Enabled(s, step)
    ensures Exact(Next(s, step))
  {
    ShapeKept(s, step);
    InvExact(s);
    match step
    case TryLock(k) => TryKeeps(s, k);
    case Store(k) => StoreKeeps(s, k);
    case Scan(k) => ScanKeeps(s, k);
    case _ =>
      hide Inv;
      hide Exact;
      OtherKeeps(s, Next(s, step));
  }

  lemma {:induction false} InvExact(s: State)
    requires Inv(s)
    ensures Exact(s)
  {}

  lemma {:induction false} TryKeeps(s: State, k: nat)
    requires Inv(s) && Exact(s) && ShortIsolated(s.plan) && s.core.initDone && Enabled(s, TryLock(k))
    ensures Exact(Next(s, TryLock(k)))
  {
    ShapeKept(s, TryLock(k));
    if s.holder == -1 && InSequence(s.plan.stream[k].timestamp, s.core.nextTs) {
      TriedNotOut(s, k);
      hide Inv;
      hide Exact;
      OnlyNext(s, k);
      DirectKeeps(s, k);
    } else {
      hide Inv;
      hide Exact;
      OtherKeeps(s, Next(s, TryLock(k)));
    }
  }

  lemma {:induction false} TriedNotOut(s: State, k: nat)
    requires Exact(s) && k < |s.phases| && s.phases[k].Trying?
    ensures |s.core.written| <= k
  {}

  lemma {:induction false} ScanKeeps(s: State, k: nat)
    requires Inv(s) && Exact(s) && ShortIsolated(s.plan) && s.core.initDone && Enabled(s, Scan(k))
    ensures Exact(Next(s, Scan(k)))
  {
    ShapeKept(s, Scan(k));
    var j := FirstReady(s.core, s.phases[k].i);
    if j < |s.core.queue| {
      QueuedBegun(s, j);
      hide Inv;
      hide Exact;
      OnlyNext(s, s.core.queue[j].write.buffer);
      TakeKeeps(s, k, j);
    } else {
      hide Inv;
      hide Exact;
      OtherKeeps(s, Next(s, Scan(k)));
    }
  }

  lemma {:induction false} QueuedBegun(s: State, j: nat)
    requires Exact(s) && j < |s.core.queue| && s.core.queue[j].Active?
    ensures var w := s.core.queue[j].write;
            && |s.core.written| <= w.buffer < |s.phases| == |s.plan.stream| && w == s.plan.stream[w.buffer]
            && !s.phases[w.buffer].Idle?
  {}

  /** Every step of every call keeps the invariant. */
  lemma {:induction false} InvKept(s: State, step: Step)
    requires Inv(s) && ShortIsolated(s.plan) && s.core.initDone && Enabled(s, step)
    ensures Inv(Next(s, step)) && Next(s, step).core.initDone && Next(s, step).plan == s.plan
  {
    ExactKept(s, step);
    IsolatedKept(s, step);
    BegunKept(s, step);
    LockKept(s, step);
    ShapeKept(s, step);
    InitStays(s, step);
    hide *;
    JoinUp(Next(s, step));
  }

  lemma {:induction false} InitStays(s: State, step: Step)
    requires Shape(s) && Enabled(s, step) && s.core.initDone
    ensures Next(s, step).core.initDone
  {}

  lemma {:induction false} JoinUp(s: State)
    requires Exact(s) && IsolatedOut(s) && BegunInOrder(s) && LockExact(s)
    ensures Inv(s)
  {}

  /** The first call to begin is the one with the stream's first write. */
  predicate FirstFirst(steps: seq<Step>) { steps != [] ==> steps[0] == Submit(0) }

  lemma {:induction false} FirstInv(p: Plan)
    requires ValidPlan(p)
    ensures var s := Init(p); Inv(s) && Enabled(s, Submit(0)) && Inv(Next(s, Submit(0))) && Next(s, Submit(0)).core.initDone
  {
    BegunKept(Init(p), Submit(0));
    LockKept(Init(p), Submit(0));
  }

  /** In every interleaving that begins with the first write: what goes out is a prefix of the stream, and
      every write given over is either out or in the queue, once. */
  lemma {:induction false} InOrder(p: Plan, steps: seq<Step>)
    requires ValidPlan(p) && ShortIsolated(p) && Run(p, steps).At? && FirstFirst(steps)
    ensures var s := Run(p, steps).s; Inv(s) && s.plan == p && s.core.written <= p.stream && (steps != [] ==> s.core.initDone)
    decreases |steps|
  {
    if steps == [] {
      FirstInv(p);
    } else if |steps| == 1 {
      FirstInv(p);
      assert steps[..0] == [];
    } else {
      var m := |steps| - 1;
      InOrder(p, steps[..m]);
      InvKept(Run(p, steps[..m]).s, steps[m]);
      WrittenIsPrefix(Run(p, steps).s);
      hide Inv;
      hide Next;
    }
  }

  lemma {:induction false} WrittenIsPrefix(s: State)
    requires Inv(s)
    ensures s.core.written <= s.plan.stream
  {}

  // ---- runs that are built step by step ----

  /** The first j writes have gone out one after the other; no call is under way. */
  function Sequential(p: Plan, j: nat): State
    requires p.stream != [] && j <= |p.stream|
  {
    State(p, Core(j > 0, if j > 0 then Begin(p.stream, j) else 0, EmptyQueue(), p.stream[..j]), -1,
          seq(|p.stream|, k => if k < j then Done else Idle))
  }

  /** The first j writes have gone out; call h holds the lock and is in phase `phase`. */
  function Held(p: Plan, h: nat, j: nat, phase: Phase): State
    requires p.stream != [] && h < j <= |p.stream|
  {
    State(p, Core(true, Begin(p.stream, j), EmptyQueue(), p.stream[..j]), h,
          seq(|p.stream|, k => if k == h then phase else if k < j then Done else Idle))
  }

  function Holding(p: Plan, h: nat, j: nat): State
    requires p.stream != [] && h < j <= |p.stream|
  {
    Held(p, h, j, Scanning(0, false))
  }

  /** A run from a proper start that leads to s. */
  ghost predicate Leads(p: Plan, steps: seq<Step>, s: State) { Run(p, steps) == At(s) && FirstFirst(steps) && steps != [] }

  lemma {:induction false} Step1(p: Plan, before: seq<Step>, s: State, step: Step, s': State) returns (steps: seq<Step>)
    requires Leads(p, before, s) && Shape(s) && Enabled(s, step) && Next(s, step) == s'
    ensures Leads(p, steps, s')
  {
    RunAppend(p, before, step);
    steps := before + [step];
  }

  /** Beginning call k once every call before it, except perhaps call h which need not, has ended. */
  lemma {:induction false} MayBegin(s: State, k: nat, h: nat)
    requires Shape(s) && k < |s.phases| && h < |s.phases| && s.phases[k].Idle? && !s.plan.Before(h, k)
    requires forall j :: 0 <= j < k && j != h ==> s.phases[j].Done?
    ensures Enabled(s, Submit(k))
  {}

  lemma {:induction false} Submitting(p: Plan, h: nat)
    requires ValidPlan(p) && h < |p.stream|
    ensures var s := Sequential(p, h);
            && Shape(s) && Enabled(s, Submit(h))
            && var s1 := Next(s, Submit(h));
               s1 == s.(core := s.core.(initDone := true, nextTs := p.stream[h].timestamp), phases := s.phases[h := Trying])
  {
    var s := Sequential(p, h);
    MayBegin(s, h, h);
  }

  lemma {:induction false} Directly(p: Plan, h: nat)
    requires ValidPlan(p) && h < |p.stream|
    ensures var s := Sequential(p, h);
            var s1 := s.(core := s.core.(initDone := true, nextTs := p.stream[h].timestamp), phases := s.phases[h := Trying]);
            Shape(s1) && Enabled(s1, TryLock(h)) && Next(s1, TryLock(h)) == Holding(p, h, h + 1)
  {
    var s := Sequential(p, h);
    var s1 := s.(core := s.core.(initDone := true, nextTs := p.stream[h].timestamp), phases := s.phases[h := Trying]);
    assert p.stream[..h] + [p.stream[h]] == p.stream[..h + 1];
    assert Next(s1, TryLock(h)).phases == Holding(p, h, h + 1).phases;
  }

  /** The first call takes the lock. */
  lemma {:induction false} FirstTakesLock(p: Plan) returns (steps: seq<Step>)
    requires ValidPlan(p)
    ensures Leads(p, steps, Holding(p, 0, 1))
  {
    var s := Sequential(p, 0);
    assert Init(p).phases == s.phases;
    assert Run(p, []) == At(s);
    Submitting(p, 0);
    Directly(p, 0);
    RunAppend(p, [], Submit(0));
    steps := [] + [Submit(0)];
    var s1 := Next(s, Submit(0));
    hide Run;
    hide Next;
    steps := Step1(p, steps, s1, TryLock(0), Holding(p, 0, 1));
  }

  lemma {:induction false} TakeLock(p: Plan, before: seq<Step>, h: nat) returns (steps: seq<Step>)
    requires ValidPlan(p) && h < |p.stream| && Leads(p, before, Sequential(p, h))
    ensures Leads(p, steps, Holding(p, h, h + 1))
  {
    Submitting(p, h);
    Directly(p, h);
    var s := Sequential(p, h);
    var s1 := s.(core := s.core.(initDone := true, nextTs := p.stream[h].timestamp), phases := s.phases[h := Trying]);
    hide *;
    steps := Step1(p, before, s, Submit(h), s1);
    steps := Step1(p, steps, s1, TryLock(h), Holding(p, h, h + 1));
  }

  lemma {:induction false} ScanEnds(p: Plan, h: nat, j: nat)
    requires ValidPlan(p) && h < j <= |p.stream|
    ensures var s := Holding(p, h, j); Shape(s) && Enabled(s, Scan(h)) && Next(s, Scan(h)) == Held(p, h, j, Unlocking)
  {
    var s := Holding(p, h, j);
    assert Next(s, Scan(h)).phases == Held(p, h, j, Unlocking).phases;
  }

  lemma {:induction false} Unlocks(p: Plan, h: nat, j: nat)
    requires ValidPlan(p) && h < j <= |p.stream|
    ensures var s := Held(p, h, j, Unlocking); Shape(s) && Enabled(s, Unlock(h)) && Next(s, Unlock(h)) == Sequential(p, j)
  {
    var s := Held(p, h, j, Unlocking);
    assert Next(s, Unlock(h)).phases == Sequential(p, j).phases;
  }

  lemma {:induction false} Release(p: Plan, before: seq<Step>, h: nat, j: nat) returns (steps: seq<Step>)
    requires ValidPlan(p) && h < j <= |p.stream| && Leads(p, before, Holding(p, h, j))
    ensures Leads(p, steps, Sequential(p, j))
  {
    ScanEnds(p, h, j);
    Unlocks(p, h, j);
    hide *;
    steps := Step1(p, before, Holding(p, h, j), Scan(h), Held(p, h, j, Unlocking));
    steps := Step1(p, steps, Held(p, h, j, Unlocking), Unlock(h), Sequential(p, j));
  }

  /** Write j - 1 has just gone out directly, after all before it. */
  lemma {:induction false} InTurn(p: Plan, j: nat) returns (steps: seq<Step>)
    requires ValidPlan(p) && 0 < j <= |p.stream|
    ensures Leads(p, steps, Holding(p, j - 1, j))
    decreases j
  {
    hide Leads;
    hide Holding;
    hide Sequential;
    if j == 1 {
      steps := FirstTakesLock(p);
    } else {
      steps := InTurn(p, j - 1);
      steps := Release(p, steps, j - 2, j - 1);
      steps := TakeLock(p, steps, j - 1);
    }
  }

  // ---- a call that fails to get the lock ----

  /** Call j fails to get the lock twice and leaves its write in the queue. */
  function LeftBehind(s: State, j: nat): State
    requires Shape(s) && j < |s.plan.stream| && HasRoom(s.core)
  {
    s.(core := Stored(s.core, s.plan.stream[j]), phases := s.phases[j := Done])
  }

  lemma {:induction false} FailsTwice(p: Plan, before: seq<Step>, s: State, j: nat) returns (steps: seq<Step>)
    requires Leads(p, before, s) && Shape(s) && j < |s.plan.stream| && s.phases[j].Trying? && s.holder != -1 && HasRoom(s.core)
    ensures Leads(p, steps, LeftBehind(s, j))
  {
    hide Run;
    hide Leads;
    hide FreePlace;
    var s1 := Next(s, TryLock(j));
    var s2 := Next(s1, Store(j));
    var s3 := Next(s2, Retry(j));
    steps := Step1(p, before, s, TryLock(j), s1);
    steps := Step1(p, steps, s1, Store(j), s2);
    steps := Step1(p, steps, s2, Retry(j), s3);
    assert s3.phases == LeftBehind(s, j).phases;
  }

  /** Call j has left its write in the queue while call h holds the lock. */
  function Fed(p: Plan, h: nat, j: nat): State
    requires p.stream != [] && h < j < |p.stream|
  {
    var s := Holding(p, h, j);
    s.(core := s.core.(queue := EmptyQueue()[0 := Active(p.stream[j])]), phases := s.phases[j := Done])
  }

  lemma {:induction false} Feeds(p: Plan, h: nat, j: nat)
    requires ValidPlan(p) && h < j < |p.stream| && !p.Before(h, j)
    ensures var s := Holding(p, h, j);
            && Shape(s) && Enabled(s, Submit(j))
            && var s1 := Next(s, Submit(j));
               && s1.plan == p && |p.stream| == |s1.plan.stream| && Shape(s1) && s1.phases[j].Trying? && s1.holder != -1
               && HasRoom(s1.core) && LeftBehind(s1, j) == Fed(p, h, j)
  {
    var s := Holding(p, h, j);
    MayBegin(s, j, h);
    var s1 := Next(s, Submit(j));
    assert FreePlace(s1.core.queue, 0) == 0;
    assert LeftBehind(s1, j).phases == Fed(p, h, j).phases;
  }

  lemma {:induction false} ScanPicks(p: Plan, h: nat, j: nat)
    requires ValidPlan(p) && h < j < |p.stream|
    ensures var s := Fed(p, h, j); Shape(s) && Enabled(s, Scan(h)) && Next(s, Scan(h)) == Held(p, h, j + 1, Scanning(1, true))
  {
    var s := Fed(p, h, j);
    assert Ready(s.core, 0);
    assert FirstReady(s.core, 0) == 0;
    var s' := Next(s, Scan(h));
    assert s'.core.queue == EmptyQueue();
    assert p.stream[..j] + [p.stream[j]] == p.stream[..j + 1];
    assert s'.phases == Held(p, h, j + 1, Scanning(1, true)).phases;
  }

  lemma {:induction false} ScanAgain(p: Plan, h: nat, j: nat)
    requires ValidPlan(p) && h < j <= |p.stream|
    ensures var s := Held(p, h, j, Scanning(1, true)); Shape(s) && Enabled(s, Scan(h)) && Next(s, Scan(h)) == Holding(p, h, j)
  {
    var s := Held(p, h, j, Scanning(1, true));
    assert Next(s, Scan(h)).phases == Holding(p, h, j).phases;
  }

  lemma {:induction false} NotEmpty(p: Plan)
    requires ValidPlan(p)
    ensures p.stream != [] && |p.slots| == |p.stream|
  {}

  /** While call h holds the lock, the next write goes out through the queue. */
  lemma {:induction false} Feed(p: Plan, before: seq<Step>, h: nat, j: nat) returns (steps: seq<Step>)
    requires ValidPlan(p) && h < j < |p.stream| && !p.Before(h, j) && Leads(p, before, Holding(p, h, j))
    ensures Leads(p, steps, Holding(p, h, j + 1))
  {
    hide *;
    NotEmpty(p);
    Feeds(p, h, j);
    ScanPicks(p, h, j);
    ScanAgain(p, h, j + 1);
    var s1 := Next(Holding(p, h, j), Submit(j));
    steps := Step1(p, before, Holding(p, h, j), Submit(j), s1);
    steps := FailsTwice(p, steps, s1, j);
    steps := Step1(p, steps, Fed(p, h, j), Scan(h), Held(p, h, j + 1, Scanning(1, true)));
    steps := Step1(p, steps, Held(p, h, j + 1, Scanning(1, true)), Scan(h), Holding(p, h, j + 1));
  }

  lemma {:induction false} FeedAll(p: Plan, h: nat, j: nat) returns (steps: seq<Step>)
    requires ValidPlan(p) && h < j <= |p.stream| && forall i :: h < i < j ==> !p.Before(h, i)
    ensures Leads(p, steps, Holding(p, h, j))
    decreases j
  {
    hide Leads;
    hide Holding;
    if j == h + 1 {
      steps := InTurn(p, h + 1);
    } else {
      steps := FeedAll(p, h, j - 1);
      steps := Feed(p, steps, h, j - 1);
    }
  }

  // ---- a short write that is overtaken ----

  /** Write k is about to be tried while call h, which has ended its last scan, still holds the lock. */
  ghost predicate Cornered(s: State, k: nat, h: nat) {
    && Shape(s) && k + 1 < |s.plan.stream| && h < |s.plan.stream| && h != k && h != k + 1
    && s.core.initDone && s.core.nextTs == s.plan.stream[k].timestamp && s.core.written == s.plan.stream[..k] && HasRoom(s.core)
    && s.holder == h && s.phases[h].Unlocking? && s.phases[k].Trying? && s.phases[k + 1].Idle?
    && (forall j :: 0 <= j < k && j != h ==> s.phases[j].Done?)
  }

  /** Then a short write k is overtaken by write k + 1, although call k + 1 begins after call k has ended. */
  lemma {:induction false} Overtaken(p: Plan, before: seq<Step>, s: State, k: nat, h: nat) returns (steps: seq<Step>)
    requires ValidPlan(p) && Leads(p, before, s) && s.plan == p && Cornered(s, k, h) && Short(p, k)
    ensures Run(p, steps).At? && FirstFirst(steps) && Run(p, steps).s.core.written == p.stream[..k] + [p.stream[k + 1]]
  {
    var s1 := LeftBehind(s, k);
    steps := FailsTwice(p, before, s, k);
    steps := OvertakenAtLast(p, steps, s1, k, h);
  }

  lemma {:induction false} OvertakenAtLast(p: Plan, before: seq<Step>, s: State, k: nat, h: nat) returns (steps: seq<Step>)
    requires ValidPlan(p) && Leads(p, before, s) && s.plan == p && Shape(s) && Short(p, k) && h < |p.stream| && h != k + 1
    requires s.core.initDone && s.core.nextTs == p.stream[k].timestamp && s.core.written == p.stream[..k]
    requires s.phases[h].Unlocking? && s.phases[k + 1].Idle? && forall j :: 0 <= j <= k && j != h ==> s.phases[j].Done?
    ensures Run(p, steps).At? && FirstFirst(steps) && Run(p, steps).s.core.written == p.stream[..k] + [p.stream[k + 1]]
  {
    hide Run;
    var s1 := Next(s, Unlock(h));
    MayBegin(s1, k + 1, k + 1);
    var s2 := Next(s1, Submit(k + 1));
    var s3 := Next(s2, TryLock(k + 1));
    assert s3.core.written == p.stream[..k] + [p.stream[k + 1]];
    steps := Step1(p, before, s, Unlock(h), s1);
    steps := Step1(p, steps, s1, Submit(k + 1), s2);
    steps := Step1(p, steps, s2, TryLock(k + 1), s3);
  }

  /** A call of the slot before corners write k. */
  lemma {:induction false} CorneredByEarlier(p: Plan, k: nat, h: nat) returns (steps: seq<Step>, s: State)
    requires ValidPlan(p) && h < k && k + 1 < |p.stream| && forall i :: h < i <= k ==> !p.Before(h, i)
    ensures Leads(p, steps, s) && s.plan == p && Cornered(s, k, h)
  {
    steps := FeedAll(p, h, k);
    hide Run;
    hide Leads;
    var s1 := Held(p, h, k, Unlocking);
    ScanEnds(p, h, k);
    steps := Step1(p, steps, Holding(p, h, k), Scan(h), s1);
    MayBegin(s1, k, h);
    s := Next(s1, Submit(k));
    steps := Step1(p, steps, s1, Submit(k), s);
  }

  /** Calls k and m have begun and wait for their first try; all before k have ended. */
  ghost predicate BothTrying(p: Plan, s: State, k: nat, m: nat) {
    && Shape(s) && s.plan == p && k < m < |p.stream| && s.holder == -1
    && s.core == Core(true, p.stream[k].timestamp, EmptyQueue(), p.stream[..k])
    && s.phases[k].Trying? && s.phases[m].Trying? && (m != k + 1 ==> s.phases[k + 1].Idle?)
    && (forall j :: 0 <= j < k ==> s.phases[j].Done?)
  }

  lemma {:induction false} BothSubmitted(p: Plan, k: nat, m: nat) returns (steps: seq<Step>, s: State)
    requires ValidPlan(p) && k < m < |p.stream| && forall i :: k <= i < m ==> !p.Before(i, m)
    ensures Leads(p, steps, s) && BothTrying(p, s, k, m)
  {
    var s1;
    steps, s1 := Submitted(p, k);
    hide Run;
    hide Leads;
    assert Enabled(s1, Submit(m));
    s := Next(s1, Submit(m));
    steps := Step1(p, steps, s1, Submit(m), s);
  }

  /** Call k has begun after all before it have ended. */
  lemma {:induction false} Submitted(p: Plan, k: nat) returns (steps: seq<Step>, s: State)
    requires ValidPlan(p) && k < |p.stream|
    ensures Leads(p, steps, s) && Shape(s) && s.plan == p && s.holder == -1
    ensures s.core == Core(true, p.stream[k].timestamp, EmptyQueue(), p.stream[..k])
    ensures s.phases == seq(|p.stream|, j => if j < k then Done else if j == k then Trying else Idle)
  {
    var s0 := Sequential(p, k);
    Submitting(p, k);
    s := Next(s0, Submit(k));
    if k == 0 {
      assert Init(p).phases == s0.phases;
      assert Run(p, []) == At(s0);
      RunAppend(p, [], Submit(0));
      steps := [] + [Submit(0)];
    } else {
      steps := InTurn(p, k);
      steps := Release(p, steps, k - 1, k);
      hide Run;
      hide Leads;
      steps := Step1(p, steps, s0, Submit(k), s);
    }
  }

  /** Call m, of a slot after that of write k, corners write k, or overtakes it itself. */
  lemma {:induction false} CorneredByLater(p: Plan, k: nat, m: nat) returns (steps: seq<Step>, s: State)
    requires ValidPlan(p) && k < m < |p.stream| && Short(p, k) && forall i :: k <= i < m ==> !p.Before(i, m)
    ensures Leads(p, steps, s) && s.plan == p
    ensures Cornered(s, k, m) || s.core.written == p.stream[..k] + [p.stream[m]]
  {
    var s0;
    steps, s0 := BothSubmitted(p, k, m);
    hide Run;
    hide Leads;
    s := Next(s0, TryLock(m));
    steps := Step1(p, steps, s0, TryLock(m), s);
    if !InSequence(p.stream[m].timestamp, p.stream[k].timestamp) {
      steps, s := StoresAndScans(p, steps, s, m);
    }
  }

  lemma {:induction false} StoresAndScans(p: Plan, before: seq<Step>, s: State, m: nat) returns (steps: seq<Step>, s': State)
    requires Leads(p, before, s) && Shape(s) && s.plan == p && m < |p.stream|
    requires s.phases[m] == Storing(true) && s.core.queue == EmptyQueue() && !InSequence(p.stream[m].timestamp, s.core.nextTs)
    ensures Leads(p, steps, s') && HasRoom(s'.core) && Shape(s')
    ensures s' == s.(core := s'.core, phases := s.phases[m := Unlocking]) && s'.core == s.core.(queue := s'.core.queue)
  {
    hide Run;
    hide Leads;
    var s1 := Next(s, Store(m));
    assert s1.core.queue == EmptyQueue()[0 := Active(p.stream[m])];
    s' := Next(s1, Scan(m));
    steps := Step1(p, before, s, Store(m), s1);
    steps := Step1(p, steps, s1, Scan(m), s');
    assert s'.core.queue[1].Inactive?;
  }

  /** The last call of an earlier slot. */
  lemma {:induction false} LastOfEarlierSlot(p: Plan, k: nat, j: nat) returns (h: nat)
    requires ValidPlan(p) && j < k < |p.stream| && !p.Before(j, k)
    ensures h < k && forall i :: h < i <= k ==> !p.Before(h, i)
    decreases k - j
  {
    if p.slots[j + 1] == p.slots[k] {
      h := j;
    } else {
      h := LastOfEarlierSlot(p, k, j + 1);
    }
  }

  /** The first call of a later slot. */
  lemma {:induction false} FirstOfLaterSlot(p: Plan, k: nat, j: nat) returns (m: nat)
    requires ValidPlan(p) && k < j < |p.stream| && !p.Before(k, j)
    ensures k < m < |p.stream| && forall i :: k <= i < m ==> !p.Before(i, m)
    decreases j
  {
    if p.slots[j - 1] == p.slots[k] {
      m := j;
    } else {
      m := FirstOfLaterSlot(p, k, j - 1);
    }
  }

  lemma {:induction false} NotPrefix(p: Plan, k: nat, j: nat)
    requires ValidPlan(p) && k < j < |p.stream|
    ensures !(p.stream[..k] + [p.stream[j]] <= p.stream)
  {
    assert (p.stream[..k] + [p.stream[j]])[k].buffer == j;
  }

  /** A short write that is neither the last nor isolated is overtaken in some interleaving. */
  lemma {:induction false} OutOfOrder(p: Plan, k: nat) returns (steps: seq<Step>)
    requires ValidPlan(p) && k < |p.stream| && Short(p, k) && !Isolated(p, k)
    ensures Run(p, steps).At? && FirstFirst(steps) && !(Run(p, steps).s.core.written <= p.stream)
  {
    hide Run;
    hide Leads;
    var s;
    if j :| 0 <= j < k && !p.Before(j, k) {
      var h := LastOfEarlierSlot(p, k, j);
      steps, s := CorneredByEarlier(p, k, h);
      steps := Overtaken(p, steps, s, k, h);
      NotPrefix(p, k, k + 1);
    } else {
      var j :| k < j < |p.slots| && !p.Before(k, j);
      var m := FirstOfLaterSlot(p, k, j);
      steps, s := CorneredByLater(p, k, m);
      steps := OvertakenByLater(p, steps, s, k, m);
    }
  }

  lemma {:induction false} OvertakenByLater(p: Plan, before: seq<Step>, s: State, k: nat, m: nat) returns (steps: seq<Step>)
    requires ValidPlan(p) && Leads(p, before, s) && s.plan == p && Short(p, k) && k < m < |p.stream|
    requires Cornered(s, k, m) || s.core.written == p.stream[..k] + [p.stream[m]]
    ensures Run(p, steps).At? && FirstFirst(steps) && !(Run(p, steps).s.core.written <= p.stream)
  {
    hide Run;
    if Cornered(s, k, m) {
      steps := Overtaken(p, before, s, k, m);
      NotPrefix(p, k, k + 1);
    } else {
      steps := before;
      NotPrefix(p, k, m);
    }
  }

  // ---- exactly when ----

  /** In every interleaving that begins with the first write, what goes out is a prefix of the stream. */
  ghost predicate AlwaysInOrder(p: Plan) {
    forall steps {:induction false} | Run(p, steps).At? && FirstFirst(steps) :: Run(p, steps).s.core.written <= p.stream
  }

  /** That is so if and only if every short write but the last is isolated. */
  lemma {:induction false} OrderExact(p: Plan)
    requires ValidPlan(p)
    ensures AlwaysInOrder(p) <==> ShortIsolated(p)
  {
    if ShortIsolated(p) {
      forall steps | Run(p, steps).At? && FirstFirst(steps)
        ensures Run(p, steps).s.core.written <= p.stream
      {
        InOrder(p, steps);
      }
    } else {
      var k :| 0 <= k < |p.stream| && Short(p, k) && !Isolated(p, k);
      var steps := OutOfOrder(p, k);
    }
  }

  /** The same whichever call begins first. */
  ghost predicate InOrderWhoeverBegins(p: Plan) {
    forall steps {:induction false} | Run(p, steps).At? :: Run(p, steps).s.core.written <= p.stream
  }

  /** That needs, besides, that the slot of the first write is isolated. */
  lemma {:induction false} FirstCallMatters(p: Plan)
    requires ValidPlan(p)
    ensures InOrderWhoeverBegins(p) <==> ShortIsolated(p) && Isolated(p, 0)
  {
    OrderExact(p);
    if Isolated(p, 0) {
      forall steps | Run(p, steps).At?
        ensures FirstFirst(steps)
      {
        FirstIsFirst(p, steps);
      }
    } else {
      var j :| 0 < j < |p.slots| && !p.Before(0, j);
      var m := FirstOfLaterSlot(p, 0, j);
      var steps := WrongFirst(p, m);
      NotPrefix(p, 0, m);
      assert p.stream[..0] + [p.stream[m]] == [p.stream[m]];
    }
  }

  lemma {:induction false} OnlyFirstCan(p: Plan, k: nat)
    requires ValidPlan(p) && Isolated(p, 0)
    ensures Enabled(Init(p), Submit(k)) ==> k == 0
  {
    assert 0 < k < |p.slots| ==> p.Before(0, k);
  }

  lemma {:induction false} FirstIsFirst(p: Plan, steps: seq<Step>)
    requires ValidPlan(p) && Isolated(p, 0) && Run(p, steps).At?
    ensures FirstFirst(steps)
    decreases |steps|
  {
    if |steps| == 1 {
      assert steps[..0] == [];
      if steps[0].Submit? {
        OnlyFirstCan(p, steps[0].k);
      }
    } else if |steps| > 1 {
      FirstIsFirst(p, steps[..|steps| - 1]);
    }
  }

  lemma {:induction false} WrongFirst(p: Plan, m: nat) returns (steps: seq<Step>)
    requires ValidPlan(p) && 0 < m < |p.stream| && forall i :: 0 <= i < m ==> !p.Before(i, m)
    ensures Run(p, steps).At? && Run(p, steps).s.core.written == [p.stream[m]]
  {
    var s0 := Init(p);
    assert Run(p, []) == At(s0);
    assert Enabled(s0, Submit(m));
    var s1 := Next(s0, Submit(m));
    RunAppend(p, [], Submit(m));
    RunAppend(p, [] + [Submit(m)], TryLock(m));
    steps := [] + [Submit(m)] + [TryLock(m)];
    hide Run;
  }

  /** A lost wake-up: if the slots of the first two writes overlap, a run ends with both calls ended, the first
      write out and the second waiting although it is next. */
  lemma {:induction false} LostWakeUp(p: Plan) returns (steps: seq<Step>)
    requires ValidPlan(p) && |p.stream| >= 2 && !p.Before(0, 1)
    ensures Run(p, steps).At? && FirstFirst(steps)
    ensures var s := Run(p, steps).s;
            && s.core.written == [p.stream[0]] && s.holder == -1 && Waiting(s)
            && forall k :: 0 <= k < |s.phases| ==> s.phases[k] == if k < 2 then Done else Idle
  {
    ScanEnds(p, 0, 1);
    var s0 := Held(p, 0, 1, Unlocking);
    var s1 := s0.(phases := s0.phases[1 := Trying]);
    LeavesSecond(p, s0, s1);
    var s2 := LeftBehind(s1, 1);
    var s := Next(s2, Unlock(0));
    SecondWaits(p, s0, s1, s2);
    hide *;
    steps := InTurn(p, 1);
    steps := Step1(p, steps, Holding(p, 0, 1), Scan(0), s0);
    steps := Step1(p, steps, s0, Submit(1), s1);
    steps := FailsTwice(p, steps, s1, 1);
    steps := Step1(p, steps, s2, Unlock(0), s);
    LeadsMeans(p, steps, s);
  }

  lemma {:induction false} LeadsMeans(p: Plan, steps: seq<Step>, s: State)
    requires Leads(p, steps, s)
    ensures Run(p, steps) == At(s) && FirstFirst(steps)
  {}

  lemma {:induction false} LeavesSecond(p: Plan, s0: State, s1: State)
    requires ValidPlan(p) && |p.stream| >= 2 && !p.Before(0, 1) && s0 == Held(p, 0, 1, Unlocking)
    requires s1 == s0.(phases := s0.phases[1 := Trying])
    ensures Shape(s0) && Enabled(s0, Submit(1)) && Next(s0, Submit(1)) == s1
    ensures Shape(s1) && s1.phases[1].Trying? && s1.holder != -1 && HasRoom(s1.core)
  {
    MayBegin(s0, 1, 0);
  }

  lemma {:induction false} SecondWaits(p: Plan, s0: State, s1: State, s2: State)
    requires ValidPlan(p) && |p.stream| >= 2 && s0 == Held(p, 0, 1, Unlocking) && s1 == s0.(phases := s0.phases[1 := Trying])
    requires Shape(s1) && HasRoom(s1.core) && s2 == LeftBehind(s1, 1)
    ensures Shape(s2) && Enabled(s2, Unlock(0))
    ensures var s := Next(s2, Unlock(0));
            && s.core.written == [p.stream[0]] && s.holder == -1 && Waiting(s)
            && forall k :: 0 <= k < |s.phases| ==> s.phases[k] == if k < 2 then Done else Idle
  {
    var s := Next(s2, Unlock(0));
    assert Ready(s.core, 0);
    assert p.stream[..1] == [p.stream[0]];
  }
}
