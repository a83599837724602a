/** The dynamic barrier of common/utils/barrier/barrier.c: joins are counted, possibly before the
    number required is known, and the stored job starts when they reach it. */
module DynamicBarrier {

  datatype Arming = NotArmed | Armed(maxJoins: nat, job: nat)

  datatype Barrier = Barrier(completed: nat, arming: Arming)

  datatype Fired = Nothing | Starts(job: nat)

  /** dynamic_barrier_join */
  function OnJoin(b: Barrier): (Barrier, Fired) {
    if b.arming.Armed? && b.completed + 1 == b.arming.maxJoins then (Barrier(0, NotArmed), Starts(b.arming.job))
    else (b.(completed := b.completed + 1), Nothing)
  }

  /** dynamic_barrier_update. When the joins are already there, the job starts at once and a
      previously stored job, if any, is left in place. */
  function OnUpdate(b: Barrier, maxJoins: nat, job: nat): (Barrier, Fired) {
    if b.completed == maxJoins then (Barrier(0, b.arming), Starts(job))
    else (Barrier(b.completed, Armed(maxJoins, job)), Nothing)
  }

  function Joins(b: Barrier, k: nat): Barrier
    decreases k
  {
    if k == 0 then b else Joins(OnJoin(b).0, k - 1)
  }

  /** Whether the requirement comes before or after the joins, a fresh barrier starts its job at
      exactly the max-th join and is then fresh again. */
  lemma {:induction false} JoinsThenUpdate(k: nat, maxJoins: nat, job: nat)
    ensures Joins(Barrier(0, NotArmed), k) == Barrier(k, NotArmed)
    ensures OnUpdate(Joins(Barrier(0, NotArmed), k), maxJoins, job)
            == if k == maxJoins then (Barrier(0, NotArmed), Starts(job)) else (Barrier(k, Armed(maxJoins, job)), Nothing)
  {
    JoinsUnarmed(0, k);
  }

  lemma {:induction false} JoinsUnarmed(c: nat, k: nat)
    ensures Joins(Barrier(c, NotArmed), k) == Barrier(c + k, NotArmed)
    decreases k
  {
    if k > 0 {
      JoinsUnarmed(c + 1, k - 1);
    }
  }

  lemma {:induction false} UpdateThenJoins(c: nat, k: nat, maxJoins: nat, job: nat)
    requires k > 0 && c + k <= maxJoins
    ensures var b := Joins(Barrier(c, Armed(maxJoins, job)), k - 1);
            && b == Barrier(c + k - 1, Armed(maxJoins, job))
            && OnJoin(b) == if c + k == maxJoins then (Barrier(0, NotArmed), Starts(job))
                            else (Barrier(c + k, Armed(maxJoins, job)), Nothing)
    decreases k
  {
    if k > 1 {
      UpdateThenJoins(c + 1, k - 1, maxJoins, job);
    }
  }

  /** A barrier that has had more joins than it is armed for never starts its job: joins are compared for
      equality. */
  lemma {:induction false} OvershotNeverStarts(b: Barrier, k: nat)
    requires b.arming.Armed? && b.completed >= b.arming.maxJoins
    ensures Joins(b, k) == b.(completed := b.completed + k) && OnJoin(Joins(b, k)).1 == Nothing
    decreases k
  {
    if k > 0 {
      OvershotNeverStarts(OnJoin(b).0, k - 1);
    }
  }

  /** ... and arming it for fewer does not start it either. */
  lemma {:induction false} ArmedTooLate(c: nat, maxJoins: nat, job: nat, k: nat)
    requires c > maxJoins
    ensures OnUpdate(Barrier(c, NotArmed), maxJoins, job) == (Barrier(c, Armed(maxJoins, job)), Nothing)
    ensures OnJoin(Joins(Barrier(c, Armed(maxJoins, job)), k)).1 == Nothing
  {
    OvershotNeverStarts(Barrier(c, Armed(maxJoins, job)), k);
  }

  /** A job started by an update leaves a job stored before in place: that one starts when its own joins are
      there. */
  lemma {:induction false} StoredJobStays(c: nat, maxJoins: nat, stored: nat, job: nat)
    requires 0 < maxJoins
    ensures OnUpdate(Barrier(c, Armed(maxJoins, stored)), c, job) == (Barrier(0, Armed(maxJoins, stored)), Starts(job))
    ensures OnJoin(Joins(Barrier(0, Armed(maxJoins, stored)), maxJoins - 1)) == (Barrier(0, NotArmed), Starts(stored))
  {
    UpdateThenJoins(0, maxJoins, maxJoins, stored);
  }

  /** The barrier object. A stored job is `hasCallback`; starting it appends to `started`. */
  class SlotBarrier {
    var completedJobs: nat
    var maxJoins: nat
    var hasCallback: bool
    var callbackArg: nat
    var started: seq<nat>

    function View(): Barrier
      reads this
    {
      Barrier(completedJobs, if hasCallback then Armed(maxJoins, callbackArg) else NotArmed)
    }

    constructor ()
      ensures View() == Barrier(0, NotArmed) && started == []
    {
      completedJobs, maxJoins, hasCallback, callbackArg, started := 0, 0, false, 0, [];
    }

    method Join()
      modifies this
      ensures View() == OnJoin(old(View())).0
      ensures started == old(started) + (match OnJoin(old(View())).1 case Nothing => [] case Starts(job) => [job])
    {
      completedJobs := completedJobs + 1;
      if hasCallback {
        if completedJobs == maxJoins {
          completedJobs := 0;
          started := started + [callbackArg];
          hasCallback := false;
        }
      }
    }

    method Update(joins: nat, arg: nat)
      modifies this
      ensures View() == OnUpdate(old(View()), joins, arg).0
      ensures started == old(started) + (match OnUpdate(old(View()), joins, arg).1 case Nothing => [] case Starts(job) => [job])
    {
      if completedJobs == joins {
        completedJobs := 0;
        started := started + [arg];
      } else {
        maxJoins := joins;
        hasCallback := true;
        callbackArg := arg;
      }
    }
  }

  /** NR_SIDELINK_SLOT is the same value as NR_UPLINK_SLOT. */
  datatype SlotType = UplinkSlot | MixedSlot | DownlinkSlot

  /** processSlotTX: whatever the slot type and the sidelink mode, the job joins the next slot's
      barrier exactly once before it transmits. */
  method ProcessSlotTx(next: SlotBarrier, slotType: SlotType, slMode: nat)
    modifies next
    ensures next.View() == OnJoin(old(next.View())).0
    ensures next.started == old(next.started) + (match OnJoin(old(next.View())).1 case Nothing => [] case Starts(job) => [job])
  {
    if slotType == UplinkSlot || slotType == MixedSlot {
      if slMode == 2 && slotType == UplinkSlot {
        next.Join();
      } else {
        next.Join();
      }
    } else {
      next.Join();
    }
  }
}
