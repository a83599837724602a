/** Unwrapping of the 10-bit frame number on the downlink fronthaul (fh_if4p5_north_asynch_in,
    executables/lte-ru.c): frame_tx_unwrap grows by 1024 at each frame 0, subframe 0. */
module FrameUnwrap {
  import opened Arithmetic

  /** Subframes between two occurrences of frame 0, subframe 0. */
  const WRAP: nat := 10240

  /** The unwrap offset after receiving absolute subframe `abs`. */
  function UnwrapAfter(unwrap: int, abs: nat): int {
    if abs / 10 % 1024 == 0 && abs % 10 == 0 then unwrap + 1024 else unwrap
  }

  /** The subframe count given to a subframe, from its frame and subframe numbers. */
  function SubframeCount(unwrap: int, abs: nat): int {
    (abs / 10 % 1024 + unwrap) * 10 + abs % 10
  }

  function UnwrapOf(unwrap: int, received: seq<nat>): int
    decreases |received|
  {
    if received == [] then unwrap
    else UnwrapAfter(UnwrapOf(unwrap, received[..|received| - 1]), received[|received| - 1])
  }

  /** The subframe count at reception number k, and the transmit timestamp computed from it. */
  function CountAt(unwrap: int, received: seq<nat>, k: nat): int
    requires k < |received|
  {
    SubframeCount(UnwrapOf(unwrap, received[..k + 1]), received[k])
  }

  function Timestamp(samplesPerTti: nat, unwrap: int, received: seq<nat>, k: nat): int
    requires k < |received|
  {
    CountAt(unwrap, received, k) * samplesPerTti
  }

  /** From one reception to the next no frame 0, subframe 0 was skipped. */
  predicate Unskipped(a: nat, b: nat) {
    a / WRAP == b / WRAP || (b % WRAP == 0 && b / WRAP == a / WRAP + 1)
  }

  /** How many were. */
  function Skipped(a: nat, b: nat): int {
    b / WRAP - a / WRAP - (if b % WRAP == 0 then 1 else 0)
  }

  function SkippedBetween(received: seq<nat>, j: nat, k: nat): int
    requires j <= k < |received|
    decreases k
  {
    if j == k then 0 else SkippedBetween(received, j, k - 1) + Skipped(received[k - 1], received[k])
  }

  predicate InOrder(received: seq<nat>) {
    forall k :: 0 < k < |received| ==> received[k - 1] < received[k]
  }

  /** From one subframe to a later one the count grows by their distance less the skipped wraps. */
  lemma {:induction false} StepCount(unwrap: int, a: nat, b: nat)
    requires a < b
    ensures SubframeCount(UnwrapAfter(unwrap, b), b) - SubframeCount(unwrap, a) == b - a - WRAP * Skipped(a, b)
    ensures Skipped(a, b) >= 0 && (Skipped(a, b) == 0 <==> Unskipped(a, b))
  {
    InWrap(a);
    InWrap(b);
  }

  lemma {:induction false} InWrap(x: nat)
    ensures x / 10 % 1024 * 10 + x % 10 == x % WRAP
  {}

  /** Between any two receptions, across any number of frame-number wraps, the counts differ by the
      subframes elapsed less a full wrap for each frame 0, subframe 0 that was skipped. */
  lemma {:induction false} ElapsedCount(unwrap: int, received: seq<nat>, j: nat, k: nat)
    requires InOrder(received) && j <= k < |received|
    ensures CountAt(unwrap, received, k) - CountAt(unwrap, received, j)
            == received[k] - received[j] - WRAP * SkippedBetween(received, j, k)
    ensures SkippedBetween(received, j, k) >= 0
    ensures SkippedBetween(received, j, k) == 0 <==> forall i :: j < i <= k ==> Unskipped(received[i - 1], received[i])
    decreases k
  {
    hide *;
    SkippedStep(received, j, k);
    if j < k {
      OneReception(unwrap, received, k);
      ElapsedCount(unwrap, received, j, k - 1);
    }
  }

  lemma {:induction false} SkippedStep(received: seq<nat>, j: nat, k: nat)
    requires j <= k < |received|
    ensures SkippedBetween(received, j, k)
            == if j == k then 0 else SkippedBetween(received, j, k - 1) + Skipped(received[k - 1], received[k])
  {}

  lemma {:induction false} OneReception(unwrap: int, received: seq<nat>, k: nat)
    requires InOrder(received) && 0 < k < |received|
    ensures var skipped := Skipped(received[k - 1], received[k]);
            && CountAt(unwrap, received, k) - CountAt(unwrap, received, k - 1) == received[k] - received[k - 1] - WRAP * skipped
            && skipped >= 0 && (skipped == 0 <==> Unskipped(received[k - 1], received[k]))
  {
    assert received[..k + 1][..k] == received[..k];
    StepCount(UnwrapOf(unwrap, received[..k]), received[k - 1], received[k]);
    hide Skipped;
    hide Unskipped;
    hide SubframeCount;
    hide UnwrapAfter;
  }

  /** Modulo a wrap the count is the subframe itself. */
  lemma {:induction false} CountModulo(unwrap: int, received: seq<nat>, k: nat)
    requires unwrap % 1024 == 0 && k < |received|
    ensures CountAt(unwrap, received, k) % WRAP == received[k] % WRAP
  {
    UnwrapWhole(unwrap, received[..k + 1]);
    hide UnwrapOf;
    WholeWraps(UnwrapOf(unwrap, received[..k + 1]), received[k]);
  }

  lemma {:induction false} WholeWraps(unwrap: int, abs: nat)
    requires unwrap % 1024 == 0
    ensures SubframeCount(unwrap, abs) % WRAP == abs % WRAP
  {
    var within := abs / 10 % 1024 * 10 + abs % 10;
    assert within == abs % WRAP;
    assert SubframeCount(unwrap, abs) == within + unwrap / 1024 * WRAP;
    DivUnique(SubframeCount(unwrap, abs), WRAP, unwrap / 1024, within);
  }

  lemma {:induction false} UnwrapWhole(unwrap: int, received: seq<nat>)
    requires unwrap % 1024 == 0
    ensures UnwrapOf(unwrap, received) % 1024 == 0
    decreases |received|
  {
    if received != [] {
      UnwrapWhole(unwrap, received[..|received| - 1]);
    }
  }

  /** So the timestamps of any two receptions differ by the subframes elapsed times the samples of a
      subframe exactly when no frame 0, subframe 0 was skipped between them. */
  lemma {:induction false} UnwrapExact(samplesPerTti: nat, unwrap: int, received: seq<nat>, j: nat, k: nat)
    requires InOrder(received) && j <= k < |received| && samplesPerTti > 0
    ensures Timestamp(samplesPerTti, unwrap, received, k) - Timestamp(samplesPerTti, unwrap, received, j)
            == (received[k] as int - received[j]) * samplesPerTti
            <==> forall i :: j < i <= k ==> Unskipped(received[i - 1], received[i])
  {
    ElapsedCount(unwrap, received, j, k);
    hide Unskipped;
    hide CountAt;
    SameProduct(CountAt(unwrap, received, k), CountAt(unwrap, received, j), received[k] as int - received[j], samplesPerTti);
  }

  lemma {:induction false} SameProduct(a: int, b: int, c: int, d: int)
    requires d > 0
    ensures a * d - b * d == c * d <==> a - b == c
  {
    Distribute(a, b, d);
    Distribute(a - b, c, d);
    if a - b > c {
      MulAtLeast(a - b - c, d);
    } else if a - b < c {
      MulAtLeast(c - (a - b), d);
      Distribute(c, a - b, d);
    }
  }

  /** The receiver's state, updated in place. */
  class NorthReceiver {
    const samplesPerTti: nat
    var frameTxUnwrap: int
    var timestampTx: int

    constructor (samplesPerTti: nat)
      ensures this.samplesPerTti == samplesPerTti && frameTxUnwrap == 0
    {
      this.samplesPerTti := samplesPerTti;
      frameTxUnwrap, timestampTx := 0, 0;
    }

    /** The end of fh_if4p5_north_asynch_in, once a subframe's symbols are in. */
    method Receive(frameTx: nat, ttiTx: nat, ghost abs: nat)
      requires frameTx == abs / 10 % 1024 && ttiTx == abs % 10
      modifies this
      ensures frameTxUnwrap == UnwrapAfter(old(frameTxUnwrap), abs)
      ensures timestampTx == SubframeCount(frameTxUnwrap, abs) * samplesPerTti
    {
      if frameTx == 0 && ttiTx == 0 {
        frameTxUnwrap := frameTxUnwrap + 1024;
      }
      timestampTx := ((frameTx + frameTxUnwrap) * 10 + ttiTx) * samplesPerTti;
    }
  }
}
