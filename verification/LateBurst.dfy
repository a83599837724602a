/** The fail-safe for late bursts (late_control in rx_rf and tx_rf, executables/lte-ru.c): after a
    fault the burst is ended without a time stamp, two sends are suppressed and the burst is
    started again. Faults and calls may come in any order. */
module LateBurst {

  datatype LateControl = Normal | Terminate | Stop1 | Stop2 | Restart

  datatype SubframeType = Downlink | Special | Uplink

  /** Burst flags of a downlink or special subframe. */
  datatype Flag = BurstStart | BurstMiddle | BurstEnd

  /** A short read (or a busy transmit thread), or a call of tx_rf with the flag it would use and
      whether the device then reports a short write. */
  datatype Event = RxFault | TxCall(sf: SubframeType, flag: Flag, shortWrite: bool)

  /** What a downlink or special call of tx_rf does. */
  datatype Action = Send(flag: Flag) | EndWithoutTime | Suppressed | RestartBurst

  predicate Transmits(e: Event) { e.TxCall? && e.sf != Uplink }

  function NextState(s: LateControl, e: Event): LateControl {
    if e.RxFault? then Terminate
    else if !Transmits(e) then s
    else match s
      case Terminate => Stop1
      case Stop1 => Stop2
      case Stop2 => Restart
      case Restart => if e.shortWrite then Terminate else Normal
      case Normal => if e.shortWrite then Terminate else Normal
  }

  function ActionOf(s: LateControl, e: Event): Action
    requires Transmits(e)
  {
    match s
    case Normal => Send(e.flag)
    case Terminate => EndWithoutTime
    case Stop1 => Suppressed
    case Stop2 => Suppressed
    case Restart => RestartBurst
  }

  function Final(s: LateControl, es: seq<Event>): LateControl {
    if es == [] then s else NextState(Final(s, es[..|es| - 1]), es[|es| - 1])
  }

  /** The actions of the downlink and special calls, in order. */
  function Actions(s: LateControl, es: seq<Event>): seq<Action> {
    if es == [] then []
    else
      var before, last := es[..|es| - 1], es[|es| - 1];
      Actions(s, before) + (if Transmits(last) then [ActionOf(Final(s, before), last)] else [])
  }

  /** The k-th action from the end is a. */
  predicate FromEnd(actions: seq<Action>, k: nat, a: Action) {
    1 <= k <= |actions| && actions[|actions| - k] == a
  }

  /** The state records how far the sequence has got. */
  lemma {:induction false} StateRecordsActions(es: seq<Event>)
    ensures Final(Normal, es) == Stop1 ==> FromEnd(Actions(Normal, es), 1, EndWithoutTime)
    ensures Final(Normal, es) == Stop2 ==>
              FromEnd(Actions(Normal, es), 2, EndWithoutTime) && FromEnd(Actions(Normal, es), 1, Suppressed)
    ensures Final(Normal, es) == Restart ==>
              && FromEnd(Actions(Normal, es), 3, EndWithoutTime)
              && FromEnd(Actions(Normal, es), 2, Suppressed) && FromEnd(Actions(Normal, es), 1, Suppressed)
    decreases |es|
  {
    if es != [] {
      StateRecordsActions(es[..|es| - 1]);
    }
  }

  /** Whatever the faults, a burst is restarted only right after one end without time and exactly two
      suppressed sends. */
  lemma {:induction false} RestartPattern(es: seq<Event>, k: nat)
    requires k < |Actions(Normal, es)| && Actions(Normal, es)[k] == RestartBurst
    ensures k >= 3 && Actions(Normal, es)[k - 3..k] == [EndWithoutTime, Suppressed, Suppressed]
    decreases |es|
  {
    var before := es[..|es| - 1];
    if k < |Actions(Normal, before)| {
      RestartPattern(before, k);
    } else {
      StateRecordsActions(before);
    }
  }

  function Calls(es: seq<Event>): nat {
    if es == [] then 0 else Calls(es[..|es| - 1]) + (if Transmits(es[|es| - 1]) then 1 else 0)
  }

  /** A fault that is acted on: any short read, or a short write while operation is normal or resuming. */
  predicate Acted(s: LateControl, e: Event) {
    e.RxFault? || (Transmits(e) && e.shortWrite && (s == Normal || s == Restart))
  }

  /** No fault among the events is acted on; short writes during the sequence may be among them. */
  predicate NoneActed(s: LateControl, es: seq<Event>) {
    es == [] || (NoneActed(s, es[..|es| - 1]) && !Acted(Final(s, es[..|es| - 1]), es[|es| - 1]))
  }

  /** Downlink or special calls left until normal operation. */
  function CallsLeft(s: LateControl): nat {
    match s case Normal => 0 case Terminate => 4 case Stop1 => 3 case Stop2 => 2 case Restart => 1
  }

  /** Unless a further fault is acted on, each downlink or special call brings normal operation one nearer. */
  lemma {:induction false} Countdown(s: LateControl, es: seq<Event>)
    requires NoneActed(s, es)
    ensures CallsLeft(Final(s, es)) == if Calls(es) >= CallsLeft(s) then 0 else CallsLeft(s) - Calls(es)
    decreases |es|
  {
    if es != [] {
      Countdown(s, es[..|es| - 1]);
    }
  }

  /** After the last fault acted on, normal operation resumes after exactly four downlink or special
      calls, however many uplink calls lie between, and stays. */
  lemma {:induction false} ResumesAfterFour(s: LateControl, fault: Event, es: seq<Event>)
    requires Acted(s, fault) && NoneActed(NextState(s, fault), es)
    ensures Final(NextState(s, fault), es) == Normal <==> Calls(es) >= 4
  {
    Countdown(NextState(s, fault), es);
  }

  /** The downlink and special calls among the events. */
  function TransmitCalls(es: seq<Event>): seq<Event> {
    if es == [] then []
    else TransmitCalls(es[..|es| - 1]) + (if Transmits(es[|es| - 1]) then [es[|es| - 1]] else [])
  }

  /** In normal operation every call sends with its own burst flag. */
  lemma {:induction false} NormalSends(es: seq<Event>, k: nat)
    requires NoneActed(Normal, es) && k < |Actions(Normal, es)|
    ensures Final(Normal, es) == Normal && |Actions(Normal, es)| == |TransmitCalls(es)|
    ensures TransmitCalls(es)[k].TxCall? && Actions(Normal, es)[k] == Send(TransmitCalls(es)[k].flag)
    decreases |es|
  {
    StaysNormal(es);
    var before := es[..|es| - 1];
    StaysNormal(before);
    if k < |Actions(Normal, before)| {
      NormalSends(before, k);
    }
  }

  lemma {:induction false} StaysNormal(es: seq<Event>)
    requires NoneActed(Normal, es)
    ensures Final(Normal, es) == Normal && |Actions(Normal, es)| == |TransmitCalls(es)|
    decreases |es|
  {
    if es != [] {
      StaysNormal(es[..|es| - 1]);
    }
  }

  /** The global late_control and its two users. */
  class FailSafe {
    var lateControl: LateControl

    constructor ()
      ensures lateControl == Normal
    {
      lateControl := Normal;
    }

    /** The check of rx_rf on the number of samples read. */
    method RxRf(rxs: nat, samplesPerTti: nat)
      modifies this
      ensures lateControl == if rxs != samplesPerTti then NextState(old(lateControl), RxFault) else old(lateControl)
    {
      if rxs != samplesPerTti {
        lateControl := Terminate;
      }
    }

    /** tx_rf: `sent` tells whether the device is called at all, `shortWrite` what it then reports. */
    method TxRf(sf: SubframeType, flag: Flag, shortWrite: bool) returns (sent: bool, noTime: bool, used: Flag)
      modifies this
      ensures lateControl == NextState(old(lateControl), TxCall(sf, flag, shortWrite))
      ensures sf == Uplink ==> !sent
      ensures sf != Uplink ==>
        match ActionOf(old(lateControl), TxCall(sf, flag, shortWrite))
        case Send(f) => sent && !noTime && used == f
        case EndWithoutTime => sent && noTime
        case Suppressed => !sent
        case RestartBurst => sent && !noTime && used == BurstStart
    {
      sent, noTime, used := false, false, flag;
      if sf == Downlink || sf == Special {
        if lateControl != Normal {
          match lateControl {
            case Terminate =>
              noTime := true;
              lateControl := Stop1;
            case Stop1 =>
              lateControl := Stop2;
              return;
            case Stop2 =>
              lateControl := Restart;
              return;
            case Restart =>
              used := BurstStart;
              lateControl := Normal;
          }
        }
        sent := true;
        if shortWrite && lateControl == Normal {
          lateControl := Terminate;
        }
      }
    }
  }
}
