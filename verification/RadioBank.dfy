/** The UE's radios: which cell owns which radio unit (RU), which UE owns which cell, and the reads
    that keep idle radios in step (executables/nr-ue-ru.c, set up by main in
    executables/nr-uesoftmodem.c). Radios are counters: a read of n samples returns the old
    position and advances it by n. One carrier per UE. */
module RadioBank {

  /** `usedByUe` and `usedByCell` are -1 when unused, as in the source. */
  datatype Cell = Cell(ruId: int, usedByUe: int, dlCarrier: nat, ulCarrier: nat)

  datatype Device = Device(position: int, firstTs: int, initialized: bool)

  /** `usedByCell` has an entry per RU, `cards` (the RU in use) an entry per UE. */
  datatype Bank = Bank(usedByCell: seq<int>, cells: seq<Cell>, cards: seq<int>, devices: seq<Device>)

  ghost predicate CellsOwnRus(usedByCell: seq<int>, cells: seq<Cell>) {
    && (forall c :: 0 <= c < |cells| ==> 0 <= cells[c].ruId < |usedByCell| && usedByCell[cells[c].ruId] == c)
    && (forall r :: 0 <= r < |usedByCell| ==>
          -1 <= usedByCell[r] < |cells| && (usedByCell[r] >= 0 ==> cells[usedByCell[r]].ruId == r))
  }

  ghost predicate UesOwnCells(usedByCell: seq<int>, cells: seq<Cell>, cards: seq<int>)
    requires CellsOwnRus(usedByCell, cells)
  {
    && (forall u :: 0 <= u < |cards| ==>
          0 <= cards[u] < |usedByCell| && usedByCell[cards[u]] >= 0 && cells[usedByCell[cards[u]]].usedByUe == u)
    && (forall c :: 0 <= c < |cells| ==>
          -1 <= cells[c].usedByUe < |cards|
          && (cells[c].usedByUe >= 0 ==> cards[cells[c].usedByUe] == cells[c].ruId))
  }

  /** Ownership: cells and their RUs correspond, UEs and their cells correspond. */
  ghost predicate Owned(b: Bank) {
    && |b.devices| == |b.usedByCell|
    && CellsOwnRus(b.usedByCell, b.cells) && UesOwnCells(b.usedByCell, b.cells, b.cards)
  }

  /** So no RU serves two cells, no cell serves two UEs and no two UEs share an RU. */
  lemma {:induction false} OwnershipIsExclusive(b: Bank, c: nat, c': nat, u: nat, u': nat)
    requires Owned(b) && c < c' < |b.cells| && u < u' < |b.cards|
    ensures b.cells[c].ruId != b.cells[c'].ruId && b.cards[u] != b.cards[u']
    ensures b.cells[c].usedByUe >= 0 ==> b.cells[c].usedByUe != b.cells[c'].usedByUe
  {}

  // ---- the initial assignment ----

  ghost predicate Assignable(ruCount: nat, cells: seq<Cell>) {
    && (forall c :: 0 <= c < |cells| ==> 0 <= cells[c].ruId < ruCount)
    && (forall c, c' :: 0 <= c < c' < |cells| ==> cells[c].ruId != cells[c'].ruId)
  }

  /** The first loop of main: every cell takes its configured RU, which must exist and be unused.
      False stands for the fatal assertions. */
  method AssignCells(ruCount: nat, cells: seq<Cell>) returns (ok: bool, usedByCell: seq<int>)
    ensures ok <==> Assignable(ruCount, cells)
    ensures ok ==> |usedByCell| == ruCount && CellsOwnRus(usedByCell, cells)
  {
    hide CellsOwnRus;
    hide Assignable;
    usedByCell := seq(ruCount, _ => -1);
    ok := true;
    assert cells[..0] == [];
    AssignNone(usedByCell, ruCount);
    for c := 0 to |cells|
      invariant |usedByCell| == ruCount && ok
      invariant Assignable(ruCount, cells[..c]) && CellsOwnRus(usedByCell, cells[..c])
    {
      var ruId := cells[c].ruId;
      if !(0 <= ruId < ruCount) || usedByCell[ruId] != -1 {
        AssignClash(usedByCell, ruCount, cells, c);
        return false, usedByCell;
      }
      AssignOne(usedByCell, ruCount, cells, c);
      usedByCell := usedByCell[ruId := c];
    }
    assert cells[..|cells|] == cells;
  }

  lemma {:induction false} AssignNone(usedByCell: seq<int>, ruCount: nat)
    requires usedByCell == seq(ruCount, _ => -1)
    ensures Assignable(ruCount, []) && CellsOwnRus(usedByCell, [])
  {}

  lemma {:induction false} AssignClash(usedByCell: seq<int>, ruCount: nat, cells: seq<Cell>, c: nat)
    requires |usedByCell| == ruCount && c < |cells| && CellsOwnRus(usedByCell, cells[..c])
    requires !(0 <= cells[c].ruId < ruCount) || usedByCell[cells[c].ruId] != -1
    ensures !Assignable(ruCount, cells)
  {
    if 0 <= cells[c].ruId < ruCount {
      assert cells[..c][usedByCell[cells[c].ruId]].ruId == cells[c].ruId;
    }
  }

  lemma {:induction false} AssignOne(usedByCell: seq<int>, ruCount: nat, cells: seq<Cell>, c: nat)
    requires |usedByCell| == ruCount && c < |cells| && Assignable(ruCount, cells[..c]) && CellsOwnRus(usedByCell, cells[..c])
    requires 0 <= cells[c].ruId < ruCount && usedByCell[cells[c].ruId] == -1
    ensures Assignable(ruCount, cells[..c + 1]) && CellsOwnRus(usedByCell[cells[c].ruId := c], cells[..c + 1])
  {
    var some, more := cells[..c], cells[..c + 1];
    assert more[c] == cells[c] && forall i :: 0 <= i < c ==> more[i] == some[i];
  }

  /** The second loop of main: UE number i takes cell number i. */
  method AssignUes(usedByCell: seq<int>, initial: seq<Cell>, ueCount: nat)
    returns (ok: bool, cells: seq<Cell>, cards: seq<int>)
    requires CellsOwnRus(usedByCell, initial)
    requires forall c :: 0 <= c < |initial| ==> initial[c].usedByUe == -1
    ensures ok <==> ueCount <= |initial|
    ensures ok ==>
      && |cards| == ueCount && CellsOwnRus(usedByCell, cells) && UesOwnCells(usedByCell, cells, cards)
      && (forall u :: 0 <= u < ueCount ==> cards[u] == initial[u].ruId) && SameCarriers(initial, cells)
  {
    cells, cards, ok := initial, [], true;
    for u := 0 to ueCount
      invariant ok && |cards| == u <= |cells| == |initial|
      invariant forall c :: 0 <= c < |cells| ==> cells[c] == initial[c].(usedByUe := if c < u then c else -1)
      invariant forall v :: 0 <= v < u ==> cards[v] == initial[v].ruId
    {
      if u >= |cells| {
        return false, cells, cards;
      }
      cells := cells[u := cells[u].(usedByUe := u)];
      cards := cards + [cells[u].ruId];
    }
  }

  /** Both loops of main. They succeed exactly when every cell has an RU of its own and every UE a cell,
      and then ownership holds. */
  method Setup(devices: seq<Device>, configured: seq<Cell>, ueCount: nat) returns (ok: bool, b: Bank)
    requires forall c :: 0 <= c < |configured| ==> configured[c].usedByUe == -1
    ensures ok <==> Assignable(|devices|, configured) && ueCount <= |configured|
    ensures ok ==>
      && Owned(b) && |b.cards| == ueCount && b.devices == devices && SameCarriers(configured, b.cells)
      && forall u :: 0 <= u < ueCount ==> b.cards[u] == configured[u].ruId
  {
    b := Bank([], configured, [], devices);
    var usedByCell;
    ok, usedByCell := AssignCells(|devices|, configured);
    if ok {
      var cells, cards;
      ok, cells, cards := AssignUes(usedByCell, configured, ueCount);
      b := Bank(usedByCell, cells, cards, devices);
    }
  }

  // ---- retuning ----

  function Gap(a: nat, b: nat): nat { if a > b then a - b else b - a }

  /** Total carrier distance of a cell from the wanted carriers. */
  function Distance(cell: Cell, ul: nat, dl: nat): nat { Gap(cell.dlCarrier, dl) + Gap(cell.ulCarrier, ul) }

  /** A cell right in one carrier is as far as it is off in the other, and the distances of the two carriers add. */
  lemma {:induction false} DistanceAdds(cell: Cell, ul: nat, dl: nat)
    ensures Distance(cell, cell.ulCarrier, dl) == if dl < cell.dlCarrier then cell.dlCarrier - dl else dl - cell.dlCarrier
    ensures Distance(cell, ul, cell.dlCarrier) == if ul < cell.ulCarrier then cell.ulCarrier - ul else ul - cell.ulCarrier
    ensures Distance(cell, ul, dl) == Distance(cell, cell.ulCarrier, dl) + Distance(cell, ul, cell.dlCarrier)
  {}

  predicate Free(b: Bank, r: int)
    requires 0 <= r < |b.usedByCell| && b.usedByCell[r] < |b.cells|
  {
    b.usedByCell[r] >= 0 && b.cells[b.usedByCell[r]].usedByUe < 0
  }

  /** RUs a UE may use: its own and the free ones. */
  ghost predicate Candidate(b: Bank, ue: nat, r: int)
    requires Owned(b) && ue < |b.cards|
  {
    0 <= r < |b.usedByCell| && (r == b.cards[ue] || Free(b, r))
  }

  ghost function RuDistance(b: Bank, r: int, ul: nat, dl: nat): nat
    requires Owned(b) && 0 <= r < |b.usedByCell|
  {
    if b.usedByCell[r] < 0 then 0 else Distance(b.cells[b.usedByCell[r]], ul, dl)
  }

  /** The RU to use: one nearest among the candidates, the current one on a tie, otherwise the
      lowest-numbered of the nearest. */
  ghost predicate Nearest(b: Bank, ue: nat, ul: nat, dl: nat, r: int)
    requires Owned(b) && ue < |b.cards|
  {
    && Candidate(b, ue, r)
    && (forall q :: Candidate(b, ue, q) ==> RuDistance(b, r, ul, dl) <= RuDistance(b, q, ul, dl))
    && (r != b.cards[ue] ==>
          && RuDistance(b, r, ul, dl) < RuDistance(b, b.cards[ue], ul, dl)
          && forall q :: Candidate(b, ue, q) && q < r ==> RuDistance(b, r, ul, dl) < RuDistance(b, q, ul, dl))
  }

  /** Moving a UE to RU r: its old cell is freed, then the new one taken. */
  function MoveTo(b: Bank, ue: nat, r: int): Bank
    requires ue < |b.cards| && 0 <= b.cards[ue] < |b.usedByCell| && 0 <= r < |b.usedByCell|
    requires 0 <= b.usedByCell[b.cards[ue]] < |b.cells| && 0 <= b.usedByCell[r] < |b.cells|
  {
    var current := b.usedByCell[b.cards[ue]];
    var freed := b.cells[current := b.cells[current].(usedByUe := -1)];
    var taken := b.usedByCell[r];
    b.(cards := b.cards[ue := r], cells := freed[taken := freed[taken].(usedByUe := ue)])
  }

  ghost predicate Retuned(b: Bank, b': Bank, ue: nat, ul: nat, dl: nat)
    requires Owned(b) && ue < |b.cards|
  {
    exists r :: Nearest(b, ue, ul, dl, r) && b' == MoveTo(b, ue, r)
  }

  /** The choice is determined. */
  lemma {:induction false} NearestUnique(b: Bank, ue: nat, ul: nat, dl: nat, r: int, r': int)
    requires Owned(b) && ue < |b.cards| && Nearest(b, ue, ul, dl, r) && Nearest(b, ue, ul, dl, r')
    ensures r == r'
  {
    assert Candidate(b, ue, b.cards[ue]);
  }

  /** The cells have the RUs and carriers they had. */
  ghost predicate SameCarriers(cells: seq<Cell>, cells': seq<Cell>) {
    |cells'| == |cells| && forall c :: 0 <= c < |cells| ==> cells'[c] == cells[c].(usedByUe := cells'[c].usedByUe)
  }

  lemma {:induction false} MoveKeepsCells(b: Bank, ue: nat, r: int)
    requires Owned(b) && ue < |b.cards| && Candidate(b, ue, r)
    ensures CellsOwnRus(b.usedByCell, MoveTo(b, ue, r).cells) && SameCarriers(b.cells, MoveTo(b, ue, r).cells)
  {}

  lemma {:induction false} MoveKeepsUe(b: Bank, ue: nat, r: int, u: nat)
    requires Owned(b) && ue < |b.cards| && Candidate(b, ue, r) && u < |b.cards|
    ensures var b' := MoveTo(b, ue, r);
            && 0 <= b'.cards[u] < |b.usedByCell| && b.usedByCell[b'.cards[u]] >= 0
            && b'.cells[b.usedByCell[b'.cards[u]]].usedByUe == u
  {
    if u != ue {
      assert b.cells[b.usedByCell[b.cards[u]]].usedByUe == u;
    }
  }

  lemma {:induction false} MoveKeepsCell(b: Bank, ue: nat, r: int, c: nat)
    requires Owned(b) && ue < |b.cards| && Candidate(b, ue, r) && c < |b.cells|
    ensures var b' := MoveTo(b, ue, r);
            && -1 <= b'.cells[c].usedByUe < |b.cards|
            && (b'.cells[c].usedByUe >= 0 ==> b'.cards[b'.cells[c].usedByUe] == b'.cells[c].ruId)
  {}

  /** Retuning keeps ownership: only the UE's own cell and a free one change hands. */
  lemma {:induction false} RetuneKeepsOwnership(b: Bank, b': Bank, ue: nat, ul: nat, dl: nat)
    requires Owned(b) && ue < |b.cards| && Retuned(b, b', ue, ul, dl)
    ensures Owned(b') && b'.usedByCell == b.usedByCell && b'.devices == b.devices && |b'.cards| == |b.cards|
    ensures SameCarriers(b.cells, b'.cells)
  {
    var r :| Nearest(b, ue, ul, dl, r) && b' == MoveTo(b, ue, r);
    MoveKeepsCells(b, ue, r);
    assert b'.usedByCell == b.usedByCell && b'.devices == b.devices && |b'.cards| == |b.cards| && |b'.cells| == |b.cells|;
    forall u | 0 <= u < |b.cards|
      ensures 0 <= b'.cards[u] < |b.usedByCell| && b.usedByCell[b'.cards[u]] >= 0
      ensures b'.cells[b.usedByCell[b'.cards[u]]].usedByUe == u
    {
      MoveKeepsUe(b, ue, r, u);
    }
    forall c | 0 <= c < |b.cells|
      ensures -1 <= b'.cells[c].usedByUe < |b.cards|
      ensures b'.cells[c].usedByUe >= 0 ==> b'.cards[b'.cells[c].usedByUe] == b'.cells[c].ruId
    {
      MoveKeepsCell(b, ue, r, c);
    }
    hide MoveTo;
    hide Nearest;
  }

  /** If the UE's own RU or a free one has a cell on exactly the wanted carriers, the UE's cell has them after the
      retune. */
  lemma {:induction false} ExactCarriersFound(b: Bank, b': Bank, ue: nat, ul: nat, dl: nat, q: int)
    requires Owned(b) && ue < |b.cards| && Retuned(b, b', ue, ul, dl) && Candidate(b, ue, q)
    requires var cell := b.cells[b.usedByCell[q]]; cell.dlCarrier == dl && cell.ulCarrier == ul
    ensures 0 <= b'.cards[ue] < |b'.usedByCell| && 0 <= b'.usedByCell[b'.cards[ue]] < |b'.cells|
    ensures var cell := b'.cells[b'.usedByCell[b'.cards[ue]]]; cell.dlCarrier == dl && cell.ulCarrier == ul && cell.usedByUe == ue
  {
    RetuneKeepsOwnership(b, b', ue, ul, dl);
    var r :| Nearest(b, ue, ul, dl, r) && b' == MoveTo(b, ue, r);
    assert RuDistance(b, r, ul, dl) <= RuDistance(b, q, ul, dl);
  }

  // ---- reading ----

  function ReadDevice(d: Device, samples: nat): Device {
    Device(d.position + samples, if d.initialized then d.firstTs else d.position, true)
  }

  /** The timestamp nrue_ru_read reports: relative to the device's first one. */
  function RelativeTs(d: Device): int { d.position - ReadDevice(d, 0).firstTs }

  /** The devices a read by UE `ue` advances: its own and, for UE 0, every free one. */
  predicate ReadBy(b: Bank, ue: nat, r: nat)
    requires ue < |b.cards| && r < |b.usedByCell| && b.usedByCell[r] < |b.cells|
  {
    r == b.cards[ue] || (ue == 0 && Free(b, r))
  }

  ghost predicate ReadDone(b: Bank, b': Bank, ue: nat, samples: nat)
    requires Owned(b) && ue < |b.cards|
  {
    && b' == b.(devices := b'.devices) && |b'.devices| == |b.devices|
    && forall r :: 0 <= r < |b.devices| ==>
         b'.devices[r] == if ReadBy(b, ue, r) then ReadDevice(b.devices[r], samples) else b.devices[r]
  }

  /** With any number of UEs: a read advances the reader's radio by the samples read, and UE 0's also every free
      one; the radios of other UEs, and free ones when another UE reads, stay where they are. */
  lemma {:induction false} ReadReaches(b: Bank, b': Bank, ue: nat, samples: nat, r: nat)
    requires Owned(b) && ue < |b.cards| && ReadDone(b, b', ue, samples) && r < |b.devices|
    ensures |b'.devices| == |b.devices|
    ensures (r == b.cards[ue] || (ue == 0 && Free(b, r))) ==> b'.devices[r].position == b.devices[r].position + samples
    ensures (exists u :: 0 <= u < |b.cards| && u != ue && r == b.cards[u]) ==> b'.devices[r] == b.devices[r]
    ensures ue != 0 && Free(b, r) ==> b'.devices[r] == b.devices[r]
    ensures b.usedByCell[r] < 0 ==> b'.devices[r] == b.devices[r]
  {}

  /** The bank as the source keeps it. */
  class Radios {
    var usedByCell: seq<int>
    var cells: seq<Cell>
    var cards: seq<int>
    var devices: seq<Device>

    function View(): Bank
      reads this
    {
      Bank(usedByCell, cells, cards, devices)
    }

    constructor (b: Bank)
      ensures View() == b
    {
      usedByCell, cells, cards, devices := b.usedByCell, b.cells, b.cards, b.devices;
    }

    /** nrue_ru_set_freq, up to the device call. */
    method SetFreq(ue: nat, ul: nat, dl: nat)
      requires Owned(View()) && ue < |cards|
      modifies this`cards, this`cells
      ensures Retuned(old(View()), View(), ue, ul, dl)
      ensures Owned(View())
    {
      ghost var b := View();
      var current := usedByCell[cards[ue]];
      var distance := Distance(cells[current], ul, dl);
      var ru := 0;
      while distance != 0 && ru < |usedByCell|
        invariant ru <= |usedByCell| && cells == b.cells && |cards| == |b.cards|
        invariant cards == b.cards[ue := cards[ue]]
        invariant Candidate(b, ue, cards[ue]) && distance == RuDistance(b, cards[ue], ul, dl)
        invariant forall q :: 0 <= q < ru && Candidate(b, ue, q) ==> distance <= RuDistance(b, q, ul, dl)
        invariant distance <= RuDistance(b, b.cards[ue], ul, dl)
        invariant cards[ue] != b.cards[ue] ==>
          && distance < RuDistance(b, b.cards[ue], ul, dl)
          && forall q :: 0 <= q < cards[ue] && Candidate(b, ue, q) ==> distance < RuDistance(b, q, ul, dl)
        decreases |usedByCell| - ru
      {
        var cell := usedByCell[ru];
        if cell >= 0 && cells[cell].usedByUe < 0 {
          var candidate := Distance(cells[cell], ul, dl);
          if candidate < distance {
            cards := cards[ue := ru];
            distance := candidate;
          }
        }
        ru := ru + 1;
      }
      assert Nearest(b, ue, ul, dl, cards[ue]);
      cells := cells[current := cells[current].(usedByUe := -1)];
      current := usedByCell[cards[ue]];
      cells := cells[current := cells[current].(usedByUe := ue)];
      assert View() == MoveTo(b, ue, cards[ue]);
      RetuneKeepsOwnership(b, View(), ue, ul, dl);
    }

    /** nrue_ru_read */
    method Read(ue: nat, samples: nat) returns (timestamp: int)
      requires Owned(View()) && ue < |cards|
      modifies this`devices
      ensures ReadDone(old(View()), View(), ue, samples)
      ensures timestamp == RelativeTs(old(devices)[cards[ue]])
    {
      ghost var b := View();
      var card := cards[ue];
      devices := devices[card := ReadDevice(devices[card], samples)];
      timestamp := devices[card].position - samples - devices[card].firstTs;
      if ue != 0 {
        return;
      }
      for ru := 0 to |usedByCell|
        invariant |devices| == |b.devices|
        invariant forall r :: 0 <= r < |b.devices| ==>
          devices[r] == if r == card || (r < ru && Free(b, r)) then ReadDevice(b.devices[r], samples) else b.devices[r]
      {
        var cell := usedByCell[ru];
        if cell >= 0 && cells[cell].usedByUe < 0 {
          devices := devices[ru := ReadDevice(devices[ru], samples)];
        }
      }
    }
  }

  // ---- lockstep ----

  datatype Event = Retune(ul: nat, dl: nat) | ReadEvent(samples: nat)

  ghost predicate IsRun(banks: seq<Bank>, events: seq<Event>) {
    && |banks| == |events| + 1 && Owned(banks[0]) && |banks[0].cards| == 1
    && (forall r :: 0 <= r < |banks[0].devices| ==> !banks[0].devices[r].initialized)
    && forall i :: 0 <= i < |events| ==>
         && Owned(banks[i]) && |banks[i].cards| == 1
         && match events[i]
            case Retune(ul, dl) => Retuned(banks[i], banks[i + 1], 0, ul, dl)
            case ReadEvent(samples) => ReadDone(banks[i], banks[i + 1], 0, samples)
  }

  /** Samples read by the first i events. */
  function ReadTotal(events: seq<Event>, i: nat): nat
    requires i <= |events|
  {
    if i == 0 then 0
    else ReadTotal(events, i - 1) + (if events[i - 1].ReadEvent? then events[i - 1].samples else 0)
  }

  function AnyRead(events: seq<Event>, i: nat): bool
    requires i <= |events|
  {
    i > 0 && (events[i - 1].ReadEvent? || AnyRead(events, i - 1))
  }

  /** With one UE, whatever the retunes in between: every RU that has a cell has consumed the same
      samples since its first read. */
  lemma {:induction false} Lockstep(banks: seq<Bank>, events: seq<Event>, i: nat)
    requires IsRun(banks, events) && i <= |events|
    ensures Owned(banks[i]) && |banks[i].cards| == 1
    ensures forall r :: 0 <= r < |banks[i].devices| && banks[i].usedByCell[r] >= 0 ==>
              var d := banks[i].devices[r];
              && d.initialized == AnyRead(events, i)
              && (d.initialized ==> d.position - d.firstTs == ReadTotal(events, i))
              && (!d.initialized ==> ReadTotal(events, i) == 0)
    decreases i
  {
    if i > 0 {
      Lockstep(banks, events, i - 1);
      var b, b' := banks[i - 1], banks[i];
      match events[i - 1]
      case Retune(ul, dl) => RetuneKeepsOwnership(b, b', 0, ul, dl);
      case ReadEvent(samples) =>
        forall r | 0 <= r < |b.devices| && b.usedByCell[r] >= 0
          ensures ReadBy(b, 0, r)
        {
          assert b.cells[b.usedByCell[r]].ruId == r;
        }
    }
  }

  /** So the timestamp of every read is the sum of all earlier read sizes, even when the RU changed
      in between: a retune causes no jump in time. */
  lemma {:induction false} NoTimeJump(banks: seq<Bank>, events: seq<Event>, i: nat)
    requires IsRun(banks, events) && i < |events| && events[i].ReadEvent?
    ensures RelativeTs(banks[i].devices[banks[i].cards[0]]) == ReadTotal(events, i)
  {
    Lockstep(banks, events, i);
  }
}
