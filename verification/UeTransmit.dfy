/** The UE's transmit path from the main loop to the radio: the blocks RU_write sends, slot by slot, submitted
    to the reorder queue by the uplink actors, which take the slots in turn. */
module UeTransmit {
  import opened SlotGrid
  import opened UeStream
  import opened WriteReorder
  import opened WriteOrder

  /** Blocks as writes to be submitted. */
  function Submitted(blocks: seq<Block>): seq<Write>
    requires forall k :: 0 <= k < |blocks| ==> blocks[k].size >= 0
  {
    seq(|blocks|, k requires 0 <= k < |blocks| => Write(blocks[k].start, blocks[k].size, k))
  }

  lemma {:induction false} Follow(blocks: seq<Block>, from: int, to: int, k: nat)
    requires Contiguous(blocks, from, to) && k < |blocks|
    ensures blocks[k].size >= 0
    ensures k + 1 < |blocks| ==> blocks[k + 1].start == blocks[k].start + blocks[k].size
    decreases k
  {
    if k == 0 {
      if |blocks| > 1 {
        assert blocks[1..][0] == blocks[1];
      }
    } else {
      Follow(blocks[1..], from + blocks[0].size, to, k - 1);
    }
  }

  /** A stretch of blocks end to end makes a stream. */
  lemma {:induction false} ContiguousIsStream(blocks: seq<Block>, from: int, to: int)
    requires Contiguous(blocks, from, to)
    ensures (forall k :: 0 <= k < |blocks| ==> blocks[k].size >= 0) && Stream(Submitted(blocks))
  {
    forall k | 0 <= k < |blocks|
      ensures blocks[k].size >= 0 && (k + 1 < |blocks| ==> blocks[k + 1].start == blocks[k].start + blocks[k].size)
    {
      Follow(blocks, from, to, k);
    }
    var stream := Submitted(blocks);
    forall k | 0 < k < |stream|
      ensures stream[k].timestamp == stream[k - 1].timestamp + stream[k - 1].size
    {
      assert blocks[k - 1 + 1].start == blocks[k - 1].start + blocks[k - 1].size;
    }
  }

  // ---- blocks grouped by slot ----

  function Flat(groups: seq<seq<Block>>): seq<Block> {
    if groups == [] then [] else groups[0] + Flat(groups[1..])
  }

  /** The slot each block belongs to, the first slot being `base`. */
  function SlotNumbers(groups: seq<seq<Block>>, base: nat): seq<nat> {
    if groups == [] then [] else seq(|groups[0]|, _ => base) + SlotNumbers(groups[1..], base + 1)
  }

  lemma {:induction false} NumbersShape(groups: seq<seq<Block>>, base: nat)
    ensures var slots := SlotNumbers(groups, base);
            && |slots| == |Flat(groups)|
            && (forall k :: 0 <= k < |slots| ==> slots[k] >= base)
            && (forall j, k :: 0 <= j < k < |slots| ==> slots[j] <= slots[k])
    decreases |groups|
  {
    if groups != [] {
      NumbersShape(groups[1..], base + 1);
    }
  }

  /** Block p of all is b, of slot k. */
  ghost predicate Here(groups: seq<seq<Block>>, base: nat, p: nat, b: Block, k: nat) {
    p < |Flat(groups)| == |SlotNumbers(groups, base)| && Flat(groups)[p] == b && SlotNumbers(groups, base)[p] == k
  }

  lemma {:induction false} HereFirst(groups: seq<seq<Block>>, base: nat, i: nat)
    requires groups != [] && i < |groups[0]|
    ensures Here(groups, base, i, groups[0][i], base)
  {
    NumbersShape(groups, base);
  }

  /** Putting a slot in front moves everything back by its blocks. */
  lemma {:induction false} HereShift(groups: seq<seq<Block>>, base: nat, p: nat, b: Block, k: nat)
    requires groups != []
    ensures Here(groups, base, |groups[0]| + p, b, k) <==> Here(groups[1..], base + 1, p, b, k)
    ensures |Flat(groups)| == |groups[0]| + |Flat(groups[1..])|
  {
    NumbersShape(groups, base);
    NumbersShape(groups[1..], base + 1);
  }

  /** No slot from k on writes. */
  ghost predicate EmptyFrom(groups: seq<seq<Block>>, k: nat) { forall j :: k <= j < |groups| ==> groups[j] == [] }

  lemma {:induction false} EmptyShift(groups: seq<seq<Block>>, k: nat)
    requires groups != []
    ensures EmptyFrom(groups, k + 1) <==> EmptyFrom(groups[1..], k)
  {
    assert forall j :: 0 < j < |groups| ==> groups[j] == groups[1..][j - 1];
    assert forall j :: 0 <= j < |groups| - 1 ==> groups[1..][j] == groups[j + 1];
  }

  lemma {:induction false} FlatEmpty(groups: seq<seq<Block>>)
    ensures Flat(groups) == [] <==> EmptyFrom(groups, 0)
    decreases |groups|
  {
    if groups != [] {
      FlatEmpty(groups[1..]);
      EmptyShift(groups, 0);
    }
  }

  /** The place of block i of the first slot. */
  lemma {:induction false} FirstPlace(groups: seq<seq<Block>>, base: nat, i: nat)
    requires groups != [] && i < |groups[0]|
    ensures Here(groups, base, i, groups[0][i], base)
    ensures i + 1 == |Flat(groups)| <==> i + 1 == |groups[0]| && EmptyFrom(groups, 1)
  {
    HereFirst(groups, base, i);
    FlatEmpty(groups[1..]);
    EmptyShift(groups, 0);
    hide EmptyFrom;
  }

  /** Block i of slot k has a place; it is not the last unless it is the slot's last and no later slot has any. */
  lemma {:induction false} PlaceOf(groups: seq<seq<Block>>, base: nat, k: nat, i: nat) returns (p: nat)
    requires k < |groups| && i < |groups[k]|
    ensures Here(groups, base, p, groups[k][i], base + k)
    ensures p + 1 == |Flat(groups)| <==> i + 1 == |groups[k]| && EmptyFrom(groups, k + 1)
    decreases k
  {
    hide *;
    if k == 0 {
      p := i;
      FirstPlace(groups, base, i);
    } else {
      var p' := PlaceOf(groups[1..], base + 1, k - 1, i);
      HereShift(groups, base, p', groups[k][i], base + k);
      EmptyShift(groups, k);
      p := |groups[0]| + p';
    }
  }

  /** Every place holds a block of a slot. */
  lemma {:induction false} GroupOf(groups: seq<seq<Block>>, base: nat, p: nat) returns (k: nat, i: nat)
    requires p < |Flat(groups)|
    ensures k < |groups| && i < |groups[k]| && Here(groups, base, p, groups[k][i], base + k)
    ensures p + 1 == |Flat(groups)| <==> i + 1 == |groups[k]| && EmptyFrom(groups, k + 1)
    decreases |groups|
  {
    assert groups != [];
    hide *;
    if p < |groups[0]| {
      k, i := 0, p;
      FirstPlace(groups, base, p);
    } else {
      var p' := p - |groups[0]|;
      HereShift(groups, base, p', Block(0, 0), 0);
      var k';
      k', i := GroupOf(groups[1..], base + 1, p');
      k := k' + 1;
      HereShift(groups, base, p', groups[k][i], base + k);
      EmptyShift(groups, k);
    }
  }

  // ---- when grouped writes leave in order ----

  /** No block of slot k is short, except perhaps the very last of all. */
  ghost predicate GroupLong(groups: seq<seq<Block>>, k: nat)
    requires k < |groups|
  {
    forall i :: 0 <= i < |groups[k]| ==>
      groups[k][i].size >= MAX_GAP || (i + 1 == |groups[k]| && EmptyFrom(groups, k + 1))
  }

  /** No slot within reach of the actors writes together with slot k. */
  ghost predicate GroupAlone(groups: seq<seq<Block>>, actors: nat, k: nat)
    requires k < |groups|
  {
    forall j :: 0 <= j < |groups| && j != k && groups[j] != [] ==> j + actors <= k || k + actors <= j
  }

  function PlanOf(groups: seq<seq<Block>>, actors: nat): Plan
    requires forall k :: 0 <= k < |Flat(groups)| ==> Flat(groups)[k].size >= 0
  {
    Plan(Submitted(Flat(groups)), SlotNumbers(groups, 0), actors)
  }

  ghost predicate ValidGroups(groups: seq<seq<Block>>, actors: nat) {
    && Flat(groups) != [] && actors > 0
    && (forall k :: 0 <= k < |Flat(groups)| ==> Flat(groups)[k].size >= 0) && ValidPlan(PlanOf(groups, actors))
  }

  /** A block is isolated exactly when its slot writes alone. */
  lemma {:induction false} IsolatedAlone(groups: seq<seq<Block>>, actors: nat, p: nat, b: Block, k: nat)
    requires ValidGroups(groups, actors) && k < |groups| && Here(groups, 0, p, b, k)
    ensures Isolated(PlanOf(groups, actors), p) <==> GroupAlone(groups, actors, k)
  {
    var plan := PlanOf(groups, actors);
    if GroupAlone(groups, actors, k) {
      forall q | 0 <= q < |plan.slots|
        ensures plan.slots[q] == k || plan.slots[q] + actors <= k || k + actors <= plan.slots[q]
      {
        var j, i := GroupOf(groups, 0, q);
        assert Here(groups, 0, q, groups[j][i], 0 + j);
      }
    } else {
      var j :| 0 <= j < |groups| && j != k && groups[j] != [] && j + actors > k && k + actors > j;
      var q := PlaceOf(groups, 0, j, 0);
      assert plan.slots[q] == j && plan.slots[p] == k;
      assert if q < p then !plan.Before(q, p) else !plan.Before(p, q);
    }
  }

  /** In every interleaving that begins with the first block, the blocks leave in order if and only if every
      slot's blocks are long, or the slot writes alone. */
  lemma {:induction false} GroupsExact(groups: seq<seq<Block>>, actors: nat)
    requires ValidGroups(groups, actors)
    ensures AlwaysInOrder(PlanOf(groups, actors))
            <==> forall k :: 0 <= k < |groups| ==> GroupLong(groups, k) || GroupAlone(groups, actors, k)
  {
    OrderExact(PlanOf(groups, actors));
    hide AlwaysInOrder;
    if forall k :: 0 <= k < |groups| ==> GroupLong(groups, k) || GroupAlone(groups, actors, k) {
      forall p | 0 <= p < |Flat(groups)| && Short(PlanOf(groups, actors), p)
        ensures Isolated(PlanOf(groups, actors), p)
      {
        var k, i := GroupOf(groups, 0, p);
        IsolatedAlone(groups, actors, p, groups[k][i], k);
      }
    } else {
      var k :| 0 <= k < |groups| && !GroupLong(groups, k) && !GroupAlone(groups, actors, k);
      var i :| 0 <= i < |groups[k]| && groups[k][i].size < MAX_GAP
               && !(i + 1 == |groups[k]| && EmptyFrom(groups, k + 1));
      var p := PlaceOf(groups, 0, k, i);
      IsolatedAlone(groups, actors, p, groups[k][i], k);
      assert Short(PlanOf(groups, actors), p);
    }
  }

  /** The same whichever call begins first: then the first slot that writes has to write alone. */
  lemma {:induction false} GroupsFirst(groups: seq<seq<Block>>, actors: nat, f: nat)
    requires ValidGroups(groups, actors) && f < |groups| && groups[f] != [] && forall j :: 0 <= j < f ==> groups[j] == []
    ensures InOrderWhoeverBegins(PlanOf(groups, actors))
            <==> AlwaysInOrder(PlanOf(groups, actors)) && GroupAlone(groups, actors, f)
  {
    FirstCallMatters(PlanOf(groups, actors));
    OrderExact(PlanOf(groups, actors));
    var k, i := GroupOf(groups, 0, 0);
    var q := PlaceOf(groups, 0, f, 0);
    assert SlotNumbers(groups, 0)[0] == k && SlotNumbers(groups, 0)[q] == f;
    assert k == f;
    IsolatedAlone(groups, actors, 0, groups[k][i], f);
    hide InOrderWhoeverBegins;
    hide AlwaysInOrder;
  }

  // ---- the slots of a run of the UE ----

  /** The blocks RU_write sends for each slot of the run. */
  function Groups(fp: FrameParms, d: nat, ue: Ue, rs: seq<Request>): (groups: seq<seq<Block>>)
    requires fp.Valid()
    ensures |groups| == |rs|
    decreases |rs|
  {
    if rs == [] then []
    else [SlotBlocks(fp, d, ue, rs[0])] + Groups(fp, d, Iterate(fp, d, ue, rs[0]).0, rs[1..])
  }

  lemma {:induction false} GroupsAreBlocks(fp: FrameParms, d: nat, ue: Ue, rs: seq<Request>)
    requires fp.Valid()
    ensures Flat(Groups(fp, d, ue, rs)) == Blocks(fp, d, ue, rs)
    decreases |rs|
  {
    if rs != [] {
      GroupsAreBlocks(fp, d, Iterate(fp, d, ue, rs[0]).0, rs[1..]);
      hide Iterate;
      hide SlotBlocks;
    }
  }

  /** The loop's state before slot k of the run. */
  function Before(fp: FrameParms, d: nat, ue: Ue, rs: seq<Request>, k: nat): Ue
    requires fp.Valid() && k <= |rs|
  {
    Final(fp, d, ue, rs[..k])
  }

  /** The samples written for slot k, and the length of the transmit slot they are cut by. */
  function WriteSize(fp: FrameParms, d: nat, ue: Ue, rs: seq<Request>, k: nat): nat
    requires fp.Valid() && k < |rs|
  {
    Iterate(fp, d, Before(fp, d, ue, rs, k), rs[k]).1.size
  }

  function MaxSize(fp: FrameParms, d: nat, ue: Ue, rs: seq<Request>, k: nat): (max: nat)
    requires fp.Valid() && k < |rs|
    ensures max > 0
  {
    SlotMax(fp, d, Before(fp, d, ue, rs, k).slot)
  }

  lemma {:induction false} GroupAt(fp: FrameParms, d: nat, ue: Ue, rs: seq<Request>, k: nat)
    requires fp.Valid() && k < |rs|
    ensures Groups(fp, d, ue, rs)[k] == SlotBlocks(fp, d, Before(fp, d, ue, rs, k), rs[k])
    decreases k
  {
    if k == 0 {
      assert rs[..0] == [];
    } else {
      GroupAt(fp, d, Iterate(fp, d, ue, rs[0]).0, rs[1..], k - 1);
      assert rs[..k][1..] == rs[1..][..k - 1];
      hide Iterate;
      hide SlotBlocks;
    }
  }

  /** Slot k's blocks, in terms of the write. */
  lemma {:induction false} GroupIs(fp: FrameParms, d: nat, ue: Ue, rs: seq<Request>, k: nat) returns (start: int)
    requires fp.Valid() && k < |rs|
    ensures Groups(fp, d, ue, rs)[k] == RuBlocks(start, WriteSize(fp, d, ue, rs, k), MaxSize(fp, d, ue, rs, k))
    ensures Groups(fp, d, ue, rs)[k] == [] <==> WriteSize(fp, d, ue, rs, k) == 0
  {
    GroupAt(fp, d, ue, rs, k);
    start := Iterate(fp, d, Before(fp, d, ue, rs, k), rs[k]).1.start;
    RuBlocksTile(start, WriteSize(fp, d, ue, rs, k), MaxSize(fp, d, ue, rs, k));
    hide Iterate;
    hide Groups;
  }

  /** The write of slot k is cut into blocks of at least MAX_GAP samples, or is the last of the run and not cut. */
  ghost predicate SlotLong(fp: FrameParms, d: nat, ue: Ue, rs: seq<Request>, k: nat)
    requires fp.Valid() && k < |rs|
  {
    || CutsLong(WriteSize(fp, d, ue, rs, k), MaxSize(fp, d, ue, rs, k), MAX_GAP)
    || (WriteSize(fp, d, ue, rs, k) <= MaxSize(fp, d, ue, rs, k) && NoneLater(fp, d, ue, rs, k))
  }

  ghost predicate NoneLater(fp: FrameParms, d: nat, ue: Ue, rs: seq<Request>, k: nat)
    requires fp.Valid() && k < |rs|
  {
    forall j :: k < j < |rs| ==> WriteSize(fp, d, ue, rs, j) == 0
  }

  /** No slot that writes can be under way together with slot k. */
  ghost predicate SlotAlone(fp: FrameParms, d: nat, ue: Ue, rs: seq<Request>, actors: nat, k: nat)
    requires fp.Valid() && k < |rs|
  {
    forall j :: 0 <= j < |rs| && j != k && WriteSize(fp, d, ue, rs, j) > 0 ==> j + actors <= k || k + actors <= j
  }

  lemma {:induction false} EmptySlots(fp: FrameParms, d: nat, ue: Ue, rs: seq<Request>)
    requires fp.Valid()
    ensures forall k :: 0 <= k < |rs| ==> (Groups(fp, d, ue, rs)[k] == [] <==> WriteSize(fp, d, ue, rs, k) == 0)
  {
    forall k | 0 <= k < |rs|
      ensures Groups(fp, d, ue, rs)[k] == [] <==> WriteSize(fp, d, ue, rs, k) == 0
    {
      var start := GroupIs(fp, d, ue, rs, k);
    }
  }

  lemma {:induction false} AloneMeans(fp: FrameParms, d: nat, ue: Ue, rs: seq<Request>, actors: nat, k: nat)
    requires fp.Valid() && k < |rs|
    ensures SlotAlone(fp, d, ue, rs, actors, k) <==> GroupAlone(Groups(fp, d, ue, rs), actors, k)
  {
    EmptySlots(fp, d, ue, rs);
    hide WriteSize;
    hide Groups;
  }

  lemma {:induction false} LongMeans(fp: FrameParms, d: nat, ue: Ue, rs: seq<Request>, k: nat)
    requires fp.Valid() && k < |rs|
    ensures SlotLong(fp, d, ue, rs, k) <==> GroupLong(Groups(fp, d, ue, rs), k)
  {
    var groups: seq<seq<Block>> := Groups(fp, d, ue, rs);
    EmptySlots(fp, d, ue, rs);
    var start := GroupIs(fp, d, ue, rs, k);
    var size, max := WriteSize(fp, d, ue, rs, k), MaxSize(fp, d, ue, rs, k);
    hide WriteSize;
    hide MaxSize;
    hide Groups;
    assert NoneLater(fp, d, ue, rs, k) <==> EmptyFrom(groups, k + 1);
    hide NoneLater;
    hide EmptyFrom;
    BlocksLong(start, size, max, MAX_GAP);
    if !CutsLong(size, max, MAX_GAP) {
      hide CutsLong;
      var i := ShortBlock(start, size, max, MAX_GAP);
      assert groups[k][i].size < MAX_GAP;
      if size <= max {
        assert |groups[k]| == 1 by { WholeBlock(start, size, max); }
      }
    }
  }

  lemma {:induction false} WholeBlock(start: int, size: nat, max: nat)
    requires max > 0 && size <= max
    ensures |RuBlocks(start, size, max)| <= 1
  {}

  lemma {:induction false} GroupsValid(fp: FrameParms, d: nat, ue: Ue, rs: seq<Request>, actors: nat)
    requires fp.Valid() && Blocks(fp, d, ue, rs) != [] && actors > 0
    ensures ValidGroups(Groups(fp, d, ue, rs), actors)
  {
    GroupsAreBlocks(fp, d, ue, rs);
    BlocksTile(fp, d, ue, rs);
    ContiguousIsStream(Blocks(fp, d, ue, rs), WriteTimestamp(fp, d, ue), WriteTimestamp(fp, d, Final(fp, d, ue, rs)));
    NumbersShape(Groups(fp, d, ue, rs), 0);
    hide Groups;
    hide Blocks;
    hide Stream;
  }

  /** In every interleaving of the actors' calls that begins with the run's first block, the run's blocks reach
      the radio in order if and only if every slot's write is long, or the slot writes alone. */
  lemma {:induction false} RadioOrderExact(fp: FrameParms, d: nat, ue: Ue, rs: seq<Request>, actors: nat)
    requires fp.Valid() && Blocks(fp, d, ue, rs) != [] && actors > 0
    ensures ValidGroups(Groups(fp, d, ue, rs), actors)
    ensures AlwaysInOrder(PlanOf(Groups(fp, d, ue, rs), actors))
            <==> forall k :: 0 <= k < |rs| ==> SlotLong(fp, d, ue, rs, k) || SlotAlone(fp, d, ue, rs, actors, k)
  {
    var groups: seq<seq<Block>> := Groups(fp, d, ue, rs);
    GroupsValid(fp, d, ue, rs, actors);
    GroupsExact(groups, actors);
    forall k | 0 <= k < |rs|
      ensures SlotLong(fp, d, ue, rs, k) || SlotAlone(fp, d, ue, rs, actors, k)
              <==> GroupLong(groups, k) || GroupAlone(groups, actors, k)
    {
      LongMeans(fp, d, ue, rs, k);
      AloneMeans(fp, d, ue, rs, actors, k);
    }
    hide *;
    assert |groups| == |rs|;
  }

  /** The code does not make the first slot's job call first. Whichever call begins first, order holds if and only if
      besides this the first slot that writes writes alone. */
  lemma {:induction false} RadioOrderWhoeverBegins(fp: FrameParms, d: nat, ue: Ue, rs: seq<Request>, actors: nat, f: nat)
    requires fp.Valid() && Blocks(fp, d, ue, rs) != [] && actors > 0
    requires f < |rs| && WriteSize(fp, d, ue, rs, f) > 0 && forall j :: 0 <= j < f ==> WriteSize(fp, d, ue, rs, j) == 0
    ensures ValidGroups(Groups(fp, d, ue, rs), actors)
    ensures InOrderWhoeverBegins(PlanOf(Groups(fp, d, ue, rs), actors))
            <==> && SlotAlone(fp, d, ue, rs, actors, f)
                 && forall k :: 0 <= k < |rs| ==> SlotLong(fp, d, ue, rs, k) || SlotAlone(fp, d, ue, rs, actors, k)
  {
    RadioOrderExact(fp, d, ue, rs, actors);
    EmptySlots(fp, d, ue, rs);
    AloneMeans(fp, d, ue, rs, actors, f);
    hide WriteSize;
    hide Groups;
    hide SlotLong;
    hide SlotAlone;
    GroupsFirst(Groups(fp, d, ue, rs), actors, f);
  }

  /** So a slot whose write exceeds the slot by 1 to 99 samples, as after a small decrease of the timing advance or
      a small negative drift shift, is overtaken if a slot within reach writes too. */
  lemma {:induction false} SmallChangeOvertaken(fp: FrameParms, d: nat, ue: Ue, rs: seq<Request>, actors: nat, k: nat, j: nat)
    requires fp.Valid() && k < |rs| && j < |rs| && j != k && j < k + actors && k < j + actors
    requires WriteSize(fp, d, ue, rs, j) > 0 && Blocks(fp, d, ue, rs) != []
    requires var max := MaxSize(fp, d, ue, rs, k); MAX_GAP <= max < WriteSize(fp, d, ue, rs, k) < max + MAX_GAP
    ensures ValidGroups(Groups(fp, d, ue, rs), actors) && !AlwaysInOrder(PlanOf(Groups(fp, d, ue, rs), actors))
  {
    NearSlot(WriteSize(fp, d, ue, rs, k), MaxSize(fp, d, ue, rs, k), MAX_GAP);
    RadioOrderExact(fp, d, ue, rs, actors);
    hide AlwaysInOrder;
    hide ValidGroups;
    hide CutsLong;
    hide WriteSize;
    assert !SlotLong(fp, d, ue, rs, k) && !SlotAlone(fp, d, ue, rs, actors, k);
  }
}
