/** The slot grid of an NR frame: how many samples each slot holds, where each slot
    starts, and which slot a sample falls in (openair1/PHY/INIT/nr_parms.c).

    The source computes slot starts and the slot of a timestamp in closed form, from
    half-subframe arithmetic. The lemmas show that the closed forms equal running sums
    of slot lengths on every slot index, so that `SlotTimestamp(k)` is also the start
    of the k-th slot counted over all frames. */
module SlotGrid {
  import opened Arithmetic

  /** The sample-grid fields of NR_DL_FRAME_PARMS. */
  datatype FrameParms = FrameParms(numerology: nat, slotsPerSubframe: nat, samplesPerSubframe: nat,
                                   samplesPerSlot0: nat, samplesPerSlotN0: nat,
                                   longSymbol: nat, shortSymbol: nat)
  {
    /** One slot per subframe at numerology 0; otherwise two half subframes, each a
        long-prefix slot followed by ordinary slots. */
    predicate Valid() {
      && samplesPerSlot0 > 0 && samplesPerSlotN0 > 0
      && longSymbol <= samplesPerSlot0 && shortSymbol <= samplesPerSlotN0
      && (if numerology == 0 then slotsPerSubframe == 1 && samplesPerSubframe == samplesPerSlot0
          else
            && 2 <= slotsPerSubframe && slotsPerSubframe % 2 == 0
            && samplesPerSubframe == 2 * HalfSamples())
    }

    function SlotsPerFrame(): (n: nat)
      ensures Valid() ==> n >= 10
    {
      10 * slotsPerSubframe
    }

    function SamplesPerFrame(): nat { 10 * samplesPerSubframe }

    /** Slots in a half subframe. */
    function Half(): nat { slotsPerSubframe / 2 }

    function HalfSamples(): int { samplesPerSlot0 + (Half() - 1) * samplesPerSlotN0 }

    /** get_samples_per_slot. The only negative index the source passes is -1, and C's
        remainder of -1 is nonzero exactly when the Euclidean one is. */
    function SamplesPerSlot(slot: int): nat
      requires Valid()
    {
      if numerology == 0 then samplesPerSubframe
      else if slot % Half() != 0 then samplesPerSlotN0 else samplesPerSlot0
    }

    /** get_samples_symbol_duration(fp, slot, 0, 1): the first symbol of a slot. */
    function FirstSymSamp(slot: nat): nat
      requires Valid()
    {
      if numerology == 0 || slot % Half() == 0 then longSymbol else shortSymbol
    }

    /** get_samples_slot_timestamp. */
    function SlotTimestamp(slot: nat): int
      requires Valid()
    {
      if numerology == 0 then slot * samplesPerSubframe
      else
        var rem := slot % Half();
        slot / Half() * samplesPerSubframe / 2
        + (if rem > 0 then samplesPerSlot0 + (rem - 1) * samplesPerSlotN0 else 0)
    }

    /** get_samples_slot_duration. */
    function SlotDuration(start: nat, count: nat): int
      requires Valid()
    {
      SlotTimestamp(start + count) - SlotTimestamp(start)
    }

    /** get_slot_from_timestamp, for the timestamps a device hands out (not negative). */
    function SlotFromTimestamp(timestamp: nat): int
      requires Valid()
    {
      HalfPositive(this);
      SlotAtOffset(timestamp % SamplesPerFrame())
    }

    /** The slot of a sample offset within the frame. */
    function SlotAtOffset(offset: int): int
      requires Valid()
    {
      HalfPositive(this);
      if offset < samplesPerSlot0 then 0
      else if numerology == 0 then offset / samplesPerSubframe
      else SlotByHalves(offset, samplesPerSubframe / 2, Half(), samplesPerSlot0, samplesPerSlotN0)
    }
  }

  /** The half-subframe branch of get_slot_from_timestamp: count whole half subframes,
      then the first slot, then the ordinary slots begun. */
  function SlotByHalves(offset: int, halfSamples: int, half: int, slot0: int, slotN0: int): int
    requires halfSamples > 0 && slotN0 > 0
  {
    var halves := offset / halfSamples;
    var index0 := halves * halfSamples - 1;
    var count1 := halves * half + (if index0 < offset then 1 else 0);
    var index1 := index0 + (if index0 < offset then slot0 else 0);
    var count2 := count1 + (if index1 < offset then CeilDiv(offset - index1, slotN0) else 0);
    count2 - 1
  }

  /** The reference: a slot starts after all the slots before it. */
  function Start(fp: FrameParms, slot: nat): int
    requires fp.Valid()
  {
    if slot == 0 then 0 else Start(fp, slot - 1) + fp.SamplesPerSlot(slot - 1)
  }

  function CeilDiv(a: int, b: int): int
    requires b > 0
  {
    (a + b - 1) / b
  }

  lemma {:induction false} HalfPositive(fp: FrameParms)
    requires fp.Valid()
    ensures fp.samplesPerSubframe > 0
    ensures fp.numerology != 0 ==> fp.HalfSamples() > 0 && fp.samplesPerSubframe / 2 == fp.HalfSamples()
  {
    if fp.numerology != 0 {
      assert (fp.Half() - 1) * fp.samplesPerSlotN0 >= 0;
    }
  }

  /** nr_init_frame_parms establishes the grid from the symbol sizes. */
  function InitFrameParms(mu: nat, slotsPerSubframe: nat, symbols: nat, ofdm: nat, prefix0: nat, prefix: nat)
    : (fp: FrameParms)
    requires 2 <= symbols && 1 <= ofdm
    requires if mu == 0 then slotsPerSubframe == 1 else 2 <= slotsPerSubframe && slotsPerSubframe % 2 == 0
    ensures fp.Valid()
  {
    var perSubframe := symbols * slotsPerSubframe - 2;
    var subframe := (prefix0 + ofdm) * 2 + (prefix + ofdm) * perSubframe;
    var slot0 := if mu == 0 then subframe else prefix0 + (symbols - 1) * prefix + symbols * ofdm;
    var slotN0 := (prefix + ofdm) * symbols;
    InitSums(mu, slotsPerSubframe, symbols, ofdm, prefix0, prefix);
    FrameParms(mu, slotsPerSubframe, subframe, slot0, slotN0, prefix0 + ofdm, prefix + ofdm)
  }

  /** Every slot is its first symbol followed by ordinary ones, save that a slot of numerology 0 has a second long
      symbol; the first symbol has the long prefix exactly in the slots that begin half a subframe. */
  lemma {:induction false} SlotIsSymbols(mu: nat, slotsPerSubframe: nat, symbols: nat, ofdm: nat, prefix0: nat, prefix: nat, slot: nat)
    requires 2 <= symbols && 1 <= ofdm
    requires if mu == 0 then slotsPerSubframe == 1 else 2 <= slotsPerSubframe && slotsPerSubframe % 2 == 0
    ensures var fp := InitFrameParms(mu, slotsPerSubframe, symbols, ofdm, prefix0, prefix);
            && fp.SlotsPerFrame() == 10 * slotsPerSubframe
            && fp.FirstSymSamp(slot) == ofdm + (if mu == 0 || slot % (slotsPerSubframe / 2) == 0 then prefix0 else prefix)
            && fp.SamplesPerSlot(slot)
               == if mu == 0 then 2 * (prefix0 + ofdm) + (symbols - 2) * (prefix + ofdm)
                  else fp.FirstSymSamp(slot) + (symbols - 1) * (prefix + ofdm)
  {
    var fp := InitFrameParms(mu, slotsPerSubframe, symbols, ofdm, prefix0, prefix);
    SymbolSums(symbols, ofdm, prefix);
    assert fp.Valid();
    hide FrameParms.Valid;
  }

  lemma {:induction false} SymbolSums(symbols: nat, ofdm: nat, prefix: nat)
    requires 2 <= symbols
    ensures (symbols - 1) * prefix + symbols * ofdm == ofdm + (symbols - 1) * (prefix + ofdm)
    ensures (prefix + ofdm) * symbols == prefix + ofdm + (symbols - 1) * (prefix + ofdm)
    ensures (prefix + ofdm) * (symbols * 1 - 2) == (symbols - 2) * (prefix + ofdm)
  {}

  lemma {:induction false} InitSums(mu: nat, slotsPerSubframe: nat, symbols: nat, ofdm: nat, prefix0: nat, prefix: nat)
    requires 2 <= symbols && 1 <= ofdm
    requires if mu == 0 then slotsPerSubframe == 1 else 2 <= slotsPerSubframe && slotsPerSubframe % 2 == 0
    ensures symbols * slotsPerSubframe >= 2
    ensures (prefix + ofdm) * (symbols * slotsPerSubframe - 2) >= 0
    ensures (symbols - 1) * prefix >= 0 && symbols * ofdm >= ofdm && (prefix + ofdm) * symbols >= prefix + ofdm
    ensures mu != 0 ==>
      (prefix0 + ofdm) * 2 + (prefix + ofdm) * (symbols * slotsPerSubframe - 2)
      == 2 * (prefix0 + (symbols - 1) * prefix + symbols * ofdm
              + (slotsPerSubframe / 2 - 1) * ((prefix + ofdm) * symbols))
  {
    var q := prefix + ofdm;
    MulAtLeast(slotsPerSubframe, symbols);
    MulNonNegative(q, symbols * slotsPerSubframe - 2);
    MulNonNegative(symbols - 1, prefix);
    MulAtLeast(symbols, ofdm);
    MulAtLeast(symbols, q);
    if mu != 0 {
      InitHalf(slotsPerSubframe / 2, symbols, q);
      LongSlot(symbols, prefix, ofdm);
    }
  }

  lemma {:induction false} LongSlot(s: int, prefix: int, ofdm: int)
    ensures (s - 1) * prefix + s * ofdm == (s - 1) * (prefix + ofdm) + ofdm
  {
    assert (s - 1) * (prefix + ofdm) == (s - 1) * prefix + (s - 1) * ofdm;
    Distribute(s, 1, ofdm);
  }

  lemma {:induction false} InitHalf(h: int, s: int, q: int)
    ensures q * (s * (2 * h) - 2) == 2 * ((s - 1) * q + (h - 1) * (q * s))
  {
    assert s * (2 * h) == 2 * (s * h);
    assert (h - 1) * (q * s) == q * (s * h) - q * s;
    assert q * (2 * (s * h) - 2) == 2 * (q * (s * h)) - 2 * q;
    assert (s - 1) * q == q * s - q;
  }

  lemma {:induction false} Halves(q: int, h: int)
    ensures q * (2 * h) / 2 == q * h
  {
    assert q * (2 * h) == 2 * (q * h);
  }

  /** In half subframe q, slot r starts after the r earlier slots of that half subframe. */
  lemma {:induction false} SlotInHalf(fp: FrameParms, slot: nat, q: int, r: int)
    requires fp.Valid() && fp.numerology != 0 && 0 <= r < fp.Half() && slot == q * fp.Half() + r
    ensures fp.SlotTimestamp(slot)
            == q * fp.HalfSamples() + (if r > 0 then fp.samplesPerSlot0 + (r - 1) * fp.samplesPerSlotN0 else 0)
    ensures fp.SamplesPerSlot(slot) == if r > 0 then fp.samplesPerSlotN0 else fp.samplesPerSlot0
    ensures fp.FirstSymSamp(slot) == if r > 0 then fp.shortSymbol else fp.longSymbol
  {
    DivUnique(slot, fp.Half(), q, r);
    Halves(q, fp.HalfSamples());
  }

  /** Each slot starts where the one before it ends: the closed form is the running sum. */
  lemma {:induction false} SlotTimestampStep(fp: FrameParms, slot: nat)
    requires fp.Valid()
    ensures fp.SlotTimestamp(0) == 0
    ensures fp.SlotTimestamp(slot + 1) == fp.SlotTimestamp(slot) + fp.SamplesPerSlot(slot)
    ensures fp.SamplesPerSlot(slot) > 0
  {
    if fp.numerology == 0 {
      Distribute(slot, 1, fp.samplesPerSubframe);
    } else {
      var h, N := fp.Half(), fp.samplesPerSlotN0;
      var q, r := slot / h, slot % h;
      DivRecompose(slot, h);
      SlotInHalf(fp, 0, 0, 0);
      SlotInHalf(fp, slot, q, r);
      if r + 1 < h {
        SlotInHalf(fp, slot + 1, q, r + 1);
        Distribute(r, 1, N);
      } else {
        Distribute(q, 1, h);
        SlotInHalf(fp, slot + 1, q + 1, 0);
        Distribute(q, 1, fp.HalfSamples());
        Distribute(h - 1, 1, N);
      }
    }
  }

  /** The closed form of get_samples_slot_timestamp is the running sum, on every slot index. */
  lemma {:induction false} SlotTimestampIsStart(fp: FrameParms, slot: nat)
    requires fp.Valid()
    ensures fp.SlotTimestamp(slot) == Start(fp, slot)
  {
    SlotTimestampStep(fp, if slot == 0 then 0 else slot - 1);
    if slot > 0 {
      SlotTimestampIsStart(fp, slot - 1);
    }
  }

  lemma {:induction false} SlotLengthPositive(fp: FrameParms, slot: nat)
    requires fp.Valid()
    ensures fp.SamplesPerSlot(slot) > 0
  {}

  /** The grid repeats every frame. */
  lemma {:induction false} GridPeriod(fp: FrameParms, slot: nat)
    requires fp.Valid()
    ensures fp.SamplesPerSlot(slot + fp.SlotsPerFrame()) == fp.SamplesPerSlot(slot)
    ensures fp.FirstSymSamp(slot + fp.SlotsPerFrame()) == fp.FirstSymSamp(slot)
  {
    if fp.numerology != 0 {
      var h := fp.Half();
      DivRecompose(slot, h);
      Distribute(slot / h, 20, h);
      DivUnique(slot + fp.SlotsPerFrame(), h, slot / h + 20, slot % h);
    }
  }

  lemma {:induction false} FrameSamples(fp: FrameParms)
    requires fp.Valid()
    ensures Start(fp, fp.SlotsPerFrame()) == fp.SamplesPerFrame() > 0
  {
    HalfPositive(fp);
    SlotTimestampIsStart(fp, fp.SlotsPerFrame());
    if fp.numerology != 0 {
      SlotInHalf(fp, fp.SlotsPerFrame(), 20, 0);
    }
  }

  lemma {:induction false} StartPeriod(fp: FrameParms, slot: nat)
    requires fp.Valid()
    ensures Start(fp, slot + fp.SlotsPerFrame()) == Start(fp, slot) + fp.SamplesPerFrame()
  {
    if slot == 0 {
      FrameSamples(fp);
    } else {
      StartPeriod(fp, slot - 1);
      GridPeriod(fp, slot - 1);
    }
  }

  /** The slot of absolute index m * slotsPerFrame + r lies in frame m. */
  lemma {:induction false} StartInFrame(fp: FrameParms, abs: nat, m: nat, r: nat)
    requires fp.Valid() && abs == m * fp.SlotsPerFrame() + r
    ensures Start(fp, abs) == m * fp.SamplesPerFrame() + Start(fp, r)
    ensures fp.SamplesPerSlot(abs) == fp.SamplesPerSlot(r)
    ensures fp.FirstSymSamp(abs) == fp.FirstSymSamp(r)
    decreases m
  {
    if m > 0 {
      var n := fp.SlotsPerFrame();
      Distribute(m, 1, n);
      MulAtLeast(m, n);
      StartInFrame(fp, abs - n, m - 1, r);
      StartPeriod(fp, abs - n);
      GridPeriod(fp, abs - n);
      Distribute(m, 1, fp.SamplesPerFrame());
    }
  }

  /** Slot starts increase strictly. */
  lemma {:induction false} StartMonotone(fp: FrameParms, a: nat, b: nat)
    requires fp.Valid() && a <= b
    ensures 0 <= Start(fp, a) <= Start(fp, b)
    ensures a < b ==> Start(fp, a) < Start(fp, b)
    decreases b
  {
    if b > 0 {
      SlotLengthPositive(fp, b - 1);
      StartMonotone(fp, if a < b then a else b - 1, b - 1);
    }
  }

  /** get_slot_from_timestamp names the slot of the frame that holds the sample. */
  lemma {:induction false} SlotFromTimestampContains(fp: FrameParms, ts: nat)
    requires fp.Valid()
    ensures fp.SamplesPerFrame() > 0
    ensures 0 <= fp.SlotFromTimestamp(ts) < fp.SlotsPerFrame()
    ensures Start(fp, fp.SlotFromTimestamp(ts)) <= ts % fp.SamplesPerFrame() < Start(fp, fp.SlotFromTimestamp(ts) + 1)
  {
    HalfPositive(fp);
    SlotAtOffsetContains(fp, ts % fp.SamplesPerFrame());
  }

  lemma {:induction false} SlotAtOffsetContains(fp: FrameParms, x: nat)
    requires fp.Valid() && x < fp.SamplesPerFrame()
    ensures 0 <= fp.SlotAtOffset(x) < fp.SlotsPerFrame()
    ensures Start(fp, fp.SlotAtOffset(x)) <= x < Start(fp, fp.SlotAtOffset(x) + 1)
  {
    HalfPositive(fp);
    if x < fp.samplesPerSlot0 {
      SlotLengthPositive(fp, 0);
    } else if fp.numerology == 0 {
      var k := x / fp.samplesPerSubframe;
      DivRecompose(x, fp.samplesPerSubframe);
      QuotientBelow(k, 10, fp.samplesPerSubframe);
      SlotTimestampIsStart(fp, k);
    } else {
      var q, c := ByHalves(x, fp.HalfSamples(), fp.Half(), fp.samplesPerSlot0, fp.samplesPerSlotN0);
      InHalfSubframe(fp, x, q * fp.Half() + c, q, c);
    }
  }

  lemma {:induction false} InHalfSubframe(fp: FrameParms, x: nat, k: int, q: int, c: int)
    requires fp.Valid() && fp.numerology != 0 && x < fp.SamplesPerFrame() && fp.HalfSamples() > 0
    requires q >= 0 && 0 <= c < fp.Half() && q * fp.HalfSamples() <= x && k == q * fp.Half() + c
    requires c == 0 ==> x < q * fp.HalfSamples() + fp.samplesPerSlot0
    requires c > 0 ==>
               var start := q * fp.HalfSamples() + fp.samplesPerSlot0 + (c - 1) * fp.samplesPerSlotN0;
               start <= x < start + fp.samplesPerSlotN0
    ensures 0 <= k < fp.SlotsPerFrame()
    ensures Start(fp, k) <= x < Start(fp, k + 1)
  {
    HalfBound(q, fp.Half(), fp.HalfSamples(), x);
    SlotInHalf(fp, k, q, c);
    SlotTimestampIsStart(fp, k);
  }

  lemma {:induction false} HalfBound(q: int, half: int, halfSamples: int, x: int)
    requires q >= 0 && half >= 0 && halfSamples > 0 && q * halfSamples <= x < 20 * halfSamples
    ensures 0 <= q * half <= 19 * half
  {
    QuotientBelow(q, 20, halfSamples);
    Distribute(19, q, half);
  }

  lemma {:induction false} QuotientBelow(a: int, b: int, d: int)
    requires d > 0 && a * d < b * d
    ensures a < b
  {
    if a >= b {
      Distribute(a, b, d);
    }
  }

  /** The slot found by counting halves is slot c of half subframe q, and holds the sample. */
  lemma {:induction false} ByHalves(x: nat, H: int, h: int, slot0: int, N: int) returns (q: int, c: int)
    requires slot0 > 0 && N > 0 && h >= 1 && H == slot0 + (h - 1) * N && H > 0
    ensures q >= 0 && 0 <= c < h && q * H <= x && SlotByHalves(x, H, h, slot0, N) == q * h + c
    ensures c == 0 ==> q * H <= x < q * H + slot0
    ensures c > 0 ==> q * H + slot0 + (c - 1) * N <= x < q * H + slot0 + (c - 1) * N + N
  {
    q := x / H;
    var y := x % H;
    DivRecompose(x, H);
    if y < slot0 {
      c := 0;
    } else {
      var z := y - slot0;
      c := z / N + 1;
      DivRecompose(z, N);
      Distribute(c, 1, N);
      DivUnique(z + N, N, c, z % N);
      QuotientBelow(c - 1, h - 1, N);
    }
  }

  /** A slot start is recognised: its frame and slot come back from the timestamp. */
  lemma {:induction false} SlotStartRecognised(fp: FrameParms, abs: nat)
    requires fp.Valid()
    ensures fp.SamplesPerFrame() > 0 && Start(fp, abs) >= 0
    ensures Start(fp, abs) / fp.SamplesPerFrame() == abs / fp.SlotsPerFrame()
    ensures fp.SlotFromTimestamp(Start(fp, abs)) == abs % fp.SlotsPerFrame()
  {
    var r := abs % fp.SlotsPerFrame();
    SlotStartInFrame(fp, abs);
    SlotFromTimestampContains(fp, Start(fp, abs));
    SlotLengthPositive(fp, r);
    SameSlot(fp, fp.SlotFromTimestamp(Start(fp, abs)), r, Start(fp, r));
  }

  lemma {:induction false} SlotStartInFrame(fp: FrameParms, abs: nat)
    requires fp.Valid()
    ensures fp.SamplesPerFrame() > 0 && Start(fp, abs) >= 0
    ensures Start(fp, abs) / fp.SamplesPerFrame() == abs / fp.SlotsPerFrame()
    ensures Start(fp, abs) % fp.SamplesPerFrame() == Start(fp, abs % fp.SlotsPerFrame())
  {
    DivRecompose(abs, fp.SlotsPerFrame());
    SlotStartAt(fp, abs, abs / fp.SlotsPerFrame(), abs % fp.SlotsPerFrame());
  }

  lemma {:induction false} SlotStartAt(fp: FrameParms, abs: nat, m: nat, r: nat)
    requires fp.Valid() && abs == m * fp.SlotsPerFrame() + r && r < fp.SlotsPerFrame()
    ensures fp.SamplesPerFrame() > 0 && Start(fp, abs) >= 0
    ensures Start(fp, abs) / fp.SamplesPerFrame() == m
    ensures Start(fp, abs) % fp.SamplesPerFrame() == Start(fp, r)
  {
    StartInFrame(fp, abs, m, r);
    FrameSamples(fp);
    StartMonotone(fp, r, fp.SlotsPerFrame());
    StartMonotone(fp, 0, abs);
    DivUnique(Start(fp, abs), fp.SamplesPerFrame(), m, Start(fp, r));
  }

  /** No sample lies in two slots. */
  lemma {:induction false} SameSlot(fp: FrameParms, a: nat, b: nat, x: int)
    requires fp.Valid()
    requires Start(fp, a) <= x < Start(fp, a + 1)
    requires Start(fp, b) <= x < Start(fp, b + 1)
    ensures a == b
  {
    if a < b {
      StartMonotone(fp, a + 1, b);
    } else if b < a {
      StartMonotone(fp, b + 1, a);
    }
  }
}
