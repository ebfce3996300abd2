/** The "N out of every X starting at O" packet filter of ds_file.c. */
module FilterAlgorithm {
  import opened FileFormat
  import opened HashChains

  const BY_COUNT: nat := 1 // DS_BY_COUNT, DS_PKT_SEQUENCE_BASED_FILTER_TYPE
  const BY_TIME: nat := 2  // DS_BY_TIME, DS_PKT_TIME_BASED_FILTER_TYPE

  datatype Packet = Packet(mid: MsgId, seqCount: nat, seconds: bv32, subseconds: bv32, bytes: Bytes)

  datatype Parms = Parms(fileIndex: nat, filterType: nat, n: nat, x: nat, o: nat)

  /** Low 11 bits of the seconds above the high 4 bits of the subseconds. */
  function TimeValue(seconds: bv32, subseconds: bv32): bv16 {
    var secs: bv16 := (seconds & 0xFFFF) as bv16 & 0x07FF;
    var subs: bv16 := (subseconds >> 16) as bv16 & 0xF000;
    (secs << 4) | (subs >> 12)
  }

  function FilterValue(p: Packet, filterType: nat): nat {
    if filterType == BY_COUNT then p.seqCount else TimeValue(p.seconds, p.subseconds) as nat
  }

  /** `DS_IsPacketFiltered`; true means the packet is not stored. */
  predicate IsPacketFiltered(p: Packet, f: Parms) {
    if f.x == 0 then true
    else if f.n == 0 then true
    else if f.n > f.x then true
    else if f.o >= f.x then true
    else if f.filterType != BY_TIME && f.filterType != BY_COUNT then true
    else
      var v := FilterValue(p, f.filterType);
      if v < f.o then true
      else (v - f.o) % f.x >= f.n
  }

  /** The parameters for which the algorithm's guards let a packet through to the arithmetic. */
  predicate Usable(f: Parms) {
    1 <= f.n <= f.x && f.o < f.x && (f.filterType == BY_COUNT || f.filterType == BY_TIME)
  }

  /** Whether filter value `v` passes. */
  predicate Passes(f: Parms, v: nat)
    requires Usable(f)
  {
    f.o <= v && (v - f.o) % f.x < f.n
  }

  /** By count a filter compares the packet's sequence count, by time 16 * (seconds mod 2048) + subseconds / 2^28; a
      packet passes if and only if N, X and O are in order and that value is at or above O and among the first N of its
      group of X. Without one of the two types nothing passes. */
  lemma FilteredIff(p: Packet, f: Parms)
    ensures f.filterType == 1 ==>
              (!IsPacketFiltered(p, f) <==>
                 1 <= f.n <= f.x && f.o < f.x && f.o <= p.seqCount && (p.seqCount - f.o) % f.x < f.n)
    ensures f.filterType == 2 ==>
              (!IsPacketFiltered(p, f) <==>
                 && 1 <= f.n <= f.x && f.o < f.x
                 && var v := 16 * ((p.seconds % 2048) as nat) + p.subseconds as nat / 0x1000_0000;
                    f.o <= v && (v - f.o) % f.x < f.n)
    ensures f.filterType != 1 && f.filterType != 2 ==> IsPacketFiltered(p, f)
  {
    TimeValueIs(p.seconds, p.subseconds);
  }

  /** The counting results below are about the values that pass in this sense. */
  lemma PassesIff(p: Packet, f: Parms)
    ensures !IsPacketFiltered(p, f) <==> Usable(f) && Passes(f, FilterValue(p, f.filterType))
  {
  }

  /** How many of the filter values in [lo, hi) pass. */
  function CountPassed(f: Parms, lo: nat, hi: nat): nat
    requires Usable(f) && lo <= hi
    decreases hi - lo
  {
    if lo == hi then 0
    else CountPassed(f, lo, hi - 1) + if Passes(f, hi - 1) then 1 else 0
  }

  function Min(a: nat, b: nat): nat {
    if a < b then a else b
  }

  lemma DivModStep(k: nat, x: nat)
    requires x > 0
    ensures if k % x == x - 1 then (k + 1) / x == k / x + 1 && (k + 1) % x == 0
            else (k + 1) / x == k / x && (k + 1) % x == k % x + 1
  {
    var q, r := k / x, k % x;
    assert k == q * x + r;
    if r == x - 1 {
      assert k + 1 == (q + 1) * x;
      DivModUnique(k + 1, x, q + 1, 0);
    } else {
      DivModUnique(k + 1, x, q, r + 1);
    }
  }

  lemma DivModUnique(k: nat, x: nat, q: nat, r: nat)
    requires r < x && k == q * x + r
    ensures k / x == q && k % x == r
  {
    var q' := k / x;
    assert (q - q') * x == k % x - r;
    if q' < q {
      MulAtLeast(q - q', x);
    } else if q < q' {
      MulAtLeast(q' - q, x);
    }
  }

  lemma MulAtLeast(d: nat, x: nat)
    requires d > 0
    ensures d * x >= x
  {
    assert d * x == (d - 1) * x + x;
  }

  /** What passes among the first `k` values from the offset on: N per whole group, and at most N of the rest. */
  function Share(f: Parms, k: nat): nat
    requires Usable(f)
  {
    f.n * (k / f.x) + Min(f.n, k % f.x)
  }

  lemma ShareStep(f: Parms, k: nat)
    requires Usable(f)
    ensures Share(f, k + 1) == Share(f, k) + if k % f.x < f.n then 1 else 0
  {
    DivModStep(k, f.x);
    assert f.n * (k / f.x + 1) == f.n * (k / f.x) + f.n;
  }

  lemma {:induction false} PassedUpTo(f: Parms, k: nat)
    requires Usable(f)
    ensures CountPassed(f, f.o, f.o + k) == Share(f, k)
  {
    if k == 0 {
      assert 0 / f.x == 0 && 0 % f.x == 0;
    } else {
      PassedUpTo(f, k - 1);
      ShareStep(f, k - 1);
    }
  }

  lemma {:induction false} CountSplits(f: Parms, lo: nat, mid: nat, hi: nat)
    requires Usable(f) && lo <= mid <= hi
    ensures CountPassed(f, lo, hi) == CountPassed(f, lo, mid) + CountPassed(f, mid, hi)
    decreases hi - mid
  {
    if mid < hi {
      CountSplits(f, lo, mid, hi - 1);
    }
  }

  /** Any X consecutive values at or above the offset pass exactly N. */
  lemma WindowPassesN(f: Parms, v: nat)
    requires Usable(f) && f.o <= v
    ensures CountPassed(f, v, v + f.x) == f.n
  {
    CountSplits(f, f.o, v, v + f.x);
    var k := v - f.o;
    PassedUpTo(f, k);
    PassedUpTo(f, k + f.x);
    DivModShift(k, f.x);
    assert f.n * (k / f.x + 1) == f.n * (k / f.x) + f.n;
  }

  lemma DivModShift(k: nat, x: nat)
    requires x > 0
    ensures (k + x) / x == k / x + 1 && (k + x) % x == k % x
  {
    assert k + x == (k / x + 1) * x + k % x;
    DivModUnique(k + x, x, k / x + 1, k % x);
  }

  lemma TimeValueBits(seconds: bv32, subseconds: bv32)
    ensures TimeValue(seconds, subseconds) as bv32 == 16 * (seconds % 2048) + subseconds / 0x1000_0000
  {
    assert seconds % 2048 == seconds & 0x07FF;
    assert subseconds / 0x1000_0000 == subseconds >> 28;
  }

  lemma SmallParts(seconds: bv32, subseconds: bv32)
    ensures seconds % 2048 < 2048 && subseconds / 0x1000_0000 < 16
  {
    assert seconds % 2048 == seconds & 0x07FF;
    assert subseconds / 0x1000_0000 == subseconds >> 28;
  }

  lemma Widened(v: bv16)
    ensures (v as bv32) as nat == v as nat
  {
  }

  lemma SixteenTimes(a: bv32, b: bv32)
    requires a < 2048 && b < 16
    ensures (16 * a + b) as nat == 16 * (a as nat) + b as nat
  {
  }

  lemma HighBits(b: bv32)
    ensures (b / 0x1000_0000) as nat == b as nat / 0x1000_0000
  {
  }

  lemma Combined(v: bv16, a: bv32, b: bv32)
    requires a < 2048 && b < 16 && v as bv32 == 16 * a + b
    ensures v as nat == 16 * (a as nat) + b as nat
  {
    Widened(v);
    SixteenTimes(a, b);
  }

  /** The time value counts sixteenths of a second modulo 2048 seconds. */
  lemma TimeValueIs(seconds: bv32, subseconds: bv32)
    ensures TimeValue(seconds, subseconds) as nat == 16 * ((seconds % 2048) as nat) + subseconds as nat / 0x1000_0000
  {
    hide TimeValue;
    TimeValueBits(seconds, subseconds);
    SmallParts(seconds, subseconds);
    Combined(TimeValue(seconds, subseconds), seconds % 2048, subseconds / 0x1000_0000);
    HighBits(subseconds);
  }
}
