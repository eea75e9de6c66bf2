/** The processor mask: a byte array that stands for a set of processor numbers. */
module CpuMask {
  import opened Wrappers

  function Mask(k: nat): bv8
    requires k < 8
  {
    (1 as bv8) << k
  }

  predicate Bit(b: bv8, k: nat)
    requires k < 8
  {
    (b & Mask(k)) != 0
  }

  /** Processor `cpu` is in the mask. */
  predicate Has(mask: seq<bv8>, cpu: nat) {
    cpu / 8 < |mask| && Bit(mask[cpu / 8], cpu % 8)
  }

  ghost function Below(mask: seq<bv8>, n: nat): set<nat> {
    set cpu | 0 <= cpu < n && Has(mask, cpu)
  }

  /** The set of processors a mask stands for. */
  ghost function Members(mask: seq<bv8>): set<nat> {
    Below(mask, 8 * |mask|)
  }

  function And(a: bv8, b: bv8): bv8 {
    a & b
  }

  function Or(a: bv8, b: bv8): bv8 {
    a | b
  }

  function ExclusiveOr(a: bv8, b: bv8): bv8 {
    a ^ b
  }

  // ---- Bits of one byte -------------------------------------------------------------------

  predicate Single(m: bv8) {
    m == 1 || m == 2 || m == 4 || m == 8 || m == 16 || m == 32 || m == 64 || m == 128
  }

  lemma MaskSingle(k: nat)
    requires k < 8
    ensures Single(Mask(k))
  {
    if k < 4 {
      assert k == 0 || k == 1 || k == 2 || k == 3;
    } else {
      assert k == 4 || k == 5 || k == 6 || k == 7;
    }
  }

  lemma MasksDiffer(j: nat, k: nat)
    requires j < 8 && k < 8
    ensures Mask(j) == Mask(k) <==> j == k
  {
    assert Mask(0) == 1 && Mask(1) == 2 && Mask(2) == 4 && Mask(3) == 8;
    assert Mask(4) == 16 && Mask(5) == 32 && Mask(6) == 64 && Mask(7) == 128;
    hide Mask;
    assert j == 0 || j == 1 || j == 2 || j == 3 || j == 4 || j == 5 || j == 6 || j == 7;
    assert k == 0 || k == 1 || k == 2 || k == 3 || k == 4 || k == 5 || k == 6 || k == 7;
  }

  lemma UnderMask(a: bv8, b: bv8, m: bv8)
    requires Single(m)
    ensures (a & b) & m != 0 <==> a & m != 0 && b & m != 0
    ensures (a | b) & m != 0 <==> a & m != 0 || b & m != 0
    ensures (a ^ b) & m != 0 <==> (a & m != 0) != (b & m != 0)
    ensures (a & !b) & m != 0 <==> a & m != 0 && b & m == 0
  {
  }

  lemma TwoMasks(m: bv8, m': bv8)
    requires Single(m) && Single(m')
    ensures m & m' != 0 <==> m == m'
  {
  }

  lemma BitOps(a: bv8, b: bv8, k: nat)
    requires k < 8
    ensures Bit(a & b, k) <==> Bit(a, k) && Bit(b, k)
    ensures Bit(a | b, k) <==> Bit(a, k) || Bit(b, k)
    ensures Bit(a ^ b, k) <==> Bit(a, k) != Bit(b, k)
  {
    hide Mask, Single;
    MaskSingle(k);
    UnderMask(a, b, Mask(k));
  }

  lemma BitAndNot(a: bv8, b: bv8, k: nat)
    requires k < 8
    ensures Bit(a & !b, k) <==> Bit(a, k) && !Bit(b, k)
  {
    hide Mask, Single;
    MaskSingle(k);
    UnderMask(a, b, Mask(k));
  }

  lemma BitOfMask(j: nat, k: nat)
    requires j < 8 && k < 8
    ensures Bit(Mask(j), k) <==> k == j
  {
    hide Mask, Single;
    MaskSingle(j);
    MaskSingle(k);
    MasksDiffer(j, k);
    TwoMasks(Mask(j), Mask(k));
  }

  lemma BitShift(b: bv8, j: nat)
    requires j < 8
    ensures ((b >> j) & 1) != 0 <==> Bit(b, j)
    ensures (b >> j) >> 1 == b >> (j + 1)
    ensures b >> j == 0 ==> !Bit(b, j) && b >> (j + 1) == 0
  {
  }

  lemma HighBitsGone(b: bv8)
    ensures b >> 8 == 0 && b >> 0 == b
  {
  }

  // ---- Masks as sets ----------------------------------------------------------------------

  lemma HasInRange(mask: seq<bv8>, cpu: nat)
    ensures cpu in Members(mask) <==> Has(mask, cpu)
  {
  }

  lemma BelowNext(mask: seq<bv8>, i: nat, j: nat)
    requires i < |mask| && j < 8
    ensures Below(mask, 8 * i + j + 1) == Below(mask, 8 * i + j) + (if Bit(mask[i], j) then {8 * i + j} else {})
    ensures |Below(mask, 8 * i + j + 1)| == |Below(mask, 8 * i + j)| + if Bit(mask[i], j) then 1 else 0
  {
    hide Bit;
    var n := 8 * i + j;
    assert n / 8 == i && n % 8 == j;
    assert Below(mask, n + 1) == Below(mask, n) + (if Bit(mask[i], j) then {n} else {});
  }

  /** A byte whose remaining bits are clear adds nothing more. */
  lemma {:induction false} NoMoreBits(mask: seq<bv8>, i: nat, j: nat)
    requires i < |mask| && j <= 8 && mask[i] >> j == 0
    ensures Below(mask, 8 * (i + 1)) == Below(mask, 8 * i + j)
    decreases 8 - j
  {
    if j < 8 {
      BitShift(mask[i], j);
      NoMoreBits(mask, i, j + 1);
      BelowNext(mask, i, j);
    }
  }

  /** Masks of one length that stand for the same set are the same mask. */
  lemma SameSetSameMask(a: seq<bv8>, b: seq<bv8>)
    requires |a| == |b| && Members(a) == Members(b)
    ensures a == b
  {
    forall i | 0 <= i < |a| ensures a[i] == b[i] {
      forall k: nat | k < 8 ensures Bit(a[i], k) <==> Bit(b[i], k) {
        assert (8 * i + k) / 8 == i && (8 * i + k) % 8 == k;
        HasInRange(a, 8 * i + k);
        HasInRange(b, 8 * i + k);
      }
      SameBitsSameByte(a[i], b[i]);
    }
  }

  lemma SameBitsSameByte(a: bv8, b: bv8)
    requires forall k: nat :: k < 8 ==> (Bit(a, k) <==> Bit(b, k))
    ensures a == b
  {
    EightMasks();
    assert Bit(a, 0) == Bit(b, 0) && Bit(a, 1) == Bit(b, 1) && Bit(a, 2) == Bit(b, 2) && Bit(a, 3) == Bit(b, 3);
    assert Bit(a, 4) == Bit(b, 4) && Bit(a, 5) == Bit(b, 5) && Bit(a, 6) == Bit(b, 6) && Bit(a, 7) == Bit(b, 7);
    hide Mask;
    assert a == b by {
      EightBits(a, b);
    }
  }

  lemma EightMasks()
    ensures Mask(0) == 1 && Mask(1) == 2 && Mask(2) == 4 && Mask(3) == 8
    ensures Mask(4) == 16 && Mask(5) == 32 && Mask(6) == 64 && Mask(7) == 128
  {
  }

  lemma EightBits(a: bv8, b: bv8)
    requires (a & 1 != 0) == (b & 1 != 0) && (a & 2 != 0) == (b & 2 != 0)
    requires (a & 4 != 0) == (b & 4 != 0) && (a & 8 != 0) == (b & 8 != 0)
    requires (a & 16 != 0) == (b & 16 != 0) && (a & 32 != 0) == (b & 32 != 0)
    requires (a & 64 != 0) == (b & 64 != 0) && (a & 128 != 0) == (b & 128 != 0)
    ensures a == b
  {
  }

  /** The counts of union, intersection and symmetric difference. */
  lemma SetCounts(a: set<nat>, b: set<nat>)
    ensures |a + b| + |a * b| == |a| + |b|
    ensures |(a - b) + (b - a)| + 2 * |a * b| == |a| + |b|
  {
    assert a + b == (a - b) + b && a == (a - b) + a * b && b == (b - a) + a * b;
  }

  /** `cpu / 8`, rounded toward zero. */
  function ByteOf(cpu: int): int {
    if cpu >= 0 then cpu / 8 else -(-cpu / 8)
  }

  /** `1 << (cpu % 8)`; MoonBit's core decides what shifting by a negative remainder gives. */
  function ShiftOf(cpu: int, core: int -> bv8): bv8 {
    if cpu >= 0 then Mask(cpu % 8) else if -cpu % 8 == 0 then Mask(0) else core(-(-cpu % 8))
  }

  /** The processors a call with number `cpu` is about: itself, or what a negative shift selects in the first byte. */
  ghost function Addressed(cpu: int, core: int -> bv8): set<nat> {
    if cpu >= 0 then {cpu} else Members([ShiftOf(cpu, core)])
  }

  class CpuSet {
    const mask: array<bv8>

    ghost function Cpus(): set<nat>
      reads mask
    {
      Members(mask[..])
    }

    constructor Empty(length: nat)
      ensures fresh(mask) && mask.Length == length && Cpus() == {}
    {
      mask := new bv8[length](_ => 0);
      new;
      assert forall cpu: nat :: !Has(mask[..], cpu);
    }

    /** `CpuSet::new`; a negative mask size is libuv's error code. */
    static method New(size: int) returns (r: Option<CpuSet>)
      ensures r.None? <==> size < 0
      ensures r.Some? ==> fresh(r.value) && fresh(r.value.mask) && r.value.mask.Length == size && r.value.Cpus() == {}
    {
      if size < 0 {
        return None;
      }
      var s := new CpuSet.Empty(size);
      return Some(s);
    }

    /** An index outside the array panics: `ok` is false and nothing has changed. */
    method Set(cpu: int, core: int -> bv8) returns (ok: bool)
      modifies mask
      ensures ok <==> -8 < cpu < 8 * mask.Length && mask.Length > 0
      ensures Cpus() == old(Cpus()) + if ok then Addressed(cpu, core) else {}
    {
      ok := 0 <= ByteOf(cpu) < mask.Length;
      if ok {
        ghost var was := mask[..];
        mask[ByteOf(cpu)] := Or(mask[ByteOf(cpu)], ShiftOf(cpu, core));
        ByteSet(was, mask[..], cpu, core);
      }
    }

    method Clear(cpu: int, core: int -> bv8) returns (ok: bool)
      modifies mask
      ensures ok <==> -8 < cpu < 8 * mask.Length && mask.Length > 0
      ensures Cpus() == old(Cpus()) - if ok then Addressed(cpu, core) else {}
    {
      ok := 0 <= ByteOf(cpu) < mask.Length;
      if ok {
        ghost var was := mask[..];
        mask[ByteOf(cpu)] := And(mask[ByteOf(cpu)], !ShiftOf(cpu, core));
        ByteCleared(was, mask[..], cpu, core);
      }
    }

    method IsSet(cpu: int, core: int -> bv8) returns (r: Option<bool>)
      ensures r == if -8 < cpu < 8 * mask.Length && mask.Length > 0
                   then Some(Cpus() * Addressed(cpu, core) != {}) else None
      ensures 0 <= cpu < 8 * mask.Length ==> r == Some(cpu in Cpus())
    {
      if !(0 <= ByteOf(cpu) < mask.Length) {
        return None;
      }
      ByteTested(mask[..], cpu, core);
      r := Some(And(mask[ByteOf(cpu)], ShiftOf(cpu, core)) != 0);
    }

    method Zero()
      modifies mask
      ensures Cpus() == {}
    {
      for i := 0 to mask.Length
        invariant forall k :: 0 <= k < i ==> mask[k] == 0
      {
        mask[i] := 0;
      }
      assert forall cpu: nat :: !Has(mask[..], cpu);
    }

    /** Shifts each byte out bit by bit. */
    method Count() returns (count: nat)
      ensures count == |Cpus()|
    {
      hide Bit, Below;
      count := 0;
      ghost var m := mask[..];
      NothingBelow(m);
      for i := 0 to mask.Length
        invariant count == |Below(m, 8 * i)|
      {
        var byte := mask[i];
        ghost var j := 0;
        HighBitsGone(m[i]);
        while byte != 0
          invariant 0 <= j <= 8 && byte == m[i] >> j
          invariant count == |Below(m, 8 * i + j)|
          decreases byte
        {
          HighBitsGone(m[i]);
          BitShift(m[i], j);
          BelowNext(m, i, j);
          if (byte & 1) != 0 {
            count := count + 1;
          }
          byte := byte >> 1;
          j := j + 1;
        }
        NoMoreBits(m, i, j);
      }
    }

    method Intersect(other: CpuSet) returns (r: CpuSet)
      ensures fresh(r) && fresh(r.mask)
      ensures r.mask.Length == if mask.Length <= other.mask.Length then mask.Length else other.mask.Length
      ensures r.Cpus() == Cpus() * other.Cpus()
    {
      hide Members, And, Or, ExclusiveOr;
      var length := if mask.Length <= other.mask.Length then mask.Length else other.mask.Length;
      r := new CpuSet.Empty(length);
      for i := 0 to length
        invariant forall k :: 0 <= k < i ==> r.mask[k] == And(mask[k], other.mask[k])
      {
        r.mask[i] := And(mask[i], other.mask[i]);
      }
      AndIsMeet(mask[..], other.mask[..], r.mask[..]);
    }

    /** The result has the shorter length, so copying the rest of the longer mask panics. */
    method Union(other: CpuSet) returns (r: Option<CpuSet>)
      ensures r.None? <==> mask.Length != other.mask.Length
      ensures r.Some? ==> fresh(r.value) && fresh(r.value.mask) && r.value.mask.Length == mask.Length
      ensures r.Some? ==> r.value.Cpus() == Cpus() + other.Cpus()
    {
      hide Members, And, Or, ExclusiveOr;
      var length := if mask.Length <= other.mask.Length then mask.Length else other.mask.Length;
      var s := new CpuSet.Empty(length);
      for i := 0 to length
        invariant forall k :: 0 <= k < i ==> s.mask[k] == Or(mask[k], other.mask[k])
      {
        s.mask[i] := Or(mask[i], other.mask[i]);
      }
      if length < mask.Length || length < other.mask.Length {
        return None;
      }
      OrIsJoin(mask[..], other.mask[..], s.mask[..]);
      return Some(s);
    }

    method Xor(other: CpuSet) returns (r: Option<CpuSet>)
      ensures r.None? <==> mask.Length != other.mask.Length
      ensures r.Some? ==> fresh(r.value) && fresh(r.value.mask) && r.value.mask.Length == mask.Length
      ensures r.Some? ==> r.value.Cpus() == (Cpus() - other.Cpus()) + (other.Cpus() - Cpus())
    {
      hide Members, And, Or, ExclusiveOr;
      var length := if mask.Length <= other.mask.Length then mask.Length else other.mask.Length;
      var s := new CpuSet.Empty(length);
      for i := 0 to length
        invariant forall k :: 0 <= k < i ==> s.mask[k] == ExclusiveOr(mask[k], other.mask[k])
      {
        s.mask[i] := ExclusiveOr(mask[i], other.mask[i]);
      }
      if length < mask.Length || length < other.mask.Length {
        return None;
      }
      XorIsDifference(mask[..], other.mask[..], s.mask[..]);
      return Some(s);
    }
  }

  lemma NothingBelow(mask: seq<bv8>)
    ensures Below(mask, 0) == {}
  {
  }

  /** What a bit-wise change of one byte does, seen bit by bit. */
  lemma AddressedBit(cpu: int, core: int -> bv8, c: nat)
    requires cpu > -8
    ensures c in Addressed(cpu, core) <==> c / 8 == ByteOf(cpu) && Bit(ShiftOf(cpu, core), c % 8)
  {
    hide Mask, Bit;
    if cpu >= 0 {
      BitOfMask(cpu % 8, c % 8);
      assert c == 8 * (c / 8) + c % 8 && cpu == 8 * (cpu / 8) + cpu % 8;
    } else {
      assert ByteOf(cpu) == 0;
      HasInRange([ShiftOf(cpu, core)], c);
    }
  }

  lemma ByteSet(was: seq<bv8>, now: seq<bv8>, cpu: int, core: int -> bv8)
    requires cpu > -8 && 0 <= ByteOf(cpu) < |was|
    requires now == was[ByteOf(cpu) := Or(was[ByteOf(cpu)], ShiftOf(cpu, core))]
    ensures Members(now) == Members(was) + Addressed(cpu, core)
  {
    hide Mask, Bit, Members, Addressed, ShiftOf, ByteOf;
    forall c: nat ensures c in Members(now) <==> c in Members(was) || c in Addressed(cpu, core) {
      HasInRange(now, c);
      HasInRange(was, c);
      AddressedBit(cpu, core, c);
      if c / 8 == ByteOf(cpu) {
        BitOps(was[c / 8], ShiftOf(cpu, core), c % 8);
      }
    }
  }

  lemma ByteCleared(was: seq<bv8>, now: seq<bv8>, cpu: int, core: int -> bv8)
    requires cpu > -8 && 0 <= ByteOf(cpu) < |was|
    requires now == was[ByteOf(cpu) := And(was[ByteOf(cpu)], !ShiftOf(cpu, core))]
    ensures Members(now) == Members(was) - Addressed(cpu, core)
  {
    hide Mask, Bit, Members, Addressed, ShiftOf, ByteOf;
    forall c: nat ensures c in Members(now) <==> c in Members(was) && c !in Addressed(cpu, core) {
      HasInRange(now, c);
      HasInRange(was, c);
      AddressedBit(cpu, core, c);
      if c / 8 == ByteOf(cpu) {
        BitAndNot(was[c / 8], ShiftOf(cpu, core), c % 8);
      }
    }
  }

  lemma TestedBit(mask: seq<bv8>, cpu: int, core: int -> bv8, c: nat)
    requires cpu > -8 && 0 <= ByteOf(cpu) < |mask|
    ensures c in Members(mask) * Addressed(cpu, core)
            <==> c / 8 == ByteOf(cpu) && Bit(And(mask[ByteOf(cpu)], ShiftOf(cpu, core)), c % 8)
  {
    hide Mask, Bit, Members, Addressed, ShiftOf, ByteOf;
    HasInRange(mask, c);
    AddressedBit(cpu, core, c);
    BitOps(mask[ByteOf(cpu)], ShiftOf(cpu, core), c % 8);
  }

  lemma ByteTested(mask: seq<bv8>, cpu: int, core: int -> bv8)
    requires cpu > -8 && 0 <= ByteOf(cpu) < |mask|
    ensures And(mask[ByteOf(cpu)], ShiftOf(cpu, core)) != 0 <==> Members(mask) * Addressed(cpu, core) != {}
  {
    hide Mask, Bit, Members, Addressed, ShiftOf, ByteOf, And;
    var i, m := ByteOf(cpu), ShiftOf(cpu, core);
    if And(mask[i], m) != 0 {
      var k := SomeBit(And(mask[i], m));
      assert (8 * i + k) / 8 == i && (8 * i + k) % 8 == k;
      TestedBit(mask, cpu, core, 8 * i + k);
    } else {
      forall c: nat ensures c !in Members(mask) * Addressed(cpu, core) {
        TestedBit(mask, cpu, core, c);
        NoBit(c % 8);
      }
    }
  }

  lemma NoBit(k: nat)
    requires k < 8
    ensures !Bit(0, k)
  {
  }

  lemma SomeBit(b: bv8) returns (k: nat)
    requires b != 0
    ensures k < 8 && Bit(b, k)
  {
    k := 0;
    if forall j: nat :: j < 8 ==> !Bit(b, j) {
      forall j: nat | j < 8 ensures Bit(b, j) <==> Bit(0, j) {
        NoBit(j);
      }
      SameBitsSameByte(b, 0);
    } else {
      k :| k < 8 && Bit(b, k);
    }
  }

  /** Byte-wise operations on masks are the set operations. */
  lemma AndIsMeet(a: seq<bv8>, b: seq<bv8>, r: seq<bv8>)
    requires |r| <= |a| && |r| <= |b| && (|r| == |a| || |r| == |b|)
    requires forall k :: 0 <= k < |r| ==> r[k] == And(a[k], b[k])
    ensures Members(r) == Members(a) * Members(b)
  {
    hide Bit;
    forall cpu: nat ensures Has(r, cpu) <==> Has(a, cpu) && Has(b, cpu) {
      if cpu / 8 < |r| { BitOps(a[cpu / 8], b[cpu / 8], cpu % 8); }
    }
  }

  lemma OrIsJoin(a: seq<bv8>, b: seq<bv8>, r: seq<bv8>)
    requires |r| == |a| == |b|
    requires forall k :: 0 <= k < |r| ==> r[k] == Or(a[k], b[k])
    ensures Members(r) == Members(a) + Members(b)
  {
    hide Bit;
    forall cpu: nat ensures Has(r, cpu) <==> Has(a, cpu) || Has(b, cpu) {
      if cpu / 8 < |r| { BitOps(a[cpu / 8], b[cpu / 8], cpu % 8); }
    }
  }

  lemma XorIsDifference(a: seq<bv8>, b: seq<bv8>, r: seq<bv8>)
    requires |r| == |a| == |b|
    requires forall k :: 0 <= k < |r| ==> r[k] == ExclusiveOr(a[k], b[k])
    ensures Members(r) == (Members(a) - Members(b)) + (Members(b) - Members(a))
  {
    hide Bit;
    forall cpu: nat ensures Has(r, cpu) <==> Has(a, cpu) != Has(b, cpu) {
      if cpu / 8 < |r| { BitOps(a[cpu / 8], b[cpu / 8], cpu % 8); }
    }
  }

  /** The counts of the sets that `union`, `intersect` and `xor` make of two masks of one length. */
  method CountTogether(a: CpuSet, b: CpuSet) returns (inA: nat, inB: nat, inEither: nat, inBoth: nat, inOne: nat)
    requires a.mask.Length == b.mask.Length
    ensures inA == |a.Cpus()| && inB == |b.Cpus()|
    ensures inEither + inBoth == inA + inB
    ensures inOne + 2 * inBoth == inA + inB
  {
    hide Members;
    var either := a.Union(b);
    var both := a.Intersect(b);
    var one := a.Xor(b);
    inA := a.Count();
    inB := b.Count();
    inEither := either.value.Count();
    inBoth := both.Count();
    inOne := one.value.Count();
    SetCounts(a.Cpus(), b.Cpus());
  }
}
