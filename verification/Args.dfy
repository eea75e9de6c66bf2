/** The argument block: a pointer table and the strings it points to, in one allocation. */
module ArgumentBlock {
  import opened Wrappers

  type Bytes = seq<bv8>

  const WORD: nat := 8

  /** A byte of memory: a plain byte, or one byte of a pointer to an offset of the same block. */
  datatype Cell = Plain(byte: bv8) | PointerByte(target: nat, index: nat)

  /** What a pointer field holds. */
  datatype Pointer = Null | To(target: nat) | Garbage

  /** The C view of MoonBit bytes: everything before the first NUL; a terminator follows the last byte. */
  function UpToNul(b: Bytes): (s: Bytes)
    ensures |s| <= |b| && s == b[..|s|] && 0 !in s
    ensures |s| < |b| ==> b[|s|] == 0
  {
    if b == [] || b[0] == 0 then [] else [b[0]] + UpToNul(b[1..])
  }

  /** The pointer field at `at` points to `target`. */
  predicate PointsTo(mem: seq<Cell>, at: nat, target: nat) {
    at + WORD <= |mem| && forall p: nat :: at <= p < at + WORD ==> mem[p] == PointerByte(target, p - at)
  }

  predicate IsNull(mem: seq<Cell>, at: nat) {
    at + WORD <= |mem| && forall p: nat :: at <= p < at + WORD ==> mem[p] == Plain(0)
  }

  /** The C string that starts at `at` is `s`. */
  predicate StringAt(mem: seq<Cell>, at: nat, s: Bytes) {
    && at + |s| < |mem| && 0 !in s
    && (forall p: nat :: at <= p < at + |s| ==> mem[p] == Plain(s[p - at]))
    && mem[at + |s|] == Plain(0)
  }

  /** Room for the first `n` arguments, each with a terminator. */
  function Room(argv: seq<Bytes>, n: nat): nat
    requires n <= |argv|
  {
    if n == 0 then 0 else Room(argv, n - 1) + |argv[n - 1]| + 1
  }

  function BlockSize(argv: seq<Bytes>): nat {
    Room(argv, |argv|) + (|argv| + 1) * WORD
  }

  /** Where argument `i` is stored: after the table and the arguments before it. */
  function Offset(argv: seq<Bytes>, i: nat): (at: nat)
    requires i <= |argv|
    ensures (|argv| + 1) * WORD <= at <= (|argv| + 1) * WORD + Room(argv, i)
  {
    if i == 0 then (|argv| + 1) * WORD else Offset(argv, i - 1) + |UpToNul(argv[i - 1])| + 1
  }

  lemma {:induction false} RoomGrows(argv: seq<Bytes>, i: nat, j: nat)
    requires i <= j <= |argv|
    ensures Room(argv, i) + (j - i) <= Room(argv, j)
    decreases j
  {
    if i < j {
      RoomGrows(argv, i, j - 1);
    }
  }

  /** The strings lie after the table, before the end of the block, and apart from each other. */
  lemma {:induction false} StringsApart(argv: seq<Bytes>, i: nat, j: nat)
    requires i < j <= |argv|
    ensures (|argv| + 1) * WORD <= Offset(argv, i)
    ensures Offset(argv, i) + |UpToNul(argv[i])| + 1 <= Offset(argv, j) <= BlockSize(argv)
    decreases j
  {
    RoomGrows(argv, j, |argv|);
    if i + 1 < j {
      StringsApart(argv, i, j - 1);
    }
  }

  /** Entry `i` of the table points to the C string of argument `i`; a null pointer ends the table. */
  ghost predicate Packed(mem: seq<Cell>, argv: seq<Bytes>) {
    && IsNull(mem, |argv| * WORD)
    && forall i: nat :: i < |argv| ==>
         PointsTo(mem, i * WORD, Offset(argv, i)) && StringAt(mem, Offset(argv, i), UpToNul(argv[i]))
  }

  function Shown(argv: seq<Bytes>): seq<Bytes> {
    if argv == [] then [] else [UpToNul(argv[0])] + Shown(argv[1..])
  }

  // ---- The stub ---------------------------------------------------------------------------

  /** Byte `k` as C sees it: MoonBit bytes are followed by a NUL. */
  function ByteAt(b: Bytes, k: nat): bv8
    requires k <= |b|
  {
    if k < |b| then b[k] else 0
  }

  method StringLength(b: Bytes) returns (n: nat)
    ensures n == |UpToNul(b)|
  {
    n := 0;
    while ByteAt(b, n) != 0
      invariant n <= |b| && |UpToNul(b)| == n + |UpToNul(b[n..])|
      decreases |b| - n
    {
      assert b[n..][1..] == b[n + 1..];
      n := n + 1;
    }
  }

  method Copy(mem: array<Cell>, at: nat, b: Bytes, n: nat)
    requires n <= |b| + 1 && at + n <= mem.Length
    modifies mem
    ensures forall p: nat :: at <= p < at + n ==> mem[p] == Plain(ByteAt(b, p - at))
    ensures forall p: nat :: p < mem.Length && !(at <= p < at + n) ==> mem[p] == old(mem[p])
  {
    for k := 0 to n
      invariant forall p: nat :: at <= p < at + k ==> mem[p] == Plain(ByteAt(b, p - at))
      invariant forall p: nat :: p < mem.Length && !(at <= p < at + k) ==> mem[p] == old(mem[p])
    {
      mem[at + k] := Plain(ByteAt(b, k));
    }
  }

  method StorePointer(mem: array<Cell>, at: nat, target: nat)
    requires at + WORD <= mem.Length
    modifies mem
    ensures PointsTo(mem[..], at, target)
    ensures forall p: nat :: p < mem.Length && !(at <= p < at + WORD) ==> mem[p] == old(mem[p])
  {
    for k := 0 to WORD
      invariant forall p: nat :: at <= p < at + k ==> mem[p] == PointerByte(target, p - at)
      invariant forall p: nat :: p < mem.Length && !(at <= p < at + k) ==> mem[p] == old(mem[p])
    {
      mem[at + k] := PointerByte(target, k);
    }
  }

  method StoreNull(mem: array<Cell>, at: nat)
    requires at + WORD <= mem.Length
    modifies mem
    ensures IsNull(mem[..], at)
    ensures forall p: nat :: p < mem.Length && !(at <= p < at + WORD) ==> mem[p] == old(mem[p])
  {
    for k := 0 to WORD
      invariant forall p: nat :: at <= p < at + k ==> mem[p] == Plain(0)
      invariant forall p: nat :: p < mem.Length && !(at <= p < at + k) ==> mem[p] == old(mem[p])
    {
      mem[at + k] := Plain(0);
    }
  }

  method SizeOf(argv: seq<Bytes>) returns (size: nat)
    ensures size == BlockSize(argv)
  {
    size := 0;
    for i := 0 to |argv|
      invariant size == Room(argv, i)
    {
      size := size + |argv[i]| + 1;
    }
    size := size + (|argv| + 1) * WORD;
  }

  /** The first `n` arguments are in place. */
  ghost predicate Filled(mem: seq<Cell>, argv: seq<Bytes>, n: nat)
    requires n <= |argv|
  {
    forall i: nat :: i < n ==>
      PointsTo(mem, i * WORD, Offset(argv, i)) && StringAt(mem, Offset(argv, i), UpToNul(argv[i]))
  }

  /** `moonbit_uv_setup_args`; `granted` is whether the allocation succeeds. */
  method SetupArgs(argv: seq<Bytes>, granted: bool) returns (r: Option<array<Cell>>)
    ensures r.Some? <==> granted
    ensures r.Some? ==> fresh(r.value) && r.value.Length == BlockSize(argv) && Packed(r.value[..], argv)
  {
    var size := SizeOf(argv);
    if !granted {
      return None;
    }
    var mem := new Cell[size](_ => Plain(0));
    var s := (|argv| + 1) * WORD;
    for i := 0 to |argv|
      invariant s == Offset(argv, i) && Filled(mem[..], argv, i)
    {
      StringsApart(argv, i, |argv|);
      StringsApart(argv, i, i + 1);
      s := Place(mem, argv, i, s);
    }
    ghost var before := mem[..];
    StoreNull(mem, |argv| * WORD);
    KeepFilled(before, mem[..], argv, |argv|);
    return Some(mem);
  }

  lemma StringCopied(mem: seq<Cell>, at: nat, b: Bytes)
    requires at + |UpToNul(b)| < |mem|
    requires forall p: nat :: at <= p < at + |UpToNul(b)| + 1 ==> mem[p] == Plain(ByteAt(b, p - at))
    ensures StringAt(mem, at, UpToNul(b))
  {
  }

  lemma StringStays(mem: seq<Cell>, mem': seq<Cell>, at: nat, s: Bytes)
    requires StringAt(mem, at, s) && |mem'| == |mem|
    requires forall p: nat :: at <= p <= at + |s| ==> mem'[p] == mem[p]
    ensures StringAt(mem', at, s)
  {
  }

  /** One turn of the loop: the bytes up to the NUL are copied, and the entry points to them. */
  method Place(mem: array<Cell>, argv: seq<Bytes>, i: nat, s: nat) returns (next: nat)
    requires i < |argv| && mem.Length == BlockSize(argv) && s == Offset(argv, i) && Filled(mem[..], argv, i)
    requires s + |UpToNul(argv[i])| + 1 <= mem.Length
    modifies mem
    ensures next == Offset(argv, i + 1) && Filled(mem[..], argv, i + 1)
  {
    hide PointsTo, StringAt, UpToNul, BlockSize, Filled;
    ghost var before := mem[..];
    StringsApart(argv, i, i + 1);
    var n := StringLength(argv[i]);
    Copy(mem, s, argv[i], n + 1);
    ghost var copied := mem[..];
    StringCopied(copied, s, argv[i]);
    StorePointer(mem, i * WORD, s);
    StringStays(copied, mem[..], s, UpToNul(argv[i]));
    KeepFilled(before, mem[..], argv, i);
    FilledNext(mem[..], argv, i);
    next := s + n + 1;
  }

  lemma FilledNext(mem: seq<Cell>, argv: seq<Bytes>, i: nat)
    requires i < |argv| && Filled(mem, argv, i)
    requires PointsTo(mem, i * WORD, Offset(argv, i)) && StringAt(mem, Offset(argv, i), UpToNul(argv[i]))
    ensures Filled(mem, argv, i + 1)
  {
    hide PointsTo, StringAt, Offset, UpToNul;
  }

  lemma PointerStays(mem: seq<Cell>, mem': seq<Cell>, at: nat, target: nat)
    requires PointsTo(mem, at, target) && |mem'| == |mem|
    requires forall p: nat :: at <= p < at + WORD ==> mem'[p] == mem[p]
    ensures PointsTo(mem', at, target)
  {
  }

  /** Writes to entries from `n` on, and to the strings from `n` on, leave the first `n` arguments alone. */
  lemma KeepFilled(mem: seq<Cell>, mem': seq<Cell>, argv: seq<Bytes>, n: nat)
    requires n <= |argv| && |mem'| == |mem| == BlockSize(argv) && Filled(mem, argv, n)
    requires forall p: nat ::
               p < |mem| && (p < n * WORD || (|argv| + 1) * WORD <= p < Offset(argv, n)) ==> mem'[p] == mem[p]
    ensures Filled(mem', argv, n)
  {
    hide PointsTo, StringAt, Offset, UpToNul, BlockSize;
    forall i: nat | i < n
      ensures PointsTo(mem', i * WORD, Offset(argv, i)) && StringAt(mem', Offset(argv, i), UpToNul(argv[i])) {
      StringsApart(argv, i, n);
      StringStays(mem, mem', Offset(argv, i), UpToNul(argv[i]));
      PointerStays(mem, mem', i * WORD, Offset(argv, i));
    }
  }

  // ---- Reading the block back -------------------------------------------------------------

  function Load(mem: seq<Cell>, at: nat): Pointer
    requires at + WORD <= |mem|
  {
    if IsNull(mem, at) then Null
    else if mem[at].PointerByte? && PointsTo(mem, at, mem[at].target) then To(mem[at].target)
    else Garbage
  }

  /** The C string at `at`, if it ends inside the block. */
  function StringFrom(mem: seq<Cell>, at: nat): Option<Bytes>
    decreases |mem| - at
  {
    if at >= |mem| || mem[at].PointerByte? then None
    else if mem[at].byte == 0 then Some([])
    else
      var rest := StringFrom(mem, at + 1);
      if rest.None? then None else Some([mem[at].byte] + rest.value)
  }

  /** The argument list a C program finds by walking the table up to the null pointer. */
  function ReadArgv(mem: seq<Cell>, at: nat): Option<seq<Bytes>>
    decreases |mem| - at
  {
    if at + WORD > |mem| then None
    else
      match Load(mem, at)
      case Garbage => None
      case Null => Some([])
      case To(target) =>
        var first, rest := StringFrom(mem, target), ReadArgv(mem, at + WORD);
        if first.None? || rest.None? then None else Some([first.value] + rest.value)
  }

  lemma {:induction false} StringReads(mem: seq<Cell>, at: nat, s: Bytes)
    requires StringAt(mem, at, s)
    ensures StringFrom(mem, at) == Some(s)
    decreases |s|
  {
    if s != [] {
      assert mem[at] == Plain(s[0]) && s[0] in s;
      assert forall x :: x in s[1..] ==> x in s;
      StringReads(mem, at + 1, s[1..]);
      assert s == [s[0]] + s[1..];
    }
  }

  lemma LoadsBack(mem: seq<Cell>, at: nat, target: nat)
    requires at + WORD <= |mem|
    ensures PointsTo(mem, at, target) ==> Load(mem, at) == To(target)
    ensures IsNull(mem, at) ==> Load(mem, at) == Null
  {
    assert PointsTo(mem, at, target) || IsNull(mem, at) ==> mem[at] == PointerByte(target, 0) || mem[at] == Plain(0);
  }

  lemma ReadStep(mem: seq<Cell>, at: nat, target: nat, s: Bytes, rest: seq<Bytes>)
    requires PointsTo(mem, at, target) && StringAt(mem, target, s) && ReadArgv(mem, at + WORD) == Some(rest)
    ensures ReadArgv(mem, at) == Some([s] + rest)
  {
    hide PointsTo, StringAt, Load, StringFrom;
    TableEntry(mem, at, target);
    LoadsBack(mem, at, target);
    StringReads(mem, target, s);
  }

  lemma TableEntry(mem: seq<Cell>, at: nat, target: nat)
    ensures PointsTo(mem, at, target) || IsNull(mem, at) ==> at + WORD <= |mem|
  {
  }

  /** What C reads from the block is the argument list, each argument up to its first NUL. */
  lemma {:induction false} ArgsReadBack(mem: seq<Cell>, argv: seq<Bytes>, i: nat)
    requires Packed(mem, argv) && i <= |argv|
    ensures ReadArgv(mem, i * WORD) == Some(Shown(argv[i..]))
    decreases |argv| - i
  {
    hide PointsTo, IsNull, StringAt, Load, Offset, UpToNul;
    if i < |argv| {
      ArgsReadBack(mem, argv, i + 1);
      ReadStep(mem, i * WORD, Offset(argv, i), UpToNul(argv[i]), Shown(argv[i + 1..]));
      assert argv[i..][1..] == argv[i + 1..];
    } else {
      TableEntry(mem, i * WORD, 0);
      LoadsBack(mem, i * WORD, 0);
    }
  }

  /** An argument arrives unchanged exactly when it contains no NUL. */
  lemma {:induction false} WholeArgument(b: Bytes)
    ensures UpToNul(b) == b <==> 0 !in b
  {
    if b != [] && b[0] != 0 {
      WholeArgument(b[1..]);
      assert b == [b[0]] + b[1..];
    }
  }
}
