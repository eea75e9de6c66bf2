/** Stdio containers and the process options they are moved into. */
module ProcessStdio {

  type Ref = nat

  /** The union inside a container, zeroed when fresh: a stream that is owned, or a file descriptor that is not. */
  datatype Data = Zero | Stream(stream: Ref) | Fd(fd: int)

  datatype Slot = Slot(flags: bv8, data: Data)

  const IGNORE: bv8 := 0
  const CREATE_PIPE: bv8 := 1
  const INHERIT_FD: bv8 := 2
  const INHERIT_STREAM: bv8 := 4
  const READABLE_PIPE: bv8 := 16
  const WRITABLE_PIPE: bv8 := 32
  const NONBLOCK_PIPE: bv8 := 64

  const ZEROED := Slot(IGNORE, Zero)

  predicate OwnsStream(flags: bv8) {
    (flags & (INHERIT_STREAM | CREATE_PIPE)) != 0
  }

  /** The flags tell what the union holds. */
  predicate Sound(slot: Slot) {
    OwnsStream(slot.flags) <==> slot.data.Stream?
  }

  /** What `data.stream` reads as a non-null pointer without being one. */
  predicate Wild(slot: Slot) {
    slot.data.Fd? && slot.data.fd != 0
  }

  function One(slot: Slot, r: Ref): nat {
    if slot.data == Stream(r) then 1 else 0
  }

  /** How often slots own a reference to stream `r`. */
  function Owned(slots: seq<Slot>, r: Ref): nat {
    if slots == [] then 0 else Owned(slots[..|slots| - 1], r) + One(slots[|slots| - 1], r)
  }

  lemma {:induction false} OwnedUpdate(slots: seq<Slot>, i: nat, slot: Slot, r: Ref)
    requires i < |slots|
    ensures Owned(slots[i := slot], r) + One(slots[i], r) == Owned(slots, r) + One(slot, r)
  {
    hide One;
    var n := |slots| - 1;
    if i == n {
      assert slots[i := slot][..n] == slots[..n];
    } else {
      assert slots[i := slot][..n] == slots[..n][i := slot];
      OwnedUpdate(slots[..n], i, slot, r);
    }
  }

  lemma OwnedAppend(slots: seq<Slot>, slot: Slot, r: Ref)
    ensures Owned(slots + [slot], r) == Owned(slots, r) + One(slot, r)
  {
    assert (slots + [slot])[..|slots|] == slots;
  }

  lemma {:induction false} NoStreams(slots: seq<Slot>, r: Ref)
    requires forall i :: 0 <= i < |slots| ==> !slots[i].data.Stream?
    ensures Owned(slots, r) == 0
  {
    if slots != [] {
      NoStreams(slots[..|slots| - 1], r);
    }
  }

  class Container {
    var slot: Slot

    constructor Ignore()
      ensures slot.flags == IGNORE && slot.data == Zero && Sound(slot)
    {
      slot := ZEROED;
    }

    constructor CreatePipe(stream: Ref, readable: bool, writable: bool, nonBlock: bool)
      ensures Sound(slot) && slot.data == Stream(stream)
      ensures slot.flags & CREATE_PIPE != 0 && slot.flags & INHERIT_FD == 0 && slot.flags & INHERIT_STREAM == 0
      ensures slot.flags & READABLE_PIPE != 0 <==> readable
      ensures slot.flags & WRITABLE_PIPE != 0 <==> writable
      ensures slot.flags & NONBLOCK_PIPE != 0 <==> nonBlock
      ensures slot.flags < 128 && slot.flags & 8 == 0
    {
      var flags := CREATE_PIPE;
      if readable {
        flags := flags | READABLE_PIPE;
      }
      if writable {
        flags := flags | WRITABLE_PIPE;
      }
      if nonBlock {
        flags := flags | NONBLOCK_PIPE;
      }
      slot := Slot(flags, Stream(stream));
    }

    constructor InheritFd(fd: int)
      ensures Sound(slot) && slot.flags == INHERIT_FD && slot.data == Fd(fd)
    {
      slot := Slot(INHERIT_FD, Fd(fd));
    }

    constructor InheritStream(stream: Ref)
      ensures Sound(slot) && slot.flags == INHERIT_STREAM && slot.data == Stream(stream)
    {
      slot := Slot(INHERIT_STREAM, Stream(stream));
    }

    /** The finalizer tests the pointer, not the flags: it fails on a descriptor other than 0. */
    method Finalize() returns (dropped: multiset<Ref>, ok: bool)
      modifies this
      ensures ok <==> !Wild(old(slot))
      ensures ok ==> (forall r: Ref :: dropped[r] == One(old(slot), r)) && !slot.data.Stream? && !Wild(slot)
      ensures !ok ==> slot == old(slot) && dropped == multiset{}
    {
      dropped, ok := multiset{}, !Wild(slot);
      if slot.data.Stream? {
        dropped := multiset{slot.data.stream};
        slot := slot.(data := Zero);
      }
    }
  }

  ghost predicate Apart(pool: seq<Container>) {
    forall i, j :: 0 <= i < j < |pool| ==> pool[i] != pool[j]
  }

  ghost function Slots(pool: seq<Container>): (slots: seq<Slot>)
    reads pool
    ensures |slots| == |pool| && forall i :: 0 <= i < |pool| ==> slots[i] == pool[i].slot
  {
    if pool == [] then [] else Slots(pool[..|pool| - 1]) + [pool[|pool| - 1].slot]
  }

  /** Entry `i` is the first that refers to its container. */
  predicate First(stdio: seq<Container>, i: nat)
    requires i < |stdio|
  {
    stdio[i] !in stdio[..i]
  }

  lemma FirstOrNot(stdio: seq<Container>, i: nat)
    requires i < |stdio|
    ensures First(stdio, i) <==> stdio[i] !in stdio[..i]
  {
  }

  class Options {
    var stdio: seq<Slot>

    constructor ()
      ensures stdio == []
    {
      stdio := [];
    }

    /** `moonbit_uv_process_options_set_stdio`: the containers' contents move into fresh slots. A container
        listed again is empty by then, so its later slots are ignored ones. What the options held before
        is freed without being dropped. */
    method SetStdio(list: seq<Container>, ghost pool: seq<Container>)
      requires Apart(pool) && forall c :: c in list ==> c in pool
      modifies this, list
      ensures |stdio| == |list|
      ensures forall i: nat :: i < |list| ==> stdio[i] == if First(list, i) then old(list[i].slot) else ZEROED
      ensures forall i: nat :: i < |list| && list[i] !in list[..i] && old(list[i].slot.data.Fd?) ==>
                stdio[i].data == Fd(old(list[i].slot.data.fd)) && stdio[i].flags == old(list[i].slot.flags)
      ensures forall c :: c in list ==> c.slot == ZEROED
      ensures forall r: Ref :: Owned(Slots(pool), r) + Owned(stdio, r) == old(Owned(Slots(pool), r))
    {
      hide Owned, Slots, First;
      ghost var were := Slots(list);
      stdio := [];
      NothingOwned();
      for i := 0 to |list|
        invariant |stdio| == i
        invariant forall k: nat :: k < i ==> stdio[k] == if First(list, k) then were[k] else ZEROED
        invariant forall k: nat :: k < i ==> list[k].slot == ZEROED
        invariant forall k: nat :: k < |list| ==> list[k].slot == were[k] || list[k] in list[..i]
        invariant forall r: Ref :: Owned(Slots(pool), r) + Owned(stdio, r) == old(Owned(Slots(pool), r))
      {
        FirstOrNot(list, i);
        MoveOne(list[i], pool);
        assert list[..i + 1] == list[..i] + [list[i]];
      }
      forall i: nat | i < |list| ensures First(list, i) <==> list[i] !in list[..i] {
        FirstOrNot(list, i);
      }
    }

    /** `options.stdio[i] = stdio[i]->container`, and the container is zeroed. */
    method MoveOne(c: Container, ghost pool: seq<Container>)
      requires Apart(pool) && c in pool
      modifies this, c
      ensures stdio == old(stdio) + [old(c.slot)] && c.slot == ZEROED
      ensures forall r: Ref :: Owned(Slots(pool), r) + Owned(stdio, r) == old(Owned(Slots(pool), r) + Owned(stdio, r))
    {
      hide Owned;
      ghost var p :| 0 <= p < |pool| && pool[p] == c;
      ghost var before, were, slot := Slots(pool), stdio, c.slot;
      stdio := stdio + [c.slot];
      c.slot := ZEROED;
      assert Slots(pool) == before[p := ZEROED];
      forall r: Ref ensures Owned(Slots(pool), r) + Owned(stdio, r) == Owned(before, r) + Owned(were, r) {
        OwnedUpdate(before, p, ZEROED, r);
        OwnedAppend(were, slot, r);
      }
    }

    /** The finalizer tests the flags. */
    method Finalize() returns (dropped: multiset<Ref>)
      requires forall i :: 0 <= i < |stdio| ==> Sound(stdio[i])
      modifies this
      ensures stdio == [] && forall r: Ref :: dropped[r] == old(Owned(stdio, r))
    {
      dropped := multiset{};
      for i := 0 to |stdio|
        invariant stdio == old(stdio) && forall r: Ref :: dropped[r] == Owned(stdio[..i], r)
      {
        assert stdio[..i + 1] == stdio[..i] + [stdio[i]];
        forall r: Ref ensures Owned(stdio[..i + 1], r) == Owned(stdio[..i], r) + One(stdio[i], r) {
          OwnedAppend(stdio[..i], stdio[i], r);
        }
        if OwnsStream(stdio[i].flags) {
          dropped := dropped + multiset{stdio[i].data.stream};
        }
      }
      assert stdio[..|stdio|] == stdio;
      stdio := [];
    }
  }

  ghost predicate AllSound(slots: seq<Slot>) {
    forall i :: 0 <= i < |slots| ==> Sound(slots[i])
  }

  /** Finalizers of all containers and of the options, in any order: every stream reference is dropped once,
      unless a descriptor other than 0 still sits in a container. */
  method FinalizeAll(pool: seq<Container>, options: Options, order: seq<nat>) returns (dropped: multiset<Ref>, ok: bool)
    requires Apart(pool) && AllSound(options.stdio)
    requires forall i :: 0 <= i < |order| ==> order[i] <= |pool|
    requires forall i: nat :: i <= |pool| ==> i in order
    modifies pool, options
    ensures ok <==> forall c :: c in pool ==> !Wild(old(c.slot))
    ensures ok ==> forall r: Ref :: dropped[r] == old(Owned(Slots(pool), r) + Owned(options.stdio, r))
  {
    hide Owned, Slots, Wild;
    dropped, ok := multiset{}, true;
    NothingOwned();
    for i := 0 to |order|
      invariant AllSound(options.stdio)
      invariant forall r: Ref ::
                  dropped[r] + Owned(Slots(pool), r) + Owned(options.stdio, r)
                  == old(Owned(Slots(pool), r) + Owned(options.stdio, r))
      invariant forall k :: 0 <= k < |pool| ==>
                  pool[k].slot == old(pool[k].slot) || (!Wild(old(pool[k].slot)) && !Wild(pool[k].slot))
      invariant forall k: nat :: k < |pool| && k in order[..i] ==> !pool[k].slot.data.Stream? && !Wild(pool[k].slot)
      invariant |pool| in order[..i] ==> options.stdio == []
    {
      assert order[..i + 1] == order[..i] + [order[i]];
      if order[i] == |pool| {
        var more := options.Finalize();
        dropped := dropped + more;
      } else {
        var more;
        more, ok := FinalizeOne(pool, order[i]);
        if !ok {
          return;
        }
        dropped := dropped + more;
      }
    }
    assert order[..|order|] == order;
    forall r: Ref ensures Owned(Slots(pool), r) == 0 {
      NoStreams(Slots(pool), r);
    }
  }

  method FinalizeOne(pool: seq<Container>, i: nat) returns (dropped: multiset<Ref>, ok: bool)
    requires Apart(pool) && i < |pool|
    modifies pool[i]
    ensures ok <==> !Wild(old(pool[i].slot))
    ensures ok ==> !pool[i].slot.data.Stream? && !Wild(pool[i].slot)
    ensures ok ==> forall r: Ref :: dropped[r] + Owned(Slots(pool), r) == old(Owned(Slots(pool), r))
    ensures !ok ==> pool[i].slot == old(pool[i].slot)
  {
    hide Owned, Wild;
    ghost var before := Slots(pool);
    dropped, ok := pool[i].Finalize();
    assert Slots(pool) == before[i := pool[i].slot];
    forall r: Ref ensures Owned(Slots(pool), r) + One(before[i], r) == Owned(before, r) + One(pool[i].slot, r) {
      OwnedUpdate(before, i, pool[i].slot, r);
    }
  }

  lemma NothingOwned()
    ensures forall r: Ref :: Owned([], r) == 0
  {
  }

  /** Standard output inherited as a descriptor, in a container that is dropped without having been used. */
  method DescriptorKept() returns (ok: bool)
    ensures !ok
  {
    var c := new Container.InheritFd(1);
    var dropped;
    dropped, ok := c.Finalize();
  }

  /** The usual setting: a pipe for input, and the parent's own output and error, each under its number. */
  method OwnOutput(stream: Ref) returns (options: Options)
    ensures |options.stdio| == 3 && options.stdio[0].data == Stream(stream)
    ensures options.stdio[0].flags == CREATE_PIPE | READABLE_PIPE
    ensures options.stdio[1] == Slot(INHERIT_FD, Fd(1)) && options.stdio[2] == Slot(INHERIT_FD, Fd(2))
  {
    var input := new Container.CreatePipe(stream, true, false, false);
    var output := new Container.InheritFd(1);
    var error := new Container.InheritFd(2);
    options := new Options();
    var list := [input, output, error];
    assert First(list, 0) && First(list, 1) && First(list, 2);
    options.SetStdio(list, list);
  }

  /** One pipe for output and error: the process gets it once. */
  method ListedTwice(stream: Ref) returns (options: Options)
    ensures |options.stdio| == 2 && options.stdio[0].data == Stream(stream) && options.stdio[1] == ZEROED
  {
    var c := new Container.CreatePipe(stream, false, true, false);
    options := new Options();
    var list := [c, c];
    assert First(list, 0) && !First(list, 1);
    options.SetStdio(list, [c]);
  }
}
