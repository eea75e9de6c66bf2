/** Counted objects: a heap of cells with reference slots, and what it means for counts to be right. */
module CountedHeap {
  import opened Wrappers

  type Ref = nat

  /** The signature a closure was compiled for; calling it through another one is undefined. */
  datatype Signature = TimerCall | CloseCall | AllocCall | ReadCall | WriteCall | WorkCall | AfterCall | FsCall
      | UserCall

  datatype Kind =
    | Loop | Buffer | Buffers
    | Closure(signature: Signature)
    | Timer | Stream | StreamData
    | Write | WriteData | Work | WorkData | Fs

  /** `slots` are the fields that own a reference; a null field is `None`. */
  datatype Cell = Cell(kind: Kind, count: int, live: bool, slots: seq<Option<Ref>>)

  type Heap = seq<Cell>

  predicate Live(h: Heap, r: Ref) {
    r < |h| && h[r].live
  }

  /** How often `slots` refers to `r`. */
  function Occurs(slots: seq<Option<Ref>>, r: Ref): nat {
    multiset(slots)[Some(r)]
  }

  /** How many slots of the heap refer to `r`. */
  function Owned(h: Heap, r: Ref): nat {
    if h == [] then 0 else Owned(h[..|h| - 1], r) + Occurs(h[|h| - 1].slots, r)
  }

  function CountOf(h: Heap, r: Ref): int {
    if Live(h, r) then h[r].count else 0
  }

  /** `r`'s count is the number of its owners: in `roots`, and in slots. */
  ghost predicate Right(h: Heap, roots: multiset<Ref>, r: Ref) {
    roots[r] + Owned(h, r) == CountOf(h, r)
  }

  /** Every count is right; a freed object has no owner left and holds nothing, and an object
      without owners is not live. */
  ghost predicate Balanced(h: Heap, roots: multiset<Ref>) {
    && (forall r: Ref :: Right(h, roots, r))
    && (forall r: Ref :: r < |h| ==> if h[r].live then h[r].count >= 1 else h[r].slots == [])
  }

  /** The references of `slots`, as a finalizer drops them. */
  function Refs(slots: seq<Option<Ref>>): multiset<Ref> {
    if slots == [] then multiset{}
    else if slots[0].None? then Refs(slots[1..])
    else Refs(slots[1..]) + multiset{slots[0].value}
  }

  lemma OccursFirst(slots: seq<Option<Ref>>, r: Ref)
    requires slots != []
    ensures Occurs(slots, r) == Occurs(slots[1..], r) + if slots[0] == Some(r) then 1 else 0
  {
    assert slots == [slots[0]] + slots[1..];
    assert multiset(slots) == multiset{slots[0]} + multiset(slots[1..]);
  }

  lemma {:induction false} RefsOccur(slots: seq<Option<Ref>>, r: Ref)
    ensures Refs(slots)[r] == Occurs(slots, r)
  {
    if slots != [] {
      hide Occurs;
      RefsOccur(slots[1..], r);
      OccursFirst(slots, r);
    }
  }

  lemma {:induction false} OwnedUpdate(h: Heap, i: nat, c: Cell, r: Ref)
    requires i < |h|
    ensures Owned(h[i := c], r) + Occurs(h[i].slots, r) == Owned(h, r) + Occurs(c.slots, r)
  {
    var n := |h| - 1;
    if i == n {
      assert h[i := c][..n] == h[..n];
    } else {
      assert h[i := c][..n] == h[..n][i := c];
      OwnedUpdate(h[..n], i, c, r);
    }
  }

  lemma OccursUpdate(slots: seq<Option<Ref>>, k: nat, x: Option<Ref>, r: Ref)
    requires k < |slots|
    ensures Occurs(slots[k := x], r) + (if slots[k] == Some(r) then 1 else 0)
            == Occurs(slots, r) + if x == Some(r) then 1 else 0
  {
  }

  lemma OwnedAppend(h: Heap, c: Cell, r: Ref)
    ensures Owned(h + [c], r) == Owned(h, r) + Occurs(c.slots, r)
  {
    assert (h + [c])[..|h|] == h;
  }

  /** A reference counted in the slots sits in some slot, and conversely. */
  lemma {:induction false} OwnedBySlot(h: Heap, r: Ref)
    ensures Owned(h, r) > 0 <==> exists o, k :: 0 <= o < |h| && 0 <= k < |h[o].slots| && h[o].slots[k] == Some(r)
  {
    if h != [] {
      var n := |h| - 1;
      OwnedBySlot(h[..n], r);
      assert Occurs(h[n].slots, r) > 0 <==> Some(r) in h[n].slots;
      if o, k :| 0 <= o < |h| && 0 <= k < |h[o].slots| && h[o].slots[k] == Some(r) {
        if o < n {
          assert h[..n][o].slots[k] == Some(r);
        }
      }
    }
  }

  lemma {:induction false} TwoOwners(h: Heap, r: Ref, o: nat, o': nat)
    requires o < o' < |h| && Some(r) in h[o].slots && Some(r) in h[o'].slots
    ensures Owned(h, r) >= 2
  {
    var n := |h| - 1;
    if o' < n {
      TwoOwners(h[..n], r, o, o');
    } else {
      var k :| 0 <= k < |h[o].slots| && h[o].slots[k] == Some(r);
      assert h[..n][o].slots[k] == Some(r);
      OwnedBySlot(h[..n], r);
    }
  }

  /** An object of count one sits in the slots of one object only. */
  lemma SingleOwner(h: Heap, roots: multiset<Ref>, r: Ref, o: nat, o': nat)
    requires Balanced(h, roots) && CountOf(h, r) == 1
    requires o < |h| && o' < |h| && Some(r) in h[o].slots && Some(r) in h[o'].slots
    ensures o == o'
  {
    assert Right(h, roots, r);
    if o < o' {
      TwoOwners(h, r, o, o');
    } else if o' < o {
      TwoOwners(h, r, o', o);
    }
  }

  /** What a slot of any object refers to is live. */
  lemma SlotLive(h: Heap, roots: multiset<Ref>, o: nat, k: nat)
    requires Balanced(h, roots) && o < |h| && k < |h[o].slots| && h[o].slots[k].Some?
    ensures Live(h, h[o].slots[k].value)
  {
    OwnedBySlot(h, h[o].slots[k].value);
    assert Right(h, roots, h[o].slots[k].value);
  }

  lemma RootLive(h: Heap, roots: multiset<Ref>, r: Ref)
    requires Balanced(h, roots) && r in roots
    ensures Live(h, r)
  {
    assert Right(h, roots, r);
  }

  // ---- The primitive steps of the C stubs -------------------------------------------------

  function SetCount(h: Heap, r: Ref, count: int): Heap
    requires r < |h|
  {
    h[r := h[r].(count := count)]
  }

  function SetSlot(h: Heap, o: Ref, k: nat, x: Option<Ref>): Heap
    requires o < |h| && k < |h[o].slots|
  {
    h[o := h[o].(slots := h[o].slots[k := x])]
  }

  function Bury(h: Heap, r: Ref): Heap
    requires r < |h|
  {
    h[r := h[r].(count := 0, live := false, slots := [])]
  }

  /** A new object takes over the references its fields are set to; its maker owns the one reference to it. */
  lemma MakeBalanced(h: Heap, roots: multiset<Ref>, kind: Kind, slots: seq<Option<Ref>>)
    requires Balanced(h, roots) && Refs(slots) <= roots
    ensures Balanced(h + [Cell(kind, 1, true, slots)], roots - Refs(slots) + multiset{|h|})
  {
    hide Owned, Occurs;
    var h' := h + [Cell(kind, 1, true, slots)];
    forall r: Ref ensures Right(h', roots - Refs(slots) + multiset{|h|}, r) {
      assert Right(h, roots, r);
      OwnedAppend(h, Cell(kind, 1, true, slots), r);
      RefsOccur(slots, r);
    }
  }

  lemma IncrefBalanced(h: Heap, roots: multiset<Ref>, r: Ref)
    requires Balanced(h, roots) && Live(h, r)
    ensures Balanced(SetCount(h, r, h[r].count + 1), roots + multiset{r})
  {
    hide Owned, Occurs;
    var h' := SetCount(h, r, h[r].count + 1);
    forall x: Ref ensures Right(h', roots + multiset{r}, x) {
      assert Right(h, roots, x);
      OwnedUpdate(h, r, h'[r], x);
    }
  }

  lemma DecrefBalanced(h: Heap, roots: multiset<Ref>, r: Ref)
    requires Balanced(h, roots) && r in roots && r < |h| && h[r].count > 1
    ensures Balanced(SetCount(h, r, h[r].count - 1), roots - multiset{r})
  {
    hide Owned, Occurs;
    var h' := SetCount(h, r, h[r].count - 1);
    RootLive(h, roots, r);
    forall x: Ref ensures Right(h', roots - multiset{r}, x) {
      assert Right(h, roots, x);
      OwnedUpdate(h, r, h'[r], x);
    }
  }

  /** The last reference: the object goes and its slots' references become its finalizer's to drop. */
  lemma BuryBalanced(h: Heap, roots: multiset<Ref>, r: Ref)
    requires Balanced(h, roots) && r in roots && r < |h| && h[r].count == 1
    ensures Balanced(Bury(h, r), roots - multiset{r} + Refs(h[r].slots))
  {
    hide Owned;
    var h' := Bury(h, r);
    RootLive(h, roots, r);
    forall x: Ref ensures Right(h', roots - multiset{r} + Refs(h[r].slots), x) {
      assert Right(h, roots, x);
      OwnedUpdate(h, r, h'[r], x);
      RefsOccur(h[r].slots, x);
    }
  }

  lemma StoreBalanced(h: Heap, roots: multiset<Ref>, o: Ref, k: nat, r: Ref)
    requires Balanced(h, roots) && r in roots && Live(h, o) && k < |h[o].slots| && h[o].slots[k].None?
    ensures Balanced(SetSlot(h, o, k, Some(r)), roots - multiset{r})
  {
    hide Owned, Occurs;
    var h' := SetSlot(h, o, k, Some(r));
    forall x: Ref ensures Right(h', roots - multiset{r}, x) {
      OccursUpdate(h[o].slots, k, Some(r), x);
      assert Right(h, roots, x);
      OwnedUpdate(h, o, h'[o], x);
    }
  }

  lemma TakeBalanced(h: Heap, roots: multiset<Ref>, o: Ref, k: nat)
    requires Balanced(h, roots) && Live(h, o) && k < |h[o].slots| && h[o].slots[k].Some?
    ensures Balanced(SetSlot(h, o, k, None), roots + multiset{h[o].slots[k].value})
  {
    hide Owned, Occurs;
    var h' := SetSlot(h, o, k, None);
    forall x: Ref ensures Right(h', roots + multiset{h[o].slots[k].value}, x) {
      OccursUpdate(h[o].slots, k, None, x);
      assert Right(h, roots, x);
      OwnedUpdate(h, o, h'[o], x);
    }
  }

  /** What releasing references may do to a heap: free objects; a survivor keeps its kind and slots. */
  ghost predicate Shrinks(h: Heap, h': Heap) {
    && |h'| == |h|
    && forall r :: 0 <= r < |h| ==>
         && h'[r].kind == h[r].kind
         && (h'[r].live ==> h[r].live && h'[r].slots == h[r].slots && h'[r].count <= h[r].count)
  }

  /** The fields nobody but the stubs' own read data changes: all of read data, and a handle's loop. */
  function Fixed(c: Cell): seq<Option<Ref>> {
    if c.kind.StreamData? then c.slots
    else if (c.kind.Timer? || c.kind.Stream?) && |c.slots| == 2 then [c.slots[0]]
    else []
  }

  /** Objects keep their kinds, and their fixed fields while they live; new ones have the given kinds. */
  ghost predicate Extended(h: Heap, kinds: seq<Kind>, h': Heap) {
    && |h'| == |h| + |kinds|
    && (forall r :: 0 <= r < |h| ==>
          h'[r].kind == h[r].kind && (h'[r].live ==> h[r].live && Fixed(h'[r]) == Fixed(h[r])))
    && (forall k :: 0 <= k < |kinds| ==> h'[|h| + k].kind == kinds[k])
  }

  /** Only counts differ. */
  ghost predicate SameObjects(h: Heap, h': Heap) {
    |h'| == |h| && forall r :: 0 <= r < |h| ==> h'[r] == h[r].(count := h'[r].count)
  }

  lemma ExtendedThen(h: Heap, kinds: seq<Kind>, h': Heap, h'': Heap)
    requires Extended(h, kinds, h') && (SameObjects(h', h'') || Shrinks(h', h''))
    ensures Extended(h, kinds, h'')
  {
  }

  lemma ExtendedAppend(h: Heap, c: Cell)
    ensures Extended(h, [c.kind], h + [c])
  {
  }

  lemma ExtendedShrunk(h: Heap, h': Heap)
    requires Shrinks(h, h') || SameObjects(h, h')
    ensures Extended(h, [], h')
  {
  }

  lemma ExtendedSelf(h: Heap)
    ensures Extended(h, [], h)
  {
  }

  lemma ExtendedSlot(h: Heap, h': Heap, o: Ref, k: nat, v: Option<Ref>)
    requires Extended(h, [], h') && o < |h'| && k < |h'[o].slots|
    requires !h'[o].kind.StreamData? && (k == 0 ==> !h'[o].kind.Timer? && !h'[o].kind.Stream?)
    ensures Extended(h, [], SetSlot(h', o, k, v))
  {
  }

  lemma ExtendedCount(h: Heap, r: Ref, count: int)
    requires r < |h|
    ensures Extended(h, [], SetCount(h, r, count))
  {
  }

  /** Releases before a field of read data changes. */
  lemma ExtendedLater(h: Heap, h': Heap, h'': Heap, d: Ref, v: Option<Ref>)
    requires Shrinks(h, h') && Live(h', d) && |h'[d].slots| > 0 && Extended(SetSlot(h', d, 0, v), [], h'')
    ensures Live(h, d) && h[d].kind == h'[d].kind && h[d].slots == h'[d].slots
    ensures Extended(SetSlot(h, d, 0, v), [], h'')
  {
    assert h[d].slots == h'[d].slots;
  }

  function LiveCount(h: Heap): nat {
    if h == [] then 0 else LiveCount(h[..|h| - 1]) + if h[|h| - 1].live then 1 else 0
  }

  lemma {:induction false} LiveCountUpdate(h: Heap, i: nat, c: Cell)
    requires i < |h|
    ensures LiveCount(h[i := c]) + (if h[i].live then 1 else 0) == LiveCount(h) + if c.live then 1 else 0
  {
    var n := |h| - 1;
    if i == n {
      assert h[i := c][..n] == h[..n];
    } else {
      assert h[i := c][..n] == h[..n][i := c];
      LiveCountUpdate(h[..n], i, c);
    }
  }

  /** The buffers waiting in streams' read data: returned by an allocation callback, not yet read into. */
  function Waiting(h: Heap): multiset<Ref> {
    if h == [] then multiset{} else Waiting(h[..|h| - 1]) + HoldsBuffer(h[|h| - 1])
  }

  function HoldsBuffer(c: Cell): multiset<Ref> {
    if c.live && c.kind.StreamData? && |c.slots| > 0 && c.slots[0].Some? then multiset{c.slots[0].value} else multiset{}
  }

  /** An object that holds the same buffer as before, or none as before. */
  lemma {:induction false} WaitingSame(h: Heap, i: nat, c: Cell)
    requires i < |h| && HoldsBuffer(h[i]) == HoldsBuffer(c)
    ensures Waiting(h[i := c]) == Waiting(h)
  {
    hide HoldsBuffer;
    var n := |h| - 1;
    if i == n {
      assert h[i := c][..n] == h[..n];
    } else {
      assert h[i := c][..n] == h[..n][i := c];
      WaitingSame(h[..n], i, c);
    }
  }

  /** An object that held no buffer gets one. */
  lemma {:induction false} WaitingGains(h: Heap, i: nat, c: Cell)
    requires i < |h| && HoldsBuffer(h[i]) == multiset{}
    ensures Waiting(h[i := c]) == Waiting(h) + HoldsBuffer(c)
  {
    hide HoldsBuffer;
    var n := |h| - 1;
    if i == n {
      assert h[i := c][..n] == h[..n];
    } else {
      assert h[i := c][..n] == h[..n][i := c];
      WaitingGains(h[..n], i, c);
      Exchange(Waiting(h[..n]), HoldsBuffer(c), HoldsBuffer(h[n]));
    }
  }

  lemma WaitingLoses(h: Heap, i: nat, c: Cell)
    requires i < |h| && HoldsBuffer(c) == multiset{}
    ensures Waiting(h) == Waiting(h[i := c]) + HoldsBuffer(h[i])
  {
    hide HoldsBuffer, Waiting;
    assert h[i := c][i := h[i]] == h;
    WaitingGains(h[i := c], i, h[i]);
  }

  lemma Exchange(a: multiset<Ref>, b: multiset<Ref>, c: multiset<Ref>)
    ensures a + b + c == a + c + b && a + b + c == a + (c + b)
  {
  }

  lemma SetCountKeeps(h: Heap, r: Ref, count: int)
    requires Live(h, r) && count <= h[r].count
    ensures Shrinks(h, SetCount(h, r, count))
    ensures LiveCount(SetCount(h, r, count)) == LiveCount(h)
    ensures Waiting(SetCount(h, r, count)) == Waiting(h)
  {
    LiveCountUpdate(h, r, h[r].(count := count));
    WaitingSame(h, r, h[r].(count := count));
  }

  lemma BuryShrinks(h: Heap, r: Ref)
    requires Live(h, r)
    ensures Shrinks(h, Bury(h, r))
    ensures LiveCount(Bury(h, r)) + 1 == LiveCount(h)
    ensures Waiting(h) == Waiting(Bury(h, r)) + HoldsBuffer(h[r])
  {
    LiveCountUpdate(h, r, h[r].(count := 0, live := false, slots := []));
    WaitingLoses(h, r, h[r].(count := 0, live := false, slots := []));
  }

  lemma ShrinksSelf(h: Heap)
    ensures Shrinks(h, h)
  {
  }

  lemma ShrinksTransitive(h: Heap, h': Heap, h'': Heap)
    requires Shrinks(h, h') && Shrinks(h', h'')
    ensures Shrinks(h, h'')
  {
  }
}
