/** What the stubs rely on between two steps: the shape of objects, and what the loop may still call. */
module LoopProtocol {
  import opened CountedHeap
  import opened Wrappers

  /** A callback in progress and the references its callee owns; during an allocation callback the
      stub itself owns the read data it took off the stream. */
  datatype Frame = UserFrame(args: seq<Ref>) | AllocFrame(stream: Ref, data: Ref, args: seq<Ref>)

  /** libuv's side: what it references, which handles are started or closing, which work has not run.
      The rest records, for the properties, the closure that ends an object's time in the loop (given to
      `close` or with a request), the buffers or work closure given with a request, what a started handle
      has (a timer its closure, a stream its read data), and the handles that were started, stopped or
      handed back read data after `close`. */
  datatype Control = Control(inLoop: set<Ref>, active: set<Ref>, closing: set<Ref>, queued: set<Ref>,
                             frame: Option<Frame>, finish: map<Ref, Ref>, payload: map<Ref, Ref>,
                             started: map<Ref, Ref>, disturbed: set<Ref>)

  const NOTHING_YET := Control({}, {}, {}, {}, None, map[], map[], map[], {})

  predicate IsKind(h: Heap, slot: Option<Ref>, kind: Kind) {
    slot.Some? && slot.value < |h| && h[slot.value].kind == kind
  }

  predicate NullOr(h: Heap, slot: Option<Ref>, kind: Kind) {
    slot.None? || IsKind(h, slot, kind)
  }

  /** Objects only the stubs see; each is made by one stub and owned once. */
  predicate Internal(kind: Kind) {
    kind.StreamData? || kind.WriteData? || kind.WorkData?
  }

  predicate IsHandle(kind: Kind) {
    kind.Timer? || kind.Stream?
  }

  predicate IsRequest(kind: Kind) {
    kind.Write? || kind.Work? || kind.Fs?
  }

  // ---- Object shapes ----------------------------------------------------------------------

  /** The closures a request's data holds existed before the request. */
  predicate ClosuresOlder(h: Heap, slots: seq<Option<Ref>>, r: Ref) {
    forall k :: 0 <= k < |slots| && slots[k].Some? ==>
      slots[k].value < |h| && (h[slots[k].value].kind.Closure? ==> slots[k].value < r)
  }

  predicate DataOlder(h: Heap, slot: Option<Ref>, r: Ref) {
    slot.Some? && slot.value < |h| ==> ClosuresOlder(h, h[slot.value].slots, r)
  }

  predicate Shaped(h: Heap, r: Ref)
    requires r < |h|
  {
    var s := h[r].slots;
    && (Internal(h[r].kind) ==> h[r].count == 1)
    && match h[r].kind
       case Loop | Buffer => s == []
       case Buffers => forall k :: 0 <= k < |s| ==> NullOr(h, s[k], Buffer)
       case Closure(_) =>
         forall k :: 0 <= k < |s| && s[k].Some? ==> s[k].value < r && !Internal(h[s[k].value].kind)
       case Timer =>
         && |s| == 2 && IsKind(h, s[0], Loop)
         && (s[1].Some? ==> s[1].value < |h| && h[s[1].value].kind.Closure?)
       case Stream =>
         && |s| == 2 && IsKind(h, s[0], Loop)
         && (s[1].Some? ==> s[1].value < |h| && (h[s[1].value].kind.Closure? || h[s[1].value].kind.StreamData?))
       case StreamData =>
         && |s| == 3 && NullOr(h, s[0], Buffer)
         && IsKind(h, s[1], Closure(AllocCall)) && IsKind(h, s[2], Closure(ReadCall))
       case Write => |s| == 1 && NullOr(h, s[0], WriteData) && DataOlder(h, s[0], r)
       case WriteData => |s| == 2 && NullOr(h, s[0], Closure(WriteCall)) && IsKind(h, s[1], Buffers)
       case Work => |s| == 2 && IsKind(h, s[0], Loop) && NullOr(h, s[1], WorkData) && DataOlder(h, s[1], r)
       case WorkData => |s| == 2 && NullOr(h, s[0], Closure(WorkCall)) && NullOr(h, s[1], Closure(AfterCall))
       case Fs =>
         && |s| == 3 && IsKind(h, s[0], Loop) && NullOr(h, s[1], Closure(FsCall)) && NullOr(h, s[2], Buffers)
         && ClosuresOlder(h, s, r)
  }

  // ---- What the loop may call -------------------------------------------------------------

  predicate Allocating(c: Control, x: Ref) {
    c.frame.Some? && c.frame.value.AllocFrame? && c.frame.value.stream == x
  }

  /** A started handle has its closures, a closing one its close closure unless it was disturbed, and a
      closed one nothing. */
  predicate HandleOk(h: Heap, c: Control, x: Ref)
    requires x < |h| && |h[x].slots| == 2
  {
    var data := h[x].slots[1];
    && (x in c.active ==>
          x in c.inLoop && x !in c.closing && x in c.started
          && (h[x].kind.Timer? ==> data == Some(c.started[x]) && IsKind(h, data, Closure(TimerCall)))
          && (h[x].kind.Stream? ==> Allocating(c, x) || (data == Some(c.started[x]) && IsKind(h, data, StreamData))))
    && (x in c.closing ==>
          x in c.inLoop && x in c.finish
          && if x in c.disturbed then !IsKind(h, data, Closure(CloseCall))
             else data == Some(c.finish[x]) && IsKind(h, data, Closure(CloseCall)))
    && (x !in c.inLoop && x !in c.disturbed ==> data.None?)
    && (x in c.inLoop && x in c.disturbed ==> x in c.closing)
  }

  predicate Holds(h: Heap, slot: Option<Ref>, kind: Kind, k: nat, r: Ref) {
    IsKind(h, slot, kind) && k < |h[slot.value].slots| && h[slot.value].slots[k] == Some(r)
  }

  /** A submitted request still has the closures and the buffers it was submitted with. */
  predicate RequestOk(h: Heap, c: Control, x: Ref)
    requires x < |h| && |h[x].slots| >= 1 && (h[x].kind.Work? ==> |h[x].slots| >= 2) && (h[x].kind.Fs?
            ==> |h[x].slots| >= 3)
  {
    match h[x].kind
    case Write => x in c.inLoop ==>
      && x in c.finish && Holds(h, h[x].slots[0], WriteData, 0, c.finish[x])
      && x in c.payload && Holds(h, h[x].slots[0], WriteData, 1, c.payload[x])
    case Work =>
      && (x in c.inLoop ==> x in c.finish && Holds(h, h[x].slots[1], WorkData, 1, c.finish[x]))
      && (x in c.queued ==> x in c.inLoop && x in c.payload && Holds(h, h[x].slots[1], WorkData, 0, c.payload[x]))
    case Fs => x in c.inLoop ==>
      && x in c.finish && h[x].slots[1] == Some(c.finish[x])
      && x in c.payload && h[x].slots[2] == Some(c.payload[x])
    case _ => true
  }

  predicate ObjectOk(h: Heap, c: Control, x: Ref)
    requires x < |h|
  {
    && Shaped(h, x)
    && (IsHandle(h[x].kind) ==> HandleOk(h, c, x))
    && (IsRequest(h[x].kind) ==> RequestOk(h, c, x))
  }

  predicate InLoopOk(h: Heap, c: Control, x: Ref) {
    Live(h, x) && (IsHandle(h[x].kind) || IsRequest(h[x].kind))
  }

  predicate FrameOk(h: Heap, c: Control) {
    c.frame.Some? && c.frame.value.AllocFrame? ==>
      var f := c.frame.value;
      && f.stream in c.inLoop && f.stream < |h| && h[f.stream].kind.Stream?
      && Live(h, f.data) && h[f.data].kind.StreamData? && |h[f.data].slots| == 3 && h[f.data].slots[0].None?
  }

  /** The invariant of the protocol. */
  ghost predicate Fine(h: Heap, c: Control) {
    && (forall x :: 0 <= x < |h| && h[x].live ==> ObjectOk(h, c, x))
    && (forall x :: x in c.inLoop ==> InLoopOk(h, c, x))
    && c.active + c.closing + c.queued <= c.inLoop
    && (forall x :: x in c.active + c.closing ==> x < |h| && IsHandle(h[x].kind))
    && (forall x :: x in c.queued ==> x < |h| && h[x].kind.Work?)
    && (forall x :: x in c.disturbed ==> x < |h|)
    && FrameOk(h, c)
  }

  // ---- The invariant under releases -------------------------------------------------------

  lemma ObjectKept(h: Heap, h': Heap, roots: multiset<Ref>, c: Control, x: Ref)
    requires Shrinks(h, h') && Balanced(h', roots)
    requires x < |h| && h'[x].live && ObjectOk(h, c, x)
    ensures ObjectOk(h', c, x)
  {
    assert forall k :: 0 <= k < |h'[x].slots| && h'[x].slots[k].Some? ==> Live(h', h'[x].slots[k].value) by {
      forall k | 0 <= k < |h'[x].slots| && h'[x].slots[k].Some? ensures Live(h', h'[x].slots[k].value) {
        SlotLive(h', roots, x, k);
      }
    }
    hide Balanced;
  }

  /** Dropping references keeps the invariant, as long as what the loop and the frame own is live. */
  lemma FineKept(h: Heap, h': Heap, roots: multiset<Ref>, c: Control)
    requires Fine(h, c) && Shrinks(h, h') && Balanced(h', roots)
    requires forall x :: x in c.inLoop ==> Live(h', x)
    requires c.frame.Some? && c.frame.value.AllocFrame? ==> Live(h', c.frame.value.data)
    ensures Fine(h', c)
  {
    hide Balanced, ObjectOk;
    forall x | 0 <= x < |h'| && h'[x].live ensures ObjectOk(h', c, x) {
      ObjectKept(h, h', roots, c, x);
    }
  }

  // ---- The invariant when one object changes ----------------------------------------------

  /** The controls agree on every object but `x`. */
  ghost predicate AgreeBut(c: Control, c': Control, x: Ref) {
    && c'.inLoop - {x} == c.inLoop - {x} && c'.active - {x} == c.active - {x}
    && c'.closing - {x} == c.closing - {x} && c'.queued - {x} == c.queued - {x}
    && c'.disturbed - {x} == c.disturbed - {x}
    && (forall y :: y != x && y in c.finish ==> y in c'.finish && c'.finish[y] == c.finish[y])
    && (forall y :: y != x && y in c.payload ==> y in c'.payload && c'.payload[y] == c.payload[y])
    && (forall y :: y != x && y in c.started ==> y in c'.started && c'.started[y] == c.started[y])
    && (forall y :: y != x ==> (Allocating(c', y) <==> Allocating(c, y)))
  }

  /** Only `x` changes, and not its kind; `x` may be a new object at the end of the heap. */
  ghost predicate SameBut(h: Heap, h': Heap, x: Ref) {
    && x < |h'| && |h'| == (if x < |h| then |h| else |h| + 1)
    && (forall y :: 0 <= y < |h| && y != x ==> h'[y] == h[y])
    && (x < |h| ==> h'[x].kind == h[x].kind && h'[x].live == h[x].live && !Internal(h[x].kind))
  }

  /** Everything `y` depends on is as before. */
  ghost predicate Seen(h: Heap, h': Heap, y: Ref) {
    && y < |h| <= |h'| && h'[y] == h[y]
    && (forall z :: 0 <= z < |h| ==> h'[z].kind == h[z].kind)
    && (forall k :: 0 <= k < |h[y].slots| && h[y].slots[k].Some? && h[y].slots[k].value < |h|
          && (h[h[y].slots[k].value].kind.WriteData? || h[h[y].slots[k].value].kind.WorkData?)
          ==> h'[h[y].slots[k].value].slots == h[h[y].slots[k].value].slots)
  }

  ghost predicate AgreeOn(c: Control, c': Control, y: Ref) {
    && (y in c'.inLoop <==> y in c.inLoop) && (y in c'.active <==> y in c.active)
    && (y in c'.closing <==> y in c.closing) && (y in c'.queued <==> y in c.queued)
    && (y in c'.disturbed <==> y in c.disturbed)
    && (y in c.finish ==> y in c'.finish && c'.finish[y] == c.finish[y])
    && (y in c.payload ==> y in c'.payload && c'.payload[y] == c.payload[y])
    && (y in c.started ==> y in c'.started && c'.started[y] == c.started[y])
    && (Allocating(c', y) <==> Allocating(c, y))
  }

  lemma AgreeAt(c: Control, c': Control, x: Ref, y: Ref)
    requires AgreeBut(c, c', x) && y != x
    ensures AgreeOn(c, c', y)
  {
    assert y in c'.inLoop <==> y in c'.inLoop - {x};
    assert y in c'.active <==> y in c'.active - {x};
    assert y in c'.closing <==> y in c'.closing - {x};
    assert y in c'.queued <==> y in c'.queued - {x};
    assert y in c'.disturbed <==> y in c'.disturbed - {x};
  }

  lemma SeenShaped(h: Heap, h': Heap, y: Ref)
    requires Seen(h, h', y) && Shaped(h, y)
    ensures Shaped(h', y)
  {
  }

  lemma SeenRequest(h: Heap, h': Heap, c: Control, c': Control, y: Ref)
    requires Seen(h, h', y) && AgreeOn(c, c', y)
    requires Shaped(h, y)
    ensures IsHandle(h[y].kind) && HandleOk(h, c, y) ==> HandleOk(h', c', y)
    ensures IsRequest(h[y].kind) && RequestOk(h, c, y) ==> RequestOk(h', c', y)
  {
    assert forall k :: 0 <= k < |h[y].slots| ==> h'[y].slots[k] == h[y].slots[k];
  }

  lemma OtherObjectOk(h: Heap, h': Heap, c: Control, c': Control, x: Ref, y: Ref)
    requires SameBut(h, h', x) && AgreeBut(c, c', x)
    requires y < |h| && y != x && ObjectOk(h, c, y)
    ensures ObjectOk(h', c', y)
  {
    AgreeAt(c, c', x, y);
    SeenShaped(h, h', y);
    SeenRequest(h, h', c, c', y);
  }

  lemma FineUpdated(h: Heap, h': Heap, c: Control, c': Control, x: Ref)
    requires Fine(h, c) && SameBut(h, h', x) && AgreeBut(c, c', x)
    requires h'[x].live && ObjectOk(h', c', x)
    requires x in c'.inLoop ==> InLoopOk(h', c', x)
    requires x in c'.active + c'.closing ==> x in c'.inLoop && IsHandle(h'[x].kind)
    requires x in c'.queued ==> x in c'.inLoop && h'[x].kind.Work?
    requires FrameOk(h', c')
    ensures Fine(h', c')
  {
    hide ObjectOk, FrameOk;
    forall y | 0 <= y < |h'| && h'[y].live ensures ObjectOk(h', c', y) {
      if y != x {
        OtherObjectOk(h, h', c, c', x, y);
      }
    }
    forall y | y in c'.inLoop ensures InLoopOk(h', c', y) {
      if y != x { assert y in c.inLoop - {x}; }
    }
    forall y | y in c'.active + c'.closing ensures y in c'.inLoop && y < |h'| && IsHandle(h'[y].kind) {
      if y != x { assert y in (c.active - {x}) + (c.closing - {x}); assert y in c.inLoop - {x}; }
    }
    forall y | y in c'.disturbed ensures y < |h'| {
      if y != x { assert y in c.disturbed - {x}; }
    }
    forall y | y in c'.queued ensures y in c'.inLoop && y < |h'| && h'[y].kind.Work? {
      if y != x { assert y in c.queued - {x}; assert y in c.inLoop - {x}; }
    }
  }

  /** A field of the internal object `d` changes; only `x` may have it as its data. */
  ghost predicate FieldOf(h: Heap, h': Heap, d: Ref, x: Ref) {
    && d < |h| && |h'| == |h| && d != x && Internal(h[d].kind)
    && h'[d].kind == h[d].kind && h'[d].live && h[d].live
    && (forall y :: 0 <= y < |h| && y != d ==> h'[y] == h[y])
    && (h[d].kind.StreamData? || forall y :: 0 <= y < |h| && Some(d) in h[y].slots ==> y == x)
  }

  lemma BesideFieldOk(h: Heap, h': Heap, c: Control, c': Control, d: Ref, x: Ref, y: Ref)
    requires FieldOf(h, h', d, x) && AgreeBut(c, c', x)
    requires y < |h| && y != x && y != d && ObjectOk(h, c, y)
    ensures ObjectOk(h', c', y)
  {
    AgreeAt(c, c', x, y);
    assert forall k :: 0 <= k < |h[y].slots| ==> h[y].slots[k] in h[y].slots;
    SeenShaped(h, h', y);
    SeenRequest(h, h', c, c', y);
  }

  lemma FineFieldChanged(h: Heap, h': Heap, c: Control, c': Control, d: Ref, x: Ref)
    requires Fine(h, c) && FieldOf(h, h', d, x) && AgreeBut(c, c', x)
    requires x < |h| && (h'[x].live ==> ObjectOk(h', c', x)) && ObjectOk(h', c', d)
    requires x in c'.inLoop ==> InLoopOk(h', c', x)
    requires x in c'.active + c'.closing ==> x in c'.inLoop && IsHandle(h'[x].kind)
    requires x in c'.queued ==> x in c'.inLoop && h'[x].kind.Work?
    requires FrameOk(h', c')
    ensures Fine(h', c')
  {
    hide ObjectOk, FrameOk;
    forall y | 0 <= y < |h'| && h'[y].live ensures ObjectOk(h', c', y) {
      if y != x && y != d {
        BesideFieldOk(h, h', c, c', d, x, y);
      }
    }
    forall y | y in c'.inLoop ensures InLoopOk(h', c', y) {
      if y != x { assert y in c.inLoop - {x}; }
    }
    forall y | y in c'.active + c'.closing ensures y in c'.inLoop && y < |h'| && IsHandle(h'[y].kind) {
      if y != x { assert y in (c.active - {x}) + (c.closing - {x}); assert y in c.inLoop - {x}; }
    }
    forall y | y in c'.disturbed ensures y < |h'| {
      if y != x { assert y in c.disturbed - {x}; }
    }
    forall y | y in c'.queued ensures y in c'.inLoop && y < |h'| && h'[y].kind.Work? {
      if y != x { assert y in c.queued - {x}; assert y in c.inLoop - {x}; }
    }
  }

  // ---- The loop's own moves ---------------------------------------------------------------

  /** After a start: libuv refuses one on a handle that is closing or closed, but the data is replaced. */
  function Started(c: Control, x: Ref, v: Ref): Control {
    if x in c.inLoop && x !in c.closing then c.(active := c.active + {x}, started := c.started[x := v])
    else c.(disturbed := c.disturbed + {x})
  }

  function Stopped(c: Control, x: Ref): Control {
    c.(active := c.active - {x}, disturbed := if x in c.closing then c.disturbed + {x} else c.disturbed)
  }

  function CloseAsked(c: Control, x: Ref, cb: Ref): Control {
    c.(active := c.active - {x}, closing := c.closing + {x}, finish := c.finish[x := cb])
  }

  function Added(c: Control, x: Ref): Control {
    c.(inLoop := c.inLoop + {x})
  }

  predicate DataFits(h: Heap, kind: Kind, v: Option<Ref>) {
    v.Some? ==> v.value < |h| && (h[v.value].kind.Closure? || (kind.Stream? && h[v.value].kind.StreamData?))
  }

  /** The heap after `v` became the data of `x`. */
  function NewData(h: Heap, x: Ref, v: Option<Ref>): Heap {
    if x < |h| && |h[x].slots| == 2 then SetSlot(h, x, 1, v) else h
  }

  /** No data is set, and dropping one reference does not free the object. */
  predicate Unset(h: Heap, x: Ref) {
    Live(h, x) && |h[x].slots| == 2 && h[x].slots[1].None? && h[x].count > 1
  }

  /** The heap after `v` became the data of `x` and one reference to `x` was dropped. */
  function Replaced(h: Heap, x: Ref, v: Option<Ref>): Heap {
    if x < |h| then SetCount(NewData(h, x, v), x, h[x].count - 1) else h
  }

  lemma NewDataKinds(h: Heap, kinds: seq<Kind>, made: Heap, x: Ref, v: Option<Ref>, h': Heap)
    requires Extended(h, kinds, made) && Shrinks(NewData(made, x, v), h')
    requires x < |made| && !made[x].kind.StreamData?
    ensures Extended(h, kinds, h')
  {
  }

  /** A handle's data is replaced. */
  lemma HandleSetFine(h: Heap, c: Control, c': Control, x: Ref, v: Option<Ref>)
    requires Fine(h, c) && Live(h, x) && IsHandle(h[x].kind) && |h[x].slots| == 2
    requires DataFits(h, h[x].kind, v)
    requires AgreeBut(c, c', x) && c'.inLoop == c.inLoop && (x in c'.queued ==> x in c.queued)
    requires HandleOk(SetSlot(h, x, 1, v), c', x)
    requires FrameOk(SetSlot(h, x, 1, v), c')
    ensures Fine(SetSlot(h, x, 1, v), c')
  {
    hide Fine, FrameOk;
    var h' := SetSlot(h, x, 1, v);
    assert forall z :: 0 <= z < |h| ==> h'[z].kind == h[z].kind;
    FineShape(h, c, x);
    FineUpdated(h, h', c, c', x);
  }

  lemma FineShape(h: Heap, c: Control, x: Ref)
    requires Fine(h, c) && x < |h|
    ensures h[x].live ==> ObjectOk(h, c, x)
    ensures x in c.inLoop ==> InLoopOk(h, c, x)
    ensures x in c.queued ==> x in c.inLoop && h[x].kind.Work?
    ensures x in c.active + c.closing ==> x in c.inLoop && IsHandle(h[x].kind)
  {
    hide ObjectOk, FrameOk;
  }

  /** The control changes for one handle or request, its object as it was. */
  lemma ControlFine(h: Heap, c: Control, c': Control, x: Ref)
    requires Fine(h, c) && Live(h, x) && !Internal(h[x].kind)
    requires AgreeBut(c, c', x) && ObjectOk(h, c', x)
    requires x in c'.inLoop ==> IsHandle(h[x].kind) || IsRequest(h[x].kind)
    requires x in c'.active + c'.closing ==> x in c'.inLoop && IsHandle(h[x].kind)
    requires x in c'.queued ==> x in c'.inLoop && h[x].kind.Work?
    requires FrameOk(h, c')
    ensures Fine(h, c')
  {
    hide ObjectOk, FrameOk, Fine;
    FineUpdated(h, h, c, c', x);
  }

  /** A new object that nothing refers to yet and that the loop does not know. */
  lemma AppendFine(h: Heap, c: Control, cell: Cell)
    requires Fine(h, c) && cell.live
    requires Shaped(h + [cell], |h|)
    requires IsHandle(cell.kind) ==> cell.slots[1].None?
    ensures Fine(h + [cell], c)
  {
    hide Fine, FrameOk, Shaped;
    var x := |h|;
    NewIsUnknown(h, c);
    FrameAppend(h, c, cell);
    FineUpdated(h, h + [cell], c, c, x);
  }

  lemma NewIsUnknown(h: Heap, c: Control)
    requires Fine(h, c)
    ensures |h| !in c.inLoop + c.active + c.closing + c.queued + c.disturbed
  {
    hide ObjectOk, FrameOk;
    assert forall y :: y in c.inLoop ==> InLoopOk(h, c, y);
  }

  lemma FrameAppend(h: Heap, c: Control, cell: Cell)
    requires Fine(h, c)
    ensures FrameOk(h + [cell], c)
  {
    hide ObjectOk;
  }

  lemma CountFine(h: Heap, c: Control, x: Ref, count: int)
    requires Fine(h, c) && Live(h, x) && !Internal(h[x].kind)
    ensures Fine(SetCount(h, x, count), c)
  {
    hide Fine, FrameOk, ObjectOk;
    var h' := SetCount(h, x, count);
    FineShape(h, c, x);
    ObjectCount(h, c, x, count);
    FrameCount(h, c, x, count);
    FineUpdated(h, h', c, c, x);
  }

  lemma ObjectCount(h: Heap, c: Control, x: Ref, count: int)
    requires x < |h| && !Internal(h[x].kind) && ObjectOk(h, c, x)
    ensures ObjectOk(SetCount(h, x, count), c, x)
  {
    var h' := SetCount(h, x, count);
    assert forall z :: 0 <= z < |h| ==> h'[z].kind == h[z].kind && h'[z].slots == h[z].slots;
  }

  lemma FrameCount(h: Heap, c: Control, x: Ref, count: int)
    requires Fine(h, c) && x < |h|
    ensures FrameOk(SetCount(h, x, count), c)
  {
    hide ObjectOk;
  }

  lemma HandleAddedFine(h: Heap, c: Control, x: Ref)
    requires Fine(h, c) && Live(h, x) && IsHandle(h[x].kind) && |h[x].slots| == 2 && h[x].slots[1].None?
    requires x !in c.inLoop + c.active + c.closing + c.queued + c.disturbed
    ensures Fine(h, Added(c, x))
  {
    hide Fine, FrameOk;
    FineShape(h, c, x);
    FrameControl(h, c, Added(c, x));
    ControlFine(h, c, Added(c, x), x);
  }

  lemma FrameControl(h: Heap, c: Control, c': Control)
    requires Fine(h, c) && c'.frame == c.frame && c.inLoop <= c'.inLoop
    ensures FrameOk(h, c')
  {
    hide ObjectOk;
  }

  lemma FrameData(h: Heap, c: Control, x: Ref, v: Option<Ref>)
    requires Fine(h, c) && x < |h| && IsHandle(h[x].kind) && |h[x].slots| == 2
    ensures FrameOk(SetSlot(h, x, 1, v), c)
  {
    hide ObjectOk;
  }

  lemma StartedFine(h: Heap, c: Control, x: Ref, v: Ref)
    requires Fine(h, c) && Live(h, x)
    requires if h[x].kind.Timer? then IsKind(h, Some(v), Closure(TimerCall))
             else h[x].kind.Stream? && IsKind(h, Some(v), StreamData)
    ensures |h[x].slots| == 2 && DataFits(h, h[x].kind, Some(v)) && AgreeBut(c, Started(c, x, v), x)
    ensures HandleOk(SetSlot(h, x, 1, Some(v)), Started(c, x, v), x)
    ensures FrameOk(SetSlot(h, x, 1, Some(v)), Started(c, x, v))
  {
    hide Fine;
    FineShape(h, c, x);
    FrameData(h, c, x, Some(v));
  }

  lemma StoppedFine(h: Heap, c: Control, x: Ref)
    requires Fine(h, c) && Live(h, x) && IsHandle(h[x].kind)
    ensures |h[x].slots| == 2 && DataFits(h, h[x].kind, None) && AgreeBut(c, Stopped(c, x), x)
    ensures HandleOk(SetSlot(h, x, 1, None), Stopped(c, x), x) && FrameOk(SetSlot(h, x, 1, None), Stopped(c, x))
  {
    hide Fine;
    FineShape(h, c, x);
    FrameData(h, c, x, None);
  }

  lemma ClosedFine(h: Heap, c: Control, x: Ref, cb: Ref)
    requires Fine(h, c) && Live(h, x) && IsHandle(h[x].kind)
    requires IsKind(h, Some(cb), Closure(CloseCall)) && x in c.inLoop && x !in c.closing
    ensures |h[x].slots| == 2 && DataFits(h, h[x].kind, Some(cb)) && AgreeBut(c, CloseAsked(c, x, cb), x)
    ensures HandleOk(SetSlot(h, x, 1, Some(cb)), CloseAsked(c, x, cb), x)
            && FrameOk(SetSlot(h, x, 1, Some(cb)), CloseAsked(c, x, cb))
  {
    hide Fine;
    FineShape(h, c, x);
    FrameData(h, c, x, Some(cb));
  }

  // ---- Shapes of new objects --------------------------------------------------------------

  lemma ShapedHandle(h: Heap, kind: Kind, l: Ref)
    requires IsHandle(kind) && IsKind(h, Some(l), Loop)
    ensures Shaped(h + [Cell(kind, 1, true, [Some(l), None])], |h|)
  {
  }

  function Somes(parts: seq<Ref>): (slots: seq<Option<Ref>>)
    ensures |slots| == |parts| && forall k :: 0 <= k < |parts| ==> slots[k] == Some(parts[k])
  {
    seq(|parts|, k requires 0 <= k < |parts| => Some(parts[k]))
  }

  lemma ShapedOwner(h: Heap, kind: Kind, parts: seq<Ref>)
    requires kind.Closure? || kind.Buffers?
    requires forall k :: 0 <= k < |parts| ==>
               parts[k] < |h| && if kind.Buffers? then h[parts[k]].kind == Buffer else !Internal(h[parts[k]].kind)
    ensures Shaped(h + [Cell(kind, 1, true, Somes(parts))], |h|)
  {
  }

  lemma ShapedReadData(h: Heap, allocCb: Ref, readCb: Ref)
    requires IsKind(h, Some(allocCb), Closure(AllocCall)) && IsKind(h, Some(readCb), Closure(ReadCall))
    ensures Shaped(h + [Cell(StreamData, 1, true, [None, Some(allocCb), Some(readCb)])], |h|)
  {
  }

  lemma HandleShape(h: Heap, c: Control, x: Ref)
    requires Fine(h, c) && Live(h, x) && IsHandle(h[x].kind)
    ensures |h[x].slots| == 2 && IsKind(h, h[x].slots[0], Loop)
  {
    FineShape(h, c, x);
  }

  // ---- Callbacks --------------------------------------------------------------------------

  function InUser(c: Control, args: seq<Ref>): Control {
    c.(frame := Some(UserFrame(args)))
  }

  function Fired(c: Control, x: Ref, again: bool): Control {
    c.(active := if again then c.active else c.active - {x})
  }

  function Closed(c: Control, x: Ref): Control {
    c.(inLoop := c.inLoop - {x}, closing := c.closing - {x})
  }

  function GaveBuffer(c: Control, x: Ref, data: Ref): Control {
    c.(frame := None, started := c.started[x := data],
       disturbed := if x in c.closing then c.disturbed + {x} else c.disturbed)
  }

  /** Entering or leaving a user callback changes nothing the stubs rely on. */
  lemma FrameFine(h: Heap, c: Control, c': Control)
    requires Fine(h, c) && c.frame != c'.frame
    requires c.frame.None? || c.frame.value.UserFrame?
    requires c'.frame.None? || c'.frame.value.UserFrame?
    requires c' == c.(frame := c'.frame)
    ensures Fine(h, c')
  {
    hide Shaped;
    forall x | 0 <= x < |h| && h[x].live ensures ObjectOk(h, c', x) {
      assert ObjectOk(h, c, x);
    }
    forall x | x in c'.inLoop ensures InLoopOk(h, c', x) {
      assert InLoopOk(h, c, x);
    }
  }

  lemma FiredFine(h: Heap, c: Control, x: Ref, again: bool)
    requires Fine(h, c) && x in c.active && c.frame.None? && x < |h| && h[x].kind.Timer?
    ensures Fine(h, Fired(c, x, again)) && Live(h, x)
    ensures |h[x].slots| == 2 && IsKind(h, h[x].slots[1], Closure(TimerCall))
    ensures x in c.started && h[x].slots[1] == Some(c.started[x])
  {
    ActiveShape(h, c, x);
    if !again {
      hide Fine;
      ControlFine(h, c, Fired(c, x, again), x);
    }
  }

  lemma ActiveShape(h: Heap, c: Control, x: Ref)
    requires Fine(h, c) && x in c.active + c.closing
    ensures x in c.inLoop && Live(h, x) && ObjectOk(h, c, x) && IsHandle(h[x].kind)
    ensures |h[x].slots| == 2 && HandleOk(h, c, x)
  {
    assert InLoopOk(h, c, x);
    assert ObjectOk(h, c, x);
  }

  /** A closing handle that was left alone still has the closure it was closed with; a disturbed one does not. */
  lemma ClosingShape(h: Heap, c: Control, x: Ref)
    requires Fine(h, c) && x in c.closing
    ensures x in c.inLoop && x in c.finish && Live(h, x) && IsHandle(h[x].kind) && |h[x].slots| == 2
    ensures x !in c.disturbed ==> h[x].slots[1] == Some(c.finish[x]) && IsKind(h, h[x].slots[1], Closure(CloseCall))
    ensures x in c.disturbed ==> !IsKind(h, h[x].slots[1], Closure(CloseCall))
  {
    ActiveShape(h, c, x);
  }

  lemma ClosedDataFine(h: Heap, c: Control, x: Ref)
    requires Fine(h, c) && x in c.closing && x !in c.disturbed && c.frame.None?
    requires Live(h, x) && |h[x].slots| == 2
    ensures Fine(SetSlot(h, x, 1, None), Closed(c, x))
  {
    hide Fine;
    ActiveShape(h, c, x);
    FineShape(h, c, x);
    var h' := SetSlot(h, x, 1, None);
    assert forall z :: 0 <= z < |h| ==> h'[z].kind == h[z].kind;
    NotQueued(h, c, x);
    FineUpdated(h, h', c, Closed(c, x), x);
  }

  lemma NotQueued(h: Heap, c: Control, x: Ref)
    requires Fine(h, c) && x < |h| && IsHandle(h[x].kind)
    ensures x !in c.queued
  {
    hide ObjectOk, FrameOk, InLoopOk;
  }

  function InAlloc(c: Control, x: Ref, data: Ref, args: seq<Ref>): Control {
    c.(frame := Some(AllocFrame(x, data, args)))
  }

  lemma StreamShape(h: Heap, c: Control, x: Ref)
    requires Fine(h, c) && x in c.active && x < |h| && h[x].kind.Stream? && c.frame.None?
    ensures x in c.inLoop && Live(h, x) && |h[x].slots| == 2 && IsKind(h, h[x].slots[1], StreamData)
    ensures x in c.started && h[x].slots[1] == Some(c.started[x])
  {
    ActiveShape(h, c, x);
  }

  lemma ReadDataShape(h: Heap, c: Control, d: Ref)
    requires Fine(h, c) && Live(h, d) && h[d].kind.StreamData?
    ensures |h[d].slots| == 3 && NullOr(h, h[d].slots[0], Buffer)
    ensures IsKind(h, h[d].slots[1], Closure(AllocCall)) && IsKind(h, h[d].slots[2], Closure(ReadCall))
    ensures ObjectOk(h, c, d)
  {
    FineShape(h, c, d);
  }

  /** The stub takes the read data off the stream for the time of the allocation callback. */
  lemma TookDataFine(h: Heap, c: Control, x: Ref, d: Ref)
    requires Fine(h, c) && x in c.active && x < |h| && h[x].kind.Stream? && c.frame.None?
    requires |h[x].slots| == 2 && h[x].slots[1] == Some(d) && Live(h, d)
    requires |h[d].slots| > 0 && h[d].slots[0].None?
    ensures Fine(SetSlot(h, x, 1, None), InAlloc(c, x, d, []))
  {
    hide Fine;
    StreamShape(h, c, x);
    ActiveShape(h, c, x);
    ReadDataShape(h, c, d);
    var h' := SetSlot(h, x, 1, None);
    assert forall z :: 0 <= z < |h| ==> h'[z].kind == h[z].kind;
    NotQueued(h, c, x);
    FineUpdated(h, h', c, InAlloc(c, x, d, []), x);
  }

  lemma AllocArgsFine(h: Heap, c: Control, args: seq<Ref>)
    requires Fine(h, c) && c.frame.Some? && c.frame.value.AllocFrame?
    ensures Fine(h, InAlloc(c, c.frame.value.stream, c.frame.value.data, args))
  {
    var c' := InAlloc(c, c.frame.value.stream, c.frame.value.data, args);
    hide Shaped;
    forall x | 0 <= x < |h| && h[x].live ensures ObjectOk(h, c', x) {
      assert ObjectOk(h, c, x);
    }
    forall x | x in c'.inLoop ensures InLoopOk(h, c', x) {
      assert InLoopOk(h, c, x);
    }
  }

  lemma AllocShape(h: Heap, c: Control)
    requires Fine(h, c) && c.frame.Some? && c.frame.value.AllocFrame?
    ensures var x, d := c.frame.value.stream, c.frame.value.data;
            && x in c.inLoop && Live(h, x) && h[x].kind.Stream? && |h[x].slots| == 2
            && Live(h, d) && h[d].kind.StreamData? && |h[d].slots| == 3 && h[d].slots[0].None?
            && ObjectOk(h, c, x) && ObjectOk(h, c, d)
  {
    var x, d := c.frame.value.stream, c.frame.value.data;
    assert InLoopOk(h, c, x) && ObjectOk(h, c, x) && ObjectOk(h, c, d);
  }

  /** The stub puts the read data back with the buffer in it, over whatever the callback left there. */
  lemma PutBackFine(h: Heap, c: Control, b: Ref)
    requires Fine(h, c) && c.frame.Some? && c.frame.value.AllocFrame?
    requires IsKind(h, Some(b), Buffer)
    ensures var x, d := c.frame.value.stream, c.frame.value.data;
            && Live(h, x) && |h[x].slots| == 2 && Live(h, d) && |h[d].slots| == 3 && x != d
            && Fine(SetSlot(SetSlot(h, d, 0, Some(b)), x, 1, Some(d)), GaveBuffer(c, x, d))
  {
    hide Fine;
    AllocShape(h, c);
    var x, d := c.frame.value.stream, c.frame.value.data;
    var c' := GaveBuffer(c, x, d);
    var h1 := SetSlot(h, x, 1, Some(d));
    assert forall z :: 0 <= z < |h| ==> h1[z].kind == h[z].kind;
    NotQueued(h, c, x);
    PutBackStream(h, c);
    FineShape(h1, c', x);
    FineShape(h1, c', d);
    var h2 := SetSlot(h1, d, 0, Some(b));
    TwoSlots(h, x, d, b);
    SameKinds(h1, h2);
    FieldSeen(h1, h2, c', d, x);
    FineFieldChanged(h1, h2, c', c', d, x);
  }

  lemma TwoSlots(h: Heap, x: Ref, d: Ref, b: Ref)
    requires x < |h| && d < |h| && x != d && |h[x].slots| == 2 && |h[d].slots| == 3
    ensures SetSlot(SetSlot(h, x, 1, Some(d)), d, 0, Some(b)) == SetSlot(SetSlot(h, d, 0, Some(b)), x, 1, Some(d))
  {
  }

  lemma PutBackStream(h: Heap, c: Control)
    requires Fine(h, c) && c.frame.Some? && c.frame.value.AllocFrame?
    ensures var x, d := c.frame.value.stream, c.frame.value.data;
            Live(h, x) && |h[x].slots| == 2 && Fine(SetSlot(h, x, 1, Some(d)), GaveBuffer(c, x, d))
  {
    hide Fine;
    AllocShape(h, c);
    var x, d := c.frame.value.stream, c.frame.value.data;
    var h1 := SetSlot(h, x, 1, Some(d));
    assert forall z :: 0 <= z < |h| ==> h1[z].kind == h[z].kind;
    NotQueued(h, c, x);
    FineShape(h, c, x);
    FineUpdated(h, h1, c, GaveBuffer(c, x, d), x);
  }

  lemma SameKinds(h: Heap, h': Heap)
    requires |h'| == |h| && forall z :: 0 <= z < |h| ==> h'[z].kind == h[z].kind
    ensures forall s: Option<Ref>, k: Kind {:trigger IsKind(h', s, k)} :: IsKind(h', s, k) == IsKind(h, s, k)
  {
  }

  /** A stream's own condition does not look inside its read data. */
  lemma FieldSeen(h: Heap, h': Heap, c: Control, d: Ref, x: Ref)
    requires x < |h| && d < |h| && x != d && |h'| == |h| && h[x].kind.Stream? && h[d].kind.StreamData?
    requires forall y :: 0 <= y < |h| && y != d ==> h'[y] == h[y]
    requires h'[d].kind == h[d].kind
    requires ObjectOk(h, c, x)
    ensures ObjectOk(h', c, x)
  {
    assert forall z :: 0 <= z < |h| ==> h'[z].kind == h[z].kind;
  }

  /** The read callback takes the buffer out of the read data. */
  lemma TookBufferFine(h: Heap, c: Control, x: Ref, d: Ref)
    requires Fine(h, c) && x in c.active && x < |h| && h[x].kind.Stream? && c.frame.None?
    requires |h[x].slots| == 2 && h[x].slots[1] == Some(d) && Live(h, d) && |h[d].slots| == 3
    ensures Fine(SetSlot(h, d, 0, None), c)
  {
    hide Fine;
    StreamShape(h, c, x);
    ActiveShape(h, c, x);
    ReadDataShape(h, c, d);
    var h' := SetSlot(h, d, 0, None);
    assert forall z :: 0 <= z < |h| ==> h'[z].kind == h[z].kind;
    SameKinds(h, h');
    FieldSeen(h, h', c, d, x);
    NotQueued(h, c, x);
    FineFieldChanged(h, h', c, c, d, x);
  }
}
