/** Requests: what a submission and a completion do to the protocol's invariant. */
module RequestProtocol {
  import opened CountedHeap
  import opened LoopProtocol
  import opened Wrappers

  /** The loop keeps the request until its last closure has been called. */
  function Submitted(c: Control, x: Ref, finish: Ref, payload: Ref, queued: bool): Control {
    c.(inLoop := c.inLoop + {x}, queued := if queued then c.queued + {x} else c.queued,
       finish := c.finish[x := finish], payload := c.payload[x := payload])
  }

  function Running(c: Control, x: Ref): Control {
    c.(queued := c.queued - {x})
  }

  function Completed(c: Control, x: Ref): Control {
    c.(inLoop := c.inLoop - {x}, queued := c.queued - {x})
  }

  // ---- Shapes of new objects --------------------------------------------------------------

  lemma ShapedWriteData(h: Heap, cb: Ref, bufs: Ref)
    requires IsKind(h, Some(cb), Closure(WriteCall)) && IsKind(h, Some(bufs), Buffers)
    ensures Shaped(h + [Cell(WriteData, 1, true, [Some(cb), Some(bufs)])], |h|)
  {
  }

  lemma ShapedWrite(h: Heap, d: Ref, cb: Ref, bufs: Ref)
    requires d < |h| && h[d] == Cell(WriteData, 1, true, [Some(cb), Some(bufs)]) && cb < |h| && bufs < |h|
    ensures Shaped(h + [Cell(Write, 1, true, [Some(d)])], |h|)
  {
  }

  lemma ShapedWorkData(h: Heap, workCb: Ref, afterCb: Ref)
    requires IsKind(h, Some(workCb), Closure(WorkCall)) && IsKind(h, Some(afterCb), Closure(AfterCall))
    ensures Shaped(h + [Cell(WorkData, 1, true, [Some(workCb), Some(afterCb)])], |h|)
  {
  }

  lemma ShapedWork(h: Heap, l: Ref, d: Ref, workCb: Ref, afterCb: Ref)
    requires d < |h| && h[d] == Cell(WorkData, 1, true, [Some(workCb), Some(afterCb)]) && workCb < |h| && afterCb < |h|
    requires IsKind(h, Some(l), Loop)
    ensures Shaped(h + [Cell(Work, 1, true, [Some(l), Some(d)])], |h|)
  {
  }

  lemma ShapedFs(h: Heap, l: Ref, cb: Option<Ref>, bufs: Option<Ref>)
    requires IsKind(h, Some(l), Loop) && NullOr(h, cb, Closure(FsCall)) && NullOr(h, bufs, Buffers)
    ensures Shaped(h + [Cell(Fs, 1, true, [Some(l), cb, bufs])], |h|)
  {
  }

  /** A request only its stub knows, set up for submission. */
  predicate Submittable(h: Heap, c: Control, x: Ref, finish: Ref, payload: Ref, queued: bool) {
    && Live(h, x) && IsRequest(h[x].kind) && (queued ==> h[x].kind.Work?)
    && x !in c.inLoop + c.active + c.closing + c.queued + c.disturbed
    && Shaped(h, x) && RequestOk(h, Submitted(c, x, finish, payload, queued), x)
  }

  // ---- Submission -------------------------------------------------------------------------

  lemma SubmittedFine(h: Heap, c: Control, x: Ref, finish: Ref, payload: Ref, queued: bool)
    requires Fine(h, c) && Submittable(h, c, x, finish, payload, queued)
    ensures Fine(h, Submitted(c, x, finish, payload, queued))
  {
    hide Fine, FrameOk, RequestOk, Shaped;
    var c' := Submitted(c, x, finish, payload, queued);
    FrameControl(h, c, c');
    ControlFine(h, c, c', x);
  }

  lemma WriteReady(h: Heap, c: Control, d: Ref, x: Ref, cb: Ref, bufs: Ref)
    requires d < |h| && h[d] == Cell(WriteData, 1, true, [Some(cb), Some(bufs)])
    requires x < |h| && h[x] == Cell(Write, 1, true, [Some(d)]) && Shaped(h, x)
    requires x !in c.inLoop + c.active + c.closing + c.queued + c.disturbed
    ensures Submittable(h, c, x, cb, bufs, false)
  {
  }

  lemma WorkReady(h: Heap, c: Control, d: Ref, x: Ref, l: Ref, workCb: Ref, afterCb: Ref)
    requires d < |h| && h[d] == Cell(WorkData, 1, true, [Some(workCb), Some(afterCb)])
    requires x < |h| && h[x] == Cell(Work, 1, true, [Some(l), Some(d)]) && Shaped(h, x)
    requires x !in c.inLoop + c.active + c.closing + c.queued + c.disturbed
    ensures Submittable(h, c, x, afterCb, workCb, true)
  {
  }

  lemma CanShare(h: Heap, c: Control, x: Ref, finish: Ref, payload: Ref, queued: bool)
    requires Submittable(h, c, x, finish, payload, queued)
    ensures Live(h, x) && !Internal(h[x].kind) && x !in c.inLoop
  {
  }

  lemma CountSubmittable(h: Heap, c: Control, x: Ref, finish: Ref, payload: Ref, queued: bool, count: int)
    requires Submittable(h, c, x, finish, payload, queued)
    ensures Submittable(SetCount(h, x, count), c, x, finish, payload, queued)
  {
    SameKinds(h, SetCount(h, x, count));
  }

  // ---- Completion -------------------------------------------------------------------------

  lemma InFlight(h: Heap, c: Control, x: Ref)
    requires Fine(h, c) && x in c.inLoop && x < |h| && IsRequest(h[x].kind)
    ensures Live(h, x) && Shaped(h, x) && RequestOk(h, c, x)
    ensures x !in c.active + c.closing
  {
    assert InLoopOk(h, c, x);
    assert ObjectOk(h, c, x);
  }

  lemma QueuedIsWork(h: Heap, c: Control, x: Ref)
    requires Fine(h, c) && x in c.queued
    ensures x in c.inLoop && x < |h| && h[x].kind == Work
  {
    hide ObjectOk, FrameOk, InLoopOk;
  }

  /** A request's data is the data of that request alone. */
  lemma DataOfOne(h: Heap, roots: multiset<Ref>, c: Control, d: Ref, x: Ref)
    requires Balanced(h, roots) && Fine(h, c)
    requires x < |h| && d < |h| && h[d].live && Internal(h[d].kind) && Some(d) in h[x].slots
    ensures forall y :: 0 <= y < |h| && Some(d) in h[y].slots ==> y == x
  {
    hide Fine, Balanced;
    FineShape(h, c, d);
    forall y | 0 <= y < |h| && Some(d) in h[y].slots ensures y == x {
      SingleOwner(h, roots, d, x, y);
    }
  }

  lemma WriteDoneFine(h: Heap, roots: multiset<Ref>, c: Control, x: Ref, d: Ref)
    requires Balanced(h, roots) && Fine(h, c) && x in c.inLoop && c.frame.None?
    requires x < |h| && h[x].kind == Write && h[x].slots == [Some(d)] && Live(h, d) && |h[d].slots| == 2
    requires h[d].kind == WriteData
    ensures Fine(SetSlot(h, d, 0, None), Completed(c, x))
  {
    hide Fine, Balanced;
    InFlight(h, c, x);
    assert h[x].slots[0] == Some(d);
    DataOfOne(h, roots, c, d, x);
    FineShape(h, c, d);
    var h' := SetSlot(h, d, 0, None);
    SameKinds(h, h');
    FineFieldChanged(h, h', c, Completed(c, x), d, x);
  }

  lemma FrameField(h: Heap, c: Control, d: Ref, k: nat)
    requires Fine(h, c) && d < |h| && h[d].kind == WorkData && k < |h[d].slots|
    ensures FrameOk(SetSlot(h, d, k, None), c)
  {
    hide ObjectOk, InLoopOk;
  }

  /** The work closure, or the closure called after it, leaves the request's data. */
  lemma WorkFine(h: Heap, roots: multiset<Ref>, c: Control, x: Ref, l: Option<Ref>, d: Ref, k: nat)
    requires Balanced(h, roots) && Fine(h, c) && x in c.inLoop
    requires x < |h| && h[x].kind == Work && h[x].slots == [l, Some(d)] && Live(h, d) && |h[d].slots| == 2 && k < 2
    requires h[d].kind == WorkData
    ensures Fine(SetSlot(h, d, k, None), if k == 0 then Running(c, x) else Completed(c, x))
  {
    hide Fine, Balanced;
    InFlight(h, c, x);
    assert h[x].slots[1] == Some(d);
    DataOfOne(h, roots, c, d, x);
    FineShape(h, c, d);
    var h' := SetSlot(h, d, k, None);
    SameKinds(h, h');
    FrameField(h, c, d, k);
    FineFieldChanged(h, h', c, if k == 0 then Running(c, x) else Completed(c, x), d, x);
  }

  lemma FsDoneFine(h: Heap, c: Control, x: Ref)
    requires Fine(h, c) && x in c.inLoop && c.frame.None?
    requires x < |h| && h[x].kind == Fs && |h[x].slots| == 3
    ensures Fine(SetSlot(h, x, 1, None), Completed(c, x))
  {
    hide Fine;
    InFlight(h, c, x);
    var h' := SetSlot(h, x, 1, None);
    SameKinds(h, h');
    FineUpdated(h, h', c, Completed(c, x), x);
  }
}
