/** The ownership protocol between user code, handles and requests, and the event loop. */
module EventLoopOwnership {
  import opened CountedHeap
  import opened LoopProtocol
  import opened RequestProtocol
  import opened Wrappers

  function FrameRefs(frame: Option<Frame>): multiset<Ref> {
    match frame
    case None => multiset{}
    case Some(UserFrame(args)) => multiset(args)
    case Some(AllocFrame(_, data, args)) => multiset(args) + multiset{data}
  }

  datatype Worker = Worker(request: Ref, closure: Ref)

  function WorkerRefs(workers: seq<Worker>): multiset<Ref> {
    if workers == [] then multiset{}
    else WorkerRefs(workers[..|workers| - 1]) + multiset{workers[|workers| - 1].closure, workers[|workers| - 1].request}
  }

  lemma {:induction false} WorkerLeaves(workers: seq<Worker>, i: nat)
    requires i < |workers|
    ensures WorkerRefs(workers)
            == WorkerRefs(workers[..i] + workers[i + 1..]) + multiset{workers[i].closure, workers[i].request}
  {
    hide WorkerRefs;
    var n := |workers| - 1;
    var rest := workers[..i] + workers[i + 1..];
    LastWorker(workers);
    if i == n {
      assert rest == workers[..n];
    } else {
      LastWorker(rest);
      assert rest[|rest| - 1] == workers[n];
      assert rest[..n - 1] == workers[..n][..i] + workers[..n][i + 1..];
      WorkerLeaves(workers[..n], i);
      Exchange(WorkerRefs(rest[..n - 1]), multiset{workers[i].closure, workers[i].request},
               multiset{workers[n].closure, workers[n].request});
    }
  }

  lemma LastWorker(workers: seq<Worker>)
    requires workers != []
    ensures var w := workers[|workers| - 1];
            WorkerRefs(workers) == WorkerRefs(workers[..|workers| - 1]) + multiset{w.closure, w.request}
  {
  }

  /** What the loop, the callback in progress and the pool threads own. */
  function LoopOwned(c: Control, workers: seq<Worker>): multiset<Ref> {
    multiset(c.inLoop) + FrameRefs(c.frame) + WorkerRefs(workers)
  }

  /** Each freed object has been finalized once, each other one not at all. */
  ghost predicate FinalizedOnce(h: Heap, finalized: seq<Ref>) {
    forall r: Ref :: multiset(finalized)[r] == if r < |h| && !h[r].live then 1 else 0
  }

  lemma FinalizedSame(h: Heap, finalized: seq<Ref>, r: Ref, count: int)
    requires r < |h| && FinalizedOnce(h, finalized)
    ensures FinalizedOnce(SetCount(h, r, count), finalized)
  {
  }

  lemma FinalizedSlot(h: Heap, finalized: seq<Ref>, o: Ref, k: nat, v: Option<Ref>)
    requires o < |h| && k < |h[o].slots| && FinalizedOnce(h, finalized)
    ensures FinalizedOnce(SetSlot(h, o, k, v), finalized)
  {
  }

  lemma FinalizedMore(h: Heap, finalized: seq<Ref>, r: Ref)
    requires Live(h, r) && FinalizedOnce(h, finalized)
    ensures FinalizedOnce(Bury(h, r), finalized + [r])
  {
  }

  lemma GiveUp(others: multiset<Ref>, held: multiset<Ref>, r: Ref, more: multiset<Ref>)
    requires r in held
    ensures others + (held - multiset{r} + more) == others + held - multiset{r} + more
    ensures others + (held - multiset{r}) == others + held - multiset{r}
    ensures r in others + held
  {
  }

  lemma FinalizedNew(h: Heap, finalized: seq<Ref>, c: Cell)
    requires c.live && FinalizedOnce(h, finalized)
    ensures FinalizedOnce(h + [c], finalized)
  {
  }

  lemma Handover(others: multiset<Ref>, held: multiset<Ref>, given: multiset<Ref>, r: Ref)
    requires given <= held
    ensures given <= others + held
    ensures others + (held - given + multiset{r}) == others + held - given + multiset{r}
  {
  }

  lemma CountOfRoot(h: Heap, others: multiset<Ref>, held: multiset<Ref>, r: Ref)
    requires Balanced(h, others + held) && r in held
    ensures Live(h, r) && h[r].count >= 1
  {
    assert r in others + held;
    RootLive(h, others + held, r);
  }

  lemma StaysBuried(h: Heap, h': Heap, r: Ref)
    requires Shrinks(h, h') && !Live(h, r)
    ensures !Live(h', r)
  {
  }

  /** Each buffer an allocation callback returned was handed to a read callback, or dropped with its read
      data, or waits in it: altogether as often as it was returned. */
  ghost predicate AllAccounted(asked: multiset<Ref>, delivered: multiset<Ref>, released: multiset<Ref>, h: Heap) {
    asked == delivered + (released + Waiting(h))
  }

  lemma AskedOne(asked: multiset<Ref>, delivered: multiset<Ref>, released: multiset<Ref>, h: Heap, h': Heap, b: Ref)
    requires AllAccounted(asked, delivered, released, h) && Waiting(h') == Waiting(h) + multiset{b}
    ensures AllAccounted(asked + multiset{b}, delivered, released, h')
  {
  }

  lemma DeliveredOne(asked: multiset<Ref>, delivered: multiset<Ref>, released: multiset<Ref>, h: Heap, h': Heap, b: Ref)
    requires AllAccounted(asked, delivered, released, h) && Waiting(h) == Waiting(h') + multiset{b}
    ensures AllAccounted(asked, delivered + multiset{b}, released, h')
  {
  }

  /** A user gives up some references and gets others. */
  function Exchanged(vars: multiset<Ref>, given: multiset<Ref>, got: multiset<Ref>): multiset<Ref> {
    vars - given + got
  }

  class Runtime {
    var cells: Heap
    /** References owned by user variables, and by the stub that is executing. */
    var vars: multiset<Ref>
    var held: multiset<Ref>
    /** What libuv references and may call. */
    var ctl: Control
    /** Work closures that pool threads are executing; each owns itself and its request. */
    var workers: seq<Worker>
    /** The process is gone: a call through a null or foreign closure, or an assertion of libuv. */
    var crashed: bool
    ghost var finalized: seq<Ref>
    /** Buffers returned by allocation callbacks, handed to read callbacks, dropped by finalizers. */
    ghost var asked: multiset<Ref>
    ghost var delivered: multiset<Ref>
    ghost var released: multiset<Ref>

    constructor ()
      ensures Valid() && !crashed && cells == [] && vars == multiset{} && workers == []
      ensures ctl == NOTHING_YET
      ensures asked == multiset{} && delivered == multiset{} && released == multiset{}
    {
      hide Balanced, Fine, FinalizedOnce, Waiting, FrameRefs;
      NothingYet();
      cells, vars, held, workers, crashed := [], multiset{}, multiset{}, [], false;
      ctl := NOTHING_YET;
      finalized, asked, delivered, released := [], multiset{}, multiset{}, multiset{};
    }

    ghost function Others(): multiset<Ref>
      reads this`vars, this`workers, this`ctl
    {
      vars + LoopOwned(ctl, workers)
    }

    ghost function Roots(): multiset<Ref>
      reads this`vars, this`workers, this`ctl, this`held
    {
      Others() + held
    }

    ghost predicate Counted()
      reads this`cells, this`vars, this`workers, this`ctl, this`held, this`finalized
    {
      Balanced(cells, Roots()) && FinalizedOnce(cells, finalized)
    }

    // ---- moonbit_make_external_object, moonbit_incref, moonbit_decref -------------------------

    method Make(kind: Kind, slots: seq<Option<Ref>>) returns (r: Ref)
      requires Counted() && Refs(slots) <= held
      modifies this`cells, this`held
      ensures Counted()
      ensures r == |old(cells)| && cells == old(cells) + [Cell(kind, 1, true, slots)]
      ensures held == old(held) - Refs(slots) + multiset{r}
    {
      hide Balanced, Refs, FrameRefs, FinalizedOnce, LoopOwned;
      Handover(Others(), held, Refs(slots), |cells|);
      MakeBalanced(cells, Roots(), kind, slots);
      FinalizedNew(cells, finalized, Cell(kind, 1, true, slots));
      r := |cells|;
      cells := cells + [Cell(kind, 1, true, slots)];
      held := held - Refs(slots) + multiset{r};
    }

    method Incref(r: Ref)
      requires Counted() && Live(cells, r)
      modifies this`cells, this`held
      ensures Counted()
      ensures cells == SetCount(old(cells), r, old(cells)[r].count + 1)
      ensures held == old(held) + multiset{r}
    {
      hide Balanced, FrameRefs;
      IncrefBalanced(cells, Roots(), r);
      ghost var roots := Roots();
      cells := SetCount(cells, r, cells[r].count + 1);
      held := held + multiset{r};
      assert Roots() == roots + multiset{r};
    }

    /** Drops one reference; the last one runs the finalizer, which drops what the object's fields own. */
    method Decref(r: Ref)
      requires Counted() && r in held
      modifies this`cells, this`held, this`finalized, this`released
      ensures Counted()
      ensures held == old(held) - multiset{r}
      ensures Shrinks(old(cells), cells)
      ensures Live(cells, r) <==> CountOf(old(cells), r) > 1
      ensures CountOf(old(cells), r) > 1 ==> cells == SetCount(old(cells), r, old(cells)[r].count - 1)
      ensures LiveCount(cells) <= LiveCount(old(cells))
      ensures released + Waiting(cells) == old(released) + Waiting(old(cells))
      decreases LiveCount(cells), 1
    {
      hide Balanced, FrameRefs, LiveCount, Waiting, Shrinks, FinalizedOnce, LoopOwned;
      CountOfRoot(cells, Others(), held, r);
      if cells[r].count > 1 {
        Decrement(r);
      } else {
        Free(r);
      }
    }

    method Decrement(r: Ref)
      requires Counted() && r in held && CountOf(cells, r) > 1
      modifies this`cells, this`held
      ensures Counted()
      ensures held == old(held) - multiset{r}
      ensures cells == SetCount(old(cells), r, old(cells)[r].count - 1)
      ensures Shrinks(old(cells), cells)
      ensures LiveCount(cells) == LiveCount(old(cells)) && Waiting(cells) == Waiting(old(cells))
    {
      hide Balanced, FrameRefs, LiveCount, Waiting, Shrinks, FinalizedOnce, LoopOwned;
      GiveUp(Others(), held, r, multiset{});
      DecrefBalanced(cells, Roots(), r);
      FinalizedSame(cells, finalized, r, cells[r].count - 1);
      SetCountKeeps(cells, r, cells[r].count - 1);
      cells := SetCount(cells, r, cells[r].count - 1);
      held := held - multiset{r};
    }

    /** The last reference: the object is finalized and its memory released. */
    method Free(r: Ref)
      requires Counted() && r in held && CountOf(cells, r) == 1
      modifies this`cells, this`held, this`finalized, this`released
      ensures Counted()
      ensures held == old(held) - multiset{r}
      ensures Shrinks(old(cells), cells) && !Live(cells, r)
      ensures LiveCount(cells) <= LiveCount(old(cells))
      ensures released + Waiting(cells) == old(released) + Waiting(old(cells))
      decreases LiveCount(cells), 0
    {
      hide Balanced, Refs, FrameRefs, LiveCount, Waiting, HoldsBuffer, Shrinks, FinalizedOnce, LoopOwned;
      GiveUp(Others(), held, r, Refs(cells[r].slots));
      RootLive(cells, Roots(), r);
      FinalizedMore(cells, finalized, r);
      BuryBalanced(cells, Roots(), r);
      BuryShrinks(cells, r);
      ghost var was := cells;
      var rest := held - multiset{r};
      var slots := cells[r].slots;
      released := released + HoldsBuffer(cells[r]);
      cells := Bury(cells, r);
      held := rest + Refs(slots);
      finalized := finalized + [r];
      ghost var buried := cells;
      Exchange(old(released), HoldsBuffer(was[r]), Waiting(buried));
      Finalize(slots, rest);
      ShrinksTransitive(was, buried, cells);
      StaysBuried(buried, cells, r);
    }

    /** The body every finalizer shares: `if (object->field) moonbit_decref(object->field)`, field by field. */
    method Finalize(slots: seq<Option<Ref>>, ghost rest: multiset<Ref>)
      requires Counted() && held == rest + Refs(slots)
      modifies this`cells, this`held, this`finalized, this`released
      ensures Counted()
      ensures held == rest
      ensures Shrinks(old(cells), cells)
      ensures LiveCount(cells) <= LiveCount(old(cells))
      ensures released + Waiting(cells) == old(released) + Waiting(old(cells))
      decreases LiveCount(cells), 2, |slots|
    {
      hide Balanced, FrameRefs, LiveCount, Waiting, HoldsBuffer, FinalizedOnce, Shrinks, LoopOwned;
      ShrinksSelf(cells);
      if slots != [] {
        if slots[0].Some? {
          Decref(slots[0].value);
        }
        ghost var mid := cells;
        Finalize(slots[1..], rest);
        ShrinksTransitive(old(cells), mid, cells);
      }
    }

    method Store(o: Ref, k: nat, r: Ref)
      requires Counted() && Live(cells, o) && k < |cells[o].slots| && cells[o].slots[k].None? && r in held
      modifies this`cells, this`held
      ensures Counted()
      ensures cells == SetSlot(old(cells), o, k, Some(r)) && held == old(held) - multiset{r}
    {
      hide Balanced, FrameRefs, FinalizedOnce, LoopOwned;
      GiveUp(Others(), held, r, multiset{});
      StoreBalanced(cells, Roots(), o, k, r);
      FinalizedSlot(cells, finalized, o, k, Some(r));
      cells := SetSlot(cells, o, k, Some(r));
      held := held - multiset{r};
    }

    method Take(o: Ref, k: nat) returns (r: Ref)
      requires Counted() && Live(cells, o) && k < |cells[o].slots| && cells[o].slots[k].Some?
      modifies this`cells, this`held
      ensures Counted()
      ensures r == old(cells)[o].slots[k].value
      ensures cells == SetSlot(old(cells), o, k, None) && held == old(held) + multiset{r}
    {
      hide Balanced, FrameRefs, FinalizedOnce, LoopOwned;
      TakeBalanced(cells, Roots(), o, k);
      FinalizedSlot(cells, finalized, o, k, None);
      r := cells[o].slots[k].value;
      cells := SetSlot(cells, o, k, None);
      held := held + multiset{r};
      assert Roots() == old(Roots()) + multiset{r};
    }

    // ---- The protocol -------------------------------------------------------------------------

    ghost predicate Conserved()
      reads this`cells, this`asked, this`delivered, this`released
    {
      AllAccounted(asked, delivered, released, cells)
    }

    ghost predicate Steady()
      reads this
    {
      Counted() && Fine(cells, ctl) && Conserved()
    }

    /** Between two steps no stub holds a reference: each has dropped or passed on all it was given. */
    ghost predicate Valid()
      reads this
    {
      Steady() && held == multiset{}
    }

    /** `moonbit_decref` at the end of a stub: the invariant survives whatever is freed. */
    method Drop(r: Ref)
      requires Steady() && r in held
      modifies this`cells, this`held, this`finalized, this`released
      ensures Steady()
      ensures held == old(held) - multiset{r} && Shrinks(old(cells), cells)
      ensures Live(cells, r) <==> CountOf(old(cells), r) > 1
      ensures CountOf(old(cells), r) > 1 ==> cells == SetCount(old(cells), r, old(cells)[r].count - 1)
    {
      hide Balanced, Fine, Waiting, HoldsBuffer, FinalizedOnce, LoopOwned;
      Decref(r);
      LoopAndFrameLive(cells, vars, held, ctl, workers);
      FineKept(old(cells), cells, Roots(), ctl);
    }

    /** `if (handle->data) moonbit_decref(handle->data)`, with the field no longer counted as an owner. */
    method ClearData(x: Ref)
      requires Counted() && Live(cells, x) && IsHandle(cells[x].kind) && |cells[x].slots| == 2
      requires x in Roots()
      modifies this`cells, this`held, this`finalized, this`released
      ensures Counted() && Live(cells, x)
      ensures Shrinks(SetSlot(old(cells), x, 1, None), cells)
      ensures old(cells)[x].slots[1].None? ==> cells == old(cells)
      ensures held == old(held)
      ensures released + Waiting(cells) == old(released) + Waiting(old(cells))
    {
      hide Balanced, FrameRefs, Waiting, FinalizedOnce, LoopOwned;
      if cells[x].slots[1].Some? {
        WaitingSame(cells, x, cells[x].(slots := cells[x].slots[1 := None]));
        var data := Take(x, 1);
        assert x in old(Roots()) + multiset{data} - multiset{data};
        Decref(data);
        assert Roots() == old(Roots());
        RootLive(cells, Roots(), x);
      } else {
        NullAlready(cells, x, 1);
        ShrinksSelf(cells);
      }
    }

    /** `moonbit_uv_handle_set_data` and its copies: the old data is dropped, the new one moved in. */
    method SetData(x: Ref, v: Option<Ref>)
      requires Counted() && Live(cells, x) && IsHandle(cells[x].kind) && |cells[x].slots| == 2
      requires v.Some? ==> v.value in held
      requires x in Roots()
      modifies this`cells, this`held, this`finalized, this`released
      ensures Counted() && Live(cells, x)
      ensures Shrinks(SetSlot(old(cells), x, 1, v), cells)
      ensures old(cells)[x].slots[1].None? ==> cells == SetSlot(old(cells), x, 1, v)
      ensures old(Conserved()) ==> Conserved()
      ensures held == if v.None? then old(held) else old(held) - multiset{v.value}
      ensures released + Waiting(cells) == old(released) + Waiting(old(cells))
    {
      hide Balanced, FrameRefs, Waiting, FinalizedOnce, Shrinks, LoopOwned;
      ClearData(x);
      ghost var mid := cells;
      SlotsKept(SetSlot(old(cells), x, 1, None), mid, x);
      if v.Some? {
        WaitingSame(cells, x, cells[x].(slots := cells[x].slots[1 := v]));
        Store(x, 1, v.value);
        ShrinksSetSlot(old(cells), mid, x, 1, v);
      }
      if old(cells)[x].slots[1].None? {
        NullAlready(old(cells), x, 1);
      }
    }

    // ---- Moving references between owners -----------------------------------------------------

    /** Arguments passed to a stub are its own from then on. */
    method Receive(args: multiset<Ref>)
      requires Valid() && args <= vars
      modifies this`vars, this`held
      ensures Steady()
      ensures vars == old(vars) - args && held == args
    {
      hide Conserved, Balanced, Fine, FrameRefs, Waiting, FinalizedOnce, LoopOwned;
      vars := vars - args;
      held := args;
      assert Roots() == old(Roots());
    }

    /** A stub's result, or a reference it duplicated, is the user's from then on. */
    method Return(r: Ref)
      requires Steady() && held == multiset{r}
      modifies this`vars, this`held
      ensures Valid()
      ensures vars == old(vars) + multiset{r}
    {
      hide Conserved, Balanced, Fine, FrameRefs, Waiting, FinalizedOnce, LoopOwned;
      vars := vars + multiset{r};
      held := multiset{};
      assert Roots() == old(Roots());
    }

    /** References move between the stub, the loop and the callback in progress. */
    method Shift(c: Control, now: multiset<Ref>)
      requires Steady() && Fine(cells, c)
      requires multiset(c.inLoop) + FrameRefs(c.frame) + now
               == multiset(ctl.inLoop) + FrameRefs(ctl.frame) + held
      modifies this`ctl, this`held
      ensures Steady() && ctl == c && held == now
    {
      hide Conserved, Balanced, Fine, FrameRefs, Waiting, FinalizedOnce, WorkerRefs, LoopOwned;
      ShiftOwned(vars, ctl, c, workers, held, now);
      ctl := c;
      held := now;
    }

    /** A stub makes an object, and its fields take over references the stub holds. */
    method MakeFine(kind: Kind, slots: seq<Option<Ref>>, ghost rest: multiset<Ref>) returns (r: Ref)
      requires Shaped(cells + [Cell(kind, 1, true, slots)], |cells|)
      requires IsHandle(kind) ==> slots[1].None?
      requires kind.StreamData? ==> slots[0].None?
      requires Steady() && held == rest + Refs(slots)
      modifies this`cells, this`held
      ensures Steady()
      ensures r == |old(cells)| && cells == old(cells) + [Cell(kind, 1, true, slots)]
      ensures held == rest + multiset{r}
    {
      hide Balanced, Fine, FrameRefs, Waiting, FinalizedOnce, Refs, Shaped, LoopOwned;
      AppendFine(cells, ctl, Cell(kind, 1, true, slots));
      WaitingAppend(cells, Cell(kind, 1, true, slots));
      r := Make(kind, slots);
    }

    method Share(r: Ref)
      requires Steady() && Live(cells, r) && !Internal(cells[r].kind)
      modifies this`cells, this`held
      ensures Steady()
      ensures cells == SetCount(old(cells), r, old(cells)[r].count + 1)
      ensures held == old(held) + multiset{r}
    {
      hide Balanced, Fine, FrameRefs, Waiting, FinalizedOnce, LoopOwned;
      CountFine(cells, ctl, r, cells[r].count + 1);
      WaitingSame(cells, r, cells[r].(count := cells[r].count + 1));
      Incref(r);
    }

    /** `moonbit_incref(cb); moonbit_incref(handle)`: what a repeated callback is called with. */
    method SharePair(cb: Ref, x: Ref)
      requires Steady() && Live(cells, cb) && Live(cells, x) && !Internal(cells[cb].kind) && !Internal(cells[x].kind)
      modifies this`cells, this`held
      ensures Steady() && SameObjects(old(cells), cells)
      ensures held == old(held) + multiset([cb, x])
    {
      hide Counted, Conserved, Roots, Others, Fine, Waiting;
      Share(cb);
      Share(x);
      assert old(held) + multiset{cb} + multiset{x} == old(held) + multiset([cb, x]);
    }

    /** After releases, the loop's state is brought up to date. */
    method Settle(ghost h: Heap, c: Control)
      requires Counted() && Fine(h, c) && Shrinks(h, cells)
      requires c.inLoop == ctl.inLoop && c.frame == ctl.frame
      requires Conserved()
      modifies this`ctl
      ensures Steady() && ctl == c
    {
      hide Balanced, Fine, Waiting, FinalizedOnce, FrameRefs, Shrinks, WorkerRefs;
      ctl := c;
      LoopAndFrameLive(cells, vars, held, ctl, workers);
      FineKept(h, cells, Roots(), ctl);
    }

    /** Sets a handle's data, tells the loop, and drops the handle argument: the common part of
        start, stop and close. */
    method SetHandle(x: Ref, v: Option<Ref>, c: Control)
      requires Steady() && held == if v.None? then multiset{x} else multiset{x, v.value}
      requires Live(cells, x) && IsHandle(cells[x].kind) && |cells[x].slots| == 2 && DataFits(cells, cells[x].kind, v)
      requires AgreeBut(ctl, c, x) && c.inLoop == ctl.inLoop && c.frame == ctl.frame && c.queued == ctl.queued
      requires HandleOk(SetSlot(cells, x, 1, v), c, x) && FrameOk(SetSlot(cells, x, 1, v), c)
      modifies this`cells, this`held, this`finalized, this`released, this`ctl
      ensures Valid() && ctl == c
      ensures Shrinks(SetSlot(old(cells), x, 1, v), cells)
      ensures Unset(old(cells), x) ==> cells == Replaced(old(cells), x, v)
    {
      hide Balanced, Fine, Waiting, FinalizedOnce, HandleOk, FrameOk, AgreeBut, DataFits, FrameRefs, Shrinks, Unset,
           Replaced, Roots, Others, Counted, Conserved, LoopOwned;
      ghost var h := SetSlot(cells, x, 1, v);
      HandleSetFine(cells, ctl, c, x, v);
      HandleAndData(x, v);
      ArgumentRooted(x);
      SetData(x, v);
      Settle(h, c);
      ghost var mid := cells;
      Drop(x);
      ShrinksTransitive(h, mid, cells);
      ReplacedExactly(old(cells), mid, cells, x, v);
    }

    lemma ArgumentRooted(x: Ref)
      requires x in held
      ensures x in Roots()
    {
    }

    // ---- User code: making, sharing and dropping objects --------------------------------------

    /** A fresh loop object or buffer. */
    method NewPlain(kind: Kind) returns (r: Ref)
      requires Valid() && (kind.Loop? || kind.Buffer?)
      modifies this`cells, this`held, this`vars
      ensures Valid() && r == |old(cells)| && vars == old(vars) + multiset{r}
      ensures cells == old(cells) + [Cell(kind, 1, true, [])]
    {
      hide Balanced, Fine, FrameRefs, Waiting, FinalizedOnce;
      r := MakeFine(kind, [], multiset{});
      Return(r);
    }

    /** An array of buffers, or a closure over existing objects: takes over one reference to each. */
    method NewOwner(kind: Kind, parts: seq<Ref>) returns (r: Ref)
      requires Valid() && multiset(parts) <= vars
      requires kind.Closure? || kind.Buffers?
      requires forall k :: 0 <= k < |parts| ==>
                 && Live(cells, parts[k])
                 && if kind.Buffers? then cells[parts[k]].kind == Buffer else !Internal(cells[parts[k]].kind)
      modifies this`cells, this`held, this`vars
      ensures Valid() && r == |old(cells)| && vars == Exchanged(old(vars), multiset(parts), multiset{r})
      ensures cells == old(cells) + [Cell(kind, 1, true, Somes(parts))]
    {
      hide Counted, Conserved, Roots, Others, Fine, FrameRefs, Waiting, Shaped, Refs, Somes;
      Receive(multiset(parts));
      SomesRefs(parts);
      ShapedOwner(cells, kind, parts);
      r := MakeFine(kind, Somes(parts), multiset{});
      Return(r);
    }

    method Dup(r: Ref)
      requires Valid() && Live(cells, r) && !Internal(cells[r].kind)
      modifies this`cells, this`held, this`vars
      ensures Valid() && vars == old(vars) + multiset{r}
      ensures cells == SetCount(old(cells), r, old(cells)[r].count + 1)
    {
      hide Counted, Conserved, Roots, Others, Fine, FrameRefs, Waiting, HandleOk, FrameOk, DataFits, AgreeBut,
           Shrinks, Shaped, Refs;
      Share(r);
      Return(r);
    }

    method Forget(r: Ref)
      requires Valid() && r in vars
      modifies this`cells, this`held, this`vars, this`finalized, this`released
      ensures Valid() && vars == old(vars) - multiset{r} && Shrinks(old(cells), cells)
    {
      hide Counted, Conserved, Roots, Others, Fine, FrameRefs, Waiting, HandleOk, FrameOk, DataFits, AgreeBut,
           Shrinks, Shaped, Refs;
      Receive(multiset{r});
      Drop(r);
    }

    // ---- Handles ------------------------------------------------------------------------------

    /** The init functions: the loop keeps the reference they are called with, the caller its own. */
    method Enlist(x: Ref)
      requires Steady() && held == multiset{x}
      requires Live(cells, x) && IsHandle(cells[x].kind) && |cells[x].slots| == 2 && cells[x].slots[1].None?
      requires x !in ctl.inLoop + ctl.active + ctl.closing + ctl.queued + ctl.disturbed
      modifies this`cells, this`held, this`vars, this`ctl
      ensures Valid() && vars == old(vars) + multiset{x}
      ensures cells == SetCount(old(cells), x, old(cells)[x].count + 1)
      ensures ctl == Added(old(ctl), x)
    {
      hide Counted, Conserved, Roots, Others, Fine, FrameRefs, Waiting;
      Share(x);
      HandleAddedFine(cells, ctl, x);
      LoopTakes(ctl.inLoop, FrameRefs(ctl.frame), x);
      Shift(Added(ctl, x), multiset{x});
      Return(x);
    }

    /** `moonbit_uv_timer_make` and `_init`, or a stream's: the loop keeps the reference `init` was
        given, and the handle keeps the loop's. */
    method NewHandle(kind: Kind, l: Ref) returns (x: Ref)
      requires Valid() && IsHandle(kind) && l in vars && Live(cells, l) && cells[l].kind == Loop
      modifies this`cells, this`held, this`vars, this`ctl
      ensures Valid() && x == |old(cells)| && vars == Exchanged(old(vars), multiset{l}, multiset{x})
      ensures cells == old(cells) + [Cell(kind, 2, true, [Some(l), None])]
      ensures ctl == Added(old(ctl), x)
    {
      hide Counted, Conserved, Roots, Others, Fine, FrameRefs, Waiting, HandleOk, FrameOk, DataFits, AgreeBut,
           Shrinks, Shaped, Refs;
      Receive(multiset{l});
      LoopFieldRefs(l);
      NewIsUnknown(cells, ctl);
      ShapedHandle(cells, kind, l);
      x := MakeFine(kind, [Some(l), None], multiset{});
      Enlist(x);
    }

    /** `moonbit_uv_timer_start`. */
    method TimerStart(x: Ref, cb: Ref)
      requires Valid() && multiset{x, cb} <= vars
      requires Live(cells, x) && Live(cells, cb) && cells[x].kind == Timer && cells[cb].kind == Closure(TimerCall)
      modifies this`cells, this`held, this`vars, this`ctl, this`finalized, this`released
      ensures Valid() && vars == old(vars) - multiset{x, cb}
      ensures ctl == Started(old(ctl), x, cb)
      ensures Shrinks(NewData(old(cells), x, Some(cb)), cells)
      ensures Unset(old(cells), x) ==> cells == Replaced(old(cells), x, Some(cb))
    {
      hide Counted, Conserved, Roots, Others, Fine, FrameRefs, Waiting, HandleOk, FrameOk, DataFits, AgreeBut,
           Shrinks, Shaped, Refs;
      Receive(multiset{x, cb});
      StartedFine(cells, ctl, x, cb);
      SetHandle(x, Some(cb), Started(ctl, x, cb));
    }

    /** `moonbit_uv_timer_stop` and `moonbit_uv_read_stop`. */
    method Stop(x: Ref)
      requires Valid() && x in vars && Live(cells, x) && IsHandle(cells[x].kind)
      modifies this`cells, this`held, this`vars, this`ctl, this`finalized, this`released
      ensures Valid() && vars == old(vars) - multiset{x}
      ensures ctl == Stopped(old(ctl), x)
      ensures Shrinks(NewData(old(cells), x, None), cells)
    {
      hide Counted, Conserved, Roots, Others, Fine, FrameRefs, Waiting, HandleOk, FrameOk, DataFits, AgreeBut,
           Shrinks, Shaped, Refs;
      Receive(multiset{x});
      StoppedFine(cells, ctl, x);
      SetHandle(x, None, Stopped(ctl, x));
    }

    /** `moonbit_uv_stream_data_make`, and the closures moved into it. */
    method MakeReadData(x: Ref, allocCb: Ref, readCb: Ref) returns (data: Ref)
      requires Steady() && held == multiset{x, allocCb, readCb}
      requires Live(cells, allocCb) && cells[allocCb].kind == Closure(AllocCall)
      requires Live(cells, readCb) && cells[readCb].kind == Closure(ReadCall)
      modifies this`cells, this`held
      ensures Steady() && held == multiset{x, data}
      ensures data == |old(cells)|
      ensures cells == old(cells) + [Cell(StreamData, 1, true, [None, Some(allocCb), Some(readCb)])]
    {
      hide Counted, Conserved, Roots, Others, Fine, FrameRefs, Waiting, Shaped, Refs;
      ReadDataRefs(x, allocCb, readCb, |cells|);
      ShapedReadData(cells, allocCb, readCb);
      data := MakeFine(StreamData, [None, Some(allocCb), Some(readCb)], multiset{x});
    }

    /** `moonbit_uv_read_start`: the closures go into read data made for this start. */
    method ReadStart(x: Ref, allocCb: Ref, readCb: Ref)
      requires Valid() && multiset{x, allocCb, readCb} <= vars
      requires Live(cells, x) && cells[x].kind == Stream
      requires Live(cells, allocCb) && cells[allocCb].kind == Closure(AllocCall)
      requires Live(cells, readCb) && cells[readCb].kind == Closure(ReadCall)
      modifies this`cells, this`held, this`vars, this`ctl, this`finalized, this`released
      ensures Valid() && vars == old(vars) - multiset{x, allocCb, readCb}
      ensures ctl == Started(old(ctl), x, |old(cells)|)
      ensures var data := |old(cells)|;
              Shrinks(NewData(old(cells) + [Cell(StreamData, 1, true, [None, Some(allocCb), Some(readCb)])],
                              x, Some(data)), cells)
    {
      hide Counted, Conserved, Roots, Others, Fine, FrameRefs, Waiting, HandleOk, FrameOk, DataFits, AgreeBut,
           Shrinks, Shaped, Refs;
      Receive(multiset{x, allocCb, readCb});
      var data := MakeReadData(x, allocCb, readCb);
      StartedFine(cells, ctl, x, data);
      SetHandle(x, Some(data), Started(ctl, x, data));
    }

    /** `moonbit_uv_close`. libuv asserts that the handle is not closing or closed yet: closing it again ends
        the process. */
    method Close(x: Ref, cb: Ref)
      requires Valid() && multiset{x, cb} <= vars
      requires Live(cells, x) && Live(cells, cb) && IsHandle(cells[x].kind) && cells[cb].kind == Closure(CloseCall)
      modifies this`cells, this`held, this`vars, this`ctl, this`crashed, this`finalized, this`released
      ensures crashed <==> old(crashed) || x !in old(ctl).inLoop || x in old(ctl).closing
      ensures x in old(ctl).inLoop && x !in old(ctl).closing ==>
                && Valid() && vars == old(vars) - multiset{x, cb} && ctl == CloseAsked(old(ctl), x, cb)
                && Shrinks(NewData(old(cells), x, Some(cb)), cells)
                && (Unset(old(cells), x) ==> cells == Replaced(old(cells), x, Some(cb)))
    {
      hide Counted, Conserved, Roots, Others, Fine, FrameRefs, Waiting, HandleOk, FrameOk, DataFits, AgreeBut,
           Shrinks, Shaped, Refs;
      if x !in ctl.inLoop || x in ctl.closing {
        crashed := true;
        return;
      }
      Receive(multiset{x, cb});
      ClosedFine(cells, ctl, x, cb);
      SetHandle(x, Some(cb), CloseAsked(ctl, x, cb));
    }

    /** `moonbit_uv_handle_loop`: the loop is shared before the handle, perhaps its last owner, is dropped. */
    method HandleLoop(x: Ref) returns (l: Ref)
      requires Valid() && x in vars && Live(cells, x) && IsHandle(cells[x].kind)
      modifies this`cells, this`held, this`vars, this`finalized, this`released
      ensures Valid() && vars == Exchanged(old(vars), multiset{x}, multiset{l})
      ensures |old(cells)[x].slots| == 2 && old(cells)[x].slots[0] == Some(l) && Live(cells, l) && cells[l].kind == Loop
      ensures Extended(old(cells), [], cells)
    {
      hide Counted, Conserved, Roots, Others, Fine, FrameRefs, Waiting, HandleOk, FrameOk, DataFits, AgreeBut,
           Shrinks, Shaped, Refs, Extended;
      Receive(multiset{x});
      HandleShape(cells, ctl, x);
      l := cells[x].slots[0].value;
      SlotAlive(x, 0);
      Share(l);
      ghost var shared := cells;
      ExtendedCount(old(cells), l, shared[l].count);
      Drop(x);
      ExtendedThen(old(cells), [], shared, cells);
      Return(l);
      assert l in vars;
      VarLive(l);
      SlotsKept(shared, cells, l);
    }

    // ---- Events: one callback at a time -------------------------------------------------------

    /** As `Shift`, when the objects and the loop's state are brought in line only later. */
    method RawShift(c: Control, now: multiset<Ref>)
      requires Counted()
      requires multiset(c.inLoop) + FrameRefs(c.frame) + now
               == multiset(ctl.inLoop) + FrameRefs(ctl.frame) + held
      modifies this`ctl, this`held
      ensures Counted() && ctl == c && held == now
    {
      hide Balanced, FrameRefs, FinalizedOnce, WorkerRefs, LoopOwned;
      ShiftOwned(vars, ctl, c, workers, held, now);
      ctl := c;
      held := now;
    }

    /** `cb->code(cb, ...)`: the callee owns its arguments until it returns. */
    method Enter(args: seq<Ref>)
      requires Steady() && ctl.frame.None? && held == multiset(args)
      modifies this`ctl, this`held
      ensures Valid() && ctl == InUser(old(ctl), args)
    {
      hide Counted, Conserved, Roots, Others, Fine, Waiting;
      FrameFine(cells, ctl, InUser(ctl, args));
      assert FrameRefs(ctl.frame) == multiset{};
      Shift(InUser(ctl, args), multiset{});
    }

    /** The callback returns: the callee has dropped what it was called with. */
    method CallbackReturns()
      requires Valid() && ctl.frame.Some? && ctl.frame.value.UserFrame?
      modifies this`cells, this`held, this`ctl, this`finalized, this`released
      ensures Valid() && ctl == old(ctl).(frame := None) && Shrinks(old(cells), cells)
    {
      hide Counted, Conserved, Roots, Others, Fine, Waiting;
      var args := ctl.frame.value.args;
      FrameFine(cells, ctl, ctl.(frame := None));
      Shift(ctl.(frame := None), multiset(args));
      DropAll(args);
    }

    method DropAll(args: seq<Ref>)
      requires Steady() && held == multiset(args)
      modifies this`cells, this`held, this`finalized, this`released
      ensures Valid() && Shrinks(old(cells), cells)
      decreases |args|
    {
      hide Counted, Conserved, Roots, Others, Fine, Waiting, Shrinks;
      ShrinksSelf(cells);
      if args != [] {
        assert args == [args[0]] + args[1..];
        Drop(args[0]);
        ghost var mid := cells;
        assert held == multiset(args[1..]);
        DropAll(args[1..]);
        ShrinksTransitive(old(cells), mid, cells);
      }
    }

    /** `moonbit_uv_timer_cb`: both the closure and the timer are shared with the callee. */
    method TimerFires(x: Ref, again: bool)
      requires Valid() && !crashed && ctl.frame.None?
      requires x in ctl.active && x < |cells| && cells[x].kind == Timer
      modifies this`cells, this`held, this`ctl
      ensures Valid()
      ensures |old(cells)[x].slots| == 2 && old(cells)[x].slots[1].Some?
      ensures var cb := old(cells)[x].slots[1].value;
              && Live(cells, cb) && cells[cb].kind == Closure(TimerCall) && Live(cells, x)
              && x in old(ctl).started && cb == old(ctl).started[x]
              && ctl == InUser(Fired(old(ctl), x, again), [cb, x])
      ensures SameObjects(old(cells), cells)
    {
      hide Counted, Conserved, Roots, Others, Fine, Waiting, FrameRefs;
      FiredFine(cells, ctl, x, again);
      Shift(Fired(ctl, x, again), multiset{});
      var cb := cells[x].slots[1].value;
      SlotAlive(x, 1);
      SharePair(cb, x);
      NoMore(multiset([cb, x]));
      Enter([cb, x]);
    }

    /** `moonbit_uv_close_cb`: the closure is moved out, the loop's reference dropped, the closure called.
        The callee gets the closure `close` was given exactly when the handle was left alone since. */
    method CloseArrives(x: Ref) returns (called: bool)
      requires Valid() && !crashed && ctl.frame.None? && x in ctl.closing
      modifies this`cells, this`held, this`ctl, this`crashed, this`finalized, this`released
      ensures called <==> x !in old(ctl).disturbed
      ensures called ==> Valid() && !crashed
      ensures called ==> x in old(ctl).finish && ctl == InUser(Closed(old(ctl), x), [old(ctl).finish[x]])
      ensures called ==> var cb := old(ctl).finish[x]; Live(cells, cb) && cells[cb].kind == Closure(CloseCall)
      ensures !called ==> crashed && cells == old(cells) && ctl == old(ctl)
      ensures Extended(old(cells), [], cells)
    {
      hide Counted, Conserved, Roots, Others, Fine, Waiting, FrameRefs, Shrinks, Extended;
      ClosingShape(cells, ctl, x);
      called := IsKind(cells, cells[x].slots[1], Closure(CloseCall));
      if !called {
        crashed := true;
        ExtendedSelf(cells);
        return;
      }
      var cb := ReleaseFromLoop(x);
      ghost var before := cells;
      ExtendedSelf(old(cells));
      ExtendedSlot(old(cells), old(cells), x, 1, None);
      Drop(x);
      ExtendedThen(old(cells), [], before, cells);
      assert held == multiset([cb]);
      HeldAlive(cb);
      SlotsKept(before, cells, cb);
      Enter([cb]);
    }

    /** `cb = handle->data; handle->data = NULL`, and the loop lets go of the handle. */
    method ReleaseFromLoop(x: Ref) returns (cb: Ref)
      requires Valid() && ctl.frame.None? && x in ctl.closing && x !in ctl.disturbed
      modifies this`cells, this`held, this`ctl
      ensures Steady() && held == multiset{cb} + multiset{x}
      ensures x in old(ctl).finish && cb == old(ctl).finish[x] && ctl == Closed(old(ctl), x)
      ensures cb < |cells| && cells[cb].kind == Closure(CloseCall)
      ensures |old(cells)[x].slots| == 2 && cells == SetSlot(old(cells), x, 1, None)
    {
      hide Roots, Others, Fine, Waiting, FrameRefs, Balanced, FinalizedOnce;
      ClosingShape(cells, ctl, x);
      ClosedDataFine(cells, ctl, x);
      WaitingSame(cells, x, cells[x].(slots := cells[x].slots[1 := None]));
      cb := Take(x, 1);
      LoopGives(ctl.inLoop, FrameRefs(ctl.frame), x, cb);
      RawShift(Closed(ctl, x), multiset{cb} + multiset{x});
    }

    /** `moonbit_uv_read_start_alloc_cb` up to the call: the read data is taken off the stream, and the
        closure and the stream are shared with the callee. libuv asks only while no buffer is waiting. */
    method BufferWanted(x: Ref)
      requires Valid() && !crashed && ctl.frame.None? && x in ctl.active && x < |cells| && cells[x].kind == Stream
      requires |cells[x].slots| == 2 && Holding(cells, cells[x].slots[1]).None?
      modifies this`cells, this`held, this`ctl
      ensures Valid()
      ensures old(cells)[x].slots[1].Some?
      ensures var d := old(cells)[x].slots[1].value;
              && x in old(ctl).started && d == old(ctl).started[x]
              && Live(old(cells), d) && old(cells)[d].kind == StreamData
              && |old(cells)[d].slots| == 3 && old(cells)[d].slots[1].Some?
              && ctl == InAlloc(old(ctl), x, d, [old(cells)[d].slots[1].value, x])
              && IsKind(cells, old(cells)[d].slots[1], Closure(AllocCall))
      ensures Extended(old(cells), [], cells)
    {
      hide Counted, Conserved, Roots, Others, Fine, Waiting, FrameRefs;
      var d := TakeReadData(x);
      ReadDataShape(cells, ctl, d);
      var cb := cells[d].slots[1].value;
      SlotAlive(d, 1);
      SharePair(cb, x);
      AllocArgsFine(cells, ctl, [cb, x]);
      AllocRefs(ctl, [cb, x]);
      NoMore(multiset([cb, x]));
      Shift(InAlloc(ctl, x, d, [cb, x]), multiset{});
    }

    /** `stream_data = handle->data; handle->data = NULL`. */
    method TakeReadData(x: Ref) returns (d: Ref)
      requires Valid() && ctl.frame.None? && x in ctl.active && x < |cells| && cells[x].kind == Stream
      requires |cells[x].slots| == 2 && Holding(cells, cells[x].slots[1]).None?
      modifies this`cells, this`held, this`ctl
      ensures Valid() && ctl == InAlloc(old(ctl), x, d, []) && old(cells)[x].slots[1] == Some(d)
      ensures x in ctl.started && d == ctl.started[x]
      ensures cells == SetSlot(old(cells), x, 1, None)
      ensures Live(cells, d) && cells[d].kind == StreamData && Live(cells, x)
    {
      hide Roots, Others, Fine, Waiting, Balanced, FinalizedOnce;
      StreamShape(cells, ctl, x);
      SlotAlive(x, 1);
      d := cells[x].slots[1].value;
      ReadDataShape(cells, ctl, d);
      TookDataFine(cells, ctl, x, d);
      WaitingSame(cells, x, cells[x].(slots := cells[x].slots[1 := None]));
      TakeToFrame(x, d);
    }

    method TakeToFrame(x: Ref, d: Ref)
      requires Counted() && ctl.frame.None? && held == multiset{}
      requires Live(cells, x) && |cells[x].slots| == 2 && cells[x].slots[1] == Some(d)
      modifies this`cells, this`held, this`ctl
      ensures Counted() && held == multiset{}
      ensures cells == SetSlot(old(cells), x, 1, None) && ctl == InAlloc(old(ctl), x, d, [])
    {
      hide Counted, Roots, Others;
      var _ := Take(x, 1);
      AllocRefs(InAlloc(ctl, x, d, []), []);
      IntoFrame(multiset(ctl.inLoop), d);
      RawShift(InAlloc(ctl, x, d, []), multiset{});
    }

    /** The allocation callback returns `b`: `stream_data->bytes = b`, and the read data goes back. */
    method BufferReturned(b: Ref)
      requires Valid() && ctl.frame.Some? && ctl.frame.value.AllocFrame?
      requires b in vars && Live(cells, b) && cells[b].kind == Buffer
      modifies this`cells, this`held, this`vars, this`ctl, this`finalized, this`released, this`asked
      ensures Valid() && vars == old(vars) - multiset{b}
      ensures ctl == GaveBuffer(old(ctl), old(ctl).frame.value.stream, old(ctl).frame.value.data)
              && asked == old(asked) + multiset{b}
      ensures var x, d := old(ctl).frame.value.stream, old(ctl).frame.value.data;
              Live(cells, x) && |cells[x].slots| == 2 && cells[x].slots[1] == Some(d)
              && Live(cells, d) && |cells[d].slots| == 3 && cells[d].slots[0] == Some(b)
              && Live(old(cells), d) && old(cells)[d].kind == StreamData && |old(cells)[d].slots| == 3
              && Extended(SetSlot(old(cells), d, 0, Some(b)), [], cells)
    {
      hide Counted, Conserved, Roots, Others, Fine, Waiting, FrameRefs, Shrinks, Extended;
      var x, d, args := ctl.frame.value.stream, ctl.frame.value.data, ctl.frame.value.args;
      AllocArgsFine(cells, ctl, []);
      AllocRefs(ctl, []);
      Shift(InAlloc(ctl, x, d, []), multiset(args));
      ghost var before := cells;
      DropAll(args);
      AllocShape(cells, ctl);
      VarLive(b);
      SlotsKept(before, cells, b);
      ghost var dropped := cells;
      Receive(multiset{b});
      PutBack(b);
      ExtendedLater(before, dropped, cells, d, Some(b));
    }

    method PutBack(b: Ref)
      requires Steady() && ctl.frame.Some? && ctl.frame.value.AllocFrame? && ctl.frame.value.args == []
      requires held == multiset{b} && Live(cells, b) && cells[b].kind == Buffer
      modifies this`cells, this`held, this`ctl, this`finalized, this`released, this`asked
      ensures Valid()
      ensures ctl == GaveBuffer(old(ctl), old(ctl).frame.value.stream, old(ctl).frame.value.data)
              && asked == old(asked) + multiset{b}
      ensures var x, d := old(ctl).frame.value.stream, old(ctl).frame.value.data;
              Live(cells, x) && |cells[x].slots| == 2 && cells[x].slots[1] == Some(d)
              && Live(cells, d) && |cells[d].slots| == 3 && cells[d].slots[0] == Some(b)
              && Live(old(cells), d) && old(cells)[d].kind == StreamData && |old(cells)[d].slots| == 3
              && Extended(SetSlot(old(cells), d, 0, Some(b)), [], cells)
    {
      hide Counted, Conserved, Roots, Others, Fine, Waiting, FrameRefs, Shrinks, Extended;
      var x, d := ctl.frame.value.stream, ctl.frame.value.data;
      ghost var h := cells;
      PutBackFine(cells, ctl, b);
      AllocShape(cells, ctl);
      var c := GaveBuffer(ctl, x, d);
      FillReadData(x, d, b);
      LoopRooted(x);
      SetData(x, Some(d));
      Settle(SetSlot(SetSlot(h, d, 0, Some(b)), x, 1, Some(d)), c);
      PutBackKinds(h, cells, d, b, x);
      SlotsKept(SetSlot(SetSlot(h, d, 0, Some(b)), x, 1, Some(d)), cells, x);
      SlotAlive(x, 1);
      SlotsKept(SetSlot(SetSlot(h, d, 0, Some(b)), x, 1, Some(d)), cells, d);
    }

    /** `stream_data->bytes = buf_base`, with the callback over. */
    method FillReadData(x: Ref, d: Ref, b: Ref)
      requires Counted() && Conserved() && ctl.frame == Some(AllocFrame(x, d, [])) && held == multiset{b}
      requires Live(cells, d) && cells[d].kind.StreamData? && |cells[d].slots| == 3 && cells[d].slots[0].None?
      modifies this`cells, this`held, this`ctl, this`asked
      ensures Counted() && Conserved() && ctl == old(ctl).(frame := None) && held == multiset{d}
      ensures cells == SetSlot(old(cells), d, 0, Some(b)) && asked == old(asked) + multiset{b}
    {
      hide Counted, Roots, Others, Waiting, FrameRefs, AllAccounted;
      AllocRefs(ctl, []);
      FromFrame(multiset(ctl.inLoop), b, d);
      RawShift(ctl.(frame := None), multiset{b} + multiset{d});
      WaitingGains(cells, d, cells[d].(slots := cells[d].slots[0 := Some(b)]));
      TakenFirst(b, d);
      Store(d, 0, b);
      AskedOne(asked, delivered, released, old(cells), cells, b);
      asked := asked + multiset{b};
    }

    lemma LoopRooted(x: Ref)
      requires x in ctl.inLoop
      ensures x in Roots()
    {
      hide FrameRefs;
      assert multiset(ctl.inLoop)[x] == 1;
      assert Roots()[x] >= 1;
    }

    /** `moonbit_uv_read_start_read_cb`: the waiting buffer, if any, is moved out and passed on. */
    method ReadArrives(x: Ref)
      requires Valid() && !crashed && ctl.frame.None? && x in ctl.active && x < |cells| && cells[x].kind == Stream
      modifies this`cells, this`held, this`ctl, this`delivered
      ensures Valid() && |old(cells)[x].slots| == 2 && old(cells)[x].slots[1].Some?
      ensures var d := old(cells)[x].slots[1].value;
              && x in old(ctl).started && d == old(ctl).started[x]
              && Live(old(cells), d) && old(cells)[d].kind == StreamData
              && |old(cells)[d].slots| == 3 && old(cells)[d].slots[2].Some?
              && ctl == InUser(old(ctl), [old(cells)[d].slots[2].value, x] + Present(old(cells)[d].slots[0]))
              && IsKind(cells, old(cells)[d].slots[2], Closure(ReadCall))
              && delivered == old(delivered) + multiset(Present(old(cells)[d].slots[0]))
              && Extended(SetSlot(old(cells), d, 0, None), [], cells)
    {
      hide Counted, Conserved, Roots, Others, Fine, Waiting, FrameRefs, Extended, Shrinks;
      var cb, bytes := TakeWaiting(x);
      ghost var taken := cells;
      SharePair(cb, x);
      ghost var d := old(cells)[x].slots[1].value;
      ExtendedThen(SetSlot(old(cells), d, 0, None), [], taken, cells);
      ReadArgs(cb, x, bytes);
      Enter([cb, x] + Present(bytes));
    }

    /** The read closure, and the waiting buffer if there is one. */
    method TakeWaiting(x: Ref) returns (cb: Ref, bytes: Option<Ref>)
      requires Valid() && ctl.frame.None? && x in ctl.active && x < |cells| && cells[x].kind == Stream
      modifies this`cells, this`held, this`delivered
      ensures Steady() && held == multiset(Present(bytes))
      ensures Live(cells, x) && cells[x].kind == Stream && Live(cells, cb) && cells[cb].kind == Closure(ReadCall)
      ensures |old(cells)[x].slots| == 2 && old(cells)[x].slots[1].Some?
      ensures var d := old(cells)[x].slots[1].value;
              && x in ctl.started && d == ctl.started[x]
              && Live(old(cells), d) && old(cells)[d].kind == StreamData && |old(cells)[d].slots| == 3
              && old(cells)[d].slots[0] == bytes && old(cells)[d].slots[2] == Some(cb)
              && delivered == old(delivered) + multiset(Present(bytes))
              && Extended(SetSlot(old(cells), d, 0, None), [], cells)
    {
      hide Counted, Conserved, Roots, Others, Fine, Waiting, FrameRefs;
      StreamShape(cells, ctl, x);
      SlotAlive(x, 1);
      var d := cells[x].slots[1].value;
      ReadDataShape(cells, ctl, d);
      cb := cells[d].slots[2].value;
      SlotAlive(d, 2);
      bytes := cells[d].slots[0];
      if bytes.Some? {
        TakeBuffer(x, d);
      }
    }

    /** `buf_base = stream_data->bytes; stream_data->bytes = NULL`. */
    method TakeBuffer(x: Ref, d: Ref)
      requires Valid() && ctl.frame.None? && x in ctl.active && x < |cells| && cells[x].kind == Stream
      requires |cells[x].slots| == 2 && cells[x].slots[1] == Some(d) && Live(cells, d)
      requires cells[d].kind == StreamData && |cells[d].slots| == 3 && cells[d].slots[0].Some?
      modifies this`cells, this`held, this`delivered
      ensures Steady() && held == multiset{old(cells)[d].slots[0].value}
      ensures cells == SetSlot(old(cells), d, 0, None)
              && delivered == old(delivered) + multiset{old(cells)[d].slots[0].value}
    {
      hide Roots, Others, Fine, Waiting, Balanced, FinalizedOnce, FrameRefs, AllAccounted;
      TookBufferFine(cells, ctl, x, d);
      WaitingLoses(cells, d, cells[d].(slots := cells[d].slots[0 := None]));
      var b := Take(d, 0);
      DeliveredOne(asked, delivered, released, old(cells), cells, b);
      delivered := delivered + multiset{b};
    }

    // ---- Requests -----------------------------------------------------------------------------

    /** One reference becomes the user's while the stub keeps the rest. */
    method HandOver(r: Ref, ghost rest: multiset<Ref>)
      requires Steady() && held == rest + multiset{r}
      modifies this`vars, this`held
      ensures Steady() && vars == old(vars) + multiset{r} && held == rest
    {
      hide Conserved, Balanced, Fine, FrameRefs, Waiting, FinalizedOnce, LoopOwned;
      HandOverRefs(vars, LoopOwned(ctl, workers), rest, r);
      vars := vars + multiset{r};
      held := held - multiset{r};
    }

    /** libuv takes a request: the loop keeps one reference, the caller gets the other. */
    method Submit(req: Ref, finish: Ref, payload: Ref, queued: bool, rest: multiset<Ref>)
      requires Steady() && held == rest + multiset{req}
      requires Submittable(cells, ctl, req, finish, payload, queued)
      modifies this`cells, this`held, this`vars, this`ctl
      ensures Steady() && held == rest && vars == old(vars) + multiset{req}
      ensures SameObjects(old(cells), cells) && ctl == Submitted(old(ctl), req, finish, payload, queued)
    {
      hide Counted, Conserved, Roots, Others, Fine, FrameRefs, Waiting, RequestOk, Shaped, Submittable;
      CanShare(cells, ctl, req, finish, payload, queued);
      CountSubmittable(cells, ctl, req, finish, payload, queued, cells[req].count + 1);
      Share(req);
      SubmittedFine(cells, ctl, req, finish, payload, queued);
      LoopKeeps(ctl.inLoop, FrameRefs(ctl.frame), rest, req);
      Shift(Submitted(ctl, req, finish, payload, queued), rest + multiset{req});
      HandOver(req, rest);
    }

    /** `moonbit_uv_write_make` and `moonbit_uv_write_data_make`, with the closure and the buffers moved in. */
    method MakeWrite(x: Ref, bufs: Ref, cb: Ref) returns (req: Ref)
      requires Steady() && held == multiset{x, bufs, cb}
      requires Live(cells, bufs) && cells[bufs].kind == Buffers
      requires Live(cells, cb) && cells[cb].kind == Closure(WriteCall)
      modifies this`cells, this`held
      ensures cells == old(cells) + [Cell(WriteData, 1, true, [Some(cb), Some(bufs)]),
                                     Cell(Write, 1, true, [Some(|old(cells)|)])]
      ensures req == |old(cells)| + 1 && held == multiset{x} + multiset{req}
      ensures Shaped(cells, req) && req !in ctl.inLoop + ctl.active + ctl.closing + ctl.queued + ctl.disturbed
      ensures Steady()
    {
      hide Counted, Conserved, Roots, Others, Fine, FrameRefs, Waiting, Shaped, Refs;
      OwnerRefs([cb, bufs], [Some(cb), Some(bufs)]);
      OneAndTwo(x, cb, bufs);
      ShapedWriteData(cells, cb, bufs);
      var data := MakeFine(WriteData, [Some(cb), Some(bufs)], multiset{x});
      ShapedWrite(cells, data, cb, bufs);
      OwnerRefs([data], [Some(data)]);
      NewIsUnknown(cells, ctl);
      req := MakeFine(Write, [Some(data)], multiset{x});
    }

    /** `moonbit_uv_write`, on a stream libuv accepts writes for. */
    method StartWrite(x: Ref, bufs: Ref, cb: Ref) returns (req: Ref)
      requires Valid() && multiset{x, bufs, cb} <= vars
      requires Live(cells, x) && cells[x].kind == Stream && x in ctl.inLoop && x !in ctl.closing
      requires Live(cells, bufs) && cells[bufs].kind == Buffers
      requires Live(cells, cb) && cells[cb].kind == Closure(WriteCall)
      modifies this`cells, this`held, this`vars, this`ctl, this`finalized, this`released
      ensures Valid() && vars == Exchanged(old(vars), multiset{x, bufs, cb}, multiset{req})
      ensures ctl == Submitted(old(ctl), req, cb, bufs, false)
      ensures req == |old(cells)| + 1
      ensures Extended(old(cells), [WriteData, Write], cells)
    {
      hide Counted, Conserved, Roots, Others, Fine, FrameRefs, Waiting, Shaped, Shrinks, SameObjects, Extended,
           Submittable, RequestOk;
      Receive(multiset{x, bufs, cb});
      req := MakeWrite(x, bufs, cb);
      ghost var made := cells;
      WriteMade(old(cells), cells, cb, bufs);
      WriteReady(cells, ctl, req - 1, req, cb, bufs);
      Submit(req, cb, bufs, false, multiset{x});
      ExtendedThen(old(cells), [WriteData, Write], made, cells);
      ghost var submitted := cells;
      NothingElse(x);
      Drop(x);
      ExtendedThen(old(cells), [WriteData, Write], submitted, cells);
    }

    /** The last callback of a request: its closure leaves the data, the loop's reference goes into the call. */
    method FinishWith(x: Ref, d: Ref, k: nat)
      requires Valid() && ctl.frame.None? && x in ctl.inLoop
      requires Live(cells, d) && k < |cells[d].slots| && cells[d].slots[k].Some? && !cells[d].kind.StreamData?
      requires Fine(SetSlot(cells, d, k, None), Completed(ctl, x))
      modifies this`cells, this`held, this`ctl
      ensures Valid() && ctl == InUser(Completed(old(ctl), x), [old(cells)[d].slots[k].value, x])
      ensures cells == SetSlot(old(cells), d, k, None)
    {
      hide Roots, Others, Fine, Waiting, FrameRefs, Balanced, FinalizedOnce;
      WaitingSame(cells, d, cells[d].(slots := cells[d].slots[k := None]));
      var cb := Take(d, k);
      LoopGives(ctl.inLoop, FrameRefs(ctl.frame), x, cb);
      RawShift(Completed(ctl, x), multiset{cb} + multiset{x});
      assert multiset{cb} + multiset{x} == multiset([cb, x]);
      Enter([cb, x]);
    }

    /** `moonbit_uv_write_cb`: the closure is moved out of the request's data, the loop's reference into the call. */
    method WriteDone(x: Ref)
      requires Valid() && !crashed && ctl.frame.None? && x in ctl.inLoop && x < |cells| && cells[x].kind == Write
      modifies this`cells, this`held, this`ctl
      ensures Valid() && x in old(ctl).finish && ctl == InUser(Completed(old(ctl), x), [old(ctl).finish[x], x])
      ensures IsKind(cells, Some(old(ctl).finish[x]), Closure(WriteCall)) && Extended(old(cells), [], cells)
    {
      hide Roots, Others, Fine, Waiting, FrameRefs, Balanced, FinalizedOnce;
      InFlight(cells, ctl, x);
      SlotAlive(x, 0);
      var d := cells[x].slots[0].value;
      FineShape(cells, ctl, d);
      WriteDoneFine(cells, Roots(), ctl, x, d);
      FinishWith(x, d, 0);
    }

    // Work

    method MakeWork(l: Ref, workCb: Ref, afterCb: Ref) returns (req: Ref)
      requires Steady() && held == multiset{l, workCb, afterCb}
      requires Live(cells, l) && cells[l].kind == Loop
      requires Live(cells, workCb) && cells[workCb].kind == Closure(WorkCall)
      requires Live(cells, afterCb) && cells[afterCb].kind == Closure(AfterCall)
      modifies this`cells, this`held
      ensures cells == old(cells) + [Cell(WorkData, 1, true, [Some(workCb), Some(afterCb)]),
                                     Cell(Work, 1, true, [Some(l), Some(|old(cells)|)])]
      ensures req == |old(cells)| + 1 && held == multiset{} + multiset{req}
      ensures Shaped(cells, req) && req !in ctl.inLoop + ctl.active + ctl.closing + ctl.queued + ctl.disturbed
      ensures Steady()
    {
      hide Counted, Conserved, Roots, Others, Fine, FrameRefs, Waiting, Shaped, Refs;
      OwnerRefs([workCb, afterCb], [Some(workCb), Some(afterCb)]);
      OneAndTwo(l, workCb, afterCb);
      ShapedWorkData(cells, workCb, afterCb);
      var data := MakeFine(WorkData, [Some(workCb), Some(afterCb)], multiset{l});
      ShapedWork(cells, l, data, workCb, afterCb);
      OwnerRefs([l, data], [Some(l), Some(data)]);
      assert multiset{l} + multiset{data} == multiset{} + multiset([l, data]);
      NewIsUnknown(cells, ctl);
      req := MakeFine(Work, [Some(l), Some(data)], multiset{});
    }

    /** `moonbit_uv_queue_work`: the loop argument stays with the request. */
    method QueueWork(l: Ref, workCb: Ref, afterCb: Ref) returns (req: Ref)
      requires Valid() && multiset{l, workCb, afterCb} <= vars
      requires Live(cells, l) && cells[l].kind == Loop
      requires Live(cells, workCb) && cells[workCb].kind == Closure(WorkCall)
      requires Live(cells, afterCb) && cells[afterCb].kind == Closure(AfterCall)
      modifies this`cells, this`held, this`vars, this`ctl
      ensures Valid() && vars == Exchanged(old(vars), multiset{l, workCb, afterCb}, multiset{req})
      ensures ctl == Submitted(old(ctl), req, afterCb, workCb, true)
      ensures req == |old(cells)| + 1
      ensures Extended(old(cells), [WorkData, Work], cells)
    {
      hide Counted, Conserved, Roots, Others, Fine, FrameRefs, Waiting, Shaped, Submittable, RequestOk;
      Receive(multiset{l, workCb, afterCb});
      req := MakeWork(l, workCb, afterCb);
      WorkReady(cells, ctl, req - 1, req, l, workCb, afterCb);
      Submit(req, afterCb, workCb, true, multiset{});
    }

    /** `moonbit_uv_work_cb`, on a pool thread and so at any time: the work closure is moved out; the request is
        shared with it. */
    method WorkRuns(x: Ref)
      requires Valid() && !crashed && x in ctl.queued
      modifies this`cells, this`held, this`ctl, this`workers
      ensures Valid() && ctl == Running(old(ctl), x) && x in old(ctl).payload
      ensures workers == old(workers) + [Worker(x, old(ctl).payload[x])]
      ensures IsKind(cells, Some(old(ctl).payload[x]), Closure(WorkCall)) && Extended(old(cells), [], cells)
    {
      hide Roots, Others, Fine, Waiting, FrameRefs, Balanced, FinalizedOnce;
      QueuedIsWork(cells, ctl, x);
      var d := WorkDataOf(x);
      WorkFine(cells, Roots(), ctl, x, cells[x].slots[0], d, 0);
      WaitingSame(cells, d, cells[d].(slots := cells[d].slots[0 := None]));
      var cb := Take(d, 0);
      RawShift(Running(ctl, x), multiset{} + multiset{cb});
      Share(x);
      PairOf(cb, x);
      EnterWorker(x, cb);
    }

    /** `cb->code(cb, req)` on a pool thread. */
    method EnterWorker(x: Ref, cb: Ref)
      requires Steady() && held == multiset{cb, x}
      modifies this`workers, this`held
      ensures Valid() && workers == old(workers) + [Worker(x, cb)]
    {
      hide Conserved, Balanced, Fine, FrameRefs, FinalizedOnce, WorkerRefs, LoopOwned;
      ghost var entered := workers + [Worker(x, cb)];
      assert entered[..|workers|] + entered[|workers| + 1..] == workers;
      WorkerOwned(vars, ctl, entered, |workers|);
      workers := workers + [Worker(x, cb)];
      held := multiset{};
    }

    /** A work closure returns: it has dropped itself and the request. */
    method WorkReturns(i: nat)
      requires Valid() && i < |workers|
      modifies this`cells, this`held, this`workers, this`finalized, this`released
      ensures Valid() && workers == old(workers[..i] + workers[i + 1..]) && Shrinks(old(cells), cells)
    {
      hide Counted, Conserved, Roots, Others, Fine;
      var w := workers[i];
      LeaveWorker(i);
      assert multiset{w.closure, w.request} == multiset([w.closure, w.request]);
      DropAll([w.closure, w.request]);
    }

    method LeaveWorker(i: nat)
      requires Valid() && i < |workers|
      modifies this`held, this`workers
      ensures Steady() && workers == old(workers[..i] + workers[i + 1..])
      ensures held == multiset{old(workers)[i].closure, old(workers)[i].request}
    {
      hide Conserved, Balanced, Fine, FrameRefs, FinalizedOnce, WorkerRefs, LoopOwned;
      WorkerOwned(vars, ctl, workers, i);
      held := multiset{workers[i].closure, workers[i].request};
      workers := workers[..i] + workers[i + 1..];
    }

    /** `moonbit_uv_after_work_cb`, also for work that was cancelled and has not run. */
    method WorkDone(x: Ref)
      requires Valid() && !crashed && ctl.frame.None? && x in ctl.inLoop && x < |cells| && cells[x].kind == Work
      requires forall w :: w in workers ==> w.request != x
      modifies this`cells, this`held, this`ctl
      ensures Valid() && x in old(ctl).finish && ctl == InUser(Completed(old(ctl), x), [old(ctl).finish[x], x])
      ensures IsKind(cells, Some(old(ctl).finish[x]), Closure(AfterCall)) && Extended(old(cells), [], cells)
    {
      hide Roots, Others, Fine, Waiting, FrameRefs, Balanced, FinalizedOnce;
      var d := WorkDataOf(x);
      WorkFine(cells, Roots(), ctl, x, cells[x].slots[0], d, 1);
      FinishWith(x, d, 1);
    }

    method WorkDataOf(x: Ref) returns (d: Ref)
      requires Valid() && x in ctl.inLoop && x < |cells| && cells[x].kind == Work
      ensures |cells[x].slots| == 2 && cells[x].slots == [cells[x].slots[0], Some(d)] && Live(cells, x)
      ensures Live(cells, d) && cells[d].kind == WorkData && |cells[d].slots| == 2
      ensures x in ctl.finish && cells[d].slots[1] == Some(ctl.finish[x])
      ensures IsKind(cells, cells[d].slots[1], Closure(AfterCall))
      ensures x in ctl.queued ==> x in ctl.payload && cells[d].slots[0] == Some(ctl.payload[x])
                                  && IsKind(cells, cells[d].slots[0], Closure(WorkCall))
    {
      hide Counted, Conserved, Roots, Others, Fine, Waiting, FrameRefs;
      InFlight(cells, ctl, x);
      d := cells[x].slots[1].value;
      SlotAlive(x, 1);
      FineShape(cells, ctl, d);
    }

    // File reads and writes

    /** `moonbit_uv_fs_read` and `moonbit_uv_fs_write`: loop, closure and buffers move into the request. */
    method StartFs(l: Ref, bufs: Ref, cb: Ref) returns (req: Ref)
      requires Valid() && multiset{l, bufs, cb} <= vars
      requires Live(cells, l) && cells[l].kind == Loop
      requires Live(cells, bufs) && cells[bufs].kind == Buffers
      requires Live(cells, cb) && cells[cb].kind == Closure(FsCall)
      modifies this`cells, this`held, this`vars, this`ctl
      ensures Valid() && vars == Exchanged(old(vars), multiset{l, bufs, cb}, multiset{req})
      ensures ctl == Submitted(old(ctl), req, cb, bufs, false)
      ensures req == |old(cells)| && Extended(old(cells), [Fs], cells)
    {
      hide Counted, Conserved, Roots, Others, Fine, FrameRefs, Waiting, Shaped, Refs;
      Receive(multiset{l, bufs, cb});
      req := MakeFs(l, bufs, cb);
      Submit(req, cb, bufs, false, multiset{});
    }

    method MakeFs(l: Ref, bufs: Ref, cb: Ref) returns (req: Ref)
      requires Steady() && held == multiset{l, bufs, cb}
      requires Live(cells, l) && cells[l].kind == Loop
      requires Live(cells, bufs) && cells[bufs].kind == Buffers
      requires Live(cells, cb) && cells[cb].kind == Closure(FsCall)
      modifies this`cells, this`held
      ensures Steady() && held == multiset{} + multiset{req} && req == |old(cells)|
      ensures cells == old(cells) + [Cell(Fs, 1, true, [Some(l), Some(cb), Some(bufs)])]
      ensures Shaped(cells, req) && req !in ctl.inLoop + ctl.active + ctl.closing + ctl.queued + ctl.disturbed
    {
      hide Counted, Conserved, Roots, Others, Fine, FrameRefs, Waiting, Shaped, Refs;
      OwnerRefs([l, cb, bufs], [Some(l), Some(cb), Some(bufs)]);
      assert multiset{l, bufs, cb} == multiset{} + multiset([l, cb, bufs]);
      ShapedFs(cells, l, Some(cb), Some(bufs));
      NewIsUnknown(cells, ctl);
      req := MakeFine(Fs, [Some(l), Some(cb), Some(bufs)], multiset{});
    }

    /** `moonbit_uv_fs_cb`. */
    method FsDone(x: Ref)
      requires Valid() && !crashed && ctl.frame.None? && x in ctl.inLoop && x < |cells| && cells[x].kind == Fs
      modifies this`cells, this`held, this`ctl
      ensures Valid() && x in old(ctl).finish && ctl == InUser(Completed(old(ctl), x), [old(ctl).finish[x], x])
      ensures IsKind(cells, Some(old(ctl).finish[x]), Closure(FsCall)) && Extended(old(cells), [], cells)
      ensures x in old(ctl).payload && |cells[x].slots| == 3 && cells[x].slots[2] == Some(old(ctl).payload[x])
    {
      hide Counted, Conserved, Roots, Others, Fine, Waiting, FrameRefs;
      InFlight(cells, ctl, x);
      FsDoneFine(cells, ctl, x);
      FinishWith(x, x, 1);
    }

    /** `moonbit_uv_fs_read_sync`: the request is made for the call and dropped after it, then the buffers. */
    method ReadSync(l: Ref, bufs: Ref)
      requires Valid() && multiset{l, bufs} <= vars
      requires Live(cells, l) && cells[l].kind == Loop && Live(cells, bufs) && cells[bufs].kind == Buffers
      modifies this`cells, this`held, this`vars, this`finalized, this`released
      ensures Valid() && vars == old(vars) - multiset{l, bufs}
      ensures Extended(old(cells), [Fs], cells) && !Live(cells, |old(cells)|)
    {
      hide Counted, Conserved, Roots, Others, Fine, FrameRefs, Waiting, Shaped, Refs, Shrinks, Extended;
      Receive(multiset{l, bufs});
      LoneLoopRefs(l, bufs);
      ShapedFs(cells, l, None, None);
      var req := MakeFine(Fs, [Some(l), None, None], multiset{bufs});
      FsMade(old(cells), cells, l);
      ghost var made := cells;
      Discard(req, bufs);
      ExtendedThen(old(cells), [Fs], made, cells);
    }

    method Discard(req: Ref, other: Ref)
      requires Steady() && held == multiset{other} + multiset{req} && CountOf(cells, req) == 1
      modifies this`cells, this`held, this`finalized, this`released
      ensures Valid() && Shrinks(old(cells), cells) && !Live(cells, req)
    {
      hide Counted, Conserved, Roots, Others, Fine, Waiting, Shrinks;
      NothingMore(multiset{other}, req);
      Drop(req);
      ghost var dropped := cells;
      NothingElse(other);
      Drop(other);
      ShrinksTransitive(old(cells), dropped, cells);
      StaysBuried(dropped, cells, req);
    }

    lemma HeldAlive(r: Ref)
      requires Counted() && r in held
      ensures Live(cells, r)
    {
      assert r in Roots();
      RootLive(cells, Roots(), r);
    }

    lemma SlotAlive(x: Ref, k: nat)
      requires Counted() && x < |cells| && k < |cells[x].slots| && cells[x].slots[k].Some?
      ensures Live(cells, cells[x].slots[k].value)
    {
      SlotLive(cells, Roots(), x, k);
    }

    lemma VarLive(r: Ref)
      requires Counted() && r in vars
      ensures Live(cells, r)
    {
      assert r in Roots();
      RootLive(cells, Roots(), r);
    }
  }

  lemma {:induction false} SomesRefs(parts: seq<Ref>)
    ensures Refs(Somes(parts)) == multiset(parts)
  {
    if parts != [] {
      assert Somes(parts)[1..] == Somes(parts[1..]);
      SomesRefs(parts[1..]);
      assert parts == [parts[0]] + parts[1..];
    }
  }

  lemma OwnerRefs(parts: seq<Ref>, slots: seq<Option<Ref>>)
    requires |slots| == |parts| && forall k :: 0 <= k < |parts| ==> slots[k] == Some(parts[k])
    ensures Refs(slots) == multiset(parts)
  {
    assert slots == Somes(parts);
    SomesRefs(parts);
  }

  lemma OneAndTwo(x: Ref, a: Ref, b: Ref)
    ensures multiset{x, a, b} == multiset{x} + multiset([a, b])
    ensures multiset{x, b, a} == multiset{x} + multiset([a, b])
  {
  }

  lemma LoopKeeps(inLoop: set<Ref>, others: multiset<Ref>, rest: multiset<Ref>, x: Ref)
    requires x !in inLoop
    ensures multiset(inLoop + {x}) + others + (rest + multiset{x})
            == multiset(inLoop) + others + (rest + multiset{x} + multiset{x})
  {
  }

  lemma LoopTakes(inLoop: set<Ref>, others: multiset<Ref>, x: Ref)
    requires x !in inLoop
    ensures multiset(inLoop + {x}) + others + multiset{x} == multiset(inLoop) + others + (multiset{x} + multiset{x})
  {
  }

  lemma LoopGives(inLoop: set<Ref>, others: multiset<Ref>, x: Ref, cb: Ref)
    requires x in inLoop
    ensures multiset(inLoop - {x}) + others + (multiset{cb} + multiset{x})
            == multiset(inLoop) + others + (multiset{} + multiset{cb})
  {
  }

  lemma HandleAndData(x: Ref, v: Option<Ref>)
    ensures v.Some? ==> multiset{x, v.value} - multiset{v.value} == multiset{x} && x in multiset{x, v.value}
                        && v.value in multiset{x, v.value}
    ensures x in multiset{x} && multiset{x} - multiset{x} == multiset{}
  {
  }

  lemma ReplacedExactly(h: Heap, mid: Heap, h': Heap, x: Ref, v: Option<Ref>)
    requires x < |h| && |h[x].slots| == 2 && h[x].slots[1].None? ==> mid == SetSlot(h, x, 1, v)
    requires CountOf(mid, x) > 1 ==> h' == SetCount(mid, x, mid[x].count - 1)
    ensures Unset(h, x) ==> h' == Replaced(h, x, v)
  {
  }

  lemma PairOf(a: Ref, b: Ref)
    ensures multiset{} + multiset{a} + multiset{b} == multiset{a, b}
  {
  }

  lemma ShiftRefs(vars: multiset<Ref>, loop: multiset<Ref>, held: multiset<Ref>, loop': multiset<Ref>,
                  now: multiset<Ref>,
                  working: multiset<Ref>)
    requires loop' + now == loop + held
    ensures vars + (loop' + working) + now == vars + (loop + working) + held
  {
    assert vars + (loop' + working) + now == vars + working + (loop' + now);
    assert vars + (loop + working) + held == vars + working + (loop + held);
  }

  lemma ShiftOwned(vars: multiset<Ref>, c: Control, c': Control, workers: seq<Worker>, held: multiset<Ref>,
                   now: multiset<Ref>)
    requires multiset(c'.inLoop) + FrameRefs(c'.frame) + now == multiset(c.inLoop) + FrameRefs(c.frame) + held
    ensures vars + LoopOwned(c', workers) + now == vars + LoopOwned(c, workers) + held
  {
    hide FrameRefs, WorkerRefs;
    ShiftRefs(vars, multiset(c.inLoop) + FrameRefs(c.frame), held, multiset(c'.inLoop) + FrameRefs(c'.frame), now,
              WorkerRefs(workers));
  }

  /** A worker's references are counted among the pool threads', and without it among the stub's. */
  lemma WorkerOwned(vars: multiset<Ref>, c: Control, workers: seq<Worker>, i: nat)
    requires i < |workers|
    ensures vars + LoopOwned(c, workers) + multiset{}
            == vars + LoopOwned(c, workers[..i] + workers[i + 1..]) + multiset{workers[i].closure, workers[i].request}
  {
    hide FrameRefs, WorkerRefs;
    WorkerLeaves(workers, i);
    WorkerMoves(vars, multiset(c.inLoop) + FrameRefs(c.frame), WorkerRefs(workers[..i] + workers[i + 1..]),
                multiset{workers[i].closure, workers[i].request});
  }

  lemma WorkerMoves(vars: multiset<Ref>, loop: multiset<Ref>, working: multiset<Ref>, moved: multiset<Ref>)
    ensures vars + (loop + (working + moved)) + multiset{} == vars + (loop + working) + moved
  {
  }

  lemma IntoFrame(inLoop: multiset<Ref>, d: Ref)
    ensures inLoop + (multiset([]) + multiset{d}) + multiset{} == inLoop + multiset{} + (multiset{} + multiset{d})
  {
  }

  lemma FromFrame(inLoop: multiset<Ref>, b: Ref, d: Ref)
    ensures inLoop + multiset{} + (multiset{b} + multiset{d}) == inLoop + (multiset([]) + multiset{d}) + multiset{b}
  {
  }

  lemma AllocRefs(c: Control, args: seq<Ref>)
    requires c.frame.Some? && c.frame.value.AllocFrame?
    ensures var f := c.frame.value;
            && FrameRefs(c.frame) == multiset(f.args) + multiset{f.data}
            && FrameRefs(Some(AllocFrame(f.stream, f.data, args))) == multiset(args) + multiset{f.data}
            && FrameRefs(None) == multiset{}
  {
  }

  function Present(slot: Option<Ref>): seq<Ref> {
    if slot.Some? then [slot.value] else []
  }

  lemma ReadArgs(cb: Ref, x: Ref, bytes: Option<Ref>)
    ensures multiset([cb, x] + Present(bytes)) == multiset(Present(bytes)) + multiset([cb, x])
    ensures bytes.None? ==> multiset(Present(bytes)) == multiset{}
    ensures bytes.Some? ==> multiset(Present(bytes)) == multiset{bytes.value}
  {
  }

  /** The buffer waiting in a stream's read data. */
  function Holding(h: Heap, data: Option<Ref>): Option<Ref> {
    if data.Some? && data.value < |h| && |h[data.value].slots| > 0 then h[data.value].slots[0] else None
  }

  lemma TwoRefs(a: Option<Ref>, b: Option<Ref>)
    ensures Refs([a, b]) == Refs([a]) + Refs([b])
    ensures Refs([a]) == (if a.None? then multiset{} else multiset{a.value})
    ensures Refs([b]) == (if b.None? then multiset{} else multiset{b.value})
  {
    assert [a, b][1..] == [b] && [a][1..] == [] && [b][1..] == [];
  }

  lemma ThreeRefs(a: Option<Ref>, b: Option<Ref>, c: Option<Ref>)
    ensures Refs([a, b, c]) == Refs([a]) + Refs([b, c])
    ensures Refs([b, c]) == Refs([b]) + Refs([c])
    ensures Refs([a]) == (if a.None? then multiset{} else multiset{a.value})
    ensures Refs([b]) == (if b.None? then multiset{} else multiset{b.value})
    ensures Refs([c]) == (if c.None? then multiset{} else multiset{c.value})
  {
    TwoRefs(b, c);
    TwoRefs(a, b);
    assert [a, b, c][1..] == [b, c];
  }

  lemma LoopFieldRefs(l: Ref)
    ensures multiset{l} == multiset{} + Refs([Some(l), None])
  {
    hide Refs;
    TwoRefs(Some(l), None);
    NoMore(multiset{l});
  }

  lemma TakenFirst(b: Ref, d: Ref)
    ensures multiset{b} + multiset{d} - multiset{b} == multiset{d} && b in multiset{b} + multiset{d}
  {
  }

  lemma NothingElse(x: Ref)
    ensures x in multiset{x} && multiset{x} - multiset{x} == multiset{}
  {
  }

  lemma PutBackKinds(h: Heap, h': Heap, d: Ref, b: Ref, x: Ref)
    requires d < |h| && |h[d].slots| > 0 && x < |h| && x != d && |h[x].slots| == 2
    requires Shrinks(SetSlot(SetSlot(h, d, 0, Some(b)), x, 1, Some(d)), h')
    requires h[x].kind.Stream?
    ensures Extended(SetSlot(h, d, 0, Some(b)), [], h')
  {
  }

  lemma NothingYet()
    ensures Balanced([], multiset{}) && FinalizedOnce([], []) && Waiting([]) == multiset{}
    ensures Fine([], NOTHING_YET)
    ensures multiset{} + LoopOwned(NOTHING_YET, []) + multiset{} == multiset{}
  {
  }

  lemma HandOverRefs(vars: multiset<Ref>, others: multiset<Ref>, rest: multiset<Ref>, r: Ref)
    ensures rest + multiset{r} - multiset{r} == rest
    ensures vars + multiset{r} + others + rest == vars + others + (rest + multiset{r})
  {
  }

  lemma NothingMore(m: multiset<Ref>, x: Ref)
    ensures x in m + multiset{x} && m + multiset{x} - multiset{x} == m
  {
  }

  lemma FsMade(h: Heap, h': Heap, l: Ref)
    requires h' == h + [Cell(Fs, 1, true, [Some(l), None, None])]
    ensures Extended(h, [Fs], h') && CountOf(h', |h|) == 1
  {
  }

  lemma WriteMade(h: Heap, h': Heap, cb: Ref, bufs: Ref)
    requires h' == h + [Cell(WriteData, 1, true, [Some(cb), Some(bufs)]), Cell(Write, 1, true, [Some(|h|)])]
    ensures Extended(h, [WriteData, Write], h')
  {
  }

  lemma LoneLoopRefs(l: Ref, other: Ref)
    ensures multiset{l, other} == multiset{other} + Refs([Some(l), None, None])
  {
    hide Refs;
    ThreeRefs(Some(l), None, None);
    NoMore(multiset{l});
  }

  lemma Three(x: Ref, a: Ref, b: Ref)
    ensures multiset{x, a, b} == multiset{x} + (multiset{a} + multiset{b})
    ensures multiset{a, b} == multiset{a} + multiset{b}
  {
  }

  lemma ReadDataRefs(x: Ref, allocCb: Ref, readCb: Ref, data: Ref)
    ensures multiset{x, allocCb, readCb} == multiset{x} + Refs([None, Some(allocCb), Some(readCb)])
    ensures multiset{x, data} == multiset{x} + multiset{data}
  {
    hide Refs;
    ThreeRefs(None, Some(allocCb), Some(readCb));
    Three(x, allocCb, readCb);
    Three(x, x, data);
    NoMore(multiset{allocCb} + multiset{readCb});
  }

  lemma NoMore(m: multiset<Ref>)
    ensures multiset{} + m == m
  {
  }

  lemma WaitingAppend(h: Heap, c: Cell)
    ensures Waiting(h + [c]) == Waiting(h) + HoldsBuffer(c)
  {
    assert (h + [c])[..|h|] == h;
  }

  lemma NullAlready(h: Heap, x: Ref, k: nat)
    requires x < |h| && k < |h[x].slots| && h[x].slots[k].None?
    ensures SetSlot(h, x, k, None) == h
  {
    assert h[x].slots[k := None] == h[x].slots;
    assert h[x].(slots := h[x].slots) == h[x];
  }

  lemma SlotsKept(h: Heap, h': Heap, x: Ref)
    requires Shrinks(h, h') && Live(h', x)
    ensures x < |h| && h'[x].slots == h[x].slots && h'[x].kind == h[x].kind
  {
  }

  lemma ShrinksSetSlot(h: Heap, mid: Heap, x: Ref, k: nat, v: Option<Ref>)
    requires x < |h| && k < |h[x].slots|
    requires Shrinks(SetSlot(h, x, k, None), mid) && Live(mid, x)
    ensures k < |mid[x].slots|
    ensures Shrinks(SetSlot(h, x, k, v), SetSlot(mid, x, k, v))
  {
    assert h[x].slots[k := None][k := v] == h[x].slots[k := v];
  }

  /** What the loop and the callback in progress own is live. */
  lemma LoopAndFrameLive(h: Heap, vars: multiset<Ref>, held: multiset<Ref>, c: Control, workers: seq<Worker>)
    requires Balanced(h, vars + LoopOwned(c, workers) + held)
    ensures forall x :: x in c.inLoop ==> Live(h, x)
    ensures c.frame.Some? && c.frame.value.AllocFrame? ==> Live(h, c.frame.value.data)
  {
    var roots := vars + LoopOwned(c, workers) + held;
    hide Balanced, WorkerRefs;
    forall x | x in c.inLoop ensures Live(h, x) {
      assert x in multiset(c.inLoop);
      assert x in LoopOwned(c, workers);
      RootLive(h, roots, x);
    }
    if c.frame.Some? && c.frame.value.AllocFrame? {
      assert c.frame.value.data in FrameRefs(c.frame);
      assert c.frame.value.data in LoopOwned(c, workers);
      RootLive(h, roots, c.frame.value.data);
    }
  }
}
