/** What follows for whole runs: no crash when `close` comes last, nothing lost at the end, and runs that fail. */
module RunResults {
  import opened CountedHeap
  import opened EventLoopOwnership
  import opened LoopProtocol
  import opened LoopRuns
  import opened RequestProtocol
  import opened RunLaws
  import opened RunTally
  import opened Wrappers

  // ---- Runs that keep off closing handles -------------------------------------------------

  /** The stream last asked for a buffer. */
  function AskedIn(cmds: seq<Command>): Option<Ref> {
    if cmds == [] then None
    else
      var last := cmds[|cmds| - 1];
      if last.Event? && last.event.WantBuffer? then Some(last.event.x) else AskedIn(cmds[..|cmds| - 1])
  }

  /** The command starts, stops, closes or hands a buffer to a handle that an earlier command closed. */
  predicate TooLate(before: seq<Command>, cmd: Command) {
    match cmd
    case User(StartTimer(x, _)) => ClosedIn(before, x)
    case User(StartReading(x, _, _)) => ClosedIn(before, x)
    case User(StopHandle(x)) => ClosedIn(before, x)
    case User(CloseHandle(x, _)) => ClosedIn(before, x)
    case Event(ReturnBuffer(_)) => AskedIn(before).Some? && ClosedIn(before, AskedIn(before).value)
    case _ => false
  }

  ghost predicate NeverLate(cmds: seq<Command>) {
    forall k :: 0 <= k < |cmds| ==> !TooLate(cmds[..k], cmds[k])
  }

  lemma NeverLateBefore(cmds: seq<Command>)
    requires NeverLate(cmds) && cmds != []
    ensures NeverLate(cmds[..|cmds| - 1]) && !TooLate(cmds[..|cmds| - 1], cmds[|cmds| - 1])
  {
    hide TooLate;
    assert forall k :: 0 <= k < |cmds| - 1 ==> cmds[..|cmds| - 1][..k] == cmds[..k];
  }

  lemma {:induction false} AskedLaw(cmds: seq<Command>, x: Ref)
    requires Permitted(cmds) && InAllocOf(Tallied(cmds).ctl, x)
    ensures AskedIn(cmds) == Some(x)
  {
    hide Permitted, After, UserAllowed;
    if cmds != [] {
      var n := |cmds| - 1;
      LastStep(cmds);
      AllocStep(Tallied(cmds[..n]), cmds[n], x);
      if InAllocOf(Tallied(cmds[..n]).ctl, x) {
        AskedLaw(cmds[..n], x);
      }
    }
  }

  /** The only ways to end the process: closing a handle that is not open, and a disturbed close. */
  lemma CrashStep(t: Tally, cmd: Command)
    requires Allowed(t, cmd) && !t.crash && After(t, cmd).crash
    ensures || (cmd.User? && cmd.user.CloseHandle? && t.HasHandle(cmd.user.x) && !Open(t, cmd.user.x))
            || t.ctl.disturbed != {}
  {
    hide AfterUser;
    if cmd.User? {
      AfterUserIs(t, cmd.user);
    }
  }

  lemma LateTouch(cmds: seq<Command>, t: Tally, cmd: Command, x: Ref)
    requires TouchOf(t, cmd, x) && ClosedIn(cmds, x) && (InAllocOf(t.ctl, x) ==> AskedIn(cmds) == Some(x))
    ensures TooLate(cmds, cmd)
  {
    hide ClosedIn, AskedIn;
  }

  /** A command that is not too late touches only open handles. */
  lemma PoliteStep(cmds: seq<Command>)
    requires cmds != [] && Permitted(cmds) && !TooLate(cmds[..|cmds| - 1], cmds[|cmds| - 1])
    requires Tallied(cmds[..|cmds| - 1]).ctl.disturbed == {}
    ensures !Tallied(cmds).crash && Tallied(cmds).ctl.disturbed == {}
  {
    hide Permitted, Allowed, After, Tallied, TooLate, InRange, Open, TouchOf, ClosedIn;
    var n := |cmds| - 1;
    var t, cmd := Tallied(cmds[..n]), cmds[n];
    LastStep(cmds);
    if After(t, cmd).crash {
      CrashStep(t, cmd);
      OpenLaw(cmds[..n], cmd.user.x);
      LateClose(cmds[..n], cmd);
    } else {
      forall x ensures x !in After(t, cmd).ctl.disturbed {
        if x in After(t, cmd).ctl.disturbed {
          OpenLaw(cmds[..n], x);
          CloseStep(t, cmd, x);
          if InAllocOf(t.ctl, x) {
            AllocLaw(cmds[..n], x);
            AskedLaw(cmds[..n], x);
          }
          TouchedHandle(t, cmd, x);
          LateTouch(cmds[..n], t, cmd, x);
        }
      }
    }
  }

  lemma LateClose(cmds: seq<Command>, cmd: Command)
    requires cmd.User? && cmd.user.CloseHandle? && ClosedIn(cmds, cmd.user.x)
    ensures TooLate(cmds, cmd)
  {
  }

  /** A run in which `close` is the last call on every handle, made outside the handle's own allocation
      callback, never reaches a wrong closure and touches no handle late. */
  lemma {:induction false} PoliteRunsDoNotCrash(cmds: seq<Command>)
    requires Permitted(cmds) && NeverLate(cmds)
    ensures !Tallied(cmds).crash && Tallied(cmds).ctl.disturbed == {}
  {
    hide Permitted, NeverLate, TooLate, After;
    if cmds != [] {
      LastStep(cmds);
      NeverLateBefore(cmds);
      PoliteRunsDoNotCrash(cmds[..|cmds| - 1]);
      PoliteStep(cmds);
    }
  }

  // ---- What the invariant says ------------------------------------------------------------

  /** In every state a run reaches, an object's count is the number of its owners: variables, the loop, the
      callback in progress, pool threads and fields. It is live exactly as long as it has one, and finalized
      once after. */
  lemma CountsAreOwners(rt: Runtime, r: Ref)
    requires rt.Valid()
    ensures var owners := rt.vars[r] + (if r in rt.ctl.inLoop then 1 else 0) + FrameRefs(rt.ctl.frame)[r]
                          + WorkerRefs(rt.workers)[r] + Owned(rt.cells, r);
            && (Live(rt.cells, r) <==> owners > 0)
            && (Live(rt.cells, r) ==> rt.cells[r].count == owners)
            && multiset(rt.finalized)[r] == if r < |rt.cells| && owners == 0 then 1 else 0
  {
    hide Fine, Waiting, Owned, FrameRefs, WorkerRefs;
    assert Right(rt.cells, rt.Roots(), r);
  }

  // ---- In flight --------------------------------------------------------------------------

  /** From submission to its callback, a write or file request has the closure and the buffers it was given,
      all of them live. */
  lemma BuffersInFlight(rt: Runtime, x: Ref)
    requires rt.Valid() && x in rt.ctl.inLoop && x < |rt.cells| && (rt.cells[x].kind == Write || rt.cells[x].kind == Fs)
    ensures x in rt.ctl.payload && IsA(rt.cells, rt.ctl.payload[x], Buffers)
    ensures var slots := rt.cells[rt.ctl.payload[x]].slots;
            forall k :: 0 <= k < |slots| && slots[k].Some? ==> IsA(rt.cells, slots[k].value, Buffer)
    ensures x in rt.ctl.finish && Live(rt.cells, rt.ctl.finish[x])
  {
    hide Fine, Waiting, Balanced, Runtime.Counted;
    InFlight(rt.cells, rt.ctl, x);
    if rt.cells[x].kind == Write {
      rt.SlotAlive(x, 0);
      var d := rt.cells[x].slots[0].value;
      FineShape(rt.cells, rt.ctl, d);
      rt.SlotAlive(d, 0);
      rt.SlotAlive(d, 1);
    } else {
      rt.SlotAlive(x, 1);
      rt.SlotAlive(x, 2);
    }
    var bufs := rt.ctl.payload[x];
    FineShape(rt.cells, rt.ctl, bufs);
    forall k | 0 <= k < |rt.cells[bufs].slots| && rt.cells[bufs].slots[k].Some?
      ensures Live(rt.cells, rt.cells[bufs].slots[k].value) {
      rt.SlotAlive(bufs, k);
    }
  }

  /** Work that has not run still has both of its closures, work that has run the second one; all live. */
  lemma WorkInFlight(rt: Runtime, x: Ref)
    requires rt.Valid() && x in rt.ctl.inLoop && x < |rt.cells| && rt.cells[x].kind == Work
    ensures x in rt.ctl.finish && IsA(rt.cells, rt.ctl.finish[x], Closure(AfterCall))
    ensures x in rt.ctl.queued ==> x in rt.ctl.payload && IsA(rt.cells, rt.ctl.payload[x], Closure(WorkCall))
  {
    hide Fine, Waiting, Balanced, Runtime.Counted;
    InFlight(rt.cells, rt.ctl, x);
    rt.SlotAlive(x, 1);
    var d := rt.cells[x].slots[1].value;
    FineShape(rt.cells, rt.ctl, d);
    rt.SlotAlive(d, 1);
    if x in rt.ctl.queued {
      rt.SlotAlive(d, 0);
    }
  }

  /** While a pool thread executes a work closure, the closure and its request are live. */
  lemma WorkersLive(rt: Runtime, i: nat)
    requires rt.Valid() && i < |rt.workers|
    ensures Live(rt.cells, rt.workers[i].closure) && Live(rt.cells, rt.workers[i].request)
  {
    hide Balanced, FrameRefs, Fine, WorkerRefs, LoopOwned, FinalizedOnce;
    OwnedByWorker(rt.vars, rt.ctl, rt.workers, rt.held, i);
    RootLive(rt.cells, rt.Roots(), rt.workers[i].closure);
    RootLive(rt.cells, rt.Roots(), rt.workers[i].request);
  }

  lemma OwnedByWorker(vars: multiset<Ref>, c: Control, workers: seq<Worker>, held: multiset<Ref>, i: nat)
    requires i < |workers|
    ensures workers[i].closure in vars + LoopOwned(c, workers) + held
    ensures workers[i].request in vars + LoopOwned(c, workers) + held
  {
    hide FrameRefs, WorkerRefs;
    WorkerLeaves(workers, i);
  }

  // ---- The end ----------------------------------------------------------------------------

  /** Kinds that may hold closures, directly or through their data. */
  predicate Outer(kind: Kind) {
    kind.Closure? || IsHandle(kind) || IsRequest(kind)
  }

  lemma SomeOwner(h: Heap, r: Ref) returns (o: Ref, k: nat)
    requires Balanced(h, multiset{}) && Live(h, r)
    ensures Live(h, o) && k < |h[o].slots| && h[o].slots[k] == Some(r)
  {
    assert Right(h, multiset{}, r);
    OwnedBySlot(h, r);
    o, k :| 0 <= o < |h| && 0 <= k < |h[o].slots| && h[o].slots[k] == Some(r);
  }

  ghost predicate Quiet(h: Heap, c: Control) {
    Balanced(h, multiset{}) && Fine(h, c) && c.inLoop == {} && c.disturbed == {}
  }

  /** What holds such an object, directly or through request data, was made after it. */
  lemma YoungerHolder(h: Heap, c: Control, m: Ref) returns (p: Ref)
    requires Quiet(h, c) && Live(h, m) && Outer(h[m].kind)
    ensures Live(h, p) && Outer(h[p].kind) && m < p
  {
    hide Balanced;
    var o, k := SomeOwner(h, m);
    assert ObjectOk(h, c, o);
    p := o;
    if Internal(h[o].kind) {
      p := DataOwner(h, c, o);
      assert ObjectOk(h, c, p);
    }
  }

  /** A closed handle has let go of its read data, so only requests still own data. */
  lemma DataOwner(h: Heap, c: Control, d: Ref) returns (p: Ref)
    requires Quiet(h, c) && Live(h, d) && Internal(h[d].kind)
    ensures Live(h, p) && IsRequest(h[p].kind) && !h[d].kind.StreamData?
    ensures exists k :: 0 <= k < |h[p].slots| && h[p].slots[k] == Some(d)
  {
    hide Balanced;
    var k;
    p, k := SomeOwner(h, d);
    assert ObjectOk(h, c, p);
  }

  lemma {:induction false} NoOuter(h: Heap, c: Control, n: nat)
    requires Quiet(h, c) && n <= |h|
    ensures forall r :: n <= r < |h| && Outer(h[r].kind) ==> !h[r].live
    decreases |h| - n
  {
    hide Quiet;
    if n < |h| {
      NoOuter(h, c, n + 1);
      if h[n].live && Outer(h[n].kind) {
        var p := YoungerHolder(h, c, n);
      }
    }
  }

  lemma NoData(h: Heap, c: Control, d: Ref)
    requires Quiet(h, c) && Live(h, d)
    ensures !Internal(h[d].kind)
  {
    hide Quiet;
    NoOuter(h, c, 0);
    if Internal(h[d].kind) {
      var p := DataOwner(h, c, d);
    }
  }

  lemma NoBuffers(h: Heap, c: Control, r: Ref)
    requires Quiet(h, c) && Live(h, r)
    ensures h[r].kind != Buffers
  {
    if h[r].kind == Buffers {
      var o, k := SomeOwner(h, r);
      assert ObjectOk(h, c, o);
      NoOuter(h, c, 0);
      NoData(h, c, o);
    }
  }

  lemma NothingLive(h: Heap, c: Control, r: Ref)
    requires Quiet(h, c)
    ensures !Live(h, r)
  {
    NoOuter(h, c, 0);
    if Live(h, r) {
      var o, k := SomeOwner(h, r);
      assert ObjectOk(h, c, o);
      NoData(h, c, o);
      NoBuffers(h, c, o);
    }
  }

  /** No handle was touched late, every handle is closed, every request done, every callback and work closure has
      returned, and every variable is gone. */
  predicate Over(t: Tally) {
    && t.ctl.disturbed == {} && t.ctl.inLoop == {} && t.ctl.frame.None?
    && t.vars == multiset{} && t.workers == []
  }

  /** A run whose commands bring it to such an end leaves nothing: each object was finalized
      once, and each buffer went to read callbacks or was dropped with its read data, as often as the run's
      allocation callbacks returned it. */
  lemma NothingLeaks(rt: Runtime, cmds: seq<Command>)
    requires rt.Valid() && Matches(rt, Tallied(cmds)) && rt.asked == Given(cmds) && Over(Tallied(cmds))
    ensures forall r: Ref :: !Live(rt.cells, r)
    ensures forall r: Ref :: multiset(rt.finalized)[r] == if r < |rt.cells| then 1 else 0
    ensures forall b: Ref :: Given(cmds)[b] == rt.delivered[b] + rt.released[b]
  {
    assert rt.Roots() == multiset{};
    hide Tallied, Given;
    forall r: Ref ensures !Live(rt.cells, r) {
      NothingLive(rt.cells, rt.ctl, r);
    }
    forall r: Ref ensures multiset(rt.finalized)[r] == if r < |rt.cells| then 1 else 0 {
      assert !Live(rt.cells, r);
    }
    assert forall r :: 0 <= r < |rt.cells| ==> !rt.cells[r].live by {
      assert forall r: Ref :: !Live(rt.cells, r);
    }
    NoneWaiting(rt.cells);
  }

  lemma {:induction false} NoneWaiting(h: Heap)
    requires forall r :: 0 <= r < |h| ==> !h[r].live
    ensures Waiting(h) == multiset{}
  {
    if h != [] {
      NoneWaiting(h[..|h| - 1]);
    }
  }

  // ---- Runs that fail ---------------------------------------------------------------------

  /** A handle just made, with three variables that refer to it. */
  method OpenHandle(kind: Kind) returns (rt: Runtime, x: Ref)
    requires IsHandle(kind)
    ensures fresh(rt) && rt.Valid() && !rt.crashed && rt.vars == multiset{x, x, x}
    ensures rt.workers == []
    ensures rt.ctl == NOTHING_YET.(inLoop := {x})
    ensures Live(rt.cells, x) && rt.cells[x].kind == kind
  {
    hide Runtime.Counted, Runtime.Conserved, Fine;
    rt := new Runtime();
    var l := rt.NewPlain(Loop);
    x := rt.NewHandle(kind, l);
    rt.Dup(x);
    rt.Dup(x);
  }

  /** A timer that is stopped after it was closed: its close callback is delivered through a null pointer. */
  method StoppedAfterClose() returns (rt: Runtime)
    ensures fresh(rt) && rt.crashed
  {
    hide Runtime.Counted, Runtime.Conserved, Fine, Exchanged;
    var x;
    rt, x := OpenHandle(Timer);
    var cb := rt.NewOwner(Closure(CloseCall), []);
    OneGone(x, cb);
    rt.Close(x, cb);
    rt.VarLive(x);
    rt.Stop(x);
    var called := rt.CloseArrives(x);
  }

  /** A stream that is closed by its own allocation callback: handing it the buffer takes the close closure away. */
  method ClosedWhileAllocating() returns (rt: Runtime)
    ensures fresh(rt) && rt.crashed
  {
    hide Runtime.Counted, Runtime.Conserved, Fine, Shrinks, Exchanged;
    var x;
    rt, x := OpenHandle(Stream);
    ReadingStream(rt, x);
    CloseInside(rt, x);
    var called := rt.CloseArrives(x);
  }

  /** The allocation callback closes the stream and returns a buffer. */
  method CloseInside(rt: Runtime, x: Ref)
    requires rt.Valid() && !rt.crashed && rt.vars == multiset{x, x}
    requires rt.ctl == NOTHING_YET.(inLoop := {x}, active := {x}, started := rt.ctl.started)
    requires Live(rt.cells, x) && rt.cells[x].kind == Stream && |rt.cells[x].slots| == 2
    requires Holding(rt.cells, rt.cells[x].slots[1]).None?
    modifies rt
    ensures rt.Valid() && !rt.crashed && rt.ctl.frame.None?
    ensures rt.ctl.closing == {x} && rt.ctl.disturbed == {x}
  {
    hide Runtime.Counted, Runtime.Conserved, Fine, Shrinks, Exchanged, Replaced, NewData, Unset;
    rt.BufferWanted(x);
    assert x in multiset{x, x};
    rt.VarLive(x);
    var cb := rt.NewOwner(Closure(CloseCall), []);
    OneLeft(x, cb);
    rt.Close(x, cb);
    var b := rt.NewPlain(Buffer);
    rt.BufferReturned(b);
  }

  /** A stream that was just started waits for no buffer yet. */
  method ReadingStream(rt: Runtime, x: Ref)
    requires rt.Valid() && !rt.crashed && rt.vars == multiset{x, x, x}
    requires rt.ctl == NOTHING_YET.(inLoop := {x})
    requires Live(rt.cells, x) && rt.cells[x].kind == Stream
    modifies rt
    ensures rt.Valid() && !rt.crashed && rt.vars == multiset{x, x}
    ensures rt.ctl == NOTHING_YET.(inLoop := {x}, active := {x}, started := rt.ctl.started)
    ensures Live(rt.cells, x) && rt.cells[x].kind == Stream && |rt.cells[x].slots| == 2
    ensures Holding(rt.cells, rt.cells[x].slots[1]).None?
  {
    hide Runtime.Counted, Runtime.Conserved, Fine, Shrinks, Exchanged;
    HandleShape(rt.cells, rt.ctl, x);
    var allocCb := rt.NewOwner(Closure(AllocCall), []);
    var readCb := rt.NewOwner(Closure(ReadCall), []);
    ghost var h := rt.cells + [Cell(StreamData, 1, true, [None, Some(allocCb), Some(readCb)])];
    TwoMore(x, allocCb, readCb);
    rt.ReadStart(x, allocCb, readCb);
    rt.VarLive(x);
    SlotsKept(NewData(h, x, Some(|h| - 1)), rt.cells, x);
    rt.SlotAlive(x, 1);
    SlotsKept(NewData(h, x, Some(|h| - 1)), rt.cells, |h| - 1);
  }

  /** A timer that was closed, with its close callback over, and two variables left. */
  method ClosedTimer() returns (rt: Runtime, x: Ref)
    ensures fresh(rt) && rt.Valid() && !rt.crashed
    ensures rt.vars == multiset{x, x} && rt.ctl.inLoop == {} && rt.ctl.frame.None? && rt.workers == []
    ensures Live(rt.cells, x) && rt.cells[x].kind == Timer && |rt.cells[x].slots| == 2 && rt.cells[x].slots[1].None?
  {
    hide Runtime.Counted, Runtime.Conserved, Fine, Exchanged;
    rt, x := OpenHandle(Timer);
    var closeCb := rt.NewOwner(Closure(CloseCall), []);
    OneGone(x, closeCb);
    rt.Close(x, closeCb);
    FinishClose(rt, x);
  }

  /** The close callback of the only handle is delivered and returns. */
  method FinishClose(rt: Runtime, x: Ref)
    requires rt.Valid() && !rt.crashed && rt.ctl.frame.None? && rt.vars == multiset{x, x}
    requires x in rt.ctl.closing && rt.ctl.inLoop == {x} && rt.ctl.disturbed == {}
    requires x < |rt.cells| && rt.cells[x].kind == Timer && rt.workers == []
    modifies rt
    ensures rt.Valid() && !rt.crashed && rt.vars == multiset{x, x} && rt.ctl.inLoop == {} && rt.ctl.frame.None?
    ensures rt.workers == []
    ensures Live(rt.cells, x) && rt.cells[x].kind == Timer && |rt.cells[x].slots| == 2 && rt.cells[x].slots[1].None?
  {
    hide Runtime.Counted, Runtime.Conserved, Fine;
    var called := rt.CloseArrives(x);
    rt.CallbackReturns();
    assert x in multiset{x, x};
    rt.VarLive(x);
    ClosedIsUnset(rt.cells, rt.ctl, x);
  }

  /** Started again with a closure that refers to it: nobody owns timer or closure in the end, and they stay. */
  method StartedAfterClose() returns (rt: Runtime, x: Ref)
    ensures fresh(rt) && rt.Valid() && !rt.crashed
    ensures rt.vars == multiset{} && rt.ctl.inLoop == {} && rt.ctl.frame.None? && rt.workers == []
    ensures Live(rt.cells, x) && rt.cells[x].kind == Timer
  {
    hide Runtime.Valid;
    rt, x := ClosedTimer();
    StartAgain(rt, x);
  }

  method StartAgain(rt: Runtime, x: Ref)
    requires rt.Valid() && !rt.crashed
    requires rt.vars == multiset{x, x} && rt.ctl.inLoop == {} && rt.ctl.frame.None? && rt.workers == []
    requires Live(rt.cells, x) && rt.cells[x].kind == Timer && |rt.cells[x].slots| == 2 && rt.cells[x].slots[1].None?
    modifies rt
    ensures rt.Valid() && !rt.crashed
    ensures rt.vars == multiset{} && rt.ctl.inLoop == {} && rt.ctl.frame.None? && rt.workers == []
    ensures Live(rt.cells, x) && rt.cells[x].kind == Timer
  {
    hide Runtime.Counted, Runtime.Conserved, Fine, Exchanged, Shrinks;
    BothGone(x, |rt.cells|);
    var again := rt.NewOwner(Closure(TimerCall), [x]);
    OwnedTwice(rt, x, again);
    rt.TimerStart(x, again);
  }

  lemma BothGone(x: Ref, y: Ref)
    ensures multiset([x]) <= multiset{x, x} && Exchanged(multiset{x, x}, multiset([x]), multiset{y}) == multiset{x, y}
    ensures multiset{x, y} - multiset{x, y} == multiset{}
  {
  }

  lemma OneGone(x: Ref, y: Ref)
    ensures multiset{x, y} <= Exchanged(multiset{x, x, x}, multiset([]), multiset{y})
    ensures Exchanged(multiset{x, x, x}, multiset([]), multiset{y}) - multiset{x, y} == multiset{x, x}
    ensures multiset([]) <= multiset{x, x, x} && x in multiset{x, x}
  {
  }

  lemma OneLeft(x: Ref, y: Ref)
    ensures multiset{x, y} <= Exchanged(multiset{x, x}, multiset([]), multiset{y})
    ensures multiset([]) <= multiset{x, x}
  {
  }

  lemma TwoMore(x: Ref, a: Ref, b: Ref)
    ensures var now := Exchanged(Exchanged(multiset{x, x, x}, multiset([]), multiset{a}), multiset([]), multiset{b});
            multiset{x, a, b} <= now && now - multiset{x, a, b} == multiset{x, x}
    ensures x in multiset{x, x}
  {
  }

  lemma ClosedIsUnset(h: Heap, c: Control, x: Ref)
    requires Fine(h, c) && Live(h, x) && h[x].kind == Timer && x !in c.inLoop + c.disturbed
    ensures |h[x].slots| == 2 && h[x].slots[1].None?
  {
    FineShape(h, c, x);
  }

  lemma OwnedTwice(rt: Runtime, x: Ref, o: Ref)
    requires rt.Valid() && rt.vars == multiset{x, o}
    requires o < |rt.cells| && rt.cells[o].slots == [Some(x)]
    ensures CountOf(rt.cells, x) > 1
  {
    hide Fine, Waiting, Owned;
    assert rt.cells[o].slots[0] == Some(x);
    OwnedBySlot(rt.cells, x);
    CountsAreOwners(rt, x);
  }
}
