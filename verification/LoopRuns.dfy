/** Whole runs of user code and event loop: which reach a crash, and what is left at the end. */
module LoopRuns {
  import opened CountedHeap
  import opened LoopProtocol
  import opened EventLoopOwnership
  import opened RequestProtocol
  import opened RunTally
  import opened Wrappers

  predicate IsA(h: Heap, r: Ref, kind: Kind) {
    Live(h, r) && h[r].kind == kind
  }

  predicate PartOk(h: Heap, owner: Kind, r: Ref) {
    Live(h, r) && if owner.Buffers? then h[r].kind == Buffer else !Internal(h[r].kind)
  }

  /** User code passes references it owns, of the types the signatures ask for; libuv accepts writes only
      for streams that are not closing. */
  predicate UserMay(u: UserCommand, h: Heap, vars: multiset<Ref>, c: Control) {
    match u
    case MakePlain(kind) => kind.Loop? || kind.Buffer?
    case MakeOwner(kind, parts) =>
      && (kind.Closure? || kind.Buffers?) && multiset(parts) <= vars
      && (forall k :: 0 <= k < |parts| ==> PartOk(h, kind, parts[k]))
    case ShareObject(r) => Live(h, r) && !Internal(h[r].kind)
    case ForgetObject(r) => r in vars
    case MakeHandle(kind, l) => IsHandle(kind) && l in vars && IsA(h, l, Loop)
    case StartTimer(x, cb) => multiset{x, cb} <= vars && IsA(h, x, Timer) && IsA(h, cb, Closure(TimerCall))
    case StartReading(x, allocCb, readCb) =>
      && multiset{x, allocCb, readCb} <= vars && IsA(h, x, Stream)
      && IsA(h, allocCb, Closure(AllocCall)) && IsA(h, readCb, Closure(ReadCall))
    case StopHandle(x) => x in vars && Live(h, x) && IsHandle(h[x].kind)
    case CloseHandle(x, cb) =>
      multiset{x, cb} <= vars && Live(h, x) && IsHandle(h[x].kind) && IsA(h, cb, Closure(CloseCall))
    case AskLoop(x) => x in vars && Live(h, x) && IsHandle(h[x].kind)
    case WriteTo(x, bufs, cb) =>
      && multiset{x, bufs, cb} <= vars && IsA(h, x, Stream) && x in c.inLoop && x !in c.closing
      && IsA(h, bufs, Buffers) && IsA(h, cb, Closure(WriteCall))
    case Queue(l, workCb, afterCb) =>
      && multiset{l, workCb, afterCb} <= vars && IsA(h, l, Loop)
      && IsA(h, workCb, Closure(WorkCall)) && IsA(h, afterCb, Closure(AfterCall))
    case Transfer(l, bufs, cb) =>
      multiset{l, bufs, cb} <= vars && IsA(h, l, Loop) && IsA(h, bufs, Buffers) && IsA(h, cb, Closure(FsCall))
    case TransferSync(l, bufs) => multiset{l, bufs} <= vars && IsA(h, l, Loop) && IsA(h, bufs, Buffers)
  }

  predicate Submitting(h: Heap, c: Control, x: Ref, kind: Kind) {
    c.frame.None? && x in c.inLoop && x < |h| && h[x].kind == kind
  }

  /** libuv calls back one callback at a time: a started handle, a closing one once, a request once. Work runs on
      pool threads, at any time, and libuv reports it when it is over or was cancelled. */
  predicate LoopMay(e: LoopEvent, h: Heap, vars: multiset<Ref>, c: Control, workers: seq<Worker>) {
    match e
    case FireTimer(x, _) => Submitting(h, c, x, Timer) && x in c.active
    case WantBuffer(x) =>
      Submitting(h, c, x, Stream) && x in c.active && |h[x].slots| == 2 && Holding(h, h[x].slots[1]).None?
    case DeliverRead(x) => Submitting(h, c, x, Stream) && x in c.active
    case DeliverClose(x) => c.frame.None? && x in c.closing
    case FinishWrite(x) => Submitting(h, c, x, Write)
    case RunWork(x) => x in c.queued
    case EndWork(i) => i < |workers|
    case FinishWork(x) => Submitting(h, c, x, Work) && forall w :: w in workers ==> w.request != x
    case FinishTransfer(x) => Submitting(h, c, x, Fs)
    case ReturnBuffer(b) => c.frame.Some? && c.frame.value.AllocFrame? && b in vars && IsA(h, b, Buffer)
    case ReturnNothing => c.frame.Some? && c.frame.value.UserFrame?
  }

  // ---- The buffers of a run ---------------------------------------------------------------

  function WithGiven(given: multiset<Ref>, cmd: Command): multiset<Ref> {
    if cmd.Event? && cmd.event.ReturnBuffer? then given + multiset{cmd.event.b} else given
  }

  /** The buffers that the allocation callbacks of a run returned. */
  function Given(cmds: seq<Command>): multiset<Ref> {
    if cmds == [] then multiset{} else WithGiven(Given(cmds[..|cmds| - 1]), cmds[|cmds| - 1])
  }

  /** The buffer a read callback is called with, after its closure and its stream. */
  function Passed(frame: Option<Frame>): multiset<Ref> {
    if frame.Some? && frame.value.UserFrame? && |frame.value.args| >= 2 then multiset(frame.value.args[2..])
    else multiset{}
  }

  lemma PassedIs(cb: Ref, x: Ref, rest: seq<Ref>)
    ensures Passed(Some(UserFrame([cb, x] + rest))) == multiset(rest)
  {
    assert ([cb, x] + rest)[2..] == rest;
  }

  lemma UserGivesNothing(given: multiset<Ref>, u: UserCommand)
    ensures WithGiven(given, User(u)) == given
  {
  }

  lemma GivenNext(cmds: seq<Command>, n: nat)
    requires n < |cmds|
    ensures Given(cmds[..n + 1]) == WithGiven(Given(cmds[..n]), cmds[n])
  {
    assert cmds[..n + 1][..n] == cmds[..n];
  }

  predicate OnObject(u: UserCommand) {
    u.MakePlain? || u.MakeOwner? || u.ShareObject? || u.ForgetObject?
  }

  predicate Starts(u: UserCommand) {
    u.StartTimer? || u.StartReading?
  }

  predicate Ends(u: UserCommand) {
    u.StopHandle? || u.CloseHandle?
  }

  // ---- What is possible, and what the commands so far say about it -------------------------

  /** The state is the one the tally says. */
  ghost predicate Matches(rt: Runtime, t: Tally)
    reads rt
  {
    Shows(t, rt.cells, rt.vars, rt.ctl, rt.workers)
  }

  lemma Parts(rt: Runtime, t: Tally)
    requires Matches(rt, t)
    ensures !t.crash && rt.vars == t.vars && rt.ctl == t.ctl && rt.workers == t.workers && Recorded(rt.cells, t)
  {
  }

  lemma AllLive(rt: Runtime, t: Tally)
    requires rt.Valid() && Matches(rt, t)
    ensures SameKinds(rt.cells, t)
  {
    hide Runtime.Counted, Fine;
    forall r | r in rt.vars ensures Live(rt.cells, r) {
      rt.VarLive(r);
    }
  }

  ghost predicate SameKinds(h: Heap, t: Tally) {
    && (forall r :: r in t.vars ==> Live(h, r))
    && |h| == |t.kinds| && forall r :: 0 <= r < |h| ==> h[r].kind == t.kinds[r]
  }

  lemma KindByKinds(h: Heap, t: Tally, r: Ref, kind: Kind)
    requires SameKinds(h, t) && r in t.vars
    ensures Live(h, r) && r < |t.kinds| && h[r].kind == t.kinds[r]
    ensures IsA(h, r, kind) <==> t.Has(r, kind)
  {
  }

  lemma PairByKinds(h: Heap, t: Tally, a: Ref, ka: Kind, b: Ref, kb: Kind)
    requires SameKinds(h, t) && multiset{a, b} <= t.vars
    ensures (IsA(h, a, ka) <==> t.Has(a, ka)) && (IsA(h, b, kb) <==> t.Has(b, kb))
  {
    hide SameKinds, IsA;
    assert a in multiset{a, b} && b in multiset{a, b};
    KindByKinds(h, t, a, ka);
    KindByKinds(h, t, b, kb);
  }

  lemma TripleByKinds(h: Heap, t: Tally, a: Ref, ka: Kind, b: Ref, kb: Kind, c: Ref, kc: Kind)
    requires SameKinds(h, t) && multiset{a, b, c} <= t.vars
    ensures (IsA(h, a, ka) <==> t.Has(a, ka)) && (IsA(h, b, kb) <==> t.Has(b, kb)) && (IsA(h, c, kc) <==> t.Has(c, kc))
  {
    hide SameKinds, IsA;
    assert a in multiset{a, b, c} && b in multiset{a, b, c} && c in multiset{a, b, c};
    KindByKinds(h, t, a, ka);
    KindByKinds(h, t, b, kb);
    KindByKinds(h, t, c, kc);
  }

  lemma ObjectByKinds(h: Heap, t: Tally, u: UserCommand)
    requires SameKinds(h, t) && OnObject(u)
    ensures UserMay(u, h, t.vars, t.ctl) <==> UserAllowed(t, u) && (u.ShareObject? ==> Live(h, u.r))
  {
    if u.MakeOwner? {
      assert forall k :: 0 <= k < |u.parts| ==> u.parts[k] in multiset(u.parts);
    }
  }

  lemma HandleByKinds(h: Heap, t: Tally, u: UserCommand)
    requires SameKinds(h, t) && (Starts(u) || Ends(u) || u.MakeHandle? || u.AskLoop?)
    ensures UserMay(u, h, t.vars, t.ctl) <==> UserAllowed(t, u)
  {
    hide SameKinds, IsA, Tally.Has;
    match u {
      case MakeHandle(_, l) => if l in t.vars { KindByKinds(h, t, l, Loop); }
      case StartTimer(x, cb) =>
        if multiset{x, cb} <= t.vars { PairByKinds(h, t, x, Timer, cb, Closure(TimerCall)); }
      case StartReading(x, a, r) =>
        if multiset{x, a, r} <= t.vars { TripleByKinds(h, t, x, Stream, a, Closure(AllocCall), r, Closure(ReadCall)); }
      case StopHandle(x) => if x in t.vars { KindByKinds(h, t, x, Timer); }
      case AskLoop(x) => if x in t.vars { KindByKinds(h, t, x, Timer); }
      case CloseHandle(x, cb) => CloseByKinds(h, t, x, cb);
    }
  }

  lemma CloseByKinds(h: Heap, t: Tally, x: Ref, cb: Ref)
    requires SameKinds(h, t)
    ensures UserMay(CloseHandle(x, cb), h, t.vars, t.ctl) <==> UserAllowed(t, CloseHandle(x, cb))
  {
    hide SameKinds, IsA, Tally.Has;
    if multiset{x, cb} <= t.vars {
      assert x in multiset{x, cb};
      KindByKinds(h, t, x, Timer);
      PairByKinds(h, t, x, Timer, cb, Closure(CloseCall));
    }
  }

  lemma WriteByKinds(h: Heap, t: Tally, x: Ref, bufs: Ref, cb: Ref)
    requires SameKinds(h, t)
    ensures UserMay(WriteTo(x, bufs, cb), h, t.vars, t.ctl) <==> UserAllowed(t, WriteTo(x, bufs, cb))
  {
    hide SameKinds, IsA, Tally.Has;
    if multiset{x, bufs, cb} <= t.vars {
      TripleByKinds(h, t, x, Stream, bufs, Buffers, cb, Closure(WriteCall));
    }
  }

  lemma QueueByKinds(h: Heap, t: Tally, l: Ref, workCb: Ref, afterCb: Ref)
    requires SameKinds(h, t)
    ensures UserMay(Queue(l, workCb, afterCb), h, t.vars, t.ctl) <==> UserAllowed(t, Queue(l, workCb, afterCb))
  {
    hide SameKinds, IsA, Tally.Has;
    if multiset{l, workCb, afterCb} <= t.vars {
      TripleByKinds(h, t, l, Loop, workCb, Closure(WorkCall), afterCb, Closure(AfterCall));
    }
  }

  lemma TransferByKinds(h: Heap, t: Tally, l: Ref, bufs: Ref, cb: Ref)
    requires SameKinds(h, t)
    ensures UserMay(Transfer(l, bufs, cb), h, t.vars, t.ctl) <==> UserAllowed(t, Transfer(l, bufs, cb))
    ensures UserMay(TransferSync(l, bufs), h, t.vars, t.ctl) <==> UserAllowed(t, TransferSync(l, bufs))
  {
    hide SameKinds, IsA, Tally.Has;
    if multiset{l, bufs} <= t.vars {
      PairByKinds(h, t, l, Loop, bufs, Buffers);
    }
    if multiset{l, bufs, cb} <= t.vars {
      TripleByKinds(h, t, l, Loop, bufs, Buffers, cb, Closure(FsCall));
    }
  }

  lemma RequestByKinds(h: Heap, t: Tally, u: UserCommand)
    requires SameKinds(h, t) && (Submits(u) || u.TransferSync?)
    ensures UserMay(u, h, t.vars, t.ctl) <==> UserAllowed(t, u)
  {
    hide SameKinds, UserMay, UserAllowed;
    match u {
      case WriteTo(x, bufs, cb) => WriteByKinds(h, t, x, bufs, cb);
      case Queue(l, workCb, afterCb) => QueueByKinds(h, t, l, workCb, afterCb);
      case Transfer(l, bufs, cb) => TransferByKinds(h, t, l, bufs, cb);
      case TransferSync(l, bufs) => TransferByKinds(h, t, l, bufs, l);
    }
  }

  /** What user code may do next is decided by the commands so far, up to one thing: that an object it shares,
      which may belong to others, is still there. */
  lemma UserMayIsAllowed(rt: Runtime, t: Tally, u: UserCommand)
    requires rt.Valid() && Matches(rt, t)
    ensures UserMay(u, rt.cells, rt.vars, rt.ctl) <==> UserAllowed(t, u) && (u.ShareObject? ==> Live(rt.cells, u.r))
  {
    hide Runtime.Valid, UserMay, UserAllowed;
    AllLive(rt, t);
    if OnObject(u) {
      ObjectByKinds(rt.cells, t, u);
    } else if Submits(u) || u.TransferSync? {
      RequestByKinds(rt.cells, t, u);
    } else {
      HandleByKinds(rt.cells, t, u);
    }
  }

  /** So is what the loop may do. */
  lemma LoopMayIsAllowed(rt: Runtime, t: Tally, e: LoopEvent)
    requires rt.Valid() && Matches(rt, t)
    ensures LoopMay(e, rt.cells, rt.vars, rt.ctl, rt.workers) <==> EventAllowed(t, e)
  {
    hide Runtime.Valid, Recorded;
    AllLive(rt, t);
    if e.WantBuffer? {
      WantIsAllowed(rt, t, e.x);
    }
  }

  lemma WantIsAllowed(rt: Runtime, t: Tally, x: Ref)
    requires rt.Valid() && Matches(rt, t)
    ensures LoopMay(WantBuffer(x), rt.cells, rt.vars, rt.ctl, rt.workers) <==> EventAllowed(t, WantBuffer(x))
  {
    hide Runtime.Valid, Recorded;
    AllLive(rt, t);
    if Submitting(rt.cells, rt.ctl, x, Stream) && x in rt.ctl.active {
      ReadDataOf(rt, t, x);
    }
  }

  /** A reading stream has the read data of its last start, or the one its allocation callback gave back. */
  lemma ReadDataOf(rt: Runtime, t: Tally, x: Ref)
    requires rt.Valid() && Matches(rt, t)
    requires x in rt.ctl.active && x < |rt.cells| && rt.cells[x].kind == Stream && rt.ctl.frame.None?
    ensures |rt.cells[x].slots| == 2 && rt.cells[x].slots[1] == Some(t.Given(x))
    ensures Live(rt.cells, t.Given(x)) && rt.cells[t.Given(x)].kind == StreamData
    ensures rt.cells[t.Given(x)].slots == Fields(t.DataOf(t.Given(x)))
  {
    hide Runtime.Counted, Runtime.Conserved, Fine, Recorded;
    StreamShape(rt.cells, rt.ctl, x);
    rt.SlotAlive(x, 1);
    RecordedData(rt.cells, t, t.Given(x));
  }

  // ---- User code --------------------------------------------------------------------------

  lemma OnlyCloseCrashes(t: Tally, u: UserCommand)
    requires !t.crash && !u.CloseHandle?
    ensures !AfterUser(t, u).crash
  {
    hide AfterUser;
    AfterUserIs(t, u);
  }

  lemma CloseCrashes(t: Tally, x: Ref, cb: Ref)
    requires !t.crash
    ensures AfterUser(t, CloseHandle(x, cb)).crash <==> x !in t.ctl.inLoop || x in t.ctl.closing
  {
    hide AfterUser;
    AfterUserIs(t, CloseHandle(x, cb));
  }

  method PerformOwner(rt: Runtime, kind: Kind, parts: seq<Ref>, ghost t: Tally)
    requires rt.Valid() && !rt.crashed && Matches(rt, t)
    requires UserMay(MakeOwner(kind, parts), rt.cells, rt.vars, rt.ctl)
    modifies rt
    ensures rt.Valid() && Matches(rt, AfterUser(t, MakeOwner(kind, parts))) && !rt.crashed
    ensures rt.asked == old(rt.asked) && rt.delivered == old(rt.delivered)
  {
    hide Shows, Recorded, AfterUser, Exchanged, Extended, Runtime.Valid;
    ghost var h := rt.cells;
    Parts(rt, t);
    assert forall k :: 0 <= k < |parts| ==> PartOk(rt.cells, kind, parts[k]);
    var _ := rt.NewOwner(kind, parts);
    ExtendedAppend(h, rt.cells[|h|]);
    ShowsMade(t, kind, parts, h, rt.cells);
  }

  method PerformOnObject(rt: Runtime, u: UserCommand, ghost t: Tally)
    requires rt.Valid() && !rt.crashed && UserMay(u, rt.cells, rt.vars, rt.ctl) && Matches(rt, t)
    requires OnObject(u)
    modifies rt
    ensures rt.crashed == AfterUser(t, u).crash
    ensures !rt.crashed ==> rt.Valid() && Matches(rt, AfterUser(t, u))
    ensures rt.asked == old(rt.asked) && rt.delivered == old(rt.delivered)
  {
    hide Shows, Recorded, AfterUser, SetSlot, NewData, Exchanged, Shrinks, Extended, SameObjects, Started,
         Stopped, CloseAsked, Submitted, Replaced, Unset, Runtime.Valid;
    ghost var h := rt.cells;
    Parts(rt, t);
    OnlyCloseCrashes(t, u);
    match u
    case MakePlain(kind) =>
      var _ := rt.NewPlain(kind);
      ExtendedAppend(h, rt.cells[|h|]);
      ShowsMade(t, kind, [], h, rt.cells);
    case MakeOwner(kind, parts) =>
      PerformOwner(rt, kind, parts, t);
    case ShareObject(r) =>
      rt.Dup(r);
      ExtendedCount(h, r, h[r].count + 1);
      ShowsShared(t, r, h, rt.cells);
    case ForgetObject(r) =>
      rt.Forget(r);
      ExtendedShrunk(h, rt.cells);
      ShowsShared(t, r, h, rt.cells);
  }

  method PerformStart(rt: Runtime, u: UserCommand, ghost t: Tally)
    requires rt.Valid() && !rt.crashed && UserMay(u, rt.cells, rt.vars, rt.ctl) && Matches(rt, t)
    requires Starts(u)
    modifies rt
    ensures rt.crashed == AfterUser(t, u).crash
    ensures !rt.crashed ==> rt.Valid() && Matches(rt, AfterUser(t, u))
    ensures rt.asked == old(rt.asked) && rt.delivered == old(rt.delivered)
  {
    hide Shows, Recorded, AfterUser, SetSlot, NewData, Exchanged, Shrinks, Extended, SameObjects, Started,
         Stopped, CloseAsked, Submitted, Replaced, Unset, Runtime.Valid;
    ghost var h := rt.cells;
    Parts(rt, t);
    OnlyCloseCrashes(t, u);
    match u
    case StartTimer(x, cb) =>
      rt.TimerStart(x, cb);
      ExtendedSelf(h);
      NewDataKinds(h, [], h, x, Some(cb), rt.cells);
      ShowsTimer(t, x, cb, h, rt.cells);
    case StartReading(x, allocCb, readCb) =>
      rt.ReadStart(x, allocCb, readCb);
      ghost var data := Cell(StreamData, 1, true, [None, Some(allocCb), Some(readCb)]);
      ExtendedAppend(h, data);
      NewDataKinds(h, [StreamData], h + [data], x, Some(|h|), rt.cells);
      ShowsReading(t, x, allocCb, readCb, h, rt.cells);
  }

  method PerformEnd(rt: Runtime, u: UserCommand, ghost t: Tally)
    requires rt.Valid() && !rt.crashed && UserMay(u, rt.cells, rt.vars, rt.ctl) && Matches(rt, t)
    requires Ends(u)
    modifies rt
    ensures rt.crashed == AfterUser(t, u).crash
    ensures !rt.crashed ==> rt.Valid() && Matches(rt, AfterUser(t, u))
    ensures rt.asked == old(rt.asked) && rt.delivered == old(rt.delivered)
  {
    hide Shows, Recorded, AfterUser, UserMay, Runtime.Valid;
    Parts(rt, t);
    match u
    case StopHandle(x) =>
      OnlyCloseCrashes(t, u);
      PerformStop(rt, x, t);
    case CloseHandle(x, cb) =>
      CloseCrashes(t, x, cb);
      PerformClose(rt, x, cb, t);
  }

  method PerformStop(rt: Runtime, x: Ref, ghost t: Tally)
    requires rt.Valid() && !rt.crashed && UserMay(StopHandle(x), rt.cells, rt.vars, rt.ctl) && Matches(rt, t)
    modifies rt
    ensures rt.Valid() && Matches(rt, AfterUser(t, StopHandle(x))) && !rt.crashed
    ensures rt.asked == old(rt.asked) && rt.delivered == old(rt.delivered)
  {
    hide Shows, Recorded, AfterUser, NewData, Shrinks, Extended, Stopped, Runtime.Valid;
    ghost var h := rt.cells;
    Parts(rt, t);
    rt.Stop(x);
    ExtendedSelf(h);
    NewDataKinds(h, [], h, x, None, rt.cells);
    ShowsStopped(t, x, h, rt.cells);
  }

  method PerformClose(rt: Runtime, x: Ref, cb: Ref, ghost t: Tally)
    requires rt.Valid() && !rt.crashed && UserMay(CloseHandle(x, cb), rt.cells, rt.vars, rt.ctl) && Matches(rt, t)
    modifies rt
    ensures rt.crashed <==> x !in old(rt.ctl).inLoop || x in old(rt.ctl).closing
    ensures !rt.crashed ==> rt.Valid() && Matches(rt, AfterUser(t, CloseHandle(x, cb)))
    ensures rt.asked == old(rt.asked) && rt.delivered == old(rt.delivered)
  {
    hide Shows, Recorded, AfterUser, NewData, Shrinks, Extended, CloseAsked, Replaced, Unset, Runtime.Valid;
    ghost var h := rt.cells;
    Parts(rt, t);
    rt.Close(x, cb);
    if !rt.crashed {
      ExtendedSelf(h);
      NewDataKinds(h, [], h, x, Some(cb), rt.cells);
      ShowsClosed(t, x, cb, h, rt.cells);
    }
  }

  method PerformWrite(rt: Runtime, x: Ref, bufs: Ref, cb: Ref, ghost t: Tally)
    requires rt.Valid() && !rt.crashed && Matches(rt, t)
    requires UserMay(WriteTo(x, bufs, cb), rt.cells, rt.vars, rt.ctl)
    modifies rt
    ensures rt.Valid() && Matches(rt, AfterUser(t, WriteTo(x, bufs, cb))) && !rt.crashed
    ensures rt.asked == old(rt.asked) && rt.delivered == old(rt.delivered)
  {
    hide Shows, Recorded, AfterUser, SetSlot, NewData, Exchanged, Shrinks, Extended, SameObjects, Submitted, Added,
         Runtime.Valid;
    ghost var h := rt.cells;
    Parts(rt, t);
    var _ := rt.StartWrite(x, bufs, cb);
    ShowsWrite(t, x, bufs, cb, h, rt.cells);
  }

  method PerformQueue(rt: Runtime, l: Ref, workCb: Ref, afterCb: Ref, ghost t: Tally)
    requires rt.Valid() && !rt.crashed && Matches(rt, t)
    requires UserMay(Queue(l, workCb, afterCb), rt.cells, rt.vars, rt.ctl)
    modifies rt
    ensures rt.Valid() && Matches(rt, AfterUser(t, Queue(l, workCb, afterCb))) && !rt.crashed
    ensures rt.asked == old(rt.asked) && rt.delivered == old(rt.delivered)
  {
    hide Shows, Recorded, AfterUser, SetSlot, NewData, Exchanged, Shrinks, Extended, SameObjects, Submitted, Added,
         Runtime.Valid;
    ghost var h := rt.cells;
    Parts(rt, t);
    var _ := rt.QueueWork(l, workCb, afterCb);
    ShowsQueued(t, l, workCb, afterCb, h, rt.cells);
  }

  method PerformTransfer(rt: Runtime, l: Ref, bufs: Ref, cb: Ref, ghost t: Tally)
    requires rt.Valid() && !rt.crashed && Matches(rt, t)
    requires UserMay(Transfer(l, bufs, cb), rt.cells, rt.vars, rt.ctl)
    modifies rt
    ensures rt.Valid() && Matches(rt, AfterUser(t, Transfer(l, bufs, cb))) && !rt.crashed
    ensures rt.asked == old(rt.asked) && rt.delivered == old(rt.delivered)
  {
    hide Shows, Recorded, AfterUser, SetSlot, NewData, Exchanged, Shrinks, Extended, SameObjects, Submitted, Added,
         Runtime.Valid;
    ghost var h := rt.cells;
    Parts(rt, t);
    var _ := rt.StartFs(l, bufs, cb);
    ShowsTransfer(t, l, bufs, cb, h, rt.cells);
  }

  method PerformSync(rt: Runtime, l: Ref, bufs: Ref, ghost t: Tally)
    requires rt.Valid() && !rt.crashed && Matches(rt, t)
    requires UserMay(TransferSync(l, bufs), rt.cells, rt.vars, rt.ctl)
    modifies rt
    ensures rt.Valid() && Matches(rt, AfterUser(t, TransferSync(l, bufs))) && !rt.crashed
    ensures rt.asked == old(rt.asked) && rt.delivered == old(rt.delivered)
  {
    hide Shows, Recorded, AfterUser, SetSlot, NewData, Exchanged, Shrinks, Extended, SameObjects, Submitted, Added,
         Runtime.Valid;
    ghost var h := rt.cells;
    Parts(rt, t);
    rt.ReadSync(l, bufs);
    ShowsSync(t, l, bufs, h, rt.cells);
  }

  method PerformMake(rt: Runtime, kind: Kind, l: Ref, ghost t: Tally)
    requires rt.Valid() && !rt.crashed && Matches(rt, t)
    requires UserMay(MakeHandle(kind, l), rt.cells, rt.vars, rt.ctl)
    modifies rt
    ensures rt.Valid() && Matches(rt, AfterUser(t, MakeHandle(kind, l))) && !rt.crashed
    ensures rt.asked == old(rt.asked) && rt.delivered == old(rt.delivered)
  {
    hide Shows, Recorded, AfterUser, SetSlot, NewData, Exchanged, Shrinks, Extended, SameObjects, Submitted, Added,
         Runtime.Valid;
    ghost var h := rt.cells;
    Parts(rt, t);
    var _ := rt.NewHandle(kind, l);
    ShowsHandle(t, kind, l, h, rt.cells);
  }

  method PerformAsk(rt: Runtime, x: Ref, ghost t: Tally)
    requires rt.Valid() && !rt.crashed && Matches(rt, t)
    requires UserMay(AskLoop(x), rt.cells, rt.vars, rt.ctl)
    modifies rt
    ensures rt.Valid() && Matches(rt, AfterUser(t, AskLoop(x))) && !rt.crashed
    ensures rt.asked == old(rt.asked) && rt.delivered == old(rt.delivered)
  {
    hide Shows, Recorded, AfterUser, SetSlot, NewData, Exchanged, Shrinks, Extended, SameObjects, Submitted, Added,
         Runtime.Valid;
    ghost var h := rt.cells;
    Parts(rt, t);
    var _ := rt.HandleLoop(x);
    RecordedLoop(h, t, x);
    ShowsLoop(t, x, h, rt.cells);
  }

  /** One command of user code: references given up and got, objects made, and what the loop knows then are
      what the command and the state before it say. */
  method Perform(rt: Runtime, u: UserCommand, ghost t: Tally)
    requires rt.Valid() && !rt.crashed && UserMay(u, rt.cells, rt.vars, rt.ctl) && Matches(rt, t)
    modifies rt
    ensures rt.crashed == AfterUser(t, u).crash
    ensures !rt.crashed ==> rt.Valid() && Matches(rt, AfterUser(t, u))
    ensures rt.asked == old(rt.asked) && rt.delivered == old(rt.delivered)
  {
    hide Matches, UserMay, AfterUser, Runtime.Valid;
    if OnObject(u) {
      PerformOnObject(rt, u, t);
    } else if Starts(u) {
      PerformStart(rt, u, t);
    } else if Ends(u) {
      PerformEnd(rt, u, t);
    } else {
      Parts(rt, t);
      OnlyCloseCrashes(t, u);
      match u {
        case MakeHandle(kind, l) => PerformMake(rt, kind, l, t);
        case AskLoop(x) => PerformAsk(rt, x, t);
        case WriteTo(x, bufs, cb) => PerformWrite(rt, x, bufs, cb, t);
        case Queue(l, workCb, afterCb) => PerformQueue(rt, l, workCb, afterCb, t);
        case Transfer(l, bufs, cb) => PerformTransfer(rt, l, bufs, cb, t);
        case TransferSync(l, bufs) => PerformSync(rt, l, bufs, t);
      }
    }
  }

  // ---- The loop ---------------------------------------------------------------------------

  predicate OnPool(e: LoopEvent) {
    e.RunWork? || e.EndWork?
  }

  predicate Finishes(e: LoopEvent) {
    e.FinishWrite? || e.FinishWork? || e.FinishTransfer?
  }

  predicate Returns(e: LoopEvent) {
    e.ReturnBuffer? || e.ReturnNothing?
  }

  lemma ClosingInRange(rt: Runtime, x: Ref)
    requires rt.Valid() && x in rt.ctl.closing
    ensures x < |rt.cells| && x in rt.ctl.finish
  {
    hide Runtime.Counted, Runtime.Conserved, Fine;
    ClosingShape(rt.cells, rt.ctl, x);
  }

  lemma OnlyCloseGoesWrong(t: Tally, e: LoopEvent)
    requires !t.crash && !e.DeliverClose?
    ensures !AfterEvent(t, e).crash
  {
  }

  lemma CloseGoesWrong(t: Tally, x: Ref)
    requires !t.crash
    ensures AfterEvent(t, DeliverClose(x)).crash <==> x in t.ctl.disturbed
  {
  }

  lemma FinishedIs(t: Tally, e: LoopEvent)
    requires Finishes(e)
    ensures AfterEvent(t, e) == Finished(t, e.x)
  {
  }

  lemma PassedOn(c: Control, cb: Ref, x: Ref, rest: seq<Ref>)
    ensures Passed(InUser(c, [cb, x] + rest).frame) == multiset(rest)
  {
    PassedIs(cb, x, rest);
  }

  method DeliverBuffer(rt: Runtime, x: Ref, ghost t: Tally)
    requires rt.Valid() && !rt.crashed && Matches(rt, t)
    requires LoopMay(DeliverRead(x), rt.cells, rt.vars, rt.ctl, rt.workers)
    modifies rt
    ensures rt.crashed == AfterEvent(t, DeliverRead(x)).crash
    ensures !rt.crashed ==> rt.Valid() && Matches(rt, AfterEvent(t, DeliverRead(x)))
    ensures rt.asked == old(rt.asked)
    ensures rt.delivered == old(rt.delivered) + Passed(rt.ctl.frame)
  {
    hide Shows, Recorded, AfterEvent, SetSlot, Shrinks, Extended, SameObjects, InUser, InAlloc, GaveBuffer,
         Fired, Closed, Completed, Running, Passed, Runtime.Valid;
    ghost var h := rt.cells;
    Parts(rt, t);
    OnlyCloseGoesWrong(t, DeliverRead(x));
    ghost var d := t.Given(x);
    ReadDataOf(rt, t, x);
    rt.ReadArrives(x);
    ShowsRead(t, x, h, rt.cells);
    PassedOn(t.ctl, t.DataOf(d).readCb, x, Present(t.DataOf(d).waiting));
  }

  method DeliverToStream(rt: Runtime, e: LoopEvent, ghost t: Tally)
    requires rt.Valid() && !rt.crashed && LoopMay(e, rt.cells, rt.vars, rt.ctl, rt.workers) && Matches(rt, t)
    requires e.WantBuffer? || e.DeliverRead?
    modifies rt
    ensures rt.crashed == AfterEvent(t, e).crash
    ensures !rt.crashed ==> rt.Valid() && Matches(rt, AfterEvent(t, e))
    ensures rt.asked == WithGiven(old(rt.asked), Event(e))
    ensures rt.delivered == if e.DeliverRead? then old(rt.delivered) + Passed(rt.ctl.frame) else old(rt.delivered)
  {
    hide Shows, Recorded, AfterEvent, SetSlot, Shrinks, Extended, SameObjects, InUser, InAlloc, GaveBuffer,
         Fired, Closed, Completed, Running, Passed, Runtime.Valid;
    ghost var h := rt.cells;
    Parts(rt, t);
    OnlyCloseGoesWrong(t, e);
    if e.WantBuffer? {
      ReadDataOf(rt, t, e.x);
      rt.BufferWanted(e.x);
      ShowsWanted(t, e.x, h, rt.cells);
    } else {
      DeliverBuffer(rt, e.x, t);
    }
  }

  method DeliverToHandle(rt: Runtime, e: LoopEvent, ghost t: Tally)
    requires rt.Valid() && !rt.crashed && LoopMay(e, rt.cells, rt.vars, rt.ctl, rt.workers) && Matches(rt, t)
    requires e.FireTimer? || e.DeliverClose?
    modifies rt
    ensures rt.crashed == AfterEvent(t, e).crash
    ensures !rt.crashed ==> rt.Valid() && Matches(rt, AfterEvent(t, e))
    ensures rt.asked == WithGiven(old(rt.asked), Event(e))
    ensures rt.delivered == if e.DeliverRead? then old(rt.delivered) + Passed(rt.ctl.frame) else old(rt.delivered)
  {
    hide Shows, Recorded, AfterEvent, SetSlot, Shrinks, Extended, SameObjects, InUser, InAlloc, GaveBuffer,
         Fired, Closed, Completed, Running, Passed, Runtime.Valid;
    ghost var h := rt.cells;
    Parts(rt, t);
    match e
    case FireTimer(x, again) =>
      OnlyCloseGoesWrong(t, e);
      rt.TimerFires(x, again);
      ExtendedShrunk(h, rt.cells);
      ShowsFired(t, x, again, h, rt.cells);
    case DeliverClose(x) =>
      ClosingInRange(rt, x);
      CloseGoesWrong(t, x);
      var called := rt.CloseArrives(x);
      if called {
        ShowsDeliveredClose(t, x, h, rt.cells);
      }
  }

  method DeliverFinish(rt: Runtime, e: LoopEvent, ghost t: Tally)
    requires rt.Valid() && !rt.crashed && LoopMay(e, rt.cells, rt.vars, rt.ctl, rt.workers) && Matches(rt, t)
    requires Finishes(e)
    modifies rt
    ensures rt.crashed == AfterEvent(t, e).crash
    ensures !rt.crashed ==> rt.Valid() && Matches(rt, AfterEvent(t, e))
    ensures rt.asked == WithGiven(old(rt.asked), Event(e))
    ensures rt.delivered == if e.DeliverRead? then old(rt.delivered) + Passed(rt.ctl.frame) else old(rt.delivered)
  {
    hide Shows, Recorded, AfterEvent, SetSlot, Shrinks, Extended, SameObjects, InUser, InAlloc, GaveBuffer,
         Fired, Closed, Completed, Running, Passed, Runtime.Valid;
    ghost var h := rt.cells;
    Parts(rt, t);
    OnlyCloseGoesWrong(t, e);
    FinishedIs(t, e);
    match e
    case FinishWrite(x) =>
      rt.WriteDone(x);
      ShowsFinished(t, x, h, rt.cells);
    case FinishWork(x) =>
      rt.WorkDone(x);
      ShowsFinished(t, x, h, rt.cells);
    case FinishTransfer(x) =>
      rt.FsDone(x);
      ShowsFinished(t, x, h, rt.cells);
  }

  method DeliverPool(rt: Runtime, e: LoopEvent, ghost t: Tally)
    requires rt.Valid() && !rt.crashed && LoopMay(e, rt.cells, rt.vars, rt.ctl, rt.workers) && Matches(rt, t)
    requires OnPool(e)
    modifies rt
    ensures rt.crashed == AfterEvent(t, e).crash
    ensures !rt.crashed ==> rt.Valid() && Matches(rt, AfterEvent(t, e))
    ensures rt.asked == WithGiven(old(rt.asked), Event(e))
    ensures rt.delivered == if e.DeliverRead? then old(rt.delivered) + Passed(rt.ctl.frame) else old(rt.delivered)
  {
    hide Shows, Recorded, AfterEvent, SetSlot, Shrinks, Extended, SameObjects, InUser, InAlloc, GaveBuffer,
         Fired, Closed, Completed, Running, Passed, Runtime.Valid;
    ghost var h := rt.cells;
    Parts(rt, t);
    OnlyCloseGoesWrong(t, e);
    match e
    case RunWork(x) =>
      rt.WorkRuns(x);
      ShowsRunning(t, x, h, rt.cells);
    case EndWork(i) =>
      rt.WorkReturns(i);
      ExtendedShrunk(h, rt.cells);
      ShowsWorkOver(t, i, h, rt.cells);
  }

  method DeliverGiven(rt: Runtime, b: Ref, ghost t: Tally)
    requires rt.Valid() && !rt.crashed && Matches(rt, t)
    requires LoopMay(ReturnBuffer(b), rt.cells, rt.vars, rt.ctl, rt.workers)
    modifies rt
    ensures rt.crashed == AfterEvent(t, ReturnBuffer(b)).crash
    ensures !rt.crashed ==> rt.Valid() && Matches(rt, AfterEvent(t, ReturnBuffer(b)))
    ensures rt.asked == old(rt.asked) + multiset{b}
    ensures rt.delivered == old(rt.delivered)
  {
    hide Shows, Recorded, AfterEvent, SetSlot, Shrinks, Extended, SameObjects, InUser, InAlloc, GaveBuffer,
         Fired, Closed, Completed, Running, Passed, Runtime.Valid;
    ghost var h := rt.cells;
    Parts(rt, t);
    OnlyCloseGoesWrong(t, ReturnBuffer(b));
    rt.BufferReturned(b);
    ShowsGiven(t, b, h, rt.cells);
  }

  method DeliverReturn(rt: Runtime, e: LoopEvent, ghost t: Tally)
    requires rt.Valid() && !rt.crashed && LoopMay(e, rt.cells, rt.vars, rt.ctl, rt.workers) && Matches(rt, t)
    requires Returns(e)
    modifies rt
    ensures rt.crashed == AfterEvent(t, e).crash
    ensures !rt.crashed ==> rt.Valid() && Matches(rt, AfterEvent(t, e))
    ensures rt.asked == WithGiven(old(rt.asked), Event(e))
    ensures rt.delivered == if e.DeliverRead? then old(rt.delivered) + Passed(rt.ctl.frame) else old(rt.delivered)
  {
    hide Shows, Recorded, AfterEvent, SetSlot, Shrinks, Extended, SameObjects, InUser, InAlloc, GaveBuffer,
         Fired, Closed, Completed, Running, Passed, Runtime.Valid;
    ghost var h := rt.cells;
    Parts(rt, t);
    OnlyCloseGoesWrong(t, e);
    match e
    case ReturnBuffer(b) => DeliverGiven(rt, b, t);
    case ReturnNothing =>
      rt.CallbackReturns();
      ExtendedShrunk(h, rt.cells);
      ShowsReturned(t, h, rt.cells);
  }

  /** One callback delivered with the closure its handle or request has, or returning; or a pool thread's step. */
  method Deliver(rt: Runtime, e: LoopEvent, ghost t: Tally)
    requires rt.Valid() && !rt.crashed && LoopMay(e, rt.cells, rt.vars, rt.ctl, rt.workers) && Matches(rt, t)
    modifies rt
    ensures rt.crashed == AfterEvent(t, e).crash
    ensures !rt.crashed ==> rt.Valid() && Matches(rt, AfterEvent(t, e))
    ensures rt.asked == WithGiven(old(rt.asked), Event(e))
    ensures rt.delivered == if e.DeliverRead? then old(rt.delivered) + Passed(rt.ctl.frame) else old(rt.delivered)
  {
    hide Matches, LoopMay, AfterEvent, Runtime.Valid, Passed;
    if e.WantBuffer? || e.DeliverRead? {
      DeliverToStream(rt, e, t);
    } else if e.FireTimer? || e.DeliverClose? {
      DeliverToHandle(rt, e, t);
    } else if Finishes(e) {
      DeliverFinish(rt, e, t);
    } else if OnPool(e) {
      DeliverPool(rt, e, t);
    } else {
      DeliverReturn(rt, e, t);
    }
  }

  // ---- Whole runs -------------------------------------------------------------------------

  predicate May(cmd: Command, h: Heap, vars: multiset<Ref>, c: Control, workers: seq<Worker>) {
    match cmd
    case User(u) => UserMay(u, h, vars, c)
    case Event(e) => LoopMay(e, h, vars, c, workers)
  }

  lemma MayIsAllowed(rt: Runtime, t: Tally, cmd: Command)
    requires rt.Valid() && Matches(rt, t)
    ensures May(cmd, rt.cells, rt.vars, rt.ctl, rt.workers)
            <==> Allowed(t, cmd) && (cmd.User? && cmd.user.ShareObject? ==> Live(rt.cells, cmd.user.r))
  {
    hide UserMay, LoopMay, UserAllowed, EventAllowed, Matches, Runtime.Valid;
    match cmd
    case User(u) => UserMayIsAllowed(rt, t, u);
    case Event(e) => LoopMayIsAllowed(rt, t, e);
  }

  /** One command, whoever it comes from. */
  method Step(rt: Runtime, cmd: Command, ghost t: Tally)
    requires rt.Valid() && !rt.crashed && May(cmd, rt.cells, rt.vars, rt.ctl, rt.workers) && Matches(rt, t)
    modifies rt
    ensures rt.crashed == After(t, cmd).crash
    ensures !rt.crashed ==> rt.Valid() && Matches(rt, After(t, cmd))
    ensures rt.asked == WithGiven(old(rt.asked), cmd)
  {
    hide UserMay, LoopMay, AfterUser, AfterEvent, Matches, Runtime.Valid, Passed;
    match cmd
    case User(u) =>
      UserGivesNothing(rt.asked, u);
      Perform(rt, u, t);
    case Event(e) => Deliver(rt, e, t);
  }

  lemma PermittedNext(cmds: seq<Command>, n: nat)
    requires n < |cmds| && Permitted(cmds[..n])
    requires Allowed(Tallied(cmds[..n]), cmds[n]) && !Tallied(cmds[..n]).crash
    ensures Permitted(cmds[..n + 1])
  {
    hide Tallied, Allowed;
    assert forall k :: 0 <= k <= n ==> cmds[..n + 1][..k] == cmds[..k];
    assert forall k :: 0 <= k < n ==> cmds[..n][..k] == cmds[..k];
  }

  /** Runs user code and loop from their start, up to a crash or a command that is not possible. The state
      reached, how far the run gets and whether it crashes can be read off its commands; only sharing an object
      that is gone stops a run without that. */
  method Execute(rt: Runtime, cmds: seq<Command>) returns (done: nat)
    requires rt.Valid() && !rt.crashed && rt.cells == [] && rt.vars == multiset{} && rt.workers == []
    requires rt.ctl == NOTHING_YET && rt.asked == multiset{}
    modifies rt
    ensures done <= |cmds| && Permitted(cmds[..done])
    ensures rt.crashed == Tallied(cmds[..done]).crash
    ensures !rt.crashed ==> rt.Valid() && Matches(rt, Tallied(cmds[..done]))
    ensures !rt.crashed && done < |cmds| && Allowed(Tallied(cmds[..done]), cmds[done]) ==>
              cmds[done].User? && cmds[done].user.ShareObject? && !Live(rt.cells, cmds[done].user.r)
    ensures rt.asked == Given(cmds[..done])
    ensures !rt.crashed ==>
              forall b: Ref :: Given(cmds[..done])[b] == rt.delivered[b] + rt.released[b] + Waiting(rt.cells)[b]
  {
    hide May, After, Allowed, Recorded, Waiting, Runtime.Valid, WithGiven, Given;
    EachAccounted(rt);
    AtStart(rt, cmds);
    done := 0;
    while done < |cmds|
      invariant done <= |cmds| && Permitted(cmds[..done])
      invariant rt.Valid() && !rt.crashed && Matches(rt, Tallied(cmds[..done]))
      invariant rt.asked == Given(cmds[..done])
      invariant forall b: Ref :: Given(cmds[..done])[b] == rt.delivered[b] + rt.released[b] + Waiting(rt.cells)[b]
    {
      ghost var t := Tallied(cmds[..done]);
      MayIsAllowed(rt, t, cmds[done]);
      if !May(cmds[done], rt.cells, rt.vars, rt.ctl, rt.workers) {
        return;
      }
      TalliedNext(cmds, done);
      PermittedNext(cmds, done);
      GivenNext(cmds, done);
      Step(rt, cmds[done], t);
      done := done + 1;
      if rt.crashed {
        return;
      }
      EachAccounted(rt);
    }
  }

  lemma AtStart(rt: Runtime, cmds: seq<Command>)
    requires rt.cells == [] && rt.vars == multiset{} && rt.workers == [] && rt.ctl == NOTHING_YET
    ensures Given(cmds[..0]) == multiset{} && Permitted(cmds[..0]) && Matches(rt, Tallied(cmds[..0]))
  {
  }

  lemma EachAccounted(rt: Runtime)
    requires rt.Valid()
    ensures forall b: Ref :: rt.asked[b] == rt.delivered[b] + rt.released[b] + Waiting(rt.cells)[b]
  {
    hide Fine, Waiting, Runtime.Counted;
  }

  // ---- Inside a callback ------------------------------------------------------------------

  lemma FrameLive(rt: Runtime, r: Ref)
    requires rt.Valid() && r in FrameRefs(rt.ctl.frame)
    ensures Live(rt.cells, r)
  {
    hide Balanced, FrameRefs, Fine, WorkerRefs, FinalizedOnce;
    assert r in LoopOwned(rt.ctl, rt.workers);
    assert r in rt.Roots();
    RootLive(rt.cells, rt.Roots(), r);
  }

  /** A command of the callback itself, or a pool thread's step meanwhile. */
  predicate Inside(cmd: Command) {
    cmd.User? || OnPool(cmd.event)
  }

  lemma InsideKeepsFrame(t: Tally, cmd: Command)
    requires Inside(cmd) && !t.crash
    ensures After(t, cmd).crash ==> cmd.User? && cmd.user.CloseHandle?
    ensures After(t, cmd).ctl.frame == t.ctl.frame
  {
    hide AfterUser;
    if cmd.User? {
      UserKeepsFrame(t, cmd.user);
    }
  }

  /** Whatever a callback does, and whatever pool threads do meanwhile, its closure, its handle and, while a
      buffer is asked for, the read data stay live until it returns. */
  method RunCallback(rt: Runtime, body: seq<Command>, ghost t: Tally) returns (done: nat)
    requires rt.Valid() && !rt.crashed && rt.ctl.frame.Some? && Matches(rt, t)
    requires forall k :: 0 <= k < |body| ==> Inside(body[k])
    modifies rt
    ensures done <= |body|
    ensures rt.crashed ==> done > 0 && body[done - 1].User? && body[done - 1].user.CloseHandle?
    ensures !rt.crashed ==>
              && rt.Valid() && rt.ctl.frame == old(rt.ctl.frame)
              && (forall r :: r in FrameRefs(old(rt.ctl.frame)) ==> Live(rt.cells, r))
              && (done < |body| ==> !May(body[done], rt.cells, rt.vars, rt.ctl, rt.workers))
  {
    hide FrameRefs, After, May, Recorded, Runtime.Valid;
    done := 0;
    ghost var tally := t;
    while done < |body| && May(body[done], rt.cells, rt.vars, rt.ctl, rt.workers)
      invariant done <= |body|
      invariant rt.Valid() && !rt.crashed && rt.ctl.frame == old(rt.ctl.frame)
      invariant Matches(rt, tally)
    {
      InsideKeepsFrame(tally, body[done]);
      Step(rt, body[done], tally);
      tally := After(tally, body[done]);
      done := done + 1;
      if rt.crashed {
        return;
      }
    }
    forall r | r in FrameRefs(rt.ctl.frame) ensures Live(rt.cells, r) {
      FrameLive(rt, r);
    }
  }
}
