/** What a run does, computed from its commands alone: which objects it makes, who refers to what, which
    handles and requests the loop has, and which callback is in progress. */
module RunTally {
  import opened CountedHeap
  import opened EventLoopOwnership
  import opened LoopProtocol
  import opened RequestProtocol
  import opened Wrappers

  /** What user code may do, inside callbacks and outside them. */
  datatype UserCommand =
    | MakePlain(plain: Kind) | MakeOwner(owner: Kind, parts: seq<Ref>) | ShareObject(r: Ref) | ForgetObject(r: Ref)
    | MakeHandle(kind: Kind, l: Ref)
    | StartTimer(x: Ref, cb: Ref) | StartReading(x: Ref, allocCb: Ref, readCb: Ref) | StopHandle(x: Ref)
    | CloseHandle(x: Ref, cb: Ref) | AskLoop(x: Ref)
    | WriteTo(x: Ref, bufs: Ref, cb: Ref) | Queue(l: Ref, workCb: Ref, afterCb: Ref)
    | Transfer(l: Ref, bufs: Ref, cb: Ref) | TransferSync(l: Ref, bufs: Ref)

  /** What the loop may deliver, and how the callback in progress ends. */
  datatype LoopEvent =
    | FireTimer(x: Ref, again: bool) | WantBuffer(x: Ref) | DeliverRead(x: Ref) | DeliverClose(x: Ref)
    | FinishWrite(x: Ref) | RunWork(x: Ref) | EndWork(i: nat) | FinishWork(x: Ref) | FinishTransfer(x: Ref)
    | ReturnBuffer(b: Ref) | ReturnNothing

  datatype Command = User(user: UserCommand) | Event(event: LoopEvent)

  /** Read data: the buffer waiting in it and the closures of the start that made it. */
  datatype ReadData = ReadData(waiting: Option<Ref>, allocCb: Ref, readCb: Ref)

  /** `kinds` lists the objects in the order they are made, `vars` the references user code owns; `loops` has the
      loop of each handle, `data` each stream's read data; `crash` is set when the process is gone. */
  datatype Tally = Tally(kinds: seq<Kind>, vars: multiset<Ref>, ctl: Control, workers: seq<Worker>,
                         loops: map<Ref, Ref>, data: map<Ref, ReadData>, crash: bool) {
    function LoopOf(x: Ref): Ref {
      if x in loops then loops[x] else x
    }

    function DataOf(d: Ref): ReadData {
      if d in data then data[d] else ReadData(None, d, d)
    }

    /** What the last start gave the handle, what its end will call, and what work will run. */
    function Given(x: Ref): Ref {
      if x in ctl.started then ctl.started[x] else x
    }

    function Finish(x: Ref): Ref {
      if x in ctl.finish then ctl.finish[x] else x
    }

    function Payload(x: Ref): Ref {
      if x in ctl.payload then ctl.payload[x] else x
    }

    predicate Has(r: Ref, kind: Kind) {
      r < |kinds| && kinds[r] == kind
    }

    predicate HasHandle(r: Ref) {
      r < |kinds| && IsHandle(kinds[r])
    }
  }

  const NOTHING_DONE := Tally([], multiset{}, NOTHING_YET, [], map[], map[], false)

  // ---- Commands of user code --------------------------------------------------------------

  /** The objects a command makes. */
  function NewKinds(u: UserCommand): seq<Kind> {
    match u
    case MakePlain(kind) => [kind]
    case MakeOwner(kind, _) => [kind]
    case MakeHandle(kind, _) => [kind]
    case StartReading(_, _, _) => [StreamData]
    case WriteTo(_, _, _) => [WriteData, Write]
    case Queue(_, _, _) => [WorkData, Work]
    case Transfer(_, _, _) => [Fs]
    case TransferSync(_, _) => [Fs]
    case _ => []
  }

  /** The references user code gives away with a command. */
  function GivenUp(u: UserCommand): multiset<Ref> {
    match u
    case MakePlain(_) => multiset{}
    case MakeOwner(_, parts) => multiset(parts)
    case ShareObject(_) => multiset{}
    case ForgetObject(r) => multiset{r}
    case MakeHandle(_, l) => multiset{l}
    case StartTimer(x, cb) => multiset{x, cb}
    case StartReading(x, allocCb, readCb) => multiset{x, allocCb, readCb}
    case StopHandle(x) => multiset{x}
    case CloseHandle(x, cb) => multiset{x, cb}
    case AskLoop(x) => multiset{x}
    case WriteTo(x, bufs, cb) => multiset{x, bufs, cb}
    case Queue(l, workCb, afterCb) => multiset{l, workCb, afterCb}
    case Transfer(l, bufs, cb) => multiset{l, bufs, cb}
    case TransferSync(l, bufs) => multiset{l, bufs}
  }

  /** The references it gets: the object made, one more to a shared object, or a handle's loop. */
  function Got(t: Tally, u: UserCommand): multiset<Ref> {
    match u
    case ShareObject(r) => multiset{r}
    case AskLoop(x) => multiset{t.LoopOf(x)}
    case StartReading(_, _, _) => multiset{}
    case TransferSync(_, _) => multiset{}
    case _ => if NewKinds(u) == [] then multiset{} else multiset{|t.kinds| + |NewKinds(u)| - 1}
  }

  /** What it does to the loop's side, with `n` objects made before. */
  function ControlAfter(c: Control, n: nat, u: UserCommand): Control {
    match u
    case MakeHandle(_, _) => Added(c, n)
    case StartTimer(x, cb) => Started(c, x, cb)
    case StartReading(x, _, _) => Started(c, x, n)
    case StopHandle(x) => Stopped(c, x)
    case CloseHandle(x, cb) => CloseAsked(c, x, cb)
    case WriteTo(_, bufs, cb) => Submitted(c, n + 1, cb, bufs, false)
    case Queue(_, workCb, afterCb) => Submitted(c, n + 1, afterCb, workCb, true)
    case Transfer(_, bufs, cb) => Submitted(c, n, cb, bufs, false)
    case _ => c
  }

  /** libuv ends the process when a handle is closed again. */
  predicate Refused(c: Control, u: UserCommand) {
    u.CloseHandle? && (u.x !in c.inLoop || u.x in c.closing)
  }

  function AfterUser(t: Tally, u: UserCommand): Tally {
    var n := |t.kinds|;
    if Refused(t.ctl, u) then t.(crash := true)
    else
      Tally(t.kinds + NewKinds(u), Exchanged(t.vars, GivenUp(u), Got(t, u)), ControlAfter(t.ctl, n, u), t.workers,
            if u.MakeHandle? then t.loops[n := u.l] else t.loops,
            if u.StartReading? then t.data[n := ReadData(None, u.allocCb, u.readCb)] else t.data,
            t.crash)
  }

  lemma AfterUserIs(t: Tally, u: UserCommand)
    ensures var t' := AfterUser(t, u);
            && t'.crash == (t.crash || Refused(t.ctl, u))
            && t'.kinds == t.kinds + NewKinds(u) && t'.workers == t.workers
            && t'.ctl == (if Refused(t.ctl, u) then t.ctl else ControlAfter(t.ctl, |t.kinds|, u))
            && (!Refused(t.ctl, u) ==> t'.vars == Exchanged(t.vars, GivenUp(u), Got(t, u)))
            && t'.loops == (if u.MakeHandle? then t.loops[|t.kinds| := u.l] else t.loops)
            && t'.data == (if u.StartReading? then t.data[|t.kinds| := ReadData(None, u.allocCb, u.readCb)] else t.data)
  {
    hide Exchanged, ControlAfter, GivenUp, Got;
  }

  predicate Submits(u: UserCommand) {
    u.WriteTo? || u.Queue? || u.Transfer?
  }

  lemma UserKeepsFrame(t: Tally, u: UserCommand)
    ensures AfterUser(t, u).ctl.frame == t.ctl.frame
    ensures AfterUser(t, u).crash && !t.crash ==> u.CloseHandle?
  {
    hide AfterUser, Exchanged, GivenUp, Got, NewKinds;
    AfterUserIs(t, u);
  }

  // ---- Events of the loop -----------------------------------------------------------------

  /** A request's last closure is called with the request. */
  function Finished(t: Tally, x: Ref): Tally {
    t.(ctl := InUser(Completed(t.ctl, x), [t.Finish(x), x]))
  }

  function AfterEvent(t: Tally, e: LoopEvent): Tally {
    match e
    case FireTimer(x, again) => t.(ctl := InUser(Fired(t.ctl, x, again), [t.Given(x), x]))
    case WantBuffer(x) => t.(ctl := InAlloc(t.ctl, x, t.Given(x), [t.DataOf(t.Given(x)).allocCb, x]))
    case DeliverRead(x) =>
      var d := t.Given(x);
      t.(ctl := InUser(t.ctl, [t.DataOf(d).readCb, x] + Present(t.DataOf(d).waiting)),
         data := t.data[d := t.DataOf(d).(waiting := None)])
    case DeliverClose(x) =>
      if x in t.ctl.disturbed then t.(crash := true) else t.(ctl := InUser(Closed(t.ctl, x), [t.Finish(x)]))
    case FinishWrite(x) => Finished(t, x)
    case FinishWork(x) => Finished(t, x)
    case FinishTransfer(x) => Finished(t, x)
    case RunWork(x) => t.(ctl := Running(t.ctl, x), workers := t.workers + [Worker(x, t.Payload(x))])
    case EndWork(i) => if i < |t.workers| then t.(workers := t.workers[..i] + t.workers[i + 1..]) else t
    case ReturnBuffer(b) =>
      if t.ctl.frame.Some? && t.ctl.frame.value.AllocFrame? then
        var d := t.ctl.frame.value.data;
        t.(vars := t.vars - multiset{b}, ctl := GaveBuffer(t.ctl, t.ctl.frame.value.stream, d),
           data := t.data[d := t.DataOf(d).(waiting := Some(b))])
      else t
    case ReturnNothing => t.(ctl := t.ctl.(frame := None))
  }

  function After(t: Tally, cmd: Command): Tally {
    match cmd
    case User(u) => AfterUser(t, u)
    case Event(e) => AfterEvent(t, e)
  }

  function Tallied(cmds: seq<Command>): Tally {
    if cmds == [] then NOTHING_DONE else After(Tallied(cmds[..|cmds| - 1]), cmds[|cmds| - 1])
  }

  lemma TalliedNext(cmds: seq<Command>, n: nat)
    requires n < |cmds|
    ensures Tallied(cmds[..n + 1]) == After(Tallied(cmds[..n]), cmds[n])
  {
    assert cmds[..n + 1][..n] == cmds[..n];
  }

  // ---- Which command is possible ----------------------------------------------------------

  predicate UserAllowed(t: Tally, u: UserCommand) {
    match u
    case MakePlain(kind) => kind.Loop? || kind.Buffer?
    case MakeOwner(kind, parts) =>
      && (kind.Closure? || kind.Buffers?) && multiset(parts) <= t.vars
      && forall k :: 0 <= k < |parts| ==>
           && parts[k] < |t.kinds|
           && if kind.Buffers? then t.kinds[parts[k]] == Buffer else !Internal(t.kinds[parts[k]])
    case ShareObject(r) => r < |t.kinds| && !Internal(t.kinds[r])
    case ForgetObject(r) => r in t.vars
    case MakeHandle(kind, l) => IsHandle(kind) && l in t.vars && t.Has(l, Loop)
    case StartTimer(x, cb) => multiset{x, cb} <= t.vars && t.Has(x, Timer) && t.Has(cb, Closure(TimerCall))
    case StartReading(x, allocCb, readCb) =>
      && multiset{x, allocCb, readCb} <= t.vars && t.Has(x, Stream)
      && t.Has(allocCb, Closure(AllocCall)) && t.Has(readCb, Closure(ReadCall))
    case StopHandle(x) => x in t.vars && t.HasHandle(x)
    case CloseHandle(x, cb) => multiset{x, cb} <= t.vars && t.HasHandle(x) && t.Has(cb, Closure(CloseCall))
    case AskLoop(x) => x in t.vars && t.HasHandle(x)
    case WriteTo(x, bufs, cb) =>
      && multiset{x, bufs, cb} <= t.vars && t.Has(x, Stream) && x in t.ctl.inLoop && x !in t.ctl.closing
      && t.Has(bufs, Buffers) && t.Has(cb, Closure(WriteCall))
    case Queue(l, workCb, afterCb) =>
      && multiset{l, workCb, afterCb} <= t.vars && t.Has(l, Loop)
      && t.Has(workCb, Closure(WorkCall)) && t.Has(afterCb, Closure(AfterCall))
    case Transfer(l, bufs, cb) =>
      && multiset{l, bufs, cb} <= t.vars && t.Has(l, Loop)
      && t.Has(bufs, Buffers) && t.Has(cb, Closure(FsCall))
    case TransferSync(l, bufs) => multiset{l, bufs} <= t.vars && t.Has(l, Loop) && t.Has(bufs, Buffers)
  }

  /** No callback is in progress, and the loop has `x`. */
  predicate Ready(t: Tally, x: Ref, kind: Kind) {
    t.ctl.frame.None? && x in t.ctl.inLoop && t.Has(x, kind)
  }

  predicate EventAllowed(t: Tally, e: LoopEvent) {
    match e
    case FireTimer(x, _) => Ready(t, x, Timer) && x in t.ctl.active
    case WantBuffer(x) => Ready(t, x, Stream) && x in t.ctl.active && t.DataOf(t.Given(x)).waiting.None?
    case DeliverRead(x) => Ready(t, x, Stream) && x in t.ctl.active
    case DeliverClose(x) => t.ctl.frame.None? && x in t.ctl.closing
    case FinishWrite(x) => Ready(t, x, Write)
    case RunWork(x) => x in t.ctl.queued
    case EndWork(i) => i < |t.workers|
    case FinishWork(x) => Ready(t, x, Work) && forall w :: w in t.workers ==> w.request != x
    case FinishTransfer(x) => Ready(t, x, Fs)
    case ReturnBuffer(b) => t.ctl.frame.Some? && t.ctl.frame.value.AllocFrame? && b in t.vars && t.Has(b, Buffer)
    case ReturnNothing => t.ctl.frame.Some? && t.ctl.frame.value.UserFrame?
  }

  predicate Allowed(t: Tally, cmd: Command) {
    match cmd
    case User(u) => UserAllowed(t, u)
    case Event(e) => EventAllowed(t, e)
  }

  /** Each command is possible after those before it, and none of them but the last ends the process. */
  ghost predicate Permitted(cmds: seq<Command>) {
    forall k :: 0 <= k < |cmds| ==> Allowed(Tallied(cmds[..k]), cmds[k]) && !Tallied(cmds[..k]).crash
  }

  lemma PermittedBefore(cmds: seq<Command>, n: nat)
    requires Permitted(cmds) && n <= |cmds|
    ensures Permitted(cmds[..n])
    ensures n < |cmds| ==> Allowed(Tallied(cmds[..n]), cmds[n]) && !Tallied(cmds[..n]).crash
  {
    hide Tallied, Allowed;
    assert forall k :: 0 <= k < n ==> cmds[..n][..k] == cmds[..k];
  }

  // ---- The tally and the heap -------------------------------------------------------------

  function Fields(d: ReadData): seq<Option<Ref>> {
    [d.waiting, Some(d.allocCb), Some(d.readCb)]
  }

  function FixedOf(t: Tally, r: Ref): seq<Option<Ref>>
    requires r < |t.kinds|
  {
    if t.kinds[r].StreamData? then Fields(t.DataOf(r))
    else if IsHandle(t.kinds[r]) then [Some(t.LoopOf(r))]
    else []
  }

  /** The objects are those of the tally, and the live ones hold what it says. */
  ghost predicate Recorded(h: Heap, t: Tally) {
    && |h| == |t.kinds|
    && forall r :: 0 <= r < |h| ==> h[r].kind == t.kinds[r] && (h[r].live ==> Fixed(h[r]) == FixedOf(t, r))
  }

  lemma RecordedKept(h: Heap, t: Tally, kinds: seq<Kind>, h': Heap, t': Tally)
    requires Recorded(h, t) && Extended(h, kinds, h') && t'.kinds == t.kinds + kinds
    requires forall r :: 0 <= r < |h| ==> t'.LoopOf(r) == t.LoopOf(r) && t'.DataOf(r) == t.DataOf(r)
    requires forall r :: |h| <= r < |h'| && h'[r].live ==> Fixed(h'[r]) == FixedOf(t', r)
    ensures Recorded(h', t')
  {
    forall r | |h| <= r < |h'| ensures h'[r].kind == t'.kinds[r] {
      assert h'[|h| + (r - |h|)].kind == kinds[r - |h|];
    }
  }

  /** New objects without fixed fields. */
  lemma RecordedMore(h: Heap, t: Tally, kinds: seq<Kind>, h': Heap, t': Tally)
    requires Recorded(h, t) && Extended(h, kinds, h') && t'.kinds == t.kinds + kinds
    requires t'.loops == t.loops && t'.data == t.data
    requires forall k :: 0 <= k < |kinds| ==> !IsHandle(kinds[k]) && !kinds[k].StreamData?
    ensures Recorded(h', t')
  {
    forall r | |h| <= r < |h'| ensures Fixed(h'[r]) == FixedOf(t', r) == [] {
      assert h'[|h| + (r - |h|)].kind == kinds[r - |h|];
    }
    RecordedKept(h, t, kinds, h', t');
  }

  lemma RecordedData(h: Heap, t: Tally, d: Ref)
    requires Recorded(h, t) && Live(h, d) && h[d].kind.StreamData?
    ensures h[d].slots == Fields(t.DataOf(d))
  {
  }

  lemma RecordedLoop(h: Heap, t: Tally, x: Ref)
    requires Recorded(h, t) && Live(h, x) && IsHandle(h[x].kind) && |h[x].slots| == 2
    ensures h[x].slots[0] == Some(t.LoopOf(x))
  {
  }

  /** The buffer of read data `d` changes. */
  lemma RecordedField(h: Heap, t: Tally, d: Ref, v: Option<Ref>, h': Heap, t': Tally)
    requires Recorded(h, t) && Live(h, d) && h[d].kind.StreamData? && |h[d].slots| == 3
    requires Extended(SetSlot(h, d, 0, v), [], h')
    requires t'.kinds == t.kinds && t'.loops == t.loops && t'.data == t.data[d := t.DataOf(d).(waiting := v)]
    ensures Recorded(h', t')
  {
    RecordedData(h, t, d);
    var set' := SetSlot(h, d, 0, v);
    assert set'[d].slots == Fields(t'.DataOf(d));
    assert Recorded(set', t');
    RecordedKept(set', t', [], h', t');
  }

  // ---- One command, on the tally and on the heap ------------------------------------------

  /** The parts of a state are those of the tally. */
  ghost predicate Shows(t: Tally, h: Heap, vars: multiset<Ref>, c: Control, workers: seq<Worker>) {
    !t.crash && vars == t.vars && c == t.ctl && workers == t.workers && Recorded(h, t)
  }

  lemma ShowsUser(t: Tally, u: UserCommand, h: Heap, h': Heap)
    requires !t.crash && Recorded(h, t) && !Refused(t.ctl, u) && Extended(h, NewKinds(u), h')
    requires forall r :: |h| <= r < |h'| && h'[r].live ==> Fixed(h'[r]) == FixedOf(AfterUser(t, u), r)
    ensures Shows(AfterUser(t, u), h', Exchanged(t.vars, GivenUp(u), Got(t, u)), ControlAfter(t.ctl, |h|, u), t.workers)
  {
    AfterUserIs(t, u);
    hide AfterUser, Exchanged, GivenUp, Got, ControlAfter, NewKinds;
    RecordedKept(h, t, NewKinds(u), h', AfterUser(t, u));
  }

  /** Most commands make no handle and no read data. */
  lemma ShowsPlain(t: Tally, u: UserCommand, h: Heap, h': Heap)
    requires !t.crash && Recorded(h, t) && !Refused(t.ctl, u) && Extended(h, NewKinds(u), h')
    requires forall k :: 0 <= k < |NewKinds(u)| ==> !IsHandle(NewKinds(u)[k]) && !NewKinds(u)[k].StreamData?
    ensures Shows(AfterUser(t, u), h', Exchanged(t.vars, GivenUp(u), Got(t, u)), ControlAfter(t.ctl, |h|, u), t.workers)
  {
    AfterUserIs(t, u);
    hide AfterUser, Exchanged, GivenUp, Got, ControlAfter, NewKinds;
    forall r | |h| <= r < |h'| ensures Fixed(h'[r]) == FixedOf(AfterUser(t, u), r) == [] {
      assert h'[|h| + (r - |h|)].kind == NewKinds(u)[r - |h|];
    }
    ShowsUser(t, u, h, h');
  }

  lemma NothingGot(vars: multiset<Ref>, given: multiset<Ref>)
    ensures Exchanged(vars, given, multiset{}) == vars - given
    ensures Exchanged(vars, multiset{}, given) == vars + given
  {
  }

  lemma ShowsMade(t: Tally, kind: Kind, parts: seq<Ref>, h: Heap, h': Heap)
    requires !t.crash && Recorded(h, t) && Extended(h, [kind], h') && !IsHandle(kind) && !kind.StreamData?
    ensures Shows(AfterUser(t, MakePlain(kind)), h', t.vars + multiset{|h|}, t.ctl, t.workers)
    ensures Shows(AfterUser(t, MakeOwner(kind, parts)), h', Exchanged(t.vars, multiset(parts), multiset{|h|}), t.ctl,
                  t.workers)
  {
    hide AfterUser, Exchanged, Shows;
    ShowsPlain(t, MakePlain(kind), h, h');
    ShowsPlain(t, MakeOwner(kind, parts), h, h');
    NothingGot(t.vars, multiset{|h|});
  }

  lemma ShowsShared(t: Tally, r: Ref, h: Heap, h': Heap)
    requires !t.crash && Recorded(h, t) && Extended(h, [], h')
    ensures Shows(AfterUser(t, ShareObject(r)), h', t.vars + multiset{r}, t.ctl, t.workers)
    ensures Shows(AfterUser(t, ForgetObject(r)), h', t.vars - multiset{r}, t.ctl, t.workers)
  {
    hide AfterUser, Exchanged, Shows, Recorded;
    ShowsPlain(t, ShareObject(r), h, h');
    ShowsPlain(t, ForgetObject(r), h, h');
    NothingGot(t.vars, multiset{r});
  }

  lemma ShowsHandle(t: Tally, kind: Kind, l: Ref, h: Heap, h': Heap)
    requires !t.crash && Recorded(h, t) && IsHandle(kind) && h' == h + [Cell(kind, 2, true, [Some(l), None])]
    ensures Shows(AfterUser(t, MakeHandle(kind, l)), h', Exchanged(t.vars, multiset{l}, multiset{|h|}),
                  Added(t.ctl, |h|), t.workers)
  {
    ExtendedAppend(h, h'[|h|]);
    AfterUserIs(t, MakeHandle(kind, l));
    hide AfterUser, Exchanged, Shows;
    ShowsUser(t, MakeHandle(kind, l), h, h');
  }

  lemma ShowsTimer(t: Tally, x: Ref, cb: Ref, h: Heap, h': Heap)
    requires !t.crash && Recorded(h, t) && Extended(h, [], h')
    ensures Shows(AfterUser(t, StartTimer(x, cb)), h', t.vars - multiset{x, cb}, Started(t.ctl, x, cb), t.workers)
  {
    hide AfterUser, Exchanged, Shows, Recorded, Started;
    ShowsPlain(t, StartTimer(x, cb), h, h');
    NothingGot(t.vars, multiset{x, cb});
  }

  lemma ShowsReading(t: Tally, x: Ref, allocCb: Ref, readCb: Ref, h: Heap, h': Heap)
    requires !t.crash && Recorded(h, t) && Extended(h, [StreamData], h') && x < |h|
    requires Shrinks(NewData(h + [Cell(StreamData, 1, true, [None, Some(allocCb), Some(readCb)])], x, Some(|h|)), h')
    ensures Shows(AfterUser(t, StartReading(x, allocCb, readCb)), h', t.vars - multiset{x, allocCb, readCb},
                  Started(t.ctl, x, |h|), t.workers)
  {
    var u := StartReading(x, allocCb, readCb);
    AfterUserIs(t, u);
    hide AfterUser, Exchanged, Shows, Started;
    ShowsUser(t, u, h, h');
    NothingGot(t.vars, multiset{x, allocCb, readCb});
  }

  lemma ShowsStopped(t: Tally, x: Ref, h: Heap, h': Heap)
    requires !t.crash && Recorded(h, t) && Extended(h, [], h')
    ensures Shows(AfterUser(t, StopHandle(x)), h', t.vars - multiset{x}, Stopped(t.ctl, x), t.workers)
  {
    hide AfterUser, Exchanged, Shows, Recorded, Stopped;
    ShowsPlain(t, StopHandle(x), h, h');
    NothingGot(t.vars, multiset{x});
  }

  lemma ShowsClosed(t: Tally, x: Ref, cb: Ref, h: Heap, h': Heap)
    requires !t.crash && Recorded(h, t) && Extended(h, [], h') && x in t.ctl.inLoop && x !in t.ctl.closing
    ensures Shows(AfterUser(t, CloseHandle(x, cb)), h', t.vars - multiset{x, cb}, CloseAsked(t.ctl, x, cb), t.workers)
  {
    hide AfterUser, Exchanged, Shows, Recorded, CloseAsked;
    ShowsPlain(t, CloseHandle(x, cb), h, h');
    NothingGot(t.vars, multiset{x, cb});
  }

  lemma ShowsLoop(t: Tally, x: Ref, h: Heap, h': Heap)
    requires !t.crash && Recorded(h, t) && Extended(h, [], h')
    ensures Shows(AfterUser(t, AskLoop(x)), h', Exchanged(t.vars, multiset{x}, multiset{t.LoopOf(x)}), t.ctl, t.workers)
  {
    hide AfterUser, Exchanged, Shows, Recorded;
    ShowsPlain(t, AskLoop(x), h, h');
  }

  lemma ShowsWrite(t: Tally, x: Ref, bufs: Ref, cb: Ref, h: Heap, h': Heap)
    requires !t.crash && Recorded(h, t) && Extended(h, [WriteData, Write], h')
    ensures Shows(AfterUser(t, WriteTo(x, bufs, cb)), h', Exchanged(t.vars, multiset{x, bufs, cb}, multiset{|h| + 1}),
                  Submitted(t.ctl, |h| + 1, cb, bufs, false), t.workers)
  {
    hide AfterUser, Exchanged, Shows, Submitted;
    ShowsPlain(t, WriteTo(x, bufs, cb), h, h');
  }

  lemma ShowsQueued(t: Tally, l: Ref, workCb: Ref, afterCb: Ref, h: Heap, h': Heap)
    requires !t.crash && Recorded(h, t) && Extended(h, [WorkData, Work], h')
    ensures Shows(AfterUser(t, Queue(l, workCb, afterCb)), h',
                  Exchanged(t.vars, multiset{l, workCb, afterCb}, multiset{|h| + 1}),
                  Submitted(t.ctl, |h| + 1, afterCb, workCb, true), t.workers)
  {
    hide AfterUser, Exchanged, Shows, Submitted;
    ShowsPlain(t, Queue(l, workCb, afterCb), h, h');
  }

  lemma ShowsTransfer(t: Tally, l: Ref, bufs: Ref, cb: Ref, h: Heap, h': Heap)
    requires !t.crash && Recorded(h, t) && Extended(h, [Fs], h')
    ensures Shows(AfterUser(t, Transfer(l, bufs, cb)), h', Exchanged(t.vars, multiset{l, bufs, cb}, multiset{|h|}),
                  Submitted(t.ctl, |h|, cb, bufs, false), t.workers)
  {
    hide AfterUser, Exchanged, Shows, Submitted;
    ShowsPlain(t, Transfer(l, bufs, cb), h, h');
  }

  lemma ShowsSync(t: Tally, l: Ref, bufs: Ref, h: Heap, h': Heap)
    requires !t.crash && Recorded(h, t) && Extended(h, [Fs], h')
    ensures Shows(AfterUser(t, TransferSync(l, bufs)), h', t.vars - multiset{l, bufs}, t.ctl, t.workers)
  {
    hide AfterUser, Exchanged, Shows;
    ShowsPlain(t, TransferSync(l, bufs), h, h');
    NothingGot(t.vars, multiset{l, bufs});
  }

  lemma ShowsFired(t: Tally, x: Ref, again: bool, h: Heap, h': Heap)
    requires !t.crash && Recorded(h, t) && Extended(h, [], h')
    ensures Shows(AfterEvent(t, FireTimer(x, again)), h', t.vars, InUser(Fired(t.ctl, x, again), [t.Given(x), x]),
                  t.workers)
  {
    RecordedMore(h, t, [], h', AfterEvent(t, FireTimer(x, again)));
  }

  lemma ShowsWanted(t: Tally, x: Ref, h: Heap, h': Heap)
    requires !t.crash && Recorded(h, t) && Extended(h, [], h')
    ensures Shows(AfterEvent(t, WantBuffer(x)), h', t.vars,
                  InAlloc(t.ctl, x, t.Given(x), [t.DataOf(t.Given(x)).allocCb, x]), t.workers)
  {
    RecordedMore(h, t, [], h', AfterEvent(t, WantBuffer(x)));
  }

  lemma ShowsRead(t: Tally, x: Ref, h: Heap, h': Heap)
    requires !t.crash && Recorded(h, t)
    requires Live(h, t.Given(x)) && h[t.Given(x)].kind.StreamData? && |h[t.Given(x)].slots| == 3
    requires Extended(SetSlot(h, t.Given(x), 0, None), [], h')
    ensures Shows(AfterEvent(t, DeliverRead(x)), h', t.vars,
                  InUser(t.ctl, [t.DataOf(t.Given(x)).readCb, x] + Present(t.DataOf(t.Given(x)).waiting)), t.workers)
  {
    RecordedField(h, t, t.Given(x), None, h', AfterEvent(t, DeliverRead(x)));
  }

  lemma ShowsDeliveredClose(t: Tally, x: Ref, h: Heap, h': Heap)
    requires !t.crash && Recorded(h, t) && Extended(h, [], h') && x !in t.ctl.disturbed
    ensures Shows(AfterEvent(t, DeliverClose(x)), h', t.vars, InUser(Closed(t.ctl, x), [t.Finish(x)]), t.workers)
  {
    RecordedMore(h, t, [], h', AfterEvent(t, DeliverClose(x)));
  }

  lemma ShowsFinished(t: Tally, x: Ref, h: Heap, h': Heap)
    requires !t.crash && Recorded(h, t) && Extended(h, [], h')
    ensures Shows(Finished(t, x), h', t.vars, InUser(Completed(t.ctl, x), [t.Finish(x), x]), t.workers)
  {
    RecordedMore(h, t, [], h', Finished(t, x));
  }

  lemma ShowsRunning(t: Tally, x: Ref, h: Heap, h': Heap)
    requires !t.crash && Recorded(h, t) && Extended(h, [], h')
    ensures Shows(AfterEvent(t, RunWork(x)), h', t.vars, Running(t.ctl, x), t.workers + [Worker(x, t.Payload(x))])
  {
    RecordedMore(h, t, [], h', AfterEvent(t, RunWork(x)));
  }

  lemma ShowsWorkOver(t: Tally, i: nat, h: Heap, h': Heap)
    requires !t.crash && Recorded(h, t) && Extended(h, [], h') && i < |t.workers|
    ensures Shows(AfterEvent(t, EndWork(i)), h', t.vars, t.ctl, t.workers[..i] + t.workers[i + 1..])
  {
    RecordedMore(h, t, [], h', AfterEvent(t, EndWork(i)));
  }

  lemma ShowsGiven(t: Tally, b: Ref, h: Heap, h': Heap)
    requires !t.crash && Recorded(h, t) && t.ctl.frame.Some? && t.ctl.frame.value.AllocFrame?
    requires var d := t.ctl.frame.value.data;
             && Live(h, d) && h[d].kind.StreamData? && |h[d].slots| == 3
             && Extended(SetSlot(h, d, 0, Some(b)), [], h')
    ensures Shows(AfterEvent(t, ReturnBuffer(b)), h', t.vars - multiset{b},
                  GaveBuffer(t.ctl, t.ctl.frame.value.stream, t.ctl.frame.value.data), t.workers)
  {
    RecordedField(h, t, t.ctl.frame.value.data, Some(b), h', AfterEvent(t, ReturnBuffer(b)));
  }

  lemma ShowsReturned(t: Tally, h: Heap, h': Heap)
    requires !t.crash && Recorded(h, t) && Extended(h, [], h')
    ensures Shows(AfterEvent(t, ReturnNothing), h', t.vars, t.ctl.(frame := None), t.workers)
  {
    RecordedMore(h, t, [], h', AfterEvent(t, ReturnNothing));
  }
}
