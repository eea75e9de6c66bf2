/** What every possible run keeps, read off its commands alone: which handle is active and why, which closure each
    callback is called with, and that requests, work and `close` are answered once. */
module RunLaws {
  import opened CountedHeap
  import opened EventLoopOwnership
  import opened LoopProtocol
  import opened RequestProtocol
  import opened RunTally
  import opened Wrappers

  // ---- Commands about one object ----------------------------------------------------------

  predicate StartOf(cmd: Command, x: Ref) {
    cmd.User? && (cmd.user.StartTimer? || cmd.user.StartReading?) && cmd.user.x == x
  }

  predicate CloseOf(cmd: Command, x: Ref) {
    cmd.User? && cmd.user.CloseHandle? && cmd.user.x == x
  }

  /** Stopped, closed, or fired without being set to repeat. */
  predicate EndOf(cmd: Command, x: Ref) {
    || CloseOf(cmd, x)
    || (cmd.User? && cmd.user.StopHandle? && cmd.user.x == x)
    || (cmd.Event? && cmd.event.FireTimer? && cmd.event.x == x && !cmd.event.again)
  }

  /** The last command of a run that starts `x`, if nothing ended that since. */
  function Since(cmds: seq<Command>, x: Ref): Option<nat> {
    if cmds == [] then None
    else
      var n := |cmds| - 1;
      if StartOf(cmds[n], x) then Some(n) else if EndOf(cmds[n], x) then None else Since(cmds[..n], x)
  }

  lemma {:induction false} SinceIs(cmds: seq<Command>, x: Ref, j: nat)
    ensures Since(cmds, x) == Some(j) <==>
            && j < |cmds| && StartOf(cmds[j], x)
            && forall i :: j < i < |cmds| ==> !StartOf(cmds[i], x) && !EndOf(cmds[i], x)
  {
    if cmds != [] {
      SinceIs(cmds[..|cmds| - 1], x, j);
    }
  }

  predicate ClosedIn(cmds: seq<Command>, x: Ref) {
    exists i :: 0 <= i < |cmds| && CloseOf(cmds[i], x)
  }

  lemma ClosedLast(cmds: seq<Command>, x: Ref)
    requires cmds != []
    ensures ClosedIn(cmds, x) <==> ClosedIn(cmds[..|cmds| - 1], x) || CloseOf(cmds[|cmds| - 1], x)
  {
    var n := |cmds| - 1;
    if i :| 0 <= i < |cmds| && CloseOf(cmds[i], x) {
      assert i < n ==> cmds[..n][i] == cmds[i];
    }
    if i :| 0 <= i < n && CloseOf(cmds[..n][i], x) {
      assert cmds[i] == cmds[..n][i];
    }
  }

  // ---- Open handles -----------------------------------------------------------------------

  predicate Open(t: Tally, x: Ref) {
    t.HasHandle(x) && x in t.ctl.inLoop && x !in t.ctl.closing
  }

  ghost predicate InRange(t: Tally) {
    && (forall x :: x in t.ctl.inLoop ==> x < |t.kinds|)
    && (forall x :: x in t.ctl.closing ==> t.HasHandle(x))
    && (forall x :: x in t.ctl.queued ==> x < |t.kinds| && t.kinds[x].Work?)
  }

  lemma ControlIs(t: Tally, u: UserCommand)
    ensures AfterUser(t, u).crash == (t.crash || Refused(t.ctl, u))
    ensures AfterUser(t, u).kinds == t.kinds + NewKinds(u)
    ensures AfterUser(t, u).ctl == if Refused(t.ctl, u) then t.ctl else ControlAfter(t.ctl, |t.kinds|, u)
  {
    hide AfterUser, Exchanged, GivenUp, Got, NewKinds, ControlAfter;
    AfterUserIs(t, u);
  }

  lemma UserKinds(t: Tally, u: UserCommand)
    ensures t.kinds <= AfterUser(t, u).kinds
  {
    hide AfterUser;
    ControlIs(t, u);
  }

  lemma EventKinds(t: Tally, e: LoopEvent)
    ensures AfterEvent(t, e).kinds == t.kinds
  {
  }

  lemma KindsGrow(t: Tally, cmd: Command)
    ensures t.kinds <= After(t, cmd).kinds
  {
    hide AfterUser, AfterEvent;
    match cmd
    case User(u) => UserKinds(t, u);
    case Event(e) => EventKinds(t, e);
  }

  // ---- One step ---------------------------------------------------------------------------

  lemma ActiveUser(t: Tally, u: UserCommand, x: Ref)
    requires !AfterUser(t, u).crash
    ensures x in AfterUser(t, u).ctl.active <==>
            (StartOf(User(u), x) && x in t.ctl.inLoop && x !in t.ctl.closing)
            || (x in t.ctl.active && !EndOf(User(u), x))
  {
    hide AfterUser;
    ControlIs(t, u);
  }

  lemma ActiveEvent(t: Tally, e: LoopEvent, x: Ref)
    requires !AfterEvent(t, e).crash
    ensures x in AfterEvent(t, e).ctl.active <==> x in t.ctl.active && !EndOf(Event(e), x)
  {
  }

  /** Old objects keep their place with the loop; new handles are in it, and only new work is queued. */
  ghost predicate LoopKept(t: Tally, t': Tally) {
    && t'.ctl.closing == t.ctl.closing && t'.ctl.frame == t.ctl.frame && t.kinds <= t'.kinds
    && t.ctl.inLoop <= t'.ctl.inLoop && t.ctl.queued <= t'.ctl.queued
    && (forall x :: x in t'.ctl.inLoop && x !in t.ctl.inLoop ==> |t.kinds| <= x < |t'.kinds|)
    && (forall x :: x in t'.ctl.queued && x !in t.ctl.queued ==> |t.kinds| <= x < |t'.kinds| && t'.kinds[x].Work?)
    && (forall x :: |t.kinds| <= x < |t'.kinds| && IsHandle(t'.kinds[x]) ==> x in t'.ctl.inLoop)
  }

  predicate OnHandle(u: UserCommand) {
    u.StartTimer? || u.StartReading? || u.StopHandle?
  }

  lemma HandleUser(t: Tally, u: UserCommand)
    requires OnHandle(u)
    ensures LoopKept(t, AfterUser(t, u)) && AfterUser(t, u).crash == t.crash
    ensures Open(t, u.x) ==> AfterUser(t, u).ctl.disturbed == t.ctl.disturbed
  {
    hide AfterUser, LoopKept;
    ControlIs(t, u);
    var t' := AfterUser(t, u);
    match u {
      case StartTimer(x, cb) => StartedKept(t, [], x, cb, t');
      case StartReading(x, _, _) => StartedKept(t, [StreamData], x, |t.kinds|, t');
      case StopHandle(x) => StoppedKept(t, x, t');
    }
  }

  lemma StartedKept(t: Tally, kinds: seq<Kind>, x: Ref, v: Ref, t': Tally)
    requires t'.kinds == t.kinds + kinds && t'.ctl == Started(t.ctl, x, v)
    requires forall k :: 0 <= k < |kinds| ==> !IsHandle(kinds[k])
    ensures LoopKept(t, t') && (Open(t, x) ==> t'.ctl.disturbed == t.ctl.disturbed)
  {
  }

  lemma StoppedKept(t: Tally, x: Ref, t': Tally)
    requires t'.kinds == t.kinds && t'.ctl == Stopped(t.ctl, x)
    ensures LoopKept(t, t') && (Open(t, x) ==> t'.ctl.disturbed == t.ctl.disturbed)
  {
  }

  lemma SubmittedKept(t: Tally, kinds: seq<Kind>, req: Ref, finish: Ref, payload: Ref, queued: bool, t': Tally)
    requires t'.kinds == t.kinds + kinds && t'.ctl == Submitted(t.ctl, req, finish, payload, queued)
    requires forall k :: 0 <= k < |kinds| ==> !IsHandle(kinds[k])
    requires |t.kinds| <= req < |t'.kinds| && (queued ==> t'.kinds[req].Work?)
    ensures LoopKept(t, t')
  {
  }

  lemma RequestUser(t: Tally, u: UserCommand)
    requires Submits(u)
    ensures LoopKept(t, AfterUser(t, u)) && AfterUser(t, u).crash == t.crash
    ensures AfterUser(t, u).ctl.disturbed == t.ctl.disturbed
  {
    hide AfterUser, LoopKept;
    ControlIs(t, u);
    var t', n := AfterUser(t, u), |t.kinds|;
    match u {
      case WriteTo(_, bufs, cb) => SubmittedKept(t, [WriteData, Write], n + 1, cb, bufs, false, t');
      case Queue(_, w, a) => SubmittedKept(t, [WorkData, Work], n + 1, a, w, true, t');
      case Transfer(_, bufs, cb) => SubmittedKept(t, [Fs], n, cb, bufs, false, t');
    }
  }

  lemma MakeUser(t: Tally, kind: Kind, l: Ref)
    ensures LoopKept(t, AfterUser(t, MakeHandle(kind, l))) && AfterUser(t, MakeHandle(kind, l)).crash == t.crash
    ensures AfterUser(t, MakeHandle(kind, l)).ctl.disturbed == t.ctl.disturbed
  {
    hide AfterUser;
    ControlIs(t, MakeHandle(kind, l));
  }

  predicate KindsFit(u: UserCommand) {
    && (u.MakePlain? ==> u.plain.Loop? || u.plain.Buffer?)
    && (u.MakeOwner? ==> u.owner.Closure? || u.owner.Buffers?)
  }

  lemma ObjectUser(t: Tally, u: UserCommand)
    requires !OnHandle(u) && !Submits(u) && !u.MakeHandle? && !u.CloseHandle? && KindsFit(u)
    ensures LoopKept(t, AfterUser(t, u)) && AfterUser(t, u).crash == t.crash
    ensures AfterUser(t, u).ctl == t.ctl
  {
    hide AfterUser, LoopKept;
    ControlIs(t, u);
    ObjectKept(t, NewKinds(u), AfterUser(t, u));
  }

  lemma ObjectKept(t: Tally, kinds: seq<Kind>, t': Tally)
    requires t'.kinds == t.kinds + kinds && t'.ctl == t.ctl
    requires forall k :: 0 <= k < |kinds| ==> !IsHandle(kinds[k])
    ensures LoopKept(t, t')
  {
  }

  /** Only `close` takes a handle from those that are open. */
  lemma KeptUser(t: Tally, u: UserCommand)
    requires !u.CloseHandle? && UserAllowed(t, u)
    ensures LoopKept(t, AfterUser(t, u)) && AfterUser(t, u).crash == t.crash
    ensures (OnHandle(u) ==> Open(t, u.x)) ==> AfterUser(t, u).ctl.disturbed == t.ctl.disturbed
  {
    assert KindsFit(u);
    hide LoopKept, AfterUser, UserAllowed;
    if OnHandle(u) {
      HandleUser(t, u);
    } else if Submits(u) {
      RequestUser(t, u);
    } else if u.MakeHandle? {
      MakeUser(t, u.kind, u.l);
    } else {
      ObjectUser(t, u);
    }
  }

  lemma OpenKept(t: Tally, t': Tally, x: Ref)
    requires InRange(t) && LoopKept(t, t')
    ensures Open(t', x) <==> if x < |t.kinds| then Open(t, x) else t'.HasHandle(x)
    ensures InRange(t')
  {
    forall y | y in t'.ctl.queued ensures y < |t'.kinds| && t'.kinds[y].Work? {
      if y in t.ctl.queued {
        assert t'.kinds[y] == t.kinds[y];
      }
    }
  }

  lemma OpenClose(t: Tally, x: Ref, cb: Ref, y: Ref)
    requires InRange(t) && t.HasHandle(x) && !AfterUser(t, CloseHandle(x, cb)).crash
    ensures Open(AfterUser(t, CloseHandle(x, cb)), y) <==> Open(t, y) && y != x
    ensures InRange(AfterUser(t, CloseHandle(x, cb)))
  {
    hide AfterUser;
    ControlIs(t, CloseHandle(x, cb));
  }

  lemma OpenUser(t: Tally, u: UserCommand, x: Ref)
    requires InRange(t) && UserAllowed(t, u) && !AfterUser(t, u).crash
    ensures Open(AfterUser(t, u), x) <==>
            if x < |t.kinds| then Open(t, x) && !CloseOf(User(u), x) else AfterUser(t, u).HasHandle(x)
    ensures InRange(AfterUser(t, u))
  {
    if u.CloseHandle? {
      OpenClose(t, u.x, u.cb, x);
      UserKinds(t, u);
      assert AfterUser(t, u).kinds == t.kinds;
    } else {
      hide AfterUser, UserAllowed, LoopKept, InRange;
      KeptUser(t, u);
      OpenKept(t, AfterUser(t, u), x);
    }
  }

  lemma OpenEvent(t: Tally, e: LoopEvent, x: Ref)
    requires InRange(t) && EventAllowed(t, e) && !AfterEvent(t, e).crash
    ensures Open(AfterEvent(t, e), x) <==> Open(t, x)
    ensures InRange(AfterEvent(t, e))
  {
  }

  // ---- Which handles are active -----------------------------------------------------------

  /** What is known about the last command of a possible run. */
  lemma LastStep(cmds: seq<Command>)
    requires cmds != [] && Permitted(cmds)
    ensures var n := |cmds| - 1;
            && Permitted(cmds[..n]) && Allowed(Tallied(cmds[..n]), cmds[n]) && !Tallied(cmds[..n]).crash
            && Tallied(cmds) == After(Tallied(cmds[..n]), cmds[n])
  {
    hide Permitted, Allowed, After;
    PermittedBefore(cmds, |cmds| - 1);
  }

  lemma OpenStep(t: Tally, cmd: Command, x: Ref)
    requires InRange(t) && Allowed(t, cmd) && !After(t, cmd).crash
    ensures Open(After(t, cmd), x) <==>
            if x < |t.kinds| then Open(t, x) && !CloseOf(cmd, x) else After(t, cmd).HasHandle(x)
    ensures InRange(After(t, cmd))
    ensures CloseOf(cmd, x) || StartOf(cmd, x) ==> t.HasHandle(x)
  {
    hide InRange, Open, AfterUser, AfterEvent, EventAllowed;
    match cmd
    case User(u) => OpenUser(t, u, x);
    case Event(e) =>
      EventKinds(t, e);
      OpenEvent(t, e, x);
      OpenIsHandle(t, AfterEvent(t, e), x);
  }

  lemma OpenIsHandle(t: Tally, t': Tally, x: Ref)
    requires InRange(t) && t'.kinds == t.kinds && (Open(t', x) <==> Open(t, x))
    ensures x >= |t.kinds| ==> !Open(t', x) && !t'.HasHandle(x)
  {
  }

  lemma NothingOpen(x: Ref)
    ensures InRange(NOTHING_DONE) && !Open(NOTHING_DONE, x) && !ClosedIn([], x) && x !in NOTHING_DONE.ctl.active
  {
  }

  /** A handle is open from its making to its `close`. */
  lemma {:induction false} OpenLaw(cmds: seq<Command>, x: Ref)
    requires Permitted(cmds) && !Tallied(cmds).crash
    ensures Open(Tallied(cmds), x) <==> Tallied(cmds).HasHandle(x) && !ClosedIn(cmds, x)
    ensures InRange(Tallied(cmds)) && (ClosedIn(cmds, x) ==> Tallied(cmds).HasHandle(x))
  {
    hide Permitted, Allowed, After, ClosedIn, InRange, Open;
    if cmds == [] {
      NothingOpen(x);
    } else {
      var n := |cmds| - 1;
      var t := Tallied(cmds[..n]);
      LastStep(cmds);
      OpenLaw(cmds[..n], x);
      OpenStep(t, cmds[n], x);
      ClosedLast(cmds, x);
      KindsGrow(t, cmds[n]);
    }
  }

  lemma ActiveStep(t: Tally, cmd: Command, x: Ref)
    requires !After(t, cmd).crash
    ensures x in After(t, cmd).ctl.active <==>
            (StartOf(cmd, x) && x in t.ctl.inLoop && x !in t.ctl.closing) || (x in t.ctl.active && !EndOf(cmd, x))
  {
    hide AfterUser, AfterEvent;
    match cmd
    case User(u) => ActiveUser(t, u, x);
    case Event(e) => ActiveEvent(t, e, x);
  }

  /** A handle is active exactly when it was started, was not stopped since, did not fire for the last time
      since, and was not closed at all. */
  lemma {:induction false} ActiveLaw(cmds: seq<Command>, x: Ref)
    requires Permitted(cmds) && !Tallied(cmds).crash
    ensures x in Tallied(cmds).ctl.active <==> Since(cmds, x).Some? && !ClosedIn(cmds, x)
  {
    hide Permitted, Allowed, After, ClosedIn, InRange;
    if cmds == [] {
      NothingOpen(x);
    } else {
      var n := |cmds| - 1;
      var t := Tallied(cmds[..n]);
      LastStep(cmds);
      ActiveLaw(cmds[..n], x);
      OpenLaw(cmds[..n], x);
      OpenStep(t, cmds[n], x);
      ActiveStep(t, cmds[n], x);
      ClosedLast(cmds, x);
    }
  }

  // ---- What a callback is called with -----------------------------------------------------

  predicate InAllocOf(c: Control, x: Ref) {
    c.frame.Some? && c.frame.value.AllocFrame? && c.frame.value.stream == x
  }

  /** What the handle has after a start: a timer its closure, a stream its new read data, unless the stream is
      in its allocation callback, which will put the read data of the time before back. */
  function StartValue(t: Tally, cmd: Command, x: Ref): Ref {
    if InAllocOf(t.ctl, x) then t.ctl.frame.value.data
    else if cmd.User? && cmd.user.StartTimer? then cmd.user.cb
    else |t.kinds|
  }

  /** The handle has `v`, or its allocation callback will put it back. */
  predicate HoldsValue(t: Tally, x: Ref, v: Ref) {
    if InAllocOf(t.ctl, x) then t.ctl.frame.value.data == v else x in t.ctl.started && t.ctl.started[x] == v
  }

  lemma StartHolds(t: Tally, u: UserCommand, x: Ref)
    requires StartOf(User(u), x) && x in t.ctl.inLoop && x !in t.ctl.closing
    ensures HoldsValue(AfterUser(t, u), x, StartValue(t, User(u), x))
  {
    hide AfterUser;
    ControlIs(t, u);
  }

  lemma UserHolds(t: Tally, u: UserCommand, x: Ref, v: Ref)
    requires HoldsValue(t, x, v) && !StartOf(User(u), x)
    ensures HoldsValue(AfterUser(t, u), x, v)
  {
    hide AfterUser;
    ControlIs(t, u);
  }

  lemma EventHolds(t: Tally, e: LoopEvent, x: Ref, v: Ref)
    requires HoldsValue(t, x, v) && EventAllowed(t, e)
    ensures HoldsValue(AfterEvent(t, e), x, v)
  {
  }

  lemma HoldsStep(t: Tally, cmd: Command, x: Ref, v: Ref)
    requires HoldsValue(t, x, v) && !StartOf(cmd, x) && Allowed(t, cmd)
    ensures HoldsValue(After(t, cmd), x, v)
  {
    hide AfterUser, AfterEvent, HoldsValue, UserAllowed, EventAllowed;
    match cmd
    case User(u) => UserHolds(t, u, x, v);
    case Event(e) => EventHolds(t, e, x, v);
  }

  /** An active handle has what its last start gave it. */
  lemma {:induction false} GivenLaw(cmds: seq<Command>, x: Ref, j: nat)
    requires Permitted(cmds) && !Tallied(cmds).crash && x in Tallied(cmds).ctl.active && Since(cmds, x) == Some(j)
    ensures j < |cmds| && HoldsValue(Tallied(cmds), x, StartValue(Tallied(cmds[..j]), cmds[j], x))
  {
    hide Permitted, Allowed, AfterUser, ClosedIn, InRange, HoldsValue, Tallied, StartValue;
    var n := |cmds| - 1;
    var t := Tallied(cmds[..n]);
    LastStep(cmds);
    ActiveLaw(cmds, x);
    ClosedLast(cmds, x);
    OpenLaw(cmds[..n], x);
    if StartOf(cmds[n], x) {
      OpenStep(t, cmds[n], x);
      StartHolds(t, cmds[n].user, x);
    } else {
      ActiveLaw(cmds[..n], x);
      SinceIs(cmds[..n], x, j);
      assert cmds[..n][..j] == cmds[..j];
      GivenLaw(cmds[..n], x, j);
      HoldsStep(t, cmds[n], x, StartValue(Tallied(cmds[..j]), cmds[j], x));
    }
  }

  /** The closures of a start of reading stay in the read data made for it. */
  lemma {:induction false} DataLaw(cmds: seq<Command>, j: nat, x: Ref, allocCb: Ref, readCb: Ref)
    requires j < |cmds| && cmds[j] == User(StartReading(x, allocCb, readCb))
    ensures var t, d := Tallied(cmds), |Tallied(cmds[..j]).kinds|;
            d < |t.kinds| && d in t.data && t.data[d].allocCb == allocCb && t.data[d].readCb == readCb
  {
    hide AfterUser, AfterEvent;
    var n := |cmds| - 1;
    var t, d := Tallied(cmds[..n]), |Tallied(cmds[..j]).kinds|;
    if j == n {
      DataMade(t, x, allocCb, readCb);
    } else {
      assert cmds[..n][..j] == cmds[..j];
      DataLaw(cmds[..n], j, x, allocCb, readCb);
      KindsGrow(t, cmds[n]);
      DataStep(t, cmds[n], d);
    }
  }

  lemma DataMade(t: Tally, x: Ref, allocCb: Ref, readCb: Ref)
    ensures var t' := AfterUser(t, StartReading(x, allocCb, readCb));
            && |t.kinds| < |t'.kinds| && |t.kinds| in t'.data
            && t'.data[|t.kinds|].allocCb == allocCb && t'.data[|t.kinds|].readCb == readCb
  {
    hide Exchanged;
  }

  predicate SameClosures(t: Tally, t': Tally, d: Ref) {
    d in t'.data && d in t.data && t'.data[d].allocCb == t.data[d].allocCb && t'.data[d].readCb == t.data[d].readCb
  }

  lemma DataUser(t: Tally, u: UserCommand, d: Ref)
    requires d < |t.kinds| && d in t.data
    ensures SameClosures(t, AfterUser(t, u), d)
  {
    hide Exchanged, Started, Stopped, CloseAsked, Submitted;
  }

  lemma DataEvent(t: Tally, e: LoopEvent, d: Ref)
    requires d in t.data
    ensures SameClosures(t, AfterEvent(t, e), d)
  {
    hide InUser, InAlloc, GaveBuffer, Fired, Completed, Running;
  }

  lemma DataStep(t: Tally, cmd: Command, d: Ref)
    requires d < |t.kinds| && d in t.data
    ensures SameClosures(t, After(t, cmd), d)
  {
    hide AfterUser, AfterEvent, SameClosures;
    match cmd
    case User(u) => DataUser(t, u, d);
    case Event(e) => DataEvent(t, e, d);
  }

  lemma {:induction false} KindsKept(cmds: seq<Command>, j: nat)
    requires j <= |cmds|
    ensures Tallied(cmds[..j]).kinds <= Tallied(cmds).kinds
    decreases |cmds|
  {
    hide After;
    if j < |cmds| {
      var n := |cmds| - 1;
      assert cmds[..n][..j] == cmds[..j];
      KindsKept(cmds[..n], j);
      KindsGrow(Tallied(cmds[..n]), cmds[n]);
    } else {
      assert cmds[..j] == cmds;
    }
  }

  lemma AllocEvent(t: Tally, e: LoopEvent, x: Ref)
    requires EventAllowed(t, e) && InAllocOf(AfterEvent(t, e).ctl, x)
    ensures InAllocOf(t.ctl, x) || e == WantBuffer(x)
    ensures AfterEvent(t, e).ctl.frame.value.data == if InAllocOf(t.ctl, x) then t.ctl.frame.value.data else t.Given(x)
  {
    hide Fired, Closed, Completed;
  }

  /** An allocation callback begins with the stream being asked, and its read data stays the same until it ends. */
  lemma AllocStep(t: Tally, cmd: Command, x: Ref)
    requires Allowed(t, cmd) && InAllocOf(After(t, cmd).ctl, x)
    ensures InAllocOf(t.ctl, x) || cmd == Event(WantBuffer(x))
    ensures After(t, cmd).ctl.frame.value.data == if InAllocOf(t.ctl, x) then t.ctl.frame.value.data else t.Given(x)
    ensures t.kinds <= After(t, cmd).kinds
  {
    KindsGrow(t, cmd);
    hide AfterUser, AfterEvent, UserAllowed, EventAllowed;
    match cmd
    case User(u) => UserKeepsFrame(t, u);
    case Event(e) => AllocEvent(t, e, x);
  }

  /** Only streams have allocation callbacks. */
  lemma {:induction false} AllocLaw(cmds: seq<Command>, x: Ref)
    requires Permitted(cmds) && InAllocOf(Tallied(cmds).ctl, x)
    ensures Tallied(cmds).Has(x, Stream)
  {
    hide Permitted, After, UserAllowed;
    if cmds != [] {
      var n := |cmds| - 1;
      LastStep(cmds);
      AllocStep(Tallied(cmds[..n]), cmds[n], x);
      if InAllocOf(Tallied(cmds[..n]).ctl, x) {
        AllocLaw(cmds[..n], x);
      }
    }
  }

  /** The start that made the read data an allocation callback holds. */
  lemma {:induction false} AllocSource(cmds: seq<Command>, x: Ref) returns (j: nat)
    requires Permitted(cmds) && InAllocOf(Tallied(cmds).ctl, x)
    ensures j < |cmds| && cmds[j].User? && cmds[j].user.StartReading? && cmds[j].user.x == x
    ensures Tallied(cmds).ctl.frame.value.data == |Tallied(cmds[..j]).kinds|
    decreases |cmds|
  {
    hide Permitted, After, Allowed;
    var n := |cmds| - 1;
    LastStep(cmds);
    AllocStep(Tallied(cmds[..n]), cmds[n], x);
    if InAllocOf(Tallied(cmds[..n]).ctl, x) {
      j := AllocSource(cmds[..n], x);
    } else {
      WantedActive(Tallied(cmds[..n]), x);
      var last;
      last, j := HeldSource(cmds[..n], x);
    }
    assert cmds[..n][..j] == cmds[..j];
  }

  lemma WantedActive(t: Tally, x: Ref)
    requires Allowed(t, Event(WantBuffer(x)))
    ensures x in t.ctl.active && t.Has(x, Stream) && t.ctl.frame.None?
  {
  }

  /** The start that made the read data of an active stream outside its allocation callback: the last start, or
      the one whose allocation callback made that start. */
  lemma {:induction false} HeldSource(cmds: seq<Command>, x: Ref) returns (last: nat, j: nat)
    requires Permitted(cmds) && !Tallied(cmds).crash && x in Tallied(cmds).ctl.active
    requires Tallied(cmds).Has(x, Stream) && !InAllocOf(Tallied(cmds).ctl, x)
    ensures Since(cmds, x) == Some(last) && last < |cmds| && StartOf(cmds[last], x)
    ensures j <= last && (j == last <==> !InAllocOf(Tallied(cmds[..last]).ctl, x))
    ensures cmds[j].User? && cmds[j].user.StartReading? && cmds[j].user.x == x
    ensures Tallied(cmds).Given(x) == |Tallied(cmds[..j]).kinds|
    decreases |cmds|
  {
    hide Permitted, After, ClosedIn, UserAllowed;
    ActiveLaw(cmds, x);
    last := Since(cmds, x).value;
    SinceIs(cmds, x, last);
    GivenLaw(cmds, x, last);
    PermittedBefore(cmds, last);
    StartsReading(cmds, x, last);
    j := last;
    if InAllocOf(Tallied(cmds[..last]).ctl, x) {
      j := AllocSource(cmds[..last], x);
      assert cmds[..last][..j] == cmds[..j];
    }
  }

  lemma StartsReading(cmds: seq<Command>, x: Ref, j: nat)
    requires j < |cmds| && StartOf(cmds[j], x) && Allowed(Tallied(cmds[..j]), cmds[j]) && Tallied(cmds).Has(x, Stream)
    ensures cmds[j].user.StartReading?
  {
    hide Tallied, Allowed;
    KindsKept(cmds, j);
    StartKind(Tallied(cmds[..j]), cmds[j], x);
  }

  lemma StartKind(t: Tally, cmd: Command, x: Ref)
    requires StartOf(cmd, x) && Allowed(t, cmd)
    ensures t.Has(x, if cmd.user.StartTimer? then Timer else Stream)
  {
  }

  /** No start, stop, `close` or last firing of `x` between two commands of a run. */
  ghost predicate LeftAlone(cmds: seq<Command>, x: Ref, j: nat, k: nat) {
    forall i :: j < i < k && i < |cmds| ==> !StartOf(cmds[i], x) && !EndOf(cmds[i], x)
  }

  /** The start that makes a handle active. */
  lemma ActiveStart(cmds: seq<Command>, k: nat, x: Ref) returns (j: nat)
    requires Permitted(cmds) && k < |cmds| && x in Tallied(cmds[..k]).ctl.active
    ensures j < k && StartOf(cmds[j], x) && LeftAlone(cmds, x, j, k) && !ClosedIn(cmds[..k], x)
    ensures Allowed(Tallied(cmds[..j]), cmds[j]) && Tallied(cmds[..j]).kinds <= Tallied(cmds[..k]).kinds
    ensures Permitted(cmds[..k]) && !Tallied(cmds[..k]).crash && Since(cmds[..k], x) == Some(j)
  {
    hide Permitted, Tallied, Allowed, ClosedIn;
    PermittedBefore(cmds, k);
    ActiveLaw(cmds[..k], x);
    j := Since(cmds[..k], x).value;
    SinceIs(cmds[..k], x, j);
    forall i | j < i < k ensures !StartOf(cmds[i], x) && !EndOf(cmds[i], x) {
      assert cmds[..k][i] == cmds[i];
    }
    PermittedBefore(cmds, j);
    assert cmds[..k][..j] == cmds[..j];
    KindsKept(cmds[..k], j);
  }

  /** A timer fires only while its last start is in force, and calls the closure of that start. */
  lemma TimerFired(cmds: seq<Command>, k: nat, x: Ref, again: bool) returns (j: nat, cb: Ref)
    requires Permitted(cmds) && k < |cmds| && cmds[k] == Event(FireTimer(x, again))
    ensures j < k && cmds[j] == User(StartTimer(x, cb)) && LeftAlone(cmds, x, j, k) && !ClosedIn(cmds[..k], x)
    ensures Tallied(cmds[..k + 1]).ctl.frame == Some(UserFrame([cb, x]))
  {
    hide Permitted, Tallied, ClosedIn, LeftAlone;
    PermittedBefore(cmds, k);
    TalliedNext(cmds, k);
    j := ActiveStart(cmds, k, x);
    assert cmds[j].user.StartTimer?;
    cb := cmds[j].user.cb;
    assert cmds[..k][..j] == cmds[..j] && cmds[..k][j] == cmds[j];
    if InAllocOf(Tallied(cmds[..j]).ctl, x) {
      PermittedBefore(cmds, j);
      AllocLaw(cmds[..j], x);
    }
    GivenLaw(cmds[..k], x, j);
  }

  /** A stream is asked for a buffer or read from only while its last start is in force. The closures called are
      those of that start, unless it was made in the stream's own allocation callback: then they are those of the
      earlier start whose callback that was. */
  lemma ReadServed(cmds: seq<Command>, k: nat, x: Ref)
    returns (last: nat, j: nat, allocCb: Ref, readCb: Ref)
    requires Permitted(cmds) && k < |cmds| && cmds[k] in {Event(WantBuffer(x)), Event(DeliverRead(x))}
    ensures last < k && StartOf(cmds[last], x) && LeftAlone(cmds, x, last, k) && !ClosedIn(cmds[..k], x)
    ensures j <= last && (j == last <==> !InAllocOf(Tallied(cmds[..last]).ctl, x))
    ensures cmds[j] == User(StartReading(x, allocCb, readCb))
    ensures var d := |Tallied(cmds[..j]).kinds|;
            var frame := Tallied(cmds[..k + 1]).ctl.frame;
            if cmds[k].event.WantBuffer? then frame == Some(AllocFrame(x, d, [allocCb, x]))
            else frame == Some(UserFrame([readCb, x] + Present(Tallied(cmds[..k]).DataOf(d).waiting)))
  {
    hide Permitted, Tallied, ClosedIn, LeftAlone;
    PermittedBefore(cmds, k);
    TalliedNext(cmds, k);
    last := ActiveStart(cmds, k, x);
    var again;
    again, j := HeldSource(cmds[..k], x);
    allocCb, readCb := cmds[j].user.allocCb, cmds[j].user.readCb;
    assert cmds[..k][..j] == cmds[..j] && cmds[..k][..last] == cmds[..last];
    DataLaw(cmds[..k], j, x, allocCb, readCb);
  }

  // ---- Which buffer a read callback gets --------------------------------------------------

  /** The allocation callback that holds read data `d` returns `b`. */
  predicate Fills(t: Tally, cmd: Command, d: Ref, b: Ref) {
    && cmd == Event(ReturnBuffer(b))
    && t.ctl.frame.Some? && t.ctl.frame.value.AllocFrame? && t.ctl.frame.value.data == d
  }

  /** A read callback takes the buffer out of `d`, or `d` is only made. */
  predicate Empties(t: Tally, cmd: Command, d: Ref) {
    || (cmd.Event? && cmd.event.DeliverRead? && t.Given(cmd.event.x) == d)
    || (cmd.User? && cmd.user.StartReading? && |t.kinds| == d)
  }

  /** Nobody puts a buffer into `d` or takes one out. */
  ghost predicate LeavesBuffer(t: Tally, cmd: Command, d: Ref) {
    !Empties(t, cmd, d) && forall b: Ref :: !Fills(t, cmd, d, b)
  }

  lemma WaitingStep(t: Tally, cmd: Command, d: Ref)
    ensures Empties(t, cmd, d) ==> After(t, cmd).DataOf(d).waiting.None?
    ensures forall b: Ref :: Fills(t, cmd, d, b) ==> After(t, cmd).DataOf(d).waiting == Some(b)
    ensures LeavesBuffer(t, cmd, d) ==> After(t, cmd).DataOf(d).waiting == t.DataOf(d).waiting
  {
    hide AfterUser, Exchanged, GivenUp, Got, NewKinds, ControlAfter;
    if cmd.User? {
      AfterUserIs(t, cmd.user);
    } else if cmd.event.ReturnBuffer? {
      assert t.ctl.frame.Some? && t.ctl.frame.value.AllocFrame? && t.ctl.frame.value.data == d ==>
             Fills(t, cmd, d, cmd.event.b);
    }
  }

  /** The buffer waiting in read data is the last one its allocation callback returned, and no read callback took
      it since. */
  lemma {:induction false} WaitingLaw(cmds: seq<Command>, d: Ref) returns (i: nat)
    requires Tallied(cmds).DataOf(d).waiting.Some?
    ensures i < |cmds| && Fills(Tallied(cmds[..i]), cmds[i], d, Tallied(cmds).DataOf(d).waiting.value)
    ensures forall m :: i < m < |cmds| ==> LeavesBuffer(Tallied(cmds[..m]), cmds[m], d)
  {
    hide After, Empties, Fills;
    assert cmds != [];
    var n := |cmds| - 1;
    WaitingStep(Tallied(cmds[..n]), cmds[n], d);
    if b: Ref :| Fills(Tallied(cmds[..n]), cmds[n], d, b) {
      i := n;
    } else {
      i := WaitingLaw(cmds[..n], d);
      assert forall m :: 0 <= m < n ==> cmds[..n][..m] == cmds[..m] && cmds[..n][m] == cmds[m];
    }
  }

  /** Read data is made by one command. */
  lemma OneMaker(cmds: seq<Command>, i: nat, j: nat)
    requires i < |cmds| && j < |cmds| && |Tallied(cmds[..i]).kinds| == |Tallied(cmds[..j]).kinds|
    requires cmds[i].User? && cmds[i].user.StartReading? && cmds[j].User? && cmds[j].user.StartReading?
    ensures i == j
  {
    if i < j {
      MakesOne(cmds, i, j);
    } else if j < i {
      MakesOne(cmds, j, i);
    }
  }

  lemma MakesOne(cmds: seq<Command>, i: nat, j: nat)
    requires i < j < |cmds| && cmds[i].User? && cmds[i].user.StartReading?
    ensures |Tallied(cmds[..i]).kinds| < |Tallied(cmds[..j]).kinds|
  {
    hide Tallied, AfterUser;
    TalliedNext(cmds, i);
    ControlIs(Tallied(cmds[..i]), cmds[i].user);
    assert cmds[..j][..i + 1] == cmds[..i + 1];
    KindsKept(cmds[..j], i + 1);
  }

  /** The allocation callback of `x` returned `b` at `i` for the read data that `x` has before command `k`, and since
      then none was returned for that read data, nor taken from it. */
  ghost predicate LastGiven(cmds: seq<Command>, i: nat, k: nat, x: Ref, b: Ref) {
    i < k <= |cmds| && InAllocOf(Tallied(cmds[..i]).ctl, x) && Untaken(cmds, i, k, Tallied(cmds[..k]).Given(x), b)
  }

  ghost predicate Untaken(cmds: seq<Command>, i: nat, k: nat, d: Ref, b: Ref)
    requires i < k <= |cmds|
  {
    && Fills(Tallied(cmds[..i]), cmds[i], d, b)
    && forall m :: i < m < k ==> LeavesBuffer(Tallied(cmds[..m]), cmds[m], d)
  }

  lemma WaitingGiven(cmds: seq<Command>, k: nat, x: Ref) returns (i: nat)
    requires Permitted(cmds) && k < |cmds| && cmds[k] == Event(DeliverRead(x))
    requires Tallied(cmds[..k]).DataOf(Tallied(cmds[..k]).Given(x)).waiting.Some?
    ensures LastGiven(cmds, i, k, x, Tallied(cmds[..k]).DataOf(Tallied(cmds[..k]).Given(x)).waiting.value)
  {
    hide Permitted, Tallied, Empties;
    var d := Tallied(cmds[..k]).Given(x);
    i := WaitingLaw(cmds[..k], d);
    assert forall m :: 0 <= m < k ==> cmds[..k][..m] == cmds[..m] && cmds[..k][m] == cmds[m];
    PermittedBefore(cmds, k);
    PermittedBefore(cmds, i);
    var y := Tallied(cmds[..i]).ctl.frame.value.stream;
    var made := AllocSource(cmds[..i], y);
    var last, j := HeldSource(cmds[..k], x);
    assert cmds[..i][..made] == cmds[..made] && cmds[..k][..j] == cmds[..j];
    OneMaker(cmds, made, j);
  }

  lemma UntakenLast(cmds: seq<Command>, i: nat, k: nat, d: Ref, b: Ref)
    requires i < k <= |cmds| && Untaken(cmds, i, k, d, b)
    ensures i == k - 1 ==> Fills(Tallied(cmds[..k - 1]), cmds[k - 1], d, b)
    ensures i < k - 1 ==> Untaken(cmds, i, k - 1, d, b) && LeavesBuffer(Tallied(cmds[..k - 1]), cmds[k - 1], d)
  {
    hide Tallied, Fills, Empties;
  }

  lemma {:induction false} UntakenWaits(cmds: seq<Command>, i: nat, k: nat, d: Ref, b: Ref)
    requires i < k <= |cmds| && Untaken(cmds, i, k, d, b)
    ensures Tallied(cmds[..k]).DataOf(d).waiting == Some(b)
    decreases k
  {
    hide Tallied, Fills, Empties, Untaken, After;
    UntakenLast(cmds, i, k, d, b);
    TalliedNext(cmds, k - 1);
    WaitingStep(Tallied(cmds[..k - 1]), cmds[k - 1], d);
    if i < k - 1 {
      UntakenWaits(cmds, i, k - 1, d, b);
    }
  }

  /** A read callback gets exactly the buffer that its stream's allocation callback returned last for the read data
      and that no read callback got before, and no buffer if there is none. */
  lemma ReadPasses(cmds: seq<Command>, k: nat, x: Ref) returns (i: nat)
    requires Permitted(cmds) && k < |cmds| && cmds[k] == Event(DeliverRead(x))
    ensures var frame := Tallied(cmds[..k + 1]).ctl.frame;
            && frame.Some? && frame.value.UserFrame? && 2 <= |frame.value.args| <= 3
            && (|frame.value.args| == 3 ==> LastGiven(cmds, i, k, x, frame.value.args[2]))
            && (forall i': nat, b: Ref :: LastGiven(cmds, i', k, x, b) ==> frame.value.args[2..] == [b])
  {
    hide Permitted, Tallied, LastGiven, Allowed;
    TalliedNext(cmds, k);
    var waiting := Tallied(cmds[..k]).DataOf(Tallied(cmds[..k]).Given(x)).waiting;
    i := 0;
    if waiting.Some? {
      i := WaitingGiven(cmds, k, x);
    }
    forall i': nat, b: Ref | LastGiven(cmds, i', k, x, b) ensures waiting == Some(b) {
      GivenWaits(cmds, i', k, x, b);
    }
  }

  lemma GivenWaits(cmds: seq<Command>, i: nat, k: nat, x: Ref, b: Ref)
    requires LastGiven(cmds, i, k, x, b)
    ensures Tallied(cmds[..k]).DataOf(Tallied(cmds[..k]).Given(x)).waiting == Some(b)
  {
    hide Tallied, Untaken;
    UntakenWaits(cmds, i, k, Tallied(cmds[..k]).Given(x), b);
  }

  // ---- One callback at a time -------------------------------------------------------------

  /** Each event of the loop but a return, or a step of a pool thread, puts its callback in progress, with the
      object it is about among the arguments unless it is a close; then only a return can follow. */
  lemma CallbackBegins(t: Tally, e: LoopEvent)
    requires EventAllowed(t, e) && !AfterEvent(t, e).crash
    ensures var before, after := t.ctl.frame, AfterEvent(t, e).ctl.frame;
            match e
            case RunWork(_) => after == before
            case EndWork(_) => after == before
            case ReturnBuffer(_) => before.Some? && after.None?
            case ReturnNothing => before.Some? && after.None?
            case WantBuffer(x) => before.None? && InAllocOf(AfterEvent(t, e).ctl, x)
            case _ => before.None? && after.Some? && after.value.UserFrame?
  {
  }

  // ---- Requests ---------------------------------------------------------------------------

  predicate FinishOf(cmd: Command, x: Ref) {
    cmd.Event? && (cmd.event.FinishWrite? || cmd.event.FinishWork? || cmd.event.FinishTransfer?) && cmd.event.x == x
  }

  /** Command `j` submits request `x`: the last object it makes. */
  predicate SubmitsAs(cmds: seq<Command>, j: nat, x: Ref)
    requires j < |cmds|
  {
    cmds[j].User? && Submits(cmds[j].user) && |Tallied(cmds[..j + 1]).kinds| == x + 1
  }

  /** Request `x` is over, or its work has begun when that is asked. */
  predicate Answers(cmd: Command, x: Ref, work: bool) {
    FinishOf(cmd, x) || (work && cmd == Event(RunWork(x)))
  }

  /** The last command that submitted request `x`, as work if `work`, if nothing answered it since. */
  function Submission(cmds: seq<Command>, x: Ref, work: bool): Option<nat> {
    if cmds == [] then None
    else
      var n := |cmds| - 1;
      if SubmitsAs(cmds, n, x) then if work && !cmds[n].user.Queue? then None else Some(n)
      else if Answers(cmds[n], x, work) then None
      else Submission(cmds[..n], x, work)
  }

  lemma {:induction false} SubmissionIs(cmds: seq<Command>, x: Ref, work: bool, j: nat)
    requires Submission(cmds, x, work) == Some(j)
    ensures j < |cmds| && SubmitsAs(cmds, j, x) && (work ==> cmds[j].user.Queue?)
    ensures forall i :: j < i < |cmds| ==> !Answers(cmds[i], x, work)
  {
    hide Tallied;
    var n := |cmds| - 1;
    if !SubmitsAs(cmds, n, x) {
      SubmissionIs(cmds[..n], x, work, j);
      assert cmds[..n][..j + 1] == cmds[..j + 1];
      assert forall i :: j < i < n ==> cmds[..n][i] == cmds[i];
    }
  }

  function Finishing(u: UserCommand): Ref
    requires Submits(u)
  {
    match u
    case WriteTo(_, _, cb) => cb
    case Queue(_, _, afterCb) => afterCb
    case Transfer(_, _, cb) => cb
  }

  function Carried(u: UserCommand): Ref
    requires Submits(u)
  {
    match u
    case WriteTo(_, bufs, _) => bufs
    case Queue(_, workCb, _) => workCb
    case Transfer(_, bufs, _) => bufs
  }

  function RequestKind(u: UserCommand): Kind
    requires Submits(u)
  {
    if u.WriteTo? then Write else if u.Queue? then Work else Fs
  }

  lemma SubmitStep(t: Tally, u: UserCommand)
    requires Submits(u)
    ensures var t', x := AfterUser(t, u), |AfterUser(t, u).kinds| - 1;
            && |t.kinds| <= x && t'.Has(x, RequestKind(u))
            && t'.ctl == Submitted(t.ctl, x, Finishing(u), Carried(u), u.Queue?)
  {
    hide AfterUser, Submitted;
    ControlIs(t, u);
  }

  lemma ControlKeeps(c: Control, n: nat, u: UserCommand, x: Ref)
    requires x < n && (u.CloseHandle? ==> u.x != x)
    ensures var c' := ControlAfter(c, n, u);
            && (x in c'.inLoop <==> x in c.inLoop) && (x in c'.queued <==> x in c.queued)
            && (x in c.finish ==> x in c'.finish && c'.finish[x] == c.finish[x])
            && (x in c.payload ==> x in c'.payload && c'.payload[x] == c.payload[x])
  {
  }

  ghost predicate RequestKept(t: Tally, cmd: Command, x: Ref, t': Tally) {
    && (x in t'.ctl.inLoop <==> x in t.ctl.inLoop && !FinishOf(cmd, x))
    && (x in t'.ctl.queued <==> x in t.ctl.queued && !Answers(cmd, x, true))
    && (x in t.ctl.finish ==> x in t'.ctl.finish && t'.ctl.finish[x] == t.ctl.finish[x])
    && (x in t.ctl.payload ==> x in t'.ctl.payload && t'.ctl.payload[x] == t.ctl.payload[x])
  }

  lemma ClosesHandle(t: Tally, u: UserCommand)
    requires UserAllowed(t, u)
    ensures u.CloseHandle? ==> t.HasHandle(u.x)
  {
  }

  lemma UserRequest(t: Tally, u: UserCommand, x: Ref)
    requires UserAllowed(t, u) && x < |t.kinds| && IsRequest(t.kinds[x])
    ensures RequestKept(t, User(u), x, AfterUser(t, u))
  {
    hide AfterUser, UserAllowed, ControlAfter, NewKinds;
    ClosesHandle(t, u);
    ControlIs(t, u);
    ControlKeeps(t.ctl, |t.kinds|, u, x);
  }

  lemma EventRequest(t: Tally, e: LoopEvent, x: Ref)
    requires EventAllowed(t, e) && x < |t.kinds| && IsRequest(t.kinds[x]) && InRange(t)
    ensures RequestKept(t, Event(e), x, AfterEvent(t, e))
  {
  }

  lemma RequestStep(t: Tally, cmd: Command, x: Ref)
    requires Allowed(t, cmd) && x < |t.kinds| && IsRequest(t.kinds[x]) && InRange(t)
    ensures RequestKept(t, cmd, x, After(t, cmd))
  {
    hide AfterUser, AfterEvent, UserAllowed, EventAllowed, InRange, RequestKept;
    match cmd
    case User(u) => UserRequest(t, u, x);
    case Event(e) => EventRequest(t, e, x);
  }

  lemma {:induction false} SubmissionInRange(cmds: seq<Command>, x: Ref, work: bool)
    requires Submission(cmds, x, work).Some?
    ensures x < |Tallied(cmds).kinds|
  {
    hide Tallied;
    var j := Submission(cmds, x, work).value;
    SubmissionIs(cmds, x, work, j);
    KindsKept(cmds, j + 1);
  }

  /** The request is in the loop, or waiting for a pool thread, exactly when a submission of it is not answered. */
  ghost predicate RequestState(cmds: seq<Command>, x: Ref) {
    var t, sent := Tallied(cmds), Submission(cmds, x, false);
    && (x in t.ctl.inLoop <==> sent.Some?)
    && (x in t.ctl.queued <==> Submission(cmds, x, true).Some?)
    && (Submission(cmds, x, true).Some? ==> sent == Submission(cmds, x, true))
    && (sent.Some? ==> sent.value < |cmds| && SubmitsAs(cmds, sent.value, x)
                       && Carries(t, x, cmds[sent.value].user))
  }

  /** What a request was submitted with. */
  predicate Carries(t: Tally, x: Ref, u: UserCommand)
    requires Submits(u)
  {
    && t.Has(x, RequestKind(u))
    && x in t.ctl.finish && t.ctl.finish[x] == Finishing(u) && x in t.ctl.payload && t.ctl.payload[x] == Carried(u)
  }

  lemma OldRequest(cmds: seq<Command>, x: Ref)
    requires cmds != [] && RequestState(cmds[..|cmds| - 1], x)
    requires var t, cmd := Tallied(cmds[..|cmds| - 1]), cmds[|cmds| - 1];
             && x < |t.kinds| && t.kinds <= Tallied(cmds).kinds && RequestKept(t, cmd, x, Tallied(cmds))
             && (cmd.User? && Submits(cmd.user) ==> x + 1 < |Tallied(cmds).kinds|)
    ensures RequestState(cmds, x)
  {
    hide Tallied;
    var n := |cmds| - 1;
    var sent := Submission(cmds[..n], x, false);
    assert cmds[..n + 1] == cmds;
    if sent.Some? {
      assert cmds[..n][..sent.value + 1] == cmds[..sent.value + 1];
    }
  }

  lemma NotSubmitted(t: Tally, u: UserCommand, x: Ref)
    requires !Submits(u) && InRange(t) && (u.MakeHandle? ==> IsHandle(u.kind))
    requires |t.kinds| <= x < |AfterUser(t, u).kinds| && IsRequest(AfterUser(t, u).kinds[x])
    ensures x !in AfterUser(t, u).ctl.inLoop && x !in AfterUser(t, u).ctl.queued
  {
    hide AfterUser;
    ControlIs(t, u);
  }

  lemma NewRequest(cmds: seq<Command>, x: Ref)
    requires cmds != [] && InRange(Tallied(cmds[..|cmds| - 1]))
    requires |Tallied(cmds[..|cmds| - 1]).kinds| <= x < |Tallied(cmds).kinds|
    requires IsRequest(Tallied(cmds).kinds[x])
    requires Tallied(cmds) == After(Tallied(cmds[..|cmds| - 1]), cmds[|cmds| - 1])
    requires var cmd := cmds[|cmds| - 1]; cmd.User? && cmd.user.MakeHandle? ==> IsHandle(cmd.user.kind)
    ensures RequestState(cmds, x)
  {
    hide Tallied, AfterUser, AfterEvent;
    var n := |cmds| - 1;
    assert cmds[..n + 1] == cmds;
    var t, cmd := Tallied(cmds[..n]), cmds[n];
    if Submission(cmds[..n], x, false).Some? {
      SubmissionInRange(cmds[..n], x, false);
    }
    if Submission(cmds[..n], x, true).Some? {
      SubmissionInRange(cmds[..n], x, true);
    }
    if cmd.User? {
      ControlIs(t, cmd.user);
      if Submits(cmd.user) {
        SubmitStep(t, cmd.user);
      } else {
        NotSubmitted(t, cmd.user, x);
      }
    } else {
      EventKinds(t, cmd.event);
    }
  }

  lemma {:induction false} RequestLaw(cmds: seq<Command>, x: Ref)
    requires Permitted(cmds) && !Tallied(cmds).crash
    requires x < |Tallied(cmds).kinds| && IsRequest(Tallied(cmds).kinds[x])
    ensures RequestState(cmds, x)
  {
    hide Permitted, InRange, AfterUser, AfterEvent, RequestState, UserAllowed, EventAllowed, RequestKept;
    assert cmds != [];
    var n := |cmds| - 1;
    var t, cmd := Tallied(cmds[..n]), cmds[n];
    LastStep(cmds);
    KindsGrow(t, cmd);
    OpenLaw(cmds[..n], x);
    if x < |t.kinds| {
      RequestLaw(cmds[..n], x);
      RequestStep(t, cmd, x);
      if cmd.User? && Submits(cmd.user) {
        SubmitStep(t, cmd.user);
      }
      OldRequest(cmds, x);
    } else {
      if cmd.User? && cmd.user.MakeHandle? {
        MakesHandle(t, cmd.user);
      }
      NewRequest(cmds, x);
    }
  }

  lemma MakesHandle(t: Tally, u: UserCommand)
    requires u.MakeHandle? && UserAllowed(t, u)
    ensures IsHandle(u.kind)
  {
  }

  /** Requests are only answered after they were made. */
  lemma AnsweredLater(cmds: seq<Command>, i: nat, j: nat, x: Ref)
    requires Permitted(cmds) && i < |cmds| && j < |cmds| && Answers(cmds[i], x, true) && SubmitsAs(cmds, j, x)
    ensures j < i
  {
    hide Permitted, Tallied, Allowed;
    if i < j {
      PermittedBefore(cmds, i);
      OpenLaw(cmds[..i], x);
      AnswerInRange(Tallied(cmds[..i]), cmds[i], x);
      assert cmds[..j][..i] == cmds[..i];
      KindsKept(cmds[..j], i);
      TalliedNext(cmds, j);
      SubmitGrows(Tallied(cmds[..j]), cmds[j].user);
    }
  }

  lemma AnswerInRange(t: Tally, cmd: Command, x: Ref)
    requires Allowed(t, cmd) && InRange(t) && Answers(cmd, x, true)
    ensures x < |t.kinds| && IsRequest(t.kinds[x])
    ensures cmd == Event(RunWork(x)) ==> x in t.ctl.queued
    ensures FinishOf(cmd, x) ==> x in t.ctl.inLoop && t.kinds[x] == match cmd.event
                                                     case FinishWrite(_) => Write
                                                     case FinishWork(_) => Work
                                                     case _ => Fs
  {
  }

  lemma SubmitGrows(t: Tally, u: UserCommand)
    requires Submits(u)
    ensures |t.kinds| < |AfterUser(t, u).kinds|
  {
    SubmitStep(t, u);
  }

  /** A request is answered once, after the command that submitted it, by calling the closure given with it. */
  lemma RequestAnswered(cmds: seq<Command>, k: nat, x: Ref) returns (j: nat)
    requires Permitted(cmds) && k < |cmds| && FinishOf(cmds[k], x)
    ensures j < k && SubmitsAs(cmds, j, x)
    ensures match cmds[k].event
            case FinishWrite(_) => cmds[j].user.WriteTo?
            case FinishWork(_) => cmds[j].user.Queue?
            case _ => cmds[j].user.Transfer?
    ensures Tallied(cmds[..k + 1]).ctl.frame == Some(UserFrame([Finishing(cmds[j].user), x]))
    ensures forall i :: 0 <= i < k ==> !FinishOf(cmds[i], x)
  {
    hide Permitted, Tallied, Allowed;
    PermittedBefore(cmds, k);
    TalliedNext(cmds, k);
    OpenLaw(cmds[..k], x);
    AnswerInRange(Tallied(cmds[..k]), cmds[k], x);
    RequestLaw(cmds[..k], x);
    j := Submission(cmds[..k], x, false).value;
    SubmissionIs(cmds[..k], x, false, j);
    assert cmds[..k][..j + 1] == cmds[..j + 1];
    NoneBefore(cmds, k, x, j);
  }

  lemma NoneBefore(cmds: seq<Command>, k: nat, x: Ref, j: nat)
    requires Permitted(cmds) && j < k < |cmds| && SubmitsAs(cmds, j, x)
    ensures forall i :: 0 <= i <= j ==> !Answers(cmds[i], x, true)
  {
    hide Permitted, Tallied;
    forall i | 0 <= i <= j ensures !Answers(cmds[i], x, true) {
      if Answers(cmds[i], x, true) {
        AnsweredLater(cmds, i, j, x);
      }
    }
  }

  /** Work runs once, before it is reported, with the closure it was queued with. */
  lemma WorkRan(cmds: seq<Command>, k: nat, x: Ref) returns (j: nat)
    requires Permitted(cmds) && k < |cmds| && cmds[k] == Event(RunWork(x))
    ensures j < k && SubmitsAs(cmds, j, x) && cmds[j].user.Queue?
    ensures Tallied(cmds[..k + 1]).workers == Tallied(cmds[..k]).workers + [Worker(x, cmds[j].user.workCb)]
    ensures forall i :: 0 <= i < k ==> !FinishOf(cmds[i], x) && cmds[i] != Event(RunWork(x))
  {
    hide Permitted, Tallied, Allowed;
    PermittedBefore(cmds, k);
    TalliedNext(cmds, k);
    OpenLaw(cmds[..k], x);
    AnswerInRange(Tallied(cmds[..k]), cmds[k], x);
    RequestLaw(cmds[..k], x);
    j := Submission(cmds[..k], x, true).value;
    SubmissionIs(cmds[..k], x, true, j);
    assert cmds[..k][..j + 1] == cmds[..j + 1];
    NoneBefore(cmds, k, x, j);
    assert forall i :: j < i < k ==> !Answers(cmds[..k][i], x, true);
  }

  // ---- Closing ----------------------------------------------------------------------------

  /** The command starts or stops `x`, or hands a buffer to its allocation callback. */
  predicate TouchOf(t: Tally, cmd: Command, x: Ref) {
    || StartOf(cmd, x)
    || (cmd.User? && cmd.user.StopHandle? && cmd.user.x == x)
    || (cmd.Event? && cmd.event.ReturnBuffer? && InAllocOf(t.ctl, x))
  }

  ghost predicate Touched(cmds: seq<Command>, x: Ref, j: nat) {
    exists i :: j < i < |cmds| && TouchOf(Tallied(cmds[..i]), cmds[i], x)
  }

  /** The last command that closed `x`, if its close callback was not delivered since. */
  function Closing(cmds: seq<Command>, x: Ref): Option<nat> {
    if cmds == [] then None
    else
      var n := |cmds| - 1;
      if CloseOf(cmds[n], x) then Some(n)
      else if cmds[n] == Event(DeliverClose(x)) then None
      else Closing(cmds[..n], x)
  }

  lemma {:induction false} ClosingIs(cmds: seq<Command>, x: Ref, j: nat)
    requires Closing(cmds, x) == Some(j)
    ensures j < |cmds| && CloseOf(cmds[j], x)
    ensures forall i :: j < i < |cmds| ==> !CloseOf(cmds[i], x) && cmds[i] != Event(DeliverClose(x))
  {
    if !CloseOf(cmds[|cmds| - 1], x) {
      ClosingIs(cmds[..|cmds| - 1], x, j);
    }
  }

  ghost predicate CloseKept(t: Tally, cmd: Command, x: Ref, t': Tally) {
    && (x in t'.ctl.closing <==> CloseOf(cmd, x) || (x in t.ctl.closing && cmd != Event(DeliverClose(x))))
    && (CloseOf(cmd, x) ==> Open(t, x) && x in t'.ctl.finish && t'.ctl.finish[x] == cmd.user.cb)
    && (!CloseOf(cmd, x) && x in t.ctl.closing && x in t.ctl.finish ==>
          x in t'.ctl.finish && t'.ctl.finish[x] == t.ctl.finish[x])
    && (x in t.ctl.closing ==> (x in t'.ctl.disturbed <==> x in t.ctl.disturbed || TouchOf(t, cmd, x)))
    && (x in t'.ctl.disturbed ==> x in t.ctl.disturbed || (TouchOf(t, cmd, x) && !Open(t, x)))
  }

  lemma ControlCloses(t: Tally, u: UserCommand, x: Ref, c': Control)
    requires InRange(t) && !Refused(t.ctl, u) && (CloseOf(User(u), x) ==> t.HasHandle(x))
    requires c' == ControlAfter(t.ctl, |t.kinds|, u)
    ensures CloseKept(t, User(u), x, t.(ctl := c'))
  {
  }

  lemma UserCloses(t: Tally, u: UserCommand, x: Ref)
    requires UserAllowed(t, u) && InRange(t) && !AfterUser(t, u).crash
    ensures CloseKept(t, User(u), x, AfterUser(t, u))
  {
    hide AfterUser, UserAllowed, ControlAfter, NewKinds;
    ClosesHandle(t, u);
    ControlIs(t, u);
    ControlCloses(t, u, x, AfterUser(t, u).ctl);
  }

  lemma EventCloses(t: Tally, e: LoopEvent, x: Ref)
    requires EventAllowed(t, e) && InRange(t) && !AfterEvent(t, e).crash
    ensures CloseKept(t, Event(e), x, AfterEvent(t, e))
  {
  }

  lemma CloseStep(t: Tally, cmd: Command, x: Ref)
    requires Allowed(t, cmd) && InRange(t) && !After(t, cmd).crash
    ensures CloseKept(t, cmd, x, After(t, cmd))
  {
    hide AfterUser, AfterEvent, UserAllowed, EventAllowed, CloseKept;
    match cmd
    case User(u) => UserCloses(t, u, x);
    case Event(e) => EventCloses(t, e, x);
  }

  lemma TouchedLast(cmds: seq<Command>, x: Ref, j: nat)
    requires cmds != [] && j < |cmds|
    ensures var n := |cmds| - 1;
            Touched(cmds, x, j) <==> Touched(cmds[..n], x, j) || (j < n && TouchOf(Tallied(cmds[..n]), cmds[n], x))
  {
    hide Tallied, TouchOf;
    var n := |cmds| - 1;
    if i :| j < i < |cmds| && TouchOf(Tallied(cmds[..i]), cmds[i], x) {
      if i < n {
        assert cmds[..n][..i] == cmds[..i] && cmds[..n][i] == cmds[i];
      }
    }
    if i :| j < i < n && TouchOf(Tallied(cmds[..n][..i]), cmds[..n][i], x) {
      assert cmds[..n][..i] == cmds[..i] && cmds[..n][i] == cmds[i];
    }
  }

  /** A handle is closing exactly from its `close` to its close callback, keeps the closure it was closed with, and
      is disturbed exactly when it was touched since. */
  ghost predicate CloseState(cmds: seq<Command>, x: Ref) {
    var t, asked := Tallied(cmds), Closing(cmds, x);
    && (x in t.ctl.closing <==> asked.Some?)
    && (x in t.ctl.disturbed ==> ClosedIn(cmds, x))
    && (asked.Some? ==> asked.value < |cmds| && CloseOf(cmds[asked.value], x)
                        && x in t.ctl.finish && t.ctl.finish[x] == cmds[asked.value].user.cb
                        && (x in t.ctl.disturbed <==> Touched(cmds, x, asked.value)))
  }

  lemma CloseNext(cmds: seq<Command>, x: Ref)
    requires cmds != [] && CloseState(cmds[..|cmds| - 1], x)
    requires CloseKept(Tallied(cmds[..|cmds| - 1]), cmds[|cmds| - 1], x, Tallied(cmds))
    requires Open(Tallied(cmds[..|cmds| - 1]), x) ==> !ClosedIn(cmds[..|cmds| - 1], x)
    requires TouchOf(Tallied(cmds[..|cmds| - 1]), cmds[|cmds| - 1], x) && !Open(Tallied(cmds[..|cmds| - 1]), x) ==>
               ClosedIn(cmds[..|cmds| - 1], x)
    ensures CloseState(cmds, x)
  {
    hide Tallied, TouchOf, Open, Touched, ClosedIn;
    var n := |cmds| - 1;
    ClosedLast(cmds, x);
    TouchedLast(cmds, x, if Closing(cmds, x).Some? && Closing(cmds, x).value <= n then Closing(cmds, x).value else 0);
    if Closing(cmds, x) == Some(n) {
      NotTouched(cmds[..n], x, n);
    }
  }

  lemma NotTouched(cmds: seq<Command>, x: Ref, j: nat)
    requires j >= |cmds|
    ensures !Touched(cmds, x, j)
  {
  }

  lemma TouchedHandle(t: Tally, cmd: Command, x: Ref)
    requires Allowed(t, cmd) && TouchOf(t, cmd, x) && (InAllocOf(t.ctl, x) ==> t.Has(x, Stream))
    ensures t.HasHandle(x)
  {
  }

  lemma {:induction false} CloseLaw(cmds: seq<Command>, x: Ref)
    requires Permitted(cmds) && !Tallied(cmds).crash
    ensures CloseState(cmds, x)
  {
    hide Permitted, InRange, After, CloseState, Allowed, CloseKept, TouchOf, ClosedIn, Open;
    if cmds == [] {
      NoneClosing(x);
    } else {
      var n := |cmds| - 1;
      var t := Tallied(cmds[..n]);
      LastStep(cmds);
      CloseLaw(cmds[..n], x);
      OpenLaw(cmds[..n], x);
      CloseStep(t, cmds[n], x);
      if InAllocOf(t.ctl, x) {
        AllocLaw(cmds[..n], x);
      }
      if TouchOf(t, cmds[n], x) {
        TouchedHandle(t, cmds[n], x);
      }
      CloseNext(cmds, x);
    }
  }

  lemma NoneClosing(x: Ref)
    ensures CloseState([], x)
  {
  }

  /** The close callback comes once, after the one `close`, and calls the closure given to it, unless the handle was
      touched in between: then the process is gone. */
  lemma CloseAnswered(cmds: seq<Command>, k: nat, x: Ref) returns (j: nat, cb: Ref)
    requires Permitted(cmds) && k < |cmds| && cmds[k] == Event(DeliverClose(x))
    ensures j < k && cmds[j] == User(CloseHandle(x, cb))
    ensures forall i :: 0 <= i < k && i != j ==> !CloseOf(cmds[i], x)
    ensures forall i :: 0 <= i < k ==> cmds[i] != Event(DeliverClose(x))
    ensures Tallied(cmds[..k + 1]).crash <==> exists i :: j < i < k && TouchOf(Tallied(cmds[..i]), cmds[i], x)
    ensures !Tallied(cmds[..k + 1]).crash ==> Tallied(cmds[..k + 1]).ctl.frame == Some(UserFrame([cb]))
  {
    hide Permitted, Tallied, Open, InRange, TouchOf;
    PermittedBefore(cmds, k);
    TalliedNext(cmds, k);
    CloseLaw(cmds[..k], x);
    j := Closing(cmds[..k], x).value;
    ClosingIs(cmds[..k], x, j);
    cb := cmds[j].user.cb;
    TouchedBetween(cmds, k, x, j);
    PermittedBefore(cmds, j + 1);
    PermittedBefore(cmds, j);
    OpenLaw(cmds[..j], x);
    TalliedNext(cmds, j);
    CloseStep(Tallied(cmds[..j]), cmds[j], x);
    forall i | 0 <= i < k && i != j ensures !CloseOf(cmds[i], x) {
      assert i < j ==> cmds[..j][i] == cmds[i];
      assert i > j ==> cmds[..k][i] == cmds[i];
    }
    forall i | 0 <= i < k ensures cmds[i] != Event(DeliverClose(x)) {
      if i > j {
        assert cmds[..k][i] == cmds[i];
      } else if cmds[i] == Event(DeliverClose(x)) {
        DeliveredAfter(cmds, i, j, x);
      }
    }
  }

  lemma TouchedBetween(cmds: seq<Command>, k: nat, x: Ref, j: nat)
    requires k <= |cmds|
    ensures Touched(cmds[..k], x, j) <==> exists i :: j < i < k && TouchOf(Tallied(cmds[..i]), cmds[i], x)
  {
    hide Tallied, TouchOf;
    assert forall i :: 0 <= i < k ==> cmds[..k][..i] == cmds[..i] && cmds[..k][i] == cmds[i];
  }

  /** A close callback is not delivered before the handle was closed. */
  lemma DeliveredAfter(cmds: seq<Command>, i: nat, j: nat, x: Ref)
    requires Permitted(cmds) && i < j < |cmds| && cmds[i] == Event(DeliverClose(x))
    ensures ClosedIn(cmds[..j], x)
  {
    hide Permitted, Tallied;
    PermittedBefore(cmds, i);
    CloseLaw(cmds[..i], x);
    var c := Closing(cmds[..i], x).value;
    assert CloseOf(cmds[..j][c], x);
  }
}
