/** The shared block behind `Share`: its counter with lock-guarded and with atomic updates,
    as interleavings of the steps of any number of threads. */
module SharedBlock {
  import opened Wrappers

  /** What a thread may begin while it is in none of these functions, or continue if it is in one. */
  datatype Action = BeginFinalize | BeginCopy | Send(to: nat) | Advance

  // ---- Sums over threads ------------------------------------------------------------------

  function Total<T>(weight: T -> nat, threads: seq<T>): nat {
    if threads == [] then 0 else Total(weight, threads[..|threads| - 1]) + weight(threads[|threads| - 1])
  }

  lemma {:induction false} TotalUpdate<T>(weight: T -> nat, threads: seq<T>, i: nat, x: T)
    requires i < |threads|
    ensures Total(weight, threads[i := x]) + weight(threads[i]) == Total(weight, threads) + weight(x)
    ensures Total(weight, threads) >= weight(threads[i])
  {
    var n := |threads| - 1;
    if i == n {
      assert threads[i := x][..n] == threads[..n];
    } else {
      assert threads[i := x][..n] == threads[..n][i := x];
      TotalUpdate(weight, threads[..n], i, x);
    }
  }

  lemma {:induction false} TotalZero<T>(weight: T -> nat, threads: seq<T>)
    ensures Total(weight, threads) == 0 <==> forall i :: 0 <= i < |threads| ==> weight(threads[i]) == 0
  {
    if threads != [] {
      var n := |threads| - 1;
      TotalZero(weight, threads[..n]);
      assert forall i :: 0 <= i < n ==> threads[..n][i] == threads[i];
    }
  }

  // ---- The atomic form: one indivisible add or subtract -----------------------------------

  /** Where a thread is: before the subtraction or addition, or after it with what it read. */
  datatype AtomicPc = Idle | Subtracting | Branching(read: int) | Destroying | Freeing | Adding | Storing

  datatype AtomicThread = AtomicThread(wrappers: nat, pc: AtomicPc)

  datatype AtomicState = AtomicState(arc: int, destroyed: bool, freedBy: seq<nat>, threads: seq<AtomicThread>)

  function AtomicNext(s: AtomicState, t: nat, a: Action): Option<AtomicState> {
    if t >= |s.threads| then None
    else
      var me := s.threads[t];
      match me.pc
      case Idle => (
        match a
        case BeginFinalize =>
          if me.wrappers == 0 then None
          else Some(s.(threads := s.threads[t := AtomicThread(me.wrappers - 1, Subtracting)]))
        case BeginCopy =>
          if me.wrappers == 0 then None
          else Some(s.(threads := s.threads[t := me.(pc := Adding)]))
        case Send(u) =>
          if me.wrappers == 0 || u >= |s.threads| || u == t then None
          else Some(s.(threads := s.threads[t := me.(wrappers := me.wrappers - 1)]
                                           [u := s.threads[u].(wrappers := s.threads[u].wrappers + 1)]))
        case Advance => None)
      case Subtracting =>
        if a != Advance then None
        else Some(s.(arc := s.arc - 1, threads := s.threads[t := me.(pc := Branching(s.arc))]))
      case Branching(read) =>
        if a != Advance then None
        else Some(s.(threads := s.threads[t := me.(pc := if read > 1 then Idle else Destroying)]))
      case Destroying =>
        if a != Advance then None
        else Some(s.(destroyed := true, threads := s.threads[t := me.(pc := Freeing)]))
      case Freeing =>
        if a != Advance then None
        else Some(s.(freedBy := s.freedBy + [t], threads := s.threads[t := me.(pc := Idle)]))
      case Adding =>
        if a != Advance then None
        else Some(s.(arc := s.arc + 1, threads := s.threads[t := me.(pc := Storing)]))
      case Storing =>
        if a != Advance then None
        else Some(s.(threads := s.threads[t := AtomicThread(me.wrappers + 1, Idle)]))
  }

  /** References a thread stands for: its wrappers, one being finalized, one counted but not stored yet. */
  function Owed(th: AtomicThread): nat {
    th.wrappers + if th.pc.Subtracting? || th.pc.Storing? then 1 else 0
  }

  /** The thread that took the last reference, until it has freed the block. */
  function Last(th: AtomicThread): nat {
    if th.pc == Branching(1) || th.pc.Destroying? || th.pc.Freeing? then 1 else 0
  }

  function FreeingNow(th: AtomicThread): nat {
    if th.pc.Freeing? then 1 else 0
  }

  /** The counter is the number of references; once it is zero, exactly one thread frees, once. */
  ghost predicate AtomicInv(s: AtomicState) {
    && s.arc == Total(Owed, s.threads)
    && Total(Last, s.threads) + |s.freedBy| == (if s.arc == 0 then 1 else 0)
    && (s.destroyed <==> Total(FreeingNow, s.threads) + |s.freedBy| > 0)
    && forall t :: 0 <= t < |s.threads| ==>
         && (s.threads[t].pc.Branching? ==> s.threads[t].pc.read >= 1)
         && (s.threads[t].pc.Adding? ==> s.threads[t].wrappers >= 1)
  }

  lemma AtomicStep(s: AtomicState, t: nat, a: Action)
    requires AtomicInv(s) && AtomicNext(s, t, a).Some?
    ensures AtomicInv(AtomicNext(s, t, a).value)
  {
    hide Total;
    if s.threads[t].pc.Idle? && a.Send? {
      AtomicSend(s, t, a.to);
    } else {
      var s' := AtomicNext(s, t, a).value;
      assert s'.threads == s.threads[t := s'.threads[t]];
      TotalUpdate(Owed, s.threads, t, s'.threads[t]);
      TotalUpdate(Last, s.threads, t, s'.threads[t]);
      TotalUpdate(FreeingNow, s.threads, t, s'.threads[t]);
    }
  }

  lemma AtomicSend(s: AtomicState, t: nat, u: nat)
    requires AtomicInv(s) && AtomicNext(s, t, Send(u)).Some? && s.threads[t].pc.Idle?
    ensures AtomicInv(AtomicNext(s, t, Send(u)).value)
  {
    hide Total;
    var s' := AtomicNext(s, t, Send(u)).value;
    var mid := s.threads[t := s.threads[t].(wrappers := s.threads[t].wrappers - 1)];
    TotalUpdate(Owed, s.threads, t, mid[t]);
    TotalUpdate(Owed, mid, u, s'.threads[u]);
    TotalUpdate(Last, s.threads, t, mid[t]);
    TotalUpdate(Last, mid, u, s'.threads[u]);
    TotalUpdate(FreeingNow, s.threads, t, mid[t]);
    TotalUpdate(FreeingNow, mid, u, s'.threads[u]);
  }

  // ---- The lock-guarded form: lock, read, write, unlock as separate steps ------------------

  datatype LockPc =
    | LIdle
    | FinLock | FinRead | FinWrite(read: int) | FinUnlock(read: int) | FinBranch(read: int)
    | FinDestroy | FinFree
    | CopyLock | CopyRead | CopyWrite(read: int) | CopyUnlock | CopyStore

  datatype LockThread = LockThread(wrappers: nat, pc: LockPc)

  datatype LockState = LockState(arc: int, holder: Option<nat>, destroyed: bool, freedBy: seq<nat>,
                                 threads: seq<LockThread>)

  function LockNext(s: LockState, t: nat, a: Action): Option<LockState> {
    if t >= |s.threads| then None
    else
      var me := s.threads[t];
      if me.pc.LIdle? then
        match a
        case BeginFinalize =>
          if me.wrappers == 0 then None
          else Some(s.(threads := s.threads[t := LockThread(me.wrappers - 1, FinLock)]))
        case BeginCopy =>
          if me.wrappers == 0 then None
          else Some(s.(threads := s.threads[t := me.(pc := CopyLock)]))
        case Send(u) =>
          if me.wrappers == 0 || u >= |s.threads| || u == t then None
          else Some(s.(threads := s.threads[t := me.(wrappers := me.wrappers - 1)]
                                           [u := s.threads[u].(wrappers := s.threads[u].wrappers + 1)]))
        case Advance => None
      else if a != Advance then None
      else Continue(s, t)
  }

  function Continue(s: LockState, t: nat): Option<LockState>
    requires t < |s.threads| && !s.threads[t].pc.LIdle?
  {
    var me := s.threads[t];
    match me.pc
    case FinLock =>
      if s.holder.Some? then None
      else Some(s.(holder := Some(t), threads := s.threads[t := me.(pc := FinRead)]))
    case FinRead => Some(s.(threads := s.threads[t := me.(pc := FinWrite(s.arc))]))
    case FinWrite(read) => Some(s.(arc := read - 1, threads := s.threads[t := me.(pc := FinUnlock(read))]))
    case FinUnlock(read) => Some(s.(holder := None, threads := s.threads[t := me.(pc := FinBranch(read))]))
    case FinBranch(read) => Some(s.(threads := s.threads[t := me.(pc := if read > 1 then LIdle else FinDestroy)]))
    case FinDestroy => Some(s.(destroyed := true, threads := s.threads[t := me.(pc := FinFree)]))
    case FinFree => Some(s.(freedBy := s.freedBy + [t], threads := s.threads[t := me.(pc := LIdle)]))
    case CopyLock =>
      if s.holder.Some? then None
      else Some(s.(holder := Some(t), threads := s.threads[t := me.(pc := CopyRead)]))
    case CopyRead => Some(s.(threads := s.threads[t := me.(pc := CopyWrite(s.arc))]))
    case CopyWrite(read) => Some(s.(arc := read + 1, threads := s.threads[t := me.(pc := CopyUnlock)]))
    case CopyUnlock => Some(s.(holder := None, threads := s.threads[t := me.(pc := CopyStore)]))
    case CopyStore => Some(s.(threads := s.threads[t := LockThread(me.wrappers + 1, LIdle)]))
  }

  /** Between a successful lock and its unlock. */
  predicate InSection(pc: LockPc) {
    pc.FinRead? || pc.FinWrite? || pc.FinUnlock? || pc.CopyRead? || pc.CopyWrite? || pc.CopyUnlock?
  }

  /** The thread's next step dereferences the block or its mutex. */
  predicate Touches(pc: LockPc) {
    InSection(pc) || pc.FinLock? || pc.CopyLock?
  }

  /** After the unlock of the finalizer that read 1. */
  predicate Releasing(pc: LockPc) {
    pc == FinBranch(1) || pc.FinDestroy? || pc.FinFree?
  }

  // ---- Refinement -------------------------------------------------------------------------

  /** The write inside the section is the atomic add or subtract; lock, read and unlock are invisible. */
  function AbstractPc(pc: LockPc): AtomicPc {
    match pc
    case LIdle => Idle
    case FinLock | FinRead | FinWrite(_) => Subtracting
    case FinUnlock(read) => Branching(read)
    case FinBranch(read) => Branching(read)
    case FinDestroy => Destroying
    case FinFree => Freeing
    case CopyLock | CopyRead | CopyWrite(_) => Adding
    case CopyUnlock | CopyStore => Storing
  }

  function AbstractThread(th: LockThread): AtomicThread {
    AtomicThread(th.wrappers, AbstractPc(th.pc))
  }

  function Abstract(s: LockState): AtomicState {
    AtomicState(s.arc, s.destroyed, s.freedBy, seq(|s.threads|,
            i requires 0 <= i < |s.threads| => AbstractThread(s.threads[i])))
  }

  /** Steps of the lock form that are steps of the atomic form; the others leave its state alone. */
  predicate Visible(pc: LockPc) {
    !(pc.FinLock? || pc.FinRead? || pc.FinUnlock? || pc.CopyLock? || pc.CopyRead? || pc.CopyUnlock?)
  }

  /** Mutual exclusion, a private copy that is current, and no section left open once the block is going. */
  ghost predicate LockInv(s: LockState) {
    AtomicInv(Abstract(s)) && Exclusive(s)
  }

  ghost predicate Exclusive(s: LockState) {
    && (s.holder.Some? ==> s.holder.value < |s.threads|)
    && (forall t :: 0 <= t < |s.threads| ==> (s.holder == Some(t) <==> InSection(s.threads[t].pc)))
    && (forall t :: 0 <= t < |s.threads| && (s.threads[t].pc.FinWrite? || s.threads[t].pc.CopyWrite?)
          ==> s.threads[t].pc.read == s.arc)
    && (s.holder.Some? ==>
          s.freedBy == [] && forall t :: 0 <= t < |s.threads| ==> !Releasing(s.threads[t].pc))
  }

  /** Each step of the lock form is invisible or is the same thread's step of the atomic form. */
  lemma StepRefines(s: LockState, t: nat, a: Action)
    requires LockInv(s) && LockNext(s, t, a).Some?
    ensures var s' := LockNext(s, t, a).value;
            if Visible(s.threads[t].pc) then AtomicNext(Abstract(s), t, a) == Some(Abstract(s'))
            else Abstract(s') == Abstract(s)
  {
    hide AtomicInv;
    var s' := LockNext(s, t, a).value;
    assert Abstract(s).threads[t] == AbstractThread(s.threads[t]);
    if s.threads[t].pc.LIdle? && a.Send? {
      assert Abstract(s').threads == Abstract(s).threads[t := AbstractThread(s'.threads[t])]
                                                        [a.to := AbstractThread(s'.threads[a.to])];
    } else {
      assert Abstract(s').threads == Abstract(s).threads[t := AbstractThread(s'.threads[t])];
    }
  }

  /** A thread that stands for a reference keeps the block alive. */
  lemma OwedAlive(s: AtomicState, t: nat)
    requires AtomicInv(s) && t < |s.threads| && Owed(s.threads[t]) > 0
    ensures s.arc >= 1 && s.freedBy == []
    ensures !s.destroyed
    ensures forall u :: 0 <= u < |s.threads| ==> Last(s.threads[u]) == 0
  {
    hide Total;
    TotalUpdate(Owed, s.threads, t, s.threads[t]);
    assert s.arc >= 1;
    assert Total(Last, s.threads) == 0 && s.freedBy == [];
    TotalZero(Last, s.threads);
    forall u | 0 <= u < |s.threads| ensures FreeingNow(s.threads[u]) == 0 {
      assert Last(s.threads[u]) == 0;
    }
    TotalZero(FreeingNow, s.threads);
    assert Total(FreeingNow, s.threads) + |s.freedBy| == 0;
  }

  lemma ExclusiveStep(s: LockState, t: nat, a: Action)
    requires Exclusive(s) && LockNext(s, t, a).Some?
    requires s.threads[t].pc.FinBranch? ==> s.threads[t].pc.read >= 1
    requires s.threads[t].pc.FinLock? || s.threads[t].pc.CopyLock? ==>
               s.freedBy == [] && forall u :: 0 <= u < |s.threads| ==> !Releasing(s.threads[u].pc)
    ensures Exclusive(LockNext(s, t, a).value)
  {
    hide Continue;
    if !s.threads[t].pc.LIdle? {
      ExclusiveContinue(s, t);
    }
  }

  lemma ExclusiveContinue(s: LockState, t: nat)
    requires Exclusive(s) && t < |s.threads| && !s.threads[t].pc.LIdle? && Continue(s, t).Some?
    requires s.threads[t].pc.FinBranch? ==> s.threads[t].pc.read >= 1
    requires s.threads[t].pc.FinLock? || s.threads[t].pc.CopyLock? ==>
               s.freedBy == [] && forall u :: 0 <= u < |s.threads| ==> !Releasing(s.threads[u].pc)
    ensures Exclusive(Continue(s, t).value)
  {
  }

  lemma LockStep(s: LockState, t: nat, a: Action)
    requires LockInv(s) && LockNext(s, t, a).Some?
    ensures LockInv(LockNext(s, t, a).value)
  {
    EnabledThread(s, t, a);
    assert Abstract(s).threads[t] == AbstractThread(s.threads[t]);
    hide AtomicInv, Total, LockNext, Exclusive, AtomicNext;
    StepRefines(s, t, a);
    BranchesReadPositive(Abstract(s), t);
    if Visible(s.threads[t].pc) {
      AtomicStep(Abstract(s), t, a);
    }
    if s.threads[t].pc.FinLock? || s.threads[t].pc.CopyLock? {
      AddingOwes(Abstract(s), t);
      OwedAlive(Abstract(s), t);
      forall u | 0 <= u < |s.threads| ensures !Releasing(s.threads[u].pc) {
        assert Last(Abstract(s).threads[u]) == 0;
      }
    }
    ExclusiveStep(s, t, a);
  }

  lemma BranchesReadPositive(s: AtomicState, t: nat)
    requires AtomicInv(s) && t < |s.threads|
    ensures s.threads[t].pc.Branching? ==> s.threads[t].pc.read >= 1
  {
  }

  lemma AddingOwes(s: AtomicState, t: nat)
    requires AtomicInv(s) && t < |s.threads|
    ensures s.threads[t].pc.Adding? || s.threads[t].pc.Subtracting? ==> Owed(s.threads[t]) > 0
  {
  }

  // ---- Whole runs -------------------------------------------------------------------------

  /** One wrapper, just initialised by thread `maker`, among `n` threads that hold none. */
  function LockInit(n: nat, maker: nat): LockState {
    LockState(1, None, false, [], seq(n, i => LockThread(if i == maker then 1 else 0, LIdle)))
  }

  /** A schedule: which thread moves, and what it begins if it is idle. */
  type Schedule = seq<(nat, Action)>

  function LockRun(s: LockState, run: Schedule): Option<LockState>
    decreases |run|
  {
    if run == [] then Some(s)
    else match LockNext(s, run[0].0, run[0].1)
      case None => None
      case Some(s') => LockRun(s', run[1..])
  }

  function AtomicRun(s: AtomicState, run: Schedule): Option<AtomicState>
    decreases |run|
  {
    if run == [] then Some(s)
    else match AtomicNext(s, run[0].0, run[0].1)
      case None => None
      case Some(s') => AtomicRun(s', run[1..])
  }

  /** The schedule without the lock form's invisible steps. */
  function VisibleSteps(s: LockState, run: Schedule): Schedule
    decreases |run|
  {
    if run == [] then []
    else match LockNext(s, run[0].0, run[0].1)
      case None => []
      case Some(s') =>
        (if Visible(s.threads[run[0].0].pc) then [run[0]] else []) + VisibleSteps(s', run[1..])
  }

  lemma {:induction false} RunKeepsInv(s: LockState, run: Schedule)
    requires LockInv(s) && LockRun(s, run).Some?
    ensures LockInv(LockRun(s, run).value)
    decreases |run|
  {
    hide LockInv, LockNext;
    if run != [] {
      LockStep(s, run[0].0, run[0].1);
      RunKeepsInv(LockNext(s, run[0].0, run[0].1).value, run[1..]);
    }
  }

  /** Every run of the lock form is, without its invisible steps, a run of the atomic form that ends
      in the same counter, with the same threads having freed the block. */
  lemma {:induction false} LockRefinesAtomic(s: LockState, run: Schedule)
    requires LockInv(s) && LockRun(s, run).Some?
    ensures AtomicRun(Abstract(s), VisibleSteps(s, run)) == Some(Abstract(LockRun(s, run).value))
    decreases |run|
  {
    hide LockInv, LockNext, AtomicNext, Abstract;
    if run != [] {
      var s' := LockNext(s, run[0].0, run[0].1).value;
      LockStep(s, run[0].0, run[0].1);
      EnabledThread(s, run[0].0, run[0].1);
      StepRefines(s, run[0].0, run[0].1);
      LockRefinesAtomic(s', run[1..]);
      if Visible(s.threads[run[0].0].pc) {
        var rest := VisibleSteps(s', run[1..]);
        assert ([run[0]] + rest)[1..] == rest && ([run[0]] + rest)[0] == run[0];
        assert VisibleSteps(s, run) == [run[0]] + rest;
      } else {
        assert VisibleSteps(s, run) == VisibleSteps(s', run[1..]);
      }
    }
  }

  lemma EnabledThread(s: LockState, t: nat, a: Action)
    requires LockNext(s, t, a).Some?
    ensures t < |s.threads|
  {
  }

  lemma {:induction false} InitTotal(n: nat, maker: nat, threads: seq<AtomicThread>)
    requires |threads| == n
    requires forall i :: 0 <= i < n ==> threads[i] == AtomicThread(if i == maker then 1 else 0, Idle)
    ensures Total(Owed, threads) == (if maker < n then 1 else 0)
    ensures Total(Last, threads) == 0 && Total(FreeingNow, threads) == 0
  {
    if n > 0 {
      InitTotal(n - 1, maker, threads[..n - 1]);
    }
  }

  lemma InitInv(n: nat, maker: nat)
    requires maker < n
    ensures LockInv(LockInit(n, maker))
  {
    InitTotal(n, maker, Abstract(LockInit(n, maker)).threads);
  }

  /** Under any interleaving: the counter is the number of references not given up, the block is freed
      at most once, and no thread that still works on it finds it destroyed, freed or being released. */
  lemma AnyInterleavingIsSafe(n: nat, maker: nat, run: Schedule)
    requires maker < n && LockRun(LockInit(n, maker), run).Some?
    ensures var s := LockRun(LockInit(n, maker), run).value;
            && s.arc == Total(Owed, Abstract(s).threads)
            && |s.freedBy| <= 1
            && (forall t :: 0 <= t < |s.threads| && (Touches(s.threads[t].pc) || s.threads[t].wrappers > 0) ==>
                  !s.destroyed && s.freedBy == [])
            && (forall t, u :: 0 <= t < |s.threads| && 0 <= u < |s.threads|
                               && (Touches(s.threads[t].pc) || s.threads[t].wrappers > 0)
                  ==> !Releasing(s.threads[u].pc))
  {
    var s := LockRun(LockInit(n, maker), run).value;
    hide LockRun, LockNext, Total;
    InitInv(n, maker);
    RunKeepsInv(LockInit(n, maker), run);
    forall t | 0 <= t < |s.threads| && (Touches(s.threads[t].pc) || s.threads[t].wrappers > 0)
      ensures !s.destroyed && s.freedBy == []
      ensures forall u :: 0 <= u < |s.threads| ==> !Releasing(s.threads[u].pc)
    {
      Protected(s, t);
    }
  }

  lemma Protected(s: LockState, t: nat)
    requires LockInv(s) && t < |s.threads|
    requires Touches(s.threads[t].pc) || s.threads[t].wrappers > 0
    ensures !s.destroyed && s.freedBy == []
    ensures forall u :: 0 <= u < |s.threads| ==> !Releasing(s.threads[u].pc)
  {
    hide Total;
    var a := Abstract(s);
    assert a.threads[t] == AbstractThread(s.threads[t]);
    if InSection(s.threads[t].pc) {
      forall u | 0 <= u < |s.threads| ensures FreeingNow(a.threads[u]) == 0 {}
      TotalZero(FreeingNow, a.threads);
    } else {
      AddingOwes(a, t);
      OwedAlive(a, t);
      forall u | 0 <= u < |s.threads| ensures !Releasing(s.threads[u].pc) {
        assert Last(a.threads[u]) == 0;
      }
    }
  }

  /** Once every wrapper is gone and no thread is in these functions, the block has been freed, exactly
      once; before that it has not been freed at all while a reference remains. */
  lemma FreedExactlyOnce(n: nat, maker: nat, run: Schedule)
    requires maker < n && LockRun(LockInit(n, maker), run).Some?
    ensures var s := LockRun(LockInit(n, maker), run).value;
            (forall t :: 0 <= t < |s.threads| ==> s.threads[t].pc.LIdle?) ==>
            (|s.freedBy| == 1 <==> forall t :: 0 <= t < |s.threads| ==> s.threads[t].wrappers == 0)
  {
    var s := LockRun(LockInit(n, maker), run).value;
    hide LockRun, LockNext, Total;
    InitInv(n, maker);
    RunKeepsInv(LockInit(n, maker), run);
    var a := Abstract(s);
    if forall t :: 0 <= t < |s.threads| ==> s.threads[t].pc.LIdle? {
      assert forall t :: 0 <= t < |s.threads| ==> a.threads[t] == AbstractThread(s.threads[t]);
      TotalZero(Owed, a.threads);
      TotalZero(Last, a.threads);
    }
  }

  /** The thread that frees is one that read 1: a thread that read more never gets there. */
  lemma FreerReadOne(s: LockState, t: nat)
    requires LockInv(s) && t < |s.threads| && s.threads[t].pc.FinBranch?
    ensures LockNext(s, t, Advance).Some?
    ensures LockNext(s, t, Advance).value.threads[t].pc == (if s.threads[t].pc.read == 1 then FinDestroy else LIdle)
    ensures s.threads[t].pc.read == 1 ==>
              s.holder.None? && s.arc == 0 && forall u :: 0 <= u < |s.threads| ==> !Touches(s.threads[u].pc)
  {
    hide Total;
    var a := Abstract(s);
    assert a.threads[t] == AbstractThread(s.threads[t]);
    if s.threads[t].pc.read == 1 {
      TotalUpdate(Last, a.threads, t, a.threads[t]);
      forall u | 0 <= u < |s.threads| ensures !Touches(s.threads[u].pc) {
        if Touches(s.threads[u].pc) {
          Protected(s, u);
          assert false;
        }
      }
    }
  }

  // ---- What the calls do, and that they end -----------------------------------------------

  /** `n` further steps of one thread. */
  function Own(t: nat, n: nat): Schedule {
    if n == 0 then [] else [(t, Advance)] + Own(t, n - 1)
  }

  function WithThread(s: LockState, t: nat, wrappers: nat, pc: LockPc): LockState
    requires t < |s.threads|
  {
    s.(threads := s.threads[t := LockThread(wrappers, pc)])
  }

  lemma FirstStep(s: LockState, t: nat, a: Action, run: Schedule)
    requires LockNext(s, t, a).Some?
    ensures LockRun(s, [(t, a)] + run) == LockRun(LockNext(s, t, a).value, run)
  {
    assert ([(t, a)] + run)[1..] == run;
  }

  /** One step of the thread's own: what changes in the shared part, and where the thread is then. */
  lemma OwnStep(s: LockState, t: nat, w: nat, pc: LockPc, n: nat, s': LockState, w': nat, pc': LockPc)
    requires t < |s.threads| && s'.threads == s.threads && !pc.LIdle?
    requires var next := Continue(WithThread(s, t, w, pc), t);
             && next.Some? && next.value == s'.(threads := next.value.threads)
             && next.value.threads == WithThread(s, t, w, pc).threads[t := LockThread(w', pc')]
    ensures LockRun(WithThread(s, t, w, pc), Own(t, n + 1)) == LockRun(WithThread(s', t, w', pc'), Own(t, n))
  {
    FirstStep(WithThread(s, t, w, pc), t, Advance, Own(t, n));
    assert WithThread(s, t, w, pc).threads[t := LockThread(w', pc')] == s.threads[t := LockThread(w', pc')];
  }

  lemma HolderAlive(s: LockState, t: nat)
    requires LockInv(s) && t < |s.threads| && s.threads[t].wrappers > 0
    ensures s.arc >= 1 && s.freedBy == [] && !s.destroyed
  {
    hide Total;
    assert Abstract(s).threads[t] == AbstractThread(s.threads[t]);
    OwedAlive(Abstract(s), t);
  }

  /** The part of a finalizer up to its branch. */
  lemma SubtractAlone(s: LockState, t: nat, w: nat, n: nat)
    requires s.holder.None? && t < |s.threads| && s.threads[t] == LockThread(w + 1, LIdle)
    ensures LockRun(s, [(t, BeginFinalize)] + Own(t, n + 4)) ==
            LockRun(WithThread(s.(arc := s.arc - 1), t, w, FinBranch(s.arc)), Own(t, n))
  {
    hide LockRun, Own;
    var held, less := s.(holder := Some(t)), s.(arc := s.arc - 1);
    FirstStep(s, t, BeginFinalize, Own(t, n + 4));
    OwnStep(s, t, w, FinLock, n + 3, held, w, FinRead);
    OwnStep(held, t, w, FinRead, n + 2, held, w, FinWrite(s.arc));
    OwnStep(held, t, w, FinWrite(s.arc), n + 1, held.(arc := s.arc - 1), w, FinUnlock(s.arc));
    OwnStep(held.(arc := s.arc - 1), t, w, FinUnlock(s.arc), n, less, w, FinBranch(s.arc));
  }

  /** The rest of a finalizer that read 1. */
  lemma FreeAlone(s: LockState, t: nat, w: nat)
    requires t < |s.threads|
    ensures LockRun(WithThread(s, t, w, FinBranch(1)), Own(t, 3)) ==
            Some(WithThread(s.(destroyed := true, freedBy := s.freedBy + [t]), t, w, LIdle))
  {
    hide LockRun, Own;
    var gone := s.(destroyed := true);
    OwnStep(s, t, w, FinBranch(1), 2, s, w, FinDestroy);
    OwnStep(s, t, w, FinDestroy, 1, gone, w, FinFree);
    OwnStep(gone, t, w, FinFree, 0, gone.(freedBy := s.freedBy + [t]), w, LIdle);
    NoneLeft(gone.(freedBy := s.freedBy + [t]), t, w);
  }

  /** The rest of one that read more. */
  lemma KeepAlone(s: LockState, t: nat, w: nat, read: int)
    requires t < |s.threads| && read > 1
    ensures LockRun(WithThread(s, t, w, FinBranch(read)), Own(t, 1)) == Some(WithThread(s, t, w, LIdle))
  {
    hide LockRun, Own;
    OwnStep(s, t, w, FinBranch(read), 0, s, w, LIdle);
    NoneLeft(s, t, w);
  }

  /** A finalizer that finds the lock free and is left alone takes away its wrapper and one from the counter;
      it frees the block exactly when the counter was 1. */
  lemma FinalizeAlone(s: LockState, t: nat)
    requires LockInv(s) && s.holder.None? && t < |s.threads|
    requires s.threads[t].pc.LIdle? && s.threads[t].wrappers > 0
    ensures LockRun(s, [(t, BeginFinalize)] + Own(t, if s.arc == 1 then 7 else 5)) ==
            Some(s.(threads := s.threads[t := LockThread(s.threads[t].wrappers - 1, LIdle)],
                    arc := s.arc - 1, destroyed := s.arc == 1, freedBy := if s.arc == 1 then [t] else []))
  {
    hide LockInv, LockRun, Own, WithThread;
    HolderAlive(s, t);
    var w, less := s.threads[t].wrappers - 1, s.(arc := s.arc - 1);
    if s.arc == 1 {
      SubtractAlone(s, t, w, 3);
      FreeAlone(less, t, w);
      assert s.freedBy + [t] == [t];
      WithThreadIs(less.(destroyed := true, freedBy := [t]), t, w);
    } else {
      SubtractAlone(s, t, w, 1);
      KeepAlone(less, t, w, s.arc);
      WithThreadIs(less, t, w);
    }
  }

  lemma WithThreadIs(s: LockState, t: nat, w: nat)
    requires t < |s.threads|
    ensures WithThread(s, t, w, LIdle) == s.(threads := s.threads[t := LockThread(w, LIdle)])
  {
  }

  lemma NoneLeft(s: LockState, t: nat, w: nat)
    requires t < |s.threads|
    ensures LockRun(WithThread(s, t, w, LIdle), Own(t, 0)) == Some(WithThread(s, t, w, LIdle))
  {
  }

  /** A copy that finds the lock free and is left alone adds a wrapper and one to the counter. */
  lemma CopyAlone(s: LockState, t: nat)
    requires LockInv(s) && s.holder.None? && t < |s.threads|
    requires s.threads[t].pc.LIdle? && s.threads[t].wrappers > 0
    ensures LockRun(s, [(t, BeginCopy)] + Own(t, 5)) ==
            Some(s.(threads := s.threads[t := LockThread(s.threads[t].wrappers + 1, LIdle)], arc := s.arc + 1))
  {
    hide LockInv, LockRun, Own;
    var w := s.threads[t].wrappers;
    var held, more := s.(holder := Some(t)), s.(arc := s.arc + 1);
    FirstStep(s, t, BeginCopy, Own(t, 5));
    OwnStep(s, t, w, CopyLock, 4, held, w, CopyRead);
    OwnStep(held, t, w, CopyRead, 3, held, w, CopyWrite(s.arc));
    OwnStep(held, t, w, CopyWrite(s.arc), 2, held.(arc := s.arc + 1), w, CopyUnlock);
    OwnStep(held.(arc := s.arc + 1), t, w, CopyUnlock, 1, more, w, CopyStore);
    OwnStep(more, t, w, CopyStore, 0, more, w + 1, LIdle);
    NoneLeft(more, t, w + 1);
  }

  predicate Waits(pc: LockPc) {
    pc.FinLock? || pc.CopyLock?
  }

  /** A thread inside can go on, unless it waits for the lock; then the holder can. */
  lemma Progress(s: LockState, t: nat)
    requires LockInv(s) && t < |s.threads| && !s.threads[t].pc.LIdle?
    ensures if Waits(s.threads[t].pc) && s.holder.Some?
            then s.holder.value != t && LockNext(s, s.holder.value, Advance).Some?
            else LockNext(s, t, Advance).Some?
  {
  }

  /** How many steps a thread still has to go. */
  function ToGo(th: LockThread): nat {
    match th.pc
    case LIdle => 0
    case FinLock => 7
    case FinRead => 6
    case FinWrite(_) => 5
    case FinUnlock(_) => 4
    case FinBranch(_) => 3
    case FinDestroy => 2
    case FinFree => 1
    case CopyLock => 5
    case CopyRead => 4
    case CopyWrite(_) => 3
    case CopyUnlock => 2
    case CopyStore => 1
  }

  lemma AdvanceShrinks(s: LockState, t: nat)
    requires LockNext(s, t, Advance).Some?
    ensures Total(ToGo, LockNext(s, t, Advance).value.threads) < Total(ToGo, s.threads)
  {
    hide Total;
    var threads := LockNext(s, t, Advance).value.threads;
    assert threads == s.threads[t := threads[t]];
    TotalUpdate(ToGo, s.threads, t, threads[t]);
  }

  predicate Quiet(s: LockState) {
    forall t :: 0 <= t < |s.threads| ==> s.threads[t].pc.LIdle?
  }

  predicate OnlyAdvances(run: Schedule) {
    forall i :: 0 <= i < |run| ==> run[i].1 == Advance
  }

  /** Steps already begun cannot go on for ever. */
  lemma {:induction false} AdvancesEnd(s: LockState, run: Schedule)
    requires OnlyAdvances(run) && LockRun(s, run).Some?
    ensures |run| <= Total(ToGo, s.threads)
    decreases |run|
  {
    hide Total, LockNext;
    if run != [] {
      AdvanceShrinks(s, run[0].0);
      AdvancesEnd(LockNext(s, run[0].0, run[0].1).value, run[1..]);
    }
  }

  /** Nor can they get stuck: from any state, some way to go on ends with every thread out of these functions. */
  lemma {:induction false} AllCanFinish(s: LockState) returns (run: Schedule)
    requires LockInv(s)
    ensures OnlyAdvances(run) && LockRun(s, run).Some? && Quiet(LockRun(s, run).value)
    decreases Total(ToGo, s.threads)
  {
    hide Total, LockNext, LockInv;
    if Quiet(s) {
      return [];
    }
    var t: nat :| t < |s.threads| && !s.threads[t].pc.LIdle?;
    Progress(s, t);
    var u := if Waits(s.threads[t].pc) && s.holder.Some? then s.holder.value else t;
    LockStep(s, u, Advance);
    AdvanceShrinks(s, u);
    var rest := AllCanFinish(LockNext(s, u, Advance).value);
    run := [(u, Advance)] + rest;
    FirstStep(s, u, Advance, rest);
  }

  // ---- The counter, from the schedule alone -----------------------------------------------

  function Begun(run: Schedule, a: Action): nat {
    if run == [] then 0 else (if run[0].1 == a then 1 else 0) + Begun(run[1..], a)
  }

  /** A finalizer that has not subtracted yet, and a copy that has not added yet. */
  function Leaving(th: LockThread): nat {
    if th.pc.FinLock? || th.pc.FinRead? || th.pc.FinWrite? then 1 else 0
  }

  function Joining(th: LockThread): nat {
    if th.pc.CopyLock? || th.pc.CopyRead? || th.pc.CopyWrite? then 1 else 0
  }

  /** The counter once everything begun has been counted. */
  function Settled(s: LockState): int {
    s.arc - Total(Leaving, s.threads) + Total(Joining, s.threads)
  }

  lemma SettledStep(s: LockState, t: nat, a: Action)
    requires LockInv(s) && LockNext(s, t, a).Some?
    ensures Settled(LockNext(s, t, a).value) ==
            Settled(s) + (if a == BeginCopy then 1 else 0) - if a == BeginFinalize then 1 else 0
  {
    hide Total;
    var threads := LockNext(s, t, a).value.threads;
    if a.Send? {
      var mid := s.threads[t := threads[t]];
      TotalUpdate(Leaving, s.threads, t, mid[t]);
      TotalUpdate(Leaving, mid, a.to, threads[a.to]);
      TotalUpdate(Joining, s.threads, t, mid[t]);
      TotalUpdate(Joining, mid, a.to, threads[a.to]);
    } else {
      assert threads == s.threads[t := threads[t]];
      TotalUpdate(Leaving, s.threads, t, threads[t]);
      TotalUpdate(Joining, s.threads, t, threads[t]);
    }
  }

  lemma {:induction false} SettledRun(s: LockState, run: Schedule)
    requires LockInv(s) && LockRun(s, run).Some?
    ensures Settled(LockRun(s, run).value) == Settled(s) + Begun(run, BeginCopy) - Begun(run, BeginFinalize)
    decreases |run|
  {
    hide LockNext, LockInv, Settled;
    if run != [] {
      LockStep(s, run[0].0, run[0].1);
      SettledStep(s, run[0].0, run[0].1);
      SettledRun(LockNext(s, run[0].0, run[0].1).value, run[1..]);
    }
  }

  /** Whenever no thread is inside, the counter is one more than copies exceed finalizers; the block has been
      freed exactly when every wrapper made has been finalized. */
  lemma CounterFromSchedule(n: nat, maker: nat, run: Schedule)
    requires maker < n && LockRun(LockInit(n, maker), run).Some?
    ensures var s := LockRun(LockInit(n, maker), run).value;
            Quiet(s) ==>
              && s.arc == 1 + Begun(run, BeginCopy) - Begun(run, BeginFinalize)
              && (|s.freedBy| == 1 <==> Begun(run, BeginFinalize) == 1 + Begun(run, BeginCopy))
  {
    var init := LockInit(n, maker);
    var s := LockRun(init, run).value;
    hide LockRun, LockNext, Total, Begun;
    InitInv(n, maker);
    RunKeepsInv(init, run);
    SettledRun(init, run);
    NoneCounted(init);
    if Quiet(s) {
      NoneCounted(s);
      QuietEnd(s);
    }
  }

  lemma NoneCounted(s: LockState)
    requires Quiet(s)
    ensures Settled(s) == s.arc
  {
    TotalZero(Leaving, s.threads);
    TotalZero(Joining, s.threads);
  }

  lemma QuietEnd(s: LockState)
    requires LockInv(s) && Quiet(s)
    ensures |s.freedBy| == 1 <==> s.arc == 0
  {
    hide Total;
    var a := Abstract(s);
    assert forall t :: 0 <= t < |s.threads| ==> a.threads[t] == AbstractThread(s.threads[t]);
    TotalZero(Last, a.threads);
  }
}
