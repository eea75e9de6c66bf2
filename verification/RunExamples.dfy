/** Two small runs, carried out from their commands: one that stops where it must, one that leaves nothing. */
module RunExamples {
  import opened CountedHeap
  import opened EventLoopOwnership
  import opened LoopProtocol
  import opened LoopRuns
  import opened RequestProtocol
  import opened RunResults
  import opened RunTally
  import opened Wrappers

  /** A loop, a timer on it shared once, and the timer started with a closure. */
  const STARTED: seq<Command> :=
    [User(MakePlain(Loop)), User(MakeHandle(Timer, 0)), User(ShareObject(1)),
     User(MakeOwner(Closure(TimerCall), [])), User(StartTimer(1, 2))]

  const STOPPED: seq<Command> := STARTED + [User(StopHandle(1)), Event(FireTimer(1, true))]

  const LIFE: seq<Command> :=
    STARTED + [Event(FireTimer(1, false)), Event(ReturnNothing), User(MakeOwner(Closure(CloseCall), [])),
               User(CloseHandle(1, 3)), Event(DeliverClose(1)), Event(ReturnNothing)]

  const WITH_TIMER := NOTHING_YET.(inLoop := {1})
  const RUNNING := WITH_TIMER.(active := {1}, started := map[1 := 2])
  const IDLE := RUNNING.(active := {})
  const CLOSED := IDLE.(inLoop := {}, finish := map[1 := 3])

  function OneTimer(kinds: seq<Kind>, vars: multiset<Ref>, c: Control): Tally {
    Tally(kinds, vars, c, [], map[1 := 0], map[], false)
  }

  /** What the commands of `LIFE` come to, one after the other. */
  function LifeState(k: nat): Tally {
    var three := [Loop, Timer, Closure(TimerCall)];
    var four := three + [Closure(CloseCall)];
    if k == 0 then NOTHING_DONE
    else if k == 1 then Tally([Loop], multiset{0}, NOTHING_YET, [], map[], map[], false)
    else if k == 2 then OneTimer([Loop, Timer], multiset{1}, WITH_TIMER)
    else if k == 3 then OneTimer([Loop, Timer], multiset{1, 1}, WITH_TIMER)
    else if k == 4 then OneTimer(three, multiset{1, 1, 2}, WITH_TIMER)
    else if k == 5 then OneTimer(three, multiset{1}, RUNNING)
    else if k == 6 then OneTimer(three, multiset{1}, InUser(IDLE, [2, 1]))
    else if k == 7 then OneTimer(three, multiset{1}, IDLE)
    else if k == 8 then OneTimer(four, multiset{1, 3}, IDLE)
    else if k == 9 then OneTimer(four, multiset{}, CloseAsked(IDLE, 1, 3))
    else if k == 10 then OneTimer(four, multiset{}, InUser(CLOSED, [3]))
    else OneTimer(four, multiset{}, CLOSED)
  }

  const AFTER_STOP := OneTimer([Loop, Timer, Closure(TimerCall)], multiset{}, IDLE)

  lemma LifeCommands()
    ensures LIFE[0] == User(MakePlain(Loop))
    ensures LIFE[1] == User(MakeHandle(Timer, 0))
    ensures LIFE[2] == User(ShareObject(1))
    ensures LIFE[3] == User(MakeOwner(Closure(TimerCall), []))
    ensures LIFE[4] == User(StartTimer(1, 2))
    ensures LIFE[5] == Event(FireTimer(1, false))
    ensures LIFE[6] == Event(ReturnNothing)
    ensures LIFE[7] == User(MakeOwner(Closure(CloseCall), []))
    ensures LIFE[8] == User(CloseHandle(1, 3))
    ensures LIFE[9] == Event(DeliverClose(1))
    ensures LIFE[10] == Event(ReturnNothing)
    ensures |LIFE| == 11
  {
  }

  predicate Leads(t: Tally, cmd: Command, t': Tally) {
    Allowed(t, cmd) && After(t, cmd) == t'
  }

  lemma Vars()
    ensures Exchanged(multiset{1, 1}, multiset([]), multiset{2}) == multiset{1, 1, 2}
    ensures Exchanged(multiset{1}, multiset([]), multiset{3}) == multiset{1, 3}
    ensures Exchanged(multiset{1, 3}, multiset{1, 3}, multiset{}) == multiset{}
    ensures Exchanged(multiset{1, 1, 2}, multiset{1, 2}, multiset{}) == multiset{1}
  {
  }

  lemma Life0()
    ensures Leads(LifeState(0), User(MakePlain(Loop)), LifeState(1))
  {
    var t, t' := LifeState(0), LifeState(1);
    AfterUserIs(t, MakePlain(Loop));
    hide AfterUser;
  }

  lemma Life1()
    ensures Leads(LifeState(1), User(MakeHandle(Timer, 0)), LifeState(2))
  {
    hide AfterUser;
    AfterUserIs(LifeState(1), MakeHandle(Timer, 0));
  }

  lemma Life2()
    ensures Leads(LifeState(2), User(ShareObject(1)), LifeState(3))
  {
    hide AfterUser;
    AfterUserIs(LifeState(2), ShareObject(1));
  }

  lemma MayLife3()
    ensures UserAllowed(LifeState(3), MakeOwner(Closure(TimerCall), []))
  {
  }

  lemma Life3()
    ensures Leads(LifeState(3), User(MakeOwner(Closure(TimerCall), [])), LifeState(4))
  {
    hide AfterUser, Exchanged, UserAllowed;
    Vars();
    MayLife3();
    AfterUserIs(LifeState(3), MakeOwner(Closure(TimerCall), []));
    assert AfterUser(LifeState(3), MakeOwner(Closure(TimerCall), [])) == LifeState(4);
  }

  lemma MayLife4()
    ensures UserAllowed(LifeState(4), StartTimer(1, 2))
  {
  }

  lemma Life4()
    ensures Leads(LifeState(4), User(StartTimer(1, 2)), LifeState(5))
  {
    hide AfterUser, Exchanged, UserAllowed;
    Vars();
    MayLife4();
    AfterUserIs(LifeState(4), StartTimer(1, 2));
  }

  lemma Life5()
    ensures Leads(LifeState(5), Event(FireTimer(1, false)), LifeState(6))
  {
  }

  lemma Life6()
    ensures Leads(LifeState(6), Event(ReturnNothing), LifeState(7))
  {
  }

  lemma MayLife7()
    ensures UserAllowed(LifeState(7), MakeOwner(Closure(CloseCall), []))
  {
  }

  lemma Life7()
    ensures Leads(LifeState(7), User(MakeOwner(Closure(CloseCall), [])), LifeState(8))
  {
    hide AfterUser, Exchanged, UserAllowed;
    Vars();
    MayLife7();
    AfterUserIs(LifeState(7), MakeOwner(Closure(CloseCall), []));
  }

  lemma MayLife8()
    ensures UserAllowed(LifeState(8), CloseHandle(1, 3))
  {
  }

  lemma Life8()
    ensures Leads(LifeState(8), User(CloseHandle(1, 3)), LifeState(9))
  {
    hide AfterUser, Exchanged, UserAllowed;
    Vars();
    MayLife8();
    AfterUserIs(LifeState(8), CloseHandle(1, 3));
    assert AfterUser(LifeState(8), CloseHandle(1, 3)) == LifeState(9);
  }

  lemma Life9()
    ensures Leads(LifeState(9), Event(DeliverClose(1)), LifeState(10))
  {
  }

  lemma Life10()
    ensures Leads(LifeState(10), Event(ReturnNothing), LifeState(11))
  {
  }

  lemma Stop()
    ensures Leads(LifeState(5), User(StopHandle(1)), AFTER_STOP)
    ensures !Allowed(AFTER_STOP, Event(FireTimer(1, true)))
  {
    hide AfterUser;
    AfterUserIs(LifeState(5), StopHandle(1));
  }


  lemma LifeStep(k: nat)
    requires k < |LIFE|
    ensures Leads(LifeState(k), LIFE[k], LifeState(k + 1))
  {
    hide Leads, LifeState;
    LifeCommands();
    if k < 6 {
      if k == 0 { Life0(); } else if k == 1 { Life1(); } else if k == 2 { Life2(); }
      else if k == 3 { Life3(); } else if k == 4 { Life4(); } else { Life5(); }
    } else {
      if k == 6 { Life6(); } else if k == 7 { Life7(); } else if k == 8 { Life8(); }
      else if k == 9 { Life9(); } else { Life10(); }
    }
  }

  lemma {:induction false} LifeTally(k: nat)
    requires k <= |LIFE|
    ensures Tallied(LIFE[..k]) == LifeState(k)
  {
    hide LifeState, Allowed, After;
    if k == 0 {
      NothingYet();
    } else {
      LifeTally(k - 1);
      LifeStep(k - 1);
      TalliedNext(LIFE, k - 1);
    }
  }

  lemma NothingYet()
    ensures LifeState(0) == NOTHING_DONE
  {
  }

  lemma LifeFacts(k: nat)
    ensures !LifeState(k).crash && 1 in LifeState(2).vars && Over(LifeState(11)) && |LifeState(11).kinds| == 4
  {
  }

  lemma SharedAlive(rt: Runtime)
    requires rt.Valid() && Matches(rt, LifeState(2))
    ensures Live(rt.cells, 1)
  {
    hide LifeState, Runtime.Valid, Recorded;
    LifeFacts(2);
    AllLive(rt, LifeState(2));
  }

  /** The timer fires once, is closed, and its close callback returns: every object is gone then, finalized once. */
  method TimerLife() returns (rt: Runtime, done: nat)
    ensures done == |LIFE| && !rt.crashed
    ensures forall r: Ref :: !Live(rt.cells, r) && multiset(rt.finalized)[r] == if r < 4 then 1 else 0
  {
    hide LifeState, Tallied, Allowed, After, Matches, Over, Runtime.Valid, Given, Permitted;
    rt := new Runtime();
    done := Execute(rt, LIFE);
    LifeCommands();
    LifeTally(done);
    LifeFacts(done);
    if done < |LIFE| {
      LifeStep(done);
      if done == 2 {
        SharedAlive(rt);
      }
    }
    assert LIFE[..done] == LIFE;
    NothingLeaks(rt, LIFE);
    FourObjects(rt);
  }

  lemma FourObjects(rt: Runtime)
    requires Matches(rt, LifeState(11))
    ensures |rt.cells| == 4
  {
    hide LifeState;
    LifeFacts(11);
  }

  /** A timer that was stopped does not fire: the run stops there, and the stop took the last variable. */
  method StoppedTimer() returns (rt: Runtime, done: nat)
    ensures done == 6 && !rt.crashed && rt.Valid()
    ensures rt.vars == multiset{} && rt.ctl.active == {} && rt.ctl.frame.None?
  {
    hide LifeState, Tallied, Allowed, After, Recorded, Runtime.Valid, Given, Permitted;
    rt := new Runtime();
    done := Execute(rt, STOPPED);
    StopTally(done);
    IfFired();
    Stop();
    StopCommands();
    LifeCommands();
    LifeFacts(done);
    if done < 5 {
      LifeStep(done);
      if done == 2 {
        SharedAlive(rt);
      }
    }
  }

  lemma StopCommands()
    ensures STOPPED[5] == User(StopHandle(1)) && STOPPED[6] == Event(FireTimer(1, true))
  {
  }

  lemma StopTally(k: nat)
    requires k <= 7
    ensures STOPPED[..5] == LIFE[..5] && STOPPED[5] == User(StopHandle(1)) && STOPPED[6] == Event(FireTimer(1, true))
    ensures k <= 5 ==> Tallied(STOPPED[..k]) == LifeState(k)
    ensures k == 6 ==> Tallied(STOPPED[..k]) == AFTER_STOP
    ensures Leads(LifeState(5), User(StopHandle(1)), AFTER_STOP)
  {
    hide LifeState, Tallied, Allowed, After;
    Stop();
    LifeTally(5);
    if k <= 5 {
      LifeTally(k);
      assert STOPPED[..k] == LIFE[..k];
    }
    assert STOPPED[..5] == LIFE[..5];
    StopCommands();
    TalliedNext(STOPPED, 5);
  }

  lemma IfFired()
    ensures Permitted(STOPPED[..7]) ==> Allowed(AFTER_STOP, STOPPED[6])
  {
    hide Permitted, Tallied, Allowed;
    StopState();
    if Permitted(STOPPED[..7]) {
      PermittedBefore(STOPPED[..7], 6);
      assert STOPPED[..7][..6] == STOPPED[..6] && STOPPED[..7][6] == STOPPED[6];
    }
  }

  lemma StopState()
    ensures Tallied(STOPPED[..6]) == AFTER_STOP
  {
    hide Tallied;
    StopTally(6);
  }
}
