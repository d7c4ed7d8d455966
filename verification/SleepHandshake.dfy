/**
 How the processor thread of include/tx_service.h goes to sleep and is woken, in the
 build without external processors, with any number of threads in `NewTx` and one in
 `Terminate`.

 Every event is one load, store or lock operation under sequential consistency.  What the
 cc shard itself reports in `IsIdle` is arbitrary.  The processor may wake up spuriously.
 */
module SleepHandshake {

  const WRAP: nat := 0x1_0000        // active_tx_cnt_ has 16 bits

  datatype Creator =
    | COut
    | CLoadStatus                    // was the first: load tx_proc_status_
    | CLock                          // the processor was asleep: lock sleep_mux_
    | CNotify
    | CUnlock

  datatype Terminator = TOut | TLock | TStore | TNotify | TUnlock | TDone

  datatype Processor =
    | PRun                           // running rounds
    | PCheckActive                   // IsIdle: load active_tx_cnt_
    | PCheckTerminated               // IsIdle: load terminated_, then ask the shard
    | PStoreSleep
    | PLock
    | PTestActive                    // the wait predicate, holding sleep_mux_
    | PTestTerminated
    | PBlock                         // the predicate was false: release the lock and block
    | PBlocked
    | PRelock                        // woken
    | PStoreBusy
    | PUnlock

  datatype Status = Busy | Sleep

  datatype Owner = Nobody | TheProcessor | TheTerminator | ACreator(i: nat)

  /** `active` is the true number of active transactions; the counter holds it modulo 2^16.
      `peak` is the largest it has been. */
  datatype State = State(active: nat, peak: nat, terminated: bool, status: Status, mux: Owner,
                         creators: seq<Creator>, proc: Processor, term: Terminator)

  datatype Event =
    | Create(i: nat)
    | Process(finish: bool, check: bool, shardIdle: bool)
    | WakeSpuriously
    | Terminate

  function Init(threads: nat): State
  {
    State(0, 0, false, Busy, Nobody, seq(threads, _ => COut), PRun, TOut)
  }

  function Counter(s: State): nat
  {
    s.active % WRAP
  }

  function Notified(s: State): State
  {
    s.(proc := if s.proc.PBlocked? then PRelock else s.proc)
  }

  /** One step of `NewTx` from the increment on; a call that does not find the count at 0 is over. */
  function CreateStep(s: State, i: nat): State
    requires i < |s.creators|
  {
    match s.creators[i]
    case COut =>
      s.(active := s.active + 1, peak := if s.active + 1 > s.peak then s.active + 1 else s.peak,
         creators := s.creators[i := if Counter(s) == 0 then CLoadStatus else COut])
    case CLoadStatus => s.(creators := s.creators[i := if s.status == Sleep then CLock else COut])
    case CLock => if s.mux == Nobody then s.(mux := ACreator(i), creators := s.creators[i := CNotify]) else s
    case CNotify => Notified(s.(creators := s.creators[i := CUnlock]))
    case CUnlock => s.(mux := Nobody, creators := s.creators[i := COut])
  }

  /** One step of `Run`. */
  function ProcessStep(s: State, finish: bool, check: bool, shardIdle: bool): State
  {
    match s.proc
    case PRun =>
      if finish && s.active > 0 then s.(active := s.active - 1)
      else if check then s.(proc := PCheckActive) else s
    case PCheckActive => s.(proc := if Counter(s) == 0 then PCheckTerminated else PRun)
    case PCheckTerminated => s.(proc := if !s.terminated && shardIdle then PStoreSleep else PRun)
    case PStoreSleep => s.(status := Sleep, proc := PLock)
    case PLock => if s.mux == Nobody then s.(mux := TheProcessor, proc := PTestActive) else s
    case PTestActive => s.(proc := if Counter(s) == 0 then PTestTerminated else PStoreBusy)
    case PTestTerminated => s.(proc := if !s.terminated && shardIdle then PBlock else PStoreBusy)
    case PBlock => s.(mux := Nobody, proc := PBlocked)
    case PBlocked => s
    case PRelock => if s.mux == Nobody then s.(mux := TheProcessor, proc := PTestActive) else s
    case PStoreBusy => s.(status := Busy, proc := PUnlock)
    case PUnlock => s.(mux := Nobody, proc := PRun)
  }

  /** One step of `Terminate` from the lock on. */
  function TerminateStep(s: State): State
  {
    match s.term
    case TOut => s.(term := TLock)
    case TLock => if s.mux == Nobody then s.(mux := TheTerminator, term := TStore) else s
    case TStore => s.(terminated := true, term := TNotify)
    case TNotify => Notified(s.(term := TUnlock))
    case TUnlock => s.(mux := Nobody, term := TDone)
    case TDone => s
  }

  function Next(s: State, e: Event): State
  {
    match e
    case Create(i) => if i < |s.creators| then CreateStep(s, i) else s
    case Process(finish, check, shardIdle) => ProcessStep(s, finish, check, shardIdle)
    case WakeSpuriously => Notified(s)
    case Terminate => TerminateStep(s)
  }

  function Run(s: State, es: seq<Event>): State
  {
    if es == [] then s else Next(Run(s, es[..|es| - 1]), es[|es| - 1])
  }

  // ---------------------------------------------------------------------------
  // The invariant
  // ---------------------------------------------------------------------------

  /** A thread that will notify the processor if it is asleep. */
  predicate OnItsWay(c: Creator)
  {
    c.CLoadStatus? || c.CLock? || c.CNotify?
  }

  ghost predicate SomeCreatorOnItsWay(s: State)
  {
    exists i :: 0 <= i < |s.creators| && OnItsWay(s.creators[i])
  }

  /** The processor has found the count at 0 since it announced that it sleeps. */
  predicate FoundNoneActive(p: Processor)
  {
    p.PTestTerminated? || p.PBlock? || p.PBlocked?
  }

  predicate HoldsLock(p: Processor)
  {
    p.PTestActive? || p.PTestTerminated? || p.PBlock? || p.PStoreBusy? || p.PUnlock?
  }

  predicate AnnouncedSleep(p: Processor)
  {
    p.PLock? || p.PTestActive? || FoundNoneActive(p) || p.PRelock? || p.PStoreBusy?
  }

  ghost predicate CreatorLocks(s: State)
  {
    forall i :: 0 <= i < |s.creators| ==> (s.creators[i].CNotify? || s.creators[i].CUnlock? <==> s.mux == ACreator(i))
  }

  ghost predicate Inv(s: State)
  {
    && CreatorLocks(s) && (s.mux.ACreator? ==> s.mux.i < |s.creators|)
    && (AnnouncedSleep(s.proc) <==> s.status == Sleep)
    && (HoldsLock(s.proc) <==> s.mux == TheProcessor)
    && (s.term.TStore? || s.term.TNotify? || s.term.TUnlock? <==> s.mux == TheTerminator)
    && (s.terminated <==> s.term.TNotify? || s.term.TUnlock? || s.term.TDone?)
    && (FoundNoneActive(s.proc) ==> Counter(s) == 0 || SomeCreatorOnItsWay(s))
    && ((s.proc.PBlock? || s.proc.PBlocked?) ==> !s.terminated || s.term.TNotify?)
    && s.active <= s.peak
  }

  lemma {:induction false} CreateKeeps(s: State, i: nat)
    requires Inv(s) && i < |s.creators|
    ensures Inv(CreateStep(s, i))
  {
    var s' := CreateStep(s, i);
    if FoundNoneActive(s'.proc) {
      if s.creators[i].COut? && Counter(s) == 0 {
        assert OnItsWay(s'.creators[i]);
      } else if Counter(s) != 0 {
        var j :| 0 <= j < |s.creators| && OnItsWay(s.creators[j]);
        assert OnItsWay(s'.creators[j]);
      }
    }
  }

  lemma {:induction false} SameCreatorsOnTheWay(s: State, s': State)
    requires s'.creators == s.creators
    ensures SomeCreatorOnItsWay(s') <==> SomeCreatorOnItsWay(s)
  {
  }

  lemma {:induction false} GoingToSleepKeeps(s: State, finish: bool, check: bool, shardIdle: bool)
    requires Inv(s)
    requires s.proc.PRun? || s.proc.PCheckActive? || s.proc.PCheckTerminated? || s.proc.PStoreSleep? || s.proc.PLock?
    ensures Inv(ProcessStep(s, finish, check, shardIdle))
  {
    SameCreatorsOnTheWay(s, ProcessStep(s, finish, check, shardIdle));
  }

  lemma {:induction false} AsleepKeeps(s: State, finish: bool, check: bool, shardIdle: bool)
    requires Inv(s)
    requires s.proc.PTestActive? || s.proc.PTestTerminated? || s.proc.PBlock? || s.proc.PBlocked?
    ensures Inv(ProcessStep(s, finish, check, shardIdle))
  {
    SameCreatorsOnTheWay(s, ProcessStep(s, finish, check, shardIdle));
  }

  lemma {:induction false} WakingUpKeeps(s: State, finish: bool, check: bool, shardIdle: bool)
    requires Inv(s) && (s.proc.PRelock? || s.proc.PStoreBusy? || s.proc.PUnlock?)
    ensures Inv(ProcessStep(s, finish, check, shardIdle))
  {
    SameCreatorsOnTheWay(s, ProcessStep(s, finish, check, shardIdle));
  }

  lemma {:induction false} ProcessKeeps(s: State, finish: bool, check: bool, shardIdle: bool)
    requires Inv(s)
    ensures Inv(ProcessStep(s, finish, check, shardIdle))
  {
    if s.proc.PRelock? || s.proc.PStoreBusy? || s.proc.PUnlock? {
      WakingUpKeeps(s, finish, check, shardIdle);
    } else if s.proc.PTestActive? || s.proc.PTestTerminated? || s.proc.PBlock? || s.proc.PBlocked? {
      AsleepKeeps(s, finish, check, shardIdle);
    } else {
      GoingToSleepKeeps(s, finish, check, shardIdle);
    }
  }

  lemma {:induction false} WakeKeeps(s: State)
    requires Inv(s)
    ensures Inv(Notified(s))
  {
    SameCreatorsOnTheWay(s, Notified(s));
  }

  lemma {:induction false} TerminateKeeps(s: State)
    requires Inv(s)
    ensures Inv(TerminateStep(s))
  {
    SameCreatorsOnTheWay(s, TerminateStep(s));
  }

  lemma {:induction false} RunKeeps(threads: nat, es: seq<Event>)
    ensures Inv(Run(Init(threads), es))
  {
    if es != [] {
      var s := Run(Init(threads), es[..|es| - 1]);
      RunKeeps(threads, es[..|es| - 1]);
      var e := es[|es| - 1];
      match e
      case Create(i) => if i < |s.creators| { CreateKeeps(s, i); }
      case Process(finish, check, shardIdle) => ProcessKeeps(s, finish, check, shardIdle);
      case WakeSpuriously => WakeKeeps(s);
      case Terminate => TerminateKeeps(s);
    }
  }

  // ---------------------------------------------------------------------------
  // No wakeup is lost
  // ---------------------------------------------------------------------------

  /** If the processor is blocked then there is nothing to wake it for, or a thread is on its way to do so. */
  ghost predicate NoLostWakeup(s: State)
  {
    s.proc.PBlocked? ==> (s.active == 0 && !s.terminated) || SomeCreatorOnItsWay(s) || s.term.TNotify?
  }

  /**
   In every interleaving, a processor that is blocked with nobody on the way to wake it has
   not been asked to terminate, and the number of active transactions is a multiple of 2^16.
   */
  lemma {:induction false} BlockedMeansNothingCounted(threads: nat, es: seq<Event>)
    ensures var s := Run(Init(threads), es);
            s.proc.PBlocked? && !SomeCreatorOnItsWay(s) && !s.term.TNotify? ==> !s.terminated && s.active % WRAP == 0
  {
    RunKeeps(threads, es);
  }

  /** The events are steps of the threads that create transactions and of the one that terminates. */
  ghost predicate WithoutProcessor(es: seq<Event>)
  {
    forall e :: e in es ==> e.Create? || e.Terminate?
  }

  lemma {:induction false} Extend(s0: State, es: seq<Event>, e: Event) returns (es': seq<Event>)
    ensures es' == es + [e] && Run(s0, es') == Next(Run(s0, es), e)
  {
    es' := es + [e];
    assert es'[..|es'| - 1] == es;
  }

  /** The lock is held by nobody, and a thread has yet to load the status or to lock. */
  lemma {:induction false} CreatorArrives(s0: State, es0: seq<Event>, i: nat) returns (es: seq<Event>)
    requires var s := Run(s0, es0);
             Inv(s) && s.proc.PBlocked? && s.mux == Nobody && i < |s.creators| && OnItsWay(s.creators[i])
    ensures Run(s0, es).proc.PRelock? && es0 <= es && |es| <= |es0| + 3
    ensures WithoutProcessor(es0) ==> WithoutProcessor(es)
  {
    es := es0;
    if Run(s0, es0).creators[i].CLoadStatus? {
      es := Extend(s0, es, Create(i));
    }
    assert Run(s0, es).creators[i].CLock?;
    es := Extend(s0, es, Create(i));
    assert Run(s0, es).creators[i].CNotify?;
    es := Extend(s0, es, Create(i));
  }

  /** The processor is awake, or the lock is free and threads that were on their way still are. */
  ghost predicate AwakeOrFree(s: State, s': State)
  {
    s'.proc.PRelock? ||
    (&& Inv(s') && s'.proc.PBlocked? && s'.mux == Nobody
     && !s.term.TNotify? && (SomeCreatorOnItsWay(s) ==> SomeCreatorOnItsWay(s')))
  }

  lemma {:induction false} TerminatorStepsOn(s: State) returns (es: seq<Event>)
    requires Inv(s) && s.proc.PBlocked? && s.mux == TheTerminator
    ensures WithoutProcessor(es) && |es| <= 2 && AwakeOrFree(s, Run(s, es))
  {
    es := Extend(s, [], Terminate);
    if s.term.TStore? {
      es := Extend(s, es, Terminate);
    } else if s.term.TUnlock? {
      TerminateKeeps(s);
      SameCreatorsOnTheWay(s, TerminateStep(s));
    }
  }

  lemma {:induction false} CreatorStepsOn(s: State, j: nat) returns (es: seq<Event>)
    requires Inv(s) && s.proc.PBlocked? && s.mux == ACreator(j)
    ensures WithoutProcessor(es) && |es| <= 2 && AwakeOrFree(s, Run(s, es))
  {
    es := Extend(s, [], Create(j));
    CreateKeeps(s, j);
    if s.creators[j].CUnlock? && SomeCreatorOnItsWay(s) {
      var i :| 0 <= i < |s.creators| && OnItsWay(s.creators[i]);
      assert OnItsWay(CreateStep(s, j).creators[i]);
    }
  }

  /** Whoever holds the lock while the processor is blocked wakes it or lets go of the lock. */
  lemma {:induction false} HolderStepsOn(s: State) returns (es: seq<Event>)
    requires Inv(s) && s.proc.PBlocked?
    ensures WithoutProcessor(es) && |es| <= 2 && AwakeOrFree(s, Run(s, es))
  {
    if s.mux == TheTerminator {
      es := TerminatorStepsOn(s);
    } else if s.mux.ACreator? {
      es := CreatorStepsOn(s, s.mux.i);
    } else {
      es := [];
    }
  }

  /**
   From every state of every run in which the processor is blocked and somebody is on the
   way to wake it, at most five steps of the other threads wake it.
   */
  lemma {:induction false} OnItsWayArrives(threads: nat, before: seq<Event>) returns (es: seq<Event>)
    requires var s := Run(Init(threads), before); s.proc.PBlocked? && (SomeCreatorOnItsWay(s) || s.term.TNotify?)
    ensures WithoutProcessor(es) && |es| <= 5
    ensures Run(Run(Init(threads), before), es).proc.PRelock?
  {
    var s := Run(Init(threads), before);
    RunKeeps(threads, before);
    es := HolderStepsOn(s);
    if !Run(s, es).proc.PRelock? {
      var i :| 0 <= i < |Run(s, es).creators| && OnItsWay(Run(s, es).creators[i]);
      es := CreatorArrives(s, es, i);
    }
  }

  // ---------------------------------------------------------------------------
  // 2^16 active transactions
  // ---------------------------------------------------------------------------

  /** `n` transactions are created and not finished while the processor is busy. */
  lemma {:induction false} ManyActive(n: nat) returns (es: seq<Event>)
    ensures Run(Init(1), es) == Init(1).(active := n, peak := n)
  {
    if n == 0 {
      es := [];
    } else {
      es := ManyActive(n - 1);
      var s := Run(Init(1), es);
      es := Extend(Init(1), es, Create(0));
      if Counter(s) == 0 {
        es := Extend(Init(1), es, Create(0));
      }
      assert Run(Init(1), es).creators == [COut] == Init(1).creators;
    }
  }

  /** A processor that sees the counter at 0, undisturbed, goes to sleep. */
  lemma {:induction false} FallsAsleep(s0: State, es0: seq<Event>, s: State) returns (es: seq<Event>)
    requires Run(s0, es0) == s && s.proc == PRun && s.mux == Nobody && !s.terminated && Counter(s) == 0
    ensures Run(s0, es) == s.(proc := PBlocked, status := Sleep)
  {
    var e := Process(false, true, true);
    es := Extend(s0, es0, e);
    es := Extend(s0, es, e);
    assert Run(s0, es) == s.(proc := PCheckTerminated);
    es := Extend(s0, es, e);
    es := Extend(s0, es, e);
    es := Blocks(s0, es, s.(proc := PLock, status := Sleep));
  }

  lemma {:induction false} Blocks(s0: State, es0: seq<Event>, s: State) returns (es: seq<Event>)
    requires Run(s0, es0) == s && s.proc == PLock && s.mux == Nobody && !s.terminated && Counter(s) == 0
    ensures Run(s0, es) == s.(proc := PBlocked)
  {
    var e := Process(false, true, true);
    es := Extend(s0, es0, e);
    es := Extend(s0, es, e);
    assert Run(s0, es) == s.(proc := PTestTerminated, mux := TheProcessor);
    es := Extend(s0, es, e);
    es := Extend(s0, es, e);
  }

  /** With 2^16 transactions active the counter is back at 0 and the processor goes to sleep. */
  lemma {:induction false} SleepsThroughWrap() returns (es: seq<Event>)
    ensures Run(Init(1), es).peak == WRAP && !NoLostWakeup(Run(Init(1), es))
  {
    es := ManyActive(WRAP);
    es := FallsAsleep(Init(1), es, Run(Init(1), es));
  }

  /**
   No wakeup is lost in any run with at most `bound` transactions active at a time exactly when
   `bound` is below 2^16.
   */
  lemma {:induction false} NoLostWakeupExactlyBelowWrap(bound: nat)
    ensures (forall threads, es :: Run(Init(threads), es).peak <= bound ==> NoLostWakeup(Run(Init(threads), es)))
            <==> bound < WRAP
  {
    if bound < WRAP {
      forall threads, es | Run(Init(threads), es).peak <= bound ensures NoLostWakeup(Run(Init(threads), es)) {
        RunKeeps(threads, es);
      }
    } else {
      var es := SleepsThroughWrap();
    }
  }
}
