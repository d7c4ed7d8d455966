/**
 `LightweightSemaphore` of include/atomicops.h with one waiter and one signaller.

 The kernel semaphore is a counter of tokens.  Every event is one atomic operation on
 `m_count` or on the kernel semaphore, so a list of events is an arbitrary interleaving;
 a kernel wait may give up at any moment (a timeout, or an error return).
 */
module Semaphore {

  /** `TryOnly` is `tryWait`; `Blocking` is `wait` with or without a timeout. */
  datatype Mode = TryOnly | Blocking

  const SPINS: nat := 1024

  datatype Waiter =
    | WIdle(last: bool)            // outside; `last` is what the last call returned
    | WTryLoad(mode: Mode)         // tryWait: load the count
    | WSpin(left: nat)             // spin loop: load the count
    | WTake                        // the count was seen positive: decrement it
    | WDecrement                   // spinning was in vain: decrement anyway
    | WBlocked                     // in the kernel wait
    | WRestore                     // timed out: increment the count back
    | WRetake                      // it had been signalled after all: decrement again
    | WTryToken                    // and poll the kernel semaphore

  datatype Signaller =
    | SIdle
    | SAdd(n: nat)                 // add to the count
    | SPost                        // there was a waiter: post the kernel semaphore
    | SAssertFailed

  /** `signals` counts what has been added, `waits` the waits that have returned true. */
  datatype State = State(count: int, tokens: nat, w: Waiter, g: Signaller, signals: nat, waits: nat)

  datatype Event =
    | BeginWait(mode: Mode)
    | Wait(giveUp: bool)
    | BeginSignal(n: nat)
    | Signal

  function Init(initial: nat): State
  {
    State(initial, 0, WIdle(false), SIdle, initial, 0)
  }

  function Succeed(s: State): State
  {
    s.(w := WIdle(true), waits := s.waits + 1)
  }

  /** One step of `tryWait` or `waitWithPartialSpinning`. */
  function WaiterStep(s: State, giveUp: bool): State
  {
    match s.w
    case WIdle(_) => s
    case WTryLoad(mode) =>
      if s.count > 0 then s.(w := WTake)
      else if mode == TryOnly then s.(w := WIdle(false)) else s.(w := WSpin(SPINS))
    case WSpin(left) =>
      if left == 0 then s.(w := WDecrement)
      else if s.count > 0 then s.(w := WTake) else s.(w := WSpin(left - 1))
    case WTake => Succeed(s.(count := s.count - 1))
    case WDecrement =>
      if s.count > 0 then Succeed(s.(count := s.count - 1)) else s.(count := s.count - 1, w := WBlocked)
    case WBlocked =>
      if giveUp then s.(w := WRestore)
      else if s.tokens > 0 then Succeed(s.(tokens := s.tokens - 1)) else s
    case WRestore =>
      s.(count := s.count + 1, w := if s.count < 0 then WIdle(false) else WRetake)
    case WRetake =>
      s.(count := s.count - 1, w := if s.count > 0 then WTryToken else WRestore)
    case WTryToken =>
      if s.tokens > 0 then Succeed(s.(tokens := s.tokens - 1)) else s.(w := WRestore)
  }

  /** One step of `signal`. */
  function SignallerStep(s: State): State
  {
    match s.g
    case SIdle => s
    case SAdd(n) =>
      s.(count := s.count + n, signals := s.signals + n,
         g := if s.count < -1 then SAssertFailed else if s.count < 0 then SPost else SIdle)
    case SPost => s.(tokens := s.tokens + 1, g := SIdle)
    case SAssertFailed => s
  }

  function Next(s: State, e: Event): State
  {
    match e
    case BeginWait(mode) => if s.w.WIdle? then s.(w := WTryLoad(mode)) else s
    case Wait(giveUp) => WaiterStep(s, giveUp)
    case BeginSignal(n) => if s.g.SIdle? then s.(g := SAdd(n)) else s
    case Signal => SignallerStep(s)
  }

  function Run(s: State, es: seq<Event>): State
  {
    if es == [] then s else Next(Run(s, es[..|es| - 1]), es[|es| - 1])
  }

  // ---------------------------------------------------------------------------
  // The invariant
  // ---------------------------------------------------------------------------

  /** The waiter has decremented the count and not been served yet. */
  predicate Indebted(w: Waiter)
  {
    w.WBlocked? || w.WRestore? || w.WTryToken?
  }

  /** Tokens in the kernel semaphore and the one the signaller is about to post. */
  function Owed(s: State): nat
  {
    s.tokens + if s.g.SPost? then 1 else 0
  }

  ghost predicate Inv(s: State)
  {
    && s.count + (if Indebted(s.w) then 1 else 0) == s.signals - s.waits
    && !s.g.SAssertFailed? && (s.g.SAdd? ==> s.g.n >= 1)
    && (match s.w
        case WBlocked => (s.count == -1 && Owed(s) == 0) || (s.count >= 0 && Owed(s) == 1)
        case WRestore => (s.count == -1 && Owed(s) == 0) || (s.count >= 0 && Owed(s) == 1)
        case WRetake => s.count >= 1 && Owed(s) == 1
        case WTryToken => s.count >= 0 && Owed(s) == 1
        case WTake => s.count >= 1 && Owed(s) == 0
        case _ => s.count >= 0 && Owed(s) == 0)
  }

  ghost predicate SignalsSomething(e: Event)
  {
    e.BeginSignal? ==> e.n >= 1
  }

  lemma {:induction false} NextKeeps(s: State, e: Event)
    requires Inv(s) && SignalsSomething(e)
    ensures Inv(Next(s, e))
  {
  }

  lemma {:induction false} RunKeeps(initial: nat, es: seq<Event>)
    requires forall i :: 0 <= i < |es| ==> SignalsSomething(es[i])
    ensures Inv(Run(Init(initial), es))
  {
    if es != [] {
      RunKeeps(initial, es[..|es| - 1]);
      NextKeeps(Run(Init(initial), es[..|es| - 1]), es[|es| - 1]);
    }
  }

  // ---------------------------------------------------------------------------
  // What callers rely on
  // ---------------------------------------------------------------------------

  /** What the code and its assertion promise of a state. */
  ghost predicate Sound(s: State)
  {
    && s.waits <= s.signals
    && (s.g.SAdd? ==> s.count >= -1) && !s.g.SAssertFailed?
    && (s.w.WIdle? ==> s.tokens == 0 && !s.g.SPost? && s.count == s.signals - s.waits)
  }

  /**
   In every interleaving, however timeouts race with late posts: successful waits never
   exceed signals, a signal never sees a count below -1, and whenever the waiter is outside
   `wait` no kernel token is left over or on its way, and the count is what is still available.
   */
  lemma {:induction false} SemaphoreIsSound(initial: nat, es: seq<Event>)
    requires forall i :: 0 <= i < |es| ==> SignalsSomething(es[i])
    ensures Sound(Run(Init(initial), es))
  {
    RunKeeps(initial, es);
  }

  /** The repair loop polls the kernel semaphore whenever it retakes the count, and it does so
      with a token posted or about to be posted: the branch that goes round without polling is dead. */
  lemma {:induction false} RepairAlwaysPolls(initial: nat, es: seq<Event>, giveUp: bool)
    requires forall i :: 0 <= i < |es| ==> SignalsSomething(es[i])
    requires Run(Init(initial), es).w.WRetake?
    ensures Next(Run(Init(initial), es), Wait(giveUp)).w.WTryToken?
    ensures Owed(Next(Run(Init(initial), es), Wait(giveUp))) == 1
  {
    RunKeeps(initial, es);
  }

  // ---------------------------------------------------------------------------
  // signal(0)
  // ---------------------------------------------------------------------------

  lemma {:induction false} Extend(s0: State, es: seq<Event>, e: Event) returns (es': seq<Event>)
    ensures Run(s0, es') == Next(Run(s0, es), e)
  {
    es' := es + [e];
    assert es'[..|es'| - 1] == es;
  }

  /** A waiter spins in vain while the count is not positive. */
  lemma {:induction false} SpinInVain(s0: State, es: seq<Event>, k: nat) returns (es': seq<Event>)
    requires Run(s0, es).w == WSpin(k) && Run(s0, es).count <= 0
    ensures Run(s0, es') == Run(s0, es).(w := WSpin(0))
    decreases k
  {
    es' := es;
    if k > 0 {
      es' := Extend(s0, es, Wait(false));
      es' := SpinInVain(s0, es', k - 1);
    }
  }

  lemma {:induction false} BlocksInVain(s0: State) returns (es: seq<Event>)
    requires s0.w.WIdle? && s0.count == 0
    ensures Run(s0, es) == s0.(count := -1, w := WBlocked)
  {
    es := Extend(s0, [], BeginWait(Blocking));
    es := Extend(s0, es, Wait(false));
    assert Run(s0, es) == s0.(w := WSpin(SPINS));
    es := SpinInVain(s0, es, SPINS);
    es := Extend(s0, es, Wait(false));
    assert Run(s0, es) == s0.(w := WDecrement);
    es := Extend(s0, es, Wait(false));
  }

  lemma {:induction false} WokenByNothing(s0: State, es0: seq<Event>) returns (es: seq<Event>)
    requires Run(s0, es0) == s0.(count := -1, w := WBlocked) && s0.g.SIdle? && s0.signals == s0.waits
    ensures !Sound(Run(s0, es))
  {
    es := Extend(s0, es0, BeginSignal(0));
    es := Extend(s0, es, Signal);
    es := Extend(s0, es, Signal);
    assert Run(s0, es) == s0.(count := -1, w := WBlocked, tokens := s0.tokens + 1);
    es := Extend(s0, es, Wait(false));
  }

  /**
   The assertion in `signal` admits a count of 0, and then the promises fail: a blocked
   waiter is woken by a signal that adds nothing.
   */
  lemma {:induction false} EmptySignalWakes(s0: State) returns (es: seq<Event>)
    requires s0 == Init(0)
    ensures !Sound(Run(s0, es))
  {
    es := BlocksInVain(s0);
    es := WokenByNothing(s0, es);
  }

  ghost predicate AtLeast(e: Event, least: nat)
  {
    e.BeginSignal? ==> e.n >= least
  }

  /** The promises hold in every run whose signals all add at least `least` exactly when `least` is positive. */
  lemma {:induction false} SoundExactlyWhenSignalsAdd(least: nat)
    ensures (forall es :: (forall i :: 0 <= i < |es| ==> AtLeast(es[i], least)) ==> Sound(Run(Init(0), es)))
            <==> least >= 1
  {
    if least >= 1 {
      forall es | forall i :: 0 <= i < |es| ==> AtLeast(es[i], least) ensures Sound(Run(Init(0), es)) {
        assert forall i :: 0 <= i < |es| ==> AtLeast(es[i], least) && SignalsSomething(es[i]);
        SemaphoreIsSound(0, es);
      }
    } else {
      var es := EmptySignalWakes(Init(0));
      assert forall i :: 0 <= i < |es| ==> AtLeast(es[i], least);
    }
  }
}
