/**
 The latch of a transaction shard (include/tx_service.h): `TxShardStatus` arbitrates
 between the native thread in `Run`, any number of external threads in rounds or in
 `ForwardTx`, and `Terminate`.

 Every event is one operation on a shared variable, under sequential consistency.
 */
module ShardLatch {

  datatype Status = Uninitialized | Free | Occupied | Deconstructed

  datatype Native =
    | NStart                 // Run: the status must be Uninitialized, then becomes Free
    | NLoop                  // load terminated_
    | NTry                   // compare_exchange Free -> Occupied
    | NHold                  // forwards transactions, then stores Free
    | NLeft                  // out of the loop: the status must be Deconstructed
    | NDone
    | NAssertFailed

  /** `inForwardTx` tells `ForwardTx`, which asserts Occupied before it releases, from a round. */
  datatype External =
    | EOut
    | ETry(inForwardTx: bool)
    | EHold(inForwardTx: bool)
    | EAssertFailed

  datatype Terminator =
    | TSpin                  // compare_exchange_weak Free -> Deconstructed
    | TClear                 // cc_hd_ = nullptr
    | TSet                   // terminated_ = true
    | TDone

  datatype State = State(status: Status, handler: bool, terminated: bool,
                         native: Native, externals: seq<External>, term: Terminator)

  datatype Event =
    | NativeStep
    | ExternalStep(i: nat, forwardTx: bool)
    | TerminatorStep(spuriousFailure: bool)

  function Init(threads: nat): State
  {
    State(Uninitialized, true, false, NStart, seq(threads, _ => EOut), TSpin)
  }

  function NativeNext(s: State): State
  {
    match s.native
    case NStart =>
      if s.status == Uninitialized then s.(status := Free, native := NLoop) else s.(native := NAssertFailed)
    case NLoop => s.(native := if s.terminated then NLeft else NTry)
    case NTry => if s.status == Free then s.(status := Occupied, native := NHold) else s.(native := NLoop)
    case NHold => s.(status := Free, native := NLoop)
    case NLeft => s.(native := if s.status == Deconstructed then NDone else NAssertFailed)
    case NDone => s
    case NAssertFailed => s
  }

  function ExternalNext(s: State, i: nat, forwardTx: bool): State
    requires i < |s.externals|
  {
    match s.externals[i]
    case EOut => s.(externals := s.externals[i := ETry(forwardTx)])
    case ETry(f) =>
      if s.status == Free then s.(status := Occupied, externals := s.externals[i := EHold(f)])
      else s.(externals := s.externals[i := EOut])
    case EHold(f) =>
      if f && s.status != Occupied then s.(externals := s.externals[i := EAssertFailed])
      else s.(status := Free, externals := s.externals[i := EOut])
    case EAssertFailed => s
  }

  function TerminatorNext(s: State, spuriousFailure: bool): State
  {
    match s.term
    case TSpin => if s.status == Free && !spuriousFailure then s.(status := Deconstructed, term := TClear) else s
    case TClear => s.(handler := false, term := TSet)
    case TSet => s.(terminated := true, term := TDone)
    case TDone => s
  }

  function Next(s: State, e: Event): State
  {
    match e
    case NativeStep => NativeNext(s)
    case ExternalStep(i, forwardTx) => if i < |s.externals| then ExternalNext(s, i, forwardTx) else s
    case TerminatorStep(spuriousFailure) => TerminatorNext(s, spuriousFailure)
  }

  function Run(s: State, es: seq<Event>): State
  {
    if es == [] then s else Next(Run(s, es[..|es| - 1]), es[|es| - 1])
  }

  // ---------------------------------------------------------------------------
  // The invariant
  // ---------------------------------------------------------------------------

  /** Party -1 is the native thread; the others are numbered. */
  predicate Holds(s: State, party: int)
  {
    if party == -1 then s.native.NHold? else 0 <= party < |s.externals| && s.externals[party].EHold?
  }

  ghost predicate AtMostOneHolder(s: State)
  {
    forall a, b :: Holds(s, a) && Holds(s, b) ==> a == b
  }

  ghost predicate SomeHolder(s: State)
  {
    exists a :: Holds(s, a)
  }

  ghost predicate Inv(s: State)
  {
    && AtMostOneHolder(s)
    && (s.status == Occupied <==> SomeHolder(s))
    && (s.status == Uninitialized <==> s.native.NStart?)
    && (s.status == Deconstructed <==> !s.term.TSpin?)
    && (s.handler <==> s.term.TSpin? || s.term.TClear?)
    && (s.terminated <==> s.term.TDone?)
    && (s.native.NLeft? || s.native.NDone? ==> s.terminated)
    && !s.native.NAssertFailed?
    && (forall i :: 0 <= i < |s.externals| ==> !s.externals[i].EAssertFailed?)
  }

  lemma {:induction false} NativeKeeps(s: State)
    requires Inv(s)
    ensures Inv(NativeNext(s))
  {
    var s' := NativeNext(s);
    assert forall a :: a != -1 ==> (Holds(s', a) <==> Holds(s, a));
    if s'.native.NHold? {
      assert Holds(s', -1);
    }
    if s.native.NHold? {
      assert Holds(s, -1);
    }
  }

  lemma {:induction false} ExternalKeeps(s: State, i: nat, forwardTx: bool)
    requires Inv(s) && i < |s.externals|
    ensures Inv(ExternalNext(s, i, forwardTx))
  {
    var s' := ExternalNext(s, i, forwardTx);
    assert forall a :: a != i ==> (Holds(s', a) <==> Holds(s, a));
    assert Holds(s', i) <==> s'.externals[i].EHold?;
    assert Holds(s, i) <==> s.externals[i].EHold?;
  }

  lemma {:induction false} TerminatorKeeps(s: State, spuriousFailure: bool)
    requires Inv(s)
    ensures Inv(TerminatorNext(s, spuriousFailure))
  {
    assert forall a :: Holds(TerminatorNext(s, spuriousFailure), a) <==> Holds(s, a);
  }

  lemma {:induction false} NextKeeps(s: State, e: Event)
    requires Inv(s)
    ensures Inv(Next(s, e))
  {
    match e
    case NativeStep => NativeKeeps(s);
    case ExternalStep(i, forwardTx) => if i < |s.externals| { ExternalKeeps(s, i, forwardTx); }
    case TerminatorStep(spuriousFailure) => TerminatorKeeps(s, spuriousFailure);
  }

  lemma {:induction false} RunKeeps(threads: nat, es: seq<Event>)
    ensures Inv(Run(Init(threads), es))
  {
    if es != [] {
      RunKeeps(threads, es[..|es| - 1]);
      NextKeeps(Run(Init(threads), es[..|es| - 1]), es[|es| - 1]);
    }
  }

  // ---------------------------------------------------------------------------
  // What the latch guarantees
  // ---------------------------------------------------------------------------

  /**
   In every interleaving at most one party holds the latch and whoever holds it still has
   the cc handler; none of the assertions on the status fails, so a native thread that has
   left its loop finds Deconstructed; and an occupied latch has a holder.
   */
  lemma {:induction false} LatchIsExclusive(threads: nat, es: seq<Event>)
    ensures var s := Run(Init(threads), es);
            && AtMostOneHolder(s)
            && (s.status == Occupied <==> SomeHolder(s))
            && (SomeHolder(s) ==> s.handler)
            && !s.native.NAssertFailed?
            && (forall i :: 0 <= i < |s.externals| ==> !s.externals[i].EAssertFailed?)
            && (s.native.NLeft? || s.native.NDone? ==> s.status == Deconstructed)
  {
    RunKeeps(threads, es);
  }

  /**
   Once Deconstructed, the status is never overwritten, whatever happens afterwards, and
   nobody gets hold of the latch again.
   */
  lemma {:induction false} DeconstructedIsFinal(threads: nat, es: seq<Event>, more: seq<Event>)
    requires Run(Init(threads), es).status == Deconstructed
    ensures Run(Run(Init(threads), es), more).status == Deconstructed
    ensures Inv(Run(Run(Init(threads), es), more)) && !SomeHolder(Run(Run(Init(threads), es), more))
    decreases |more|
  {
    if more == [] {
      RunKeeps(threads, es);
    } else {
      var s := Run(Run(Init(threads), es), more[..|more| - 1]);
      DeconstructedIsFinal(threads, es, more[..|more| - 1]);
      NextKeeps(s, more[|more| - 1]);
      NobodyReleases(s, more[|more| - 1]);
    }
  }

  lemma {:induction false} NobodyReleases(s: State, e: Event)
    requires Inv(s) && s.status == Deconstructed
    ensures Next(s, e).status == Deconstructed
  {
    assert !Holds(s, -1);
    if e.ExternalStep? {
      assert !Holds(s, e.i);
    }
  }

  /** The handler is cleared only at a moment when nobody holds the latch. */
  lemma {:induction false} ClearedWhileUnheld(threads: nat, es: seq<Event>, e: Event)
    requires Run(Init(threads), es).handler && !Next(Run(Init(threads), es), e).handler
    ensures !SomeHolder(Run(Init(threads), es)) && !SomeHolder(Next(Run(Init(threads), es), e))
  {
    RunKeeps(threads, es);
    NextKeeps(Run(Init(threads), es), e);
  }
}
