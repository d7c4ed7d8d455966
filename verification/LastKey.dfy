/**
 Publishing the last key of a scan batch once: `UpdateLastKey` and `PeekLastKey` of
 `RangeScanSliceResult` (include/tx_operation_result.h), called by any number of threads
 with no reset in between. Writing the key is not atomic: a reader could catch it half
 written. Every event is one step of one call.
 */
module LastKey {
  import opened Options

  datatype Status = Unset | Setting | Setup

  datatype Slot<K> = Empty | Torn | Full(key: K)

  datatype Pc<K> =
    | Start                                    // compare_exchange Unset -> Setting
    | WritePosition
    | WriteKey                                 // the key starts to change
    | FinishKey                                // and is complete
    | Publish                                  // store Setup
    | Poll                                     // until Setup is seen
    | Read(success: bool)                      // what the call returns
    | Returned(result: Slot<K>, success: bool)
    | PeekStart                                // load the status
    | PeekFailed

  datatype Call<K> = Call(key: K, position: nat, pc: Pc<K>)

  /** `winner` remembers which call's exchange succeeded. */
  datatype State<K> = State(status: Status, slot: Slot<K>, position: nat, calls: seq<Call<K>>, winner: Option<nat>)

  predicate Fresh<K>(calls: seq<Call<K>>)
  {
    forall i :: 0 <= i < |calls| ==> calls[i].pc.Start? || calls[i].pc.PeekStart?
  }

  function Init<K>(calls: seq<Call<K>>): State<K>
  {
    State(Unset, Empty, 0, calls, None)
  }

  function Goto<K>(s: State<K>, i: nat, pc: Pc<K>): State<K>
    requires i < |s.calls|
  {
    s.(calls := s.calls[i := s.calls[i].(pc := pc)])
  }

  function Next<K>(s: State<K>, i: nat): (s': State<K>)
    ensures |s'.calls| == |s.calls|
  {
    if i >= |s.calls| then s
    else
      match s.calls[i].pc
      case Start =>
        if s.status == Unset then Goto(s, i, WritePosition).(status := Setting, winner := Some(i))
        else Goto(s, i, if s.status == Setup then Read(false) else Poll)
      case WritePosition => Goto(s, i, WriteKey).(position := s.calls[i].position)
      case WriteKey => Goto(s, i, FinishKey).(slot := Torn)
      case FinishKey => Goto(s, i, Publish).(slot := Full(s.calls[i].key))
      case Publish => Goto(s, i, Read(true)).(status := Setup)
      case Poll => if s.status == Setup then Goto(s, i, Read(false)) else s
      case Read(success) => Goto(s, i, Returned(s.slot, success))
      case Returned(_, _) => s
      case PeekStart => Goto(s, i, if s.status == Setup then Read(false) else PeekFailed)
      case PeekFailed => s
  }

  function Run<K>(s: State<K>, es: seq<nat>): (s': State<K>)
    ensures |s'.calls| == |s.calls|
  {
    if es == [] then s else Next(Run(s, es[..|es| - 1]), es[|es| - 1])
  }

  // ---------------------------------------------------------------------------
  // The invariant
  // ---------------------------------------------------------------------------

  ghost predicate Writing<K>(pc: Pc<K>)
  {
    pc.WritePosition? || pc.WriteKey? || pc.FinishKey? || pc.Publish?
  }

  /** How far the winner has come, against what it has written. */
  ghost predicate WinnerAt<K>(s: State<K>, w: nat)
    requires w < |s.calls|
  {
    var c := s.calls[w];
    match c.pc
    case WritePosition => s.slot == Empty
    case WriteKey => s.slot == Empty && s.position == c.position
    case FinishKey => s.slot == Torn && s.position == c.position
    case Publish => s.slot == Full(c.key) && s.position == c.position
    case _ => false
  }

  /** What a call may be at, given who has won. */
  ghost predicate CallOk<K>(s: State<K>, i: nat)
    requires i < |s.calls| && (s.winner.Some? ==> s.winner.value < |s.calls|)
  {
    var pc := s.calls[i].pc;
    && (Writing(pc) ==> s.status == Setting && s.winner == Some(i))
    && (pc.Read? ==> s.status == Setup && (pc.success <==> s.winner == Some(i)))
    && (pc.Returned? ==> s.status == Setup && s.winner.Some? && pc.result == Full(s.calls[s.winner.value].key)
                         && (pc.success <==> s.winner == Some(i)))
    && (pc.Start? || pc.PeekStart? || pc.Poll? || pc.PeekFailed? ==> s.winner != Some(i))
  }

  ghost predicate Inv<K(!new)>(s: State<K>)
  {
    && (s.status == Unset <==> s.winner.None?)
    && (s.winner.Some? ==> s.winner.value < |s.calls|)
    && (s.status == Setting ==> WinnerAt(s, s.winner.value))
    && (s.status == Setup ==>
          s.slot == Full(s.calls[s.winner.value].key) && s.position == s.calls[s.winner.value].position)
    && (forall i :: 0 <= i < |s.calls| ==> CallOk(s, i))
    && (s.status == Unset ==> s.slot == Empty)
  }

  lemma {:induction false} NextKeeps<K(!new)>(s: State<K>, i: nat)
    requires Inv(s)
    ensures Inv(Next(s, i))
  {
    var s' := Next(s, i);
    if i < |s.calls| {
      assert CallOk(s, i);
      forall j | 0 <= j < |s'.calls| ensures CallOk(s', j) {
        assert CallOk(s, j);
      }
    }
  }

  lemma {:induction false} RunKeeps<K(!new)>(calls: seq<Call<K>>, es: seq<nat>)
    requires Fresh(calls)
    ensures Inv(Run(Init(calls), es))
    ensures var s := Run(Init(calls), es);
            forall i :: 0 <= i < |calls| ==> s.calls[i].key == calls[i].key && s.calls[i].position == calls[i].position
  {
    if es != [] {
      RunKeeps(calls, es[..|es| - 1]);
      NextKeeps(Run(Init(calls), es[..|es| - 1]), es[|es| - 1]);
    }
  }

  /**
   In every interleaving at most one call reports success, and every call or peek that
   has returned a key reports the winner's, complete and with its slice position.
   */
  lemma {:induction false} OneKeyForAll<K(!new)>(calls: seq<Call<K>>, es: seq<nat>, i: nat, j: nat)
    requires Fresh(calls) && i < |calls| && j < |calls|
    requires var s := Run(Init(calls), es); s.calls[i].pc.Returned? && s.calls[j].pc.Returned?
    ensures var s := Run(Init(calls), es);
            && s.winner.Some? && s.winner.value < |calls|
            && s.calls[i].pc.result == s.calls[j].pc.result == Full(calls[s.winner.value].key)
            && s.position == calls[s.winner.value].position
            && (s.calls[i].pc.success <==> s.winner == Some(i))
            && (s.calls[i].pc.success && s.calls[j].pc.success ==> i == j)
  {
    RunKeeps(calls, es);
    var s := Run(Init(calls), es);
    assert CallOk(s, i) && CallOk(s, j);
  }
}
