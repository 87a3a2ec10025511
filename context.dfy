/**
 * The per-step join of three asynchronous signals: end of stdout, end of
 * stderr and the exit result. A step is finalized once all three are in, and
 * finalizing takes the exit result out of its slot.
 */
module Context {
  import opened Wrappers
  import opened CommandTypes

  datatype Signals = Signals(stdoutDone: bool, stderrDone: bool, exitResult: Option<CommandResult>)

  /** A new context: neither stream ended, no exit result. */
  const Fresh: Signals := Signals(false, false, None)

  /** One arrival: a stream ended (for any reason), or the exit result was recorded. */
  datatype Signal = StreamEnd(isErrorStream: bool) | ExitRecorded(result: CommandResult)

  /** Storing a signal, before the finalize attempt that follows it. */
  function Record(s: Signals, sig: Signal): Signals {
    match sig
    case StreamEnd(isErr) => if isErr then s.(stderrDone := true) else s.(stdoutDone := true)
    case ExitRecorded(r) => s.(exitResult := Some(r))
  }

  predicate Ready(s: Signals) {
    s.stdoutDone && s.stderrDone && s.exitResult.Some?
  }

  /** The signals after a finalize attempt, and the result handed on if it fired. */
  datatype Attempt = Attempt(signals: Signals, fired: Option<CommandResult>)

  /**
   * Fires exactly when both streams have ended and an exit result is present;
   * firing empties the result slot and hands the result on. Otherwise nothing changes.
   */
  function TryFinalize(s: Signals): (a: Attempt)
    ensures a.fired.Some? <==> Ready(s)
    ensures a.fired.Some? ==> a.fired == s.exitResult && a.signals == s.(exitResult := None)
    ensures a.fired.None? ==> a.signals == s
    ensures a.signals.exitResult.None? ==> !Ready(a.signals)
  {
    if !(s.stdoutDone && s.stderrDone) then Attempt(s, None)
    else match s.exitResult
      case None => Attempt(s, None)
      case Some(r) => Attempt(s.(exitResult := None), Some(r))
  }

  /** One arrival followed by its finalize attempt. */
  function Deliver(s: Signals, sig: Signal): Attempt {
    TryFinalize(Record(s, sig))
  }

  /** The signals after a sequence of arrivals, and every result finalized on the way, in order. */
  function Replay(s: Signals, sigs: seq<Signal>): Attempts
    decreases |sigs|
  {
    if sigs == [] then Attempts(s, [])
    else
      var before := Replay(s, sigs[..|sigs| - 1]);
      var a := Deliver(before.signals, sigs[|sigs| - 1]);
      Attempts(a.signals, before.fired + (if a.fired.Some? then [a.fired.value] else []))
  }

  datatype Attempts = Attempts(signals: Signals, fired: seq<CommandResult>)

  /** The exit result among the arrivals, if there is one. */
  function ExitIn(sigs: seq<Signal>): Option<CommandResult>
    decreases |sigs|
  {
    if sigs == [] then None
    else if sigs[|sigs| - 1].ExitRecorded? then Some(sigs[|sigs| - 1].result)
    else ExitIn(sigs[..|sigs| - 1])
  }

  /** No two arrivals are exit results: the process layer reports a child's exit once. */
  predicate AtMostOneExit(sigs: seq<Signal>) {
    forall i, j :: 0 <= i < j < |sigs| && sigs[i].ExitRecorded? ==> !sigs[j].ExitRecorded?
  }

  /**
   * The state a fresh context reaches from a set of arrivals, stated independently
   * of their order: which streams have ended, and the exit result, which has been
   * handed on (and its slot emptied) once both streams have ended.
   */
  function Expected(sigs: seq<Signal>): Attempts {
    var out := StreamEnd(false) in sigs;
    var err := StreamEnd(true) in sigs;
    var ex := ExitIn(sigs);
    Attempts(Signals(out, err, if out && err then None else ex),
             if out && err && ex.Some? then [ex.value] else [])
  }

  /** The state after one more arrival, from the order-free description of the ones before. */
  function DeliverAfter(before: Attempts, sig: Signal): Attempts {
    var a := Deliver(before.signals, sig);
    Attempts(a.signals, before.fired + (if a.fired.Some? then [a.fired.value] else []))
  }

  /**
   * Whatever the order, and however often a stream's end is reported, a fresh
   * context that receives at most one exit result has finalized exactly once when
   * both streams have ended and the result is in, and not at all before; the
   * result it hands on is the one recorded.
   */
  lemma {:induction false} ReplayFromFresh(sigs: seq<Signal>)
    requires AtMostOneExit(sigs)
    ensures Replay(Fresh, sigs) == Expected(sigs)
    decreases |sigs|
  {
    if sigs != [] {
      var init := sigs[..|sigs| - 1];
      var last := sigs[|sigs| - 1];
      assert sigs == init + [last];
      assert forall i :: 0 <= i < |init| ==> init[i] == sigs[i];
      ReplayFromFresh(init);
      ExpectedSnoc(init, last);
    }
  }

  /** One more arrival moves the order-free description along as delivering it does. */
  lemma ExpectedSnoc(init: seq<Signal>, last: Signal)
    requires AtMostOneExit(init + [last])
    ensures Expected(init + [last]) == DeliverAfter(Expected(init), last)
  {
    var sigs := init + [last];
    assert sigs[..|sigs| - 1] == init;
    assert forall x :: x in sigs <==> x in init || x == last;
    if last.ExitRecorded? {
      assert sigs[|init|] == last;
      forall i | 0 <= i < |init| ensures init[i].StreamEnd? {
        assert sigs[i] == init[i];
      }
      NoExitArrival(init);
    }
  }

  /** Without an exit arrival, the arrivals carry no exit result. */
  lemma {:induction false} NoExitArrival(sigs: seq<Signal>)
    requires forall i :: 0 <= i < |sigs| ==> sigs[i].StreamEnd?
    ensures ExitIn(sigs).None?
    decreases |sigs|
  {
    if sigs != [] {
      NoExitArrival(sigs[..|sigs| - 1]);
    }
  }

  /** A sequence that carries an exit result contains an exit arrival. */
  lemma {:induction false} ExitInIsMember(sigs: seq<Signal>)
    requires ExitIn(sigs).Some?
    ensures ExitRecorded(ExitIn(sigs).value) in sigs
    decreases |sigs|
  {
    if !sigs[|sigs| - 1].ExitRecorded? {
      ExitInIsMember(sigs[..|sigs| - 1]);
    }
  }

  /** The three signals of one step, each once, in some order. */
  predicate IsArrivalOrder(sigs: seq<Signal>, r: CommandResult) {
    |sigs| == 3 && StreamEnd(false) in sigs && StreamEnd(true) in sigs && ExitRecorded(r) in sigs
  }

  lemma ArrivalOrderHasOneExit(sigs: seq<Signal>, r: CommandResult)
    requires IsArrivalOrder(sigs, r)
    ensures AtMostOneExit(sigs) && ExitIn(sigs) == Some(r)
  {
    var p :| 0 <= p < 3 && sigs[p] == StreamEnd(false);
    var q :| 0 <= q < 3 && sigs[q] == StreamEnd(true);
    var e :| 0 <= e < 3 && sigs[e] == ExitRecorded(r);
    assert forall i :: 0 <= i < 3 && sigs[i].ExitRecorded? ==> i == e;
    ExitArrivalGivesExit(sigs, e);
    ExitInIsMember(sigs);
  }

  lemma {:induction false} ExitArrivalGivesExit(sigs: seq<Signal>, e: nat)
    requires e < |sigs| && sigs[e].ExitRecorded?
    ensures ExitIn(sigs).Some?
    decreases |sigs|
  {
    if e < |sigs| - 1 {
      ExitArrivalGivesExit(sigs[..|sigs| - 1], e);
    }
  }

  /**
   * Any arrival order of {stdout end, stderr end, exit result} finalizes exactly
   * once, at the last arrival, handing on the recorded result.
   */
  lemma AnyOrderFinalizesOnce(sigs: seq<Signal>, r: CommandResult)
    requires IsArrivalOrder(sigs, r)
    ensures Replay(Fresh, sigs).fired == [r]
    ensures forall k :: 0 <= k < |sigs| ==> Replay(Fresh, sigs[..k]).fired == []
  {
    ArrivalOrderHasOneExit(sigs, r);
    ReplayFromFresh(sigs);
    forall k | 0 <= k < |sigs| ensures Replay(Fresh, sigs[..k]).fired == [] {
      PrefixMissesOne(sigs, r, k);
      ReplayFromFresh(sigs[..k]);
    }
  }

  /** A proper prefix of an arrival order lacks one of the three signals. */
  lemma PrefixMissesOne(sigs: seq<Signal>, r: CommandResult, k: nat)
    requires IsArrivalOrder(sigs, r) && k < 3
    ensures AtMostOneExit(sigs[..k])
    ensures !(StreamEnd(false) in sigs[..k] && StreamEnd(true) in sigs[..k] && ExitIn(sigs[..k]).Some?)
  {
    ArrivalOrderHasOneExit(sigs, r);
    var pre := sigs[..k];
    assert forall i :: 0 <= i < k ==> pre[i] == sigs[i];
    if ExitIn(pre).Some? {
      ExitInIsMember(pre);
    }
  }

  /**
   * The code does not guard against a second exit result: one arriving after
   * finalization would finalize the step again. The process layer reports the
   * exit of a child once, so this never happens.
   */
  lemma SecondExitFinalizesAgain(s: Signals, r: CommandResult)
    requires s.stdoutDone && s.stderrDone && s.exitResult.None?
    ensures Deliver(s, ExitRecorded(r)).fired == Some(r)
  {
  }

  /** A stream end that arrives after finalization changes nothing and finalizes nothing. */
  lemma LateStreamEndIsNoOp(s: Signals, isErr: bool)
    requires s.stdoutDone && s.stderrDone && s.exitResult.None?
    ensures Deliver(s, StreamEnd(isErr)) == Attempt(s, None)
  {
  }
}
