/** Stopping a child process and waiting for its exit: SIGTERM, a grace period, SIGKILL, and an exit
    code latched once for every caller. */
module ChildProcess {
  import opened Options

  /** What can happen to one child, in any order. `delivered` says whether the signal that the step
      may send reaches the process; `Exits` sets the process's exit status (no code when it died on a
      signal); `Closes` is the `close` event, `Fires` the end of the grace period. */
  datatype Op =
    | Kill(delivered: bool)
    | Exits(code: Option<int>)
    | Closes
    | Fires(delivered: bool)
    | Passes(ms: nat)
    | Waits

  datatype Signal = Term | Kill9

  /** A signal sent at step `step` of a run. */
  datatype Sent = Sent(signal: Signal, step: nat)

  // -- What a run of steps means ---------------------------------------------------------

  function Before(ops: seq<Op>): seq<Op>
    requires ops != []
  {
    ops[..|ops| - 1]
  }

  /** The exit status, once there is one. */
  function Exit(ops: seq<Op>): Option<Option<int>> {
    if ops == [] then None
    else
      var e := Exit(Before(ops));
      if e.None? && ops[|ops| - 1].Exits? then Some(ops[|ops| - 1].code) else e
  }

  /** `close` comes once, after the exit. */
  predicate Closed(ops: seq<Op>) {
    ops != [] && (Closed(Before(ops)) || (ops[|ops| - 1].Closes? && Exit(Before(ops)).Some?))
  }

  function Clock(ops: seq<Op>): nat {
    if ops == [] then 0
    else Clock(Before(ops)) + (if ops[|ops| - 1].Passes? then ops[|ops| - 1].ms else 0)
  }

  /** The time of the first kill request on the living process. */
  function Asked(ops: seq<Op>): Option<nat> {
    if ops == [] then None
    else
      var a := Asked(Before(ops));
      if a.None? && ops[|ops| - 1].Kill? && Exit(Before(ops)).None? then Some(Clock(Before(ops))) else a
  }

  /** The grace period after the first kill request has run out. */
  predicate Overdue(ops: seq<Op>, grace: nat) {
    Asked(ops).Some? && Clock(ops) >= Asked(ops).value + grace
  }

  /** The timer has gone off: it does so once at most, when overdue, and not after `close`. */
  predicate Fired(ops: seq<Op>, grace: nat) {
    ops != []
    && (Fired(Before(ops), grace)
        || (ops[|ops| - 1].Fires? && Overdue(Before(ops), grace) && !Closed(Before(ops))))
  }

  /** Step `k` must send SIGTERM: a kill request on the living process that no signal reached yet. */
  predicate TermDue(ops: seq<Op>, grace: nat, k: nat) {
    k < |ops| && ops[k].Kill? && Exit(ops[..k]).None? && !Reached(ops[..k], grace)
  }

  /** Step `k` must send SIGKILL: the timer goes off and the process is still alive. */
  predicate Kill9Due(ops: seq<Op>, grace: nat, k: nat) {
    k < |ops| && ops[k].Fires? && Overdue(ops[..k], grace) && !Fired(ops[..k], grace)
    && !Closed(ops[..k]) && Exit(ops[..k]).None?
  }

  /** Some signal was delivered. */
  predicate Reached(ops: seq<Op>, grace: nat) {
    ops != []
    && (Reached(Before(ops), grace)
        || (Exit(Before(ops)).None?
            && match ops[|ops| - 1]
               case Kill(delivered) => delivered
               case Fires(delivered) =>
                 delivered && Overdue(Before(ops), grace) && !Fired(Before(ops), grace) && !Closed(Before(ops))
               case _ => false))
  }

  function WaitCalls(ops: seq<Op>): nat {
    if ops == [] then 0 else WaitCalls(Before(ops)) + (if ops[|ops| - 1].Waits? then 1 else 0)
  }

  // -- The spawned turn --------------------------------------------------------------------

  class ChildProcess {
    const graceMs: nat
    // The process, as the runtime reports it.
    var status: Option<Option<int>>
    var killed: bool
    var clock: nat
    // The closure's own variables.
    var killTimer: Option<nat>
    var timerPending: bool
    var exitCode: Option<Option<int>>
    var exitWaiters: seq<nat>
    // What has been sent and resolved so far.
    var signals: seq<Sent>
    var waits: nat
    var timers: nat
    var resolved: seq<(nat, Option<int>)>
    /** The steps so far; their number dates the signals sent. */
    var history: seq<Op>

    ghost predicate Valid()
      reads this
    {
      && status == Exit(history)
      && killed == Reached(history, graceMs)
      && clock == Clock(history)
      && killTimer == (match Asked(history) case None => None case Some(t) => Some(t + graceMs))
      && (Fired(history, graceMs) ==> killTimer.Some?)
      && timerPending == (killTimer.Some? && !Fired(history, graceMs) && !Closed(history))
      && timers == (if killTimer.Some? then 1 else 0)
      && exitCode == (if Closed(history) then status else None)
      && (Closed(history) ==> status.Some?)
      && waits == WaitCalls(history)
      && SignalsDue(history, graceMs, signals)
      && ResolvedOnce(history, resolved)
      && exitWaiters == (if Closed(history) then [] else seq(waits, i => i))
    }

    constructor (graceMs: nat)
      ensures Valid() && history == [] && this.graceMs == graceMs
    {
      this.graceMs := graceMs;
      status, killed, clock, killTimer, timerPending := None, false, 0, None, false;
      exitCode, exitWaiters, signals, waits, timers, resolved := None, [], [], 0, 0, [];
      history := [];
    }

    method Kill(delivered: bool)
      requires Valid()
      modifies this
      ensures Valid() && history == old(history) + [Op.Kill(delivered)]
    {
      hide Exit, Closed, Clock, Asked, Fired, Reached, WaitCalls, SignalsDue;
      Extend(history, graceMs, signals, Op.Kill(delivered));
      if status.None? {
        if !killed {
          signals := signals + [Sent(Term, |history|)];
          killed := delivered;
        }
        if killTimer.None? {
          killTimer, timerPending, timers := Some(clock + graceMs), true, timers + 1;
        }
      }
      history := history + [Op.Kill(delivered)];
    }

    /** The runtime lets the timer go off only when it is pending and due. */
    method OnTimer(delivered: bool)
      requires Valid()
      modifies this
      ensures Valid() && history == old(history) + [Fires(delivered)]
    {
      hide Exit, Closed, Clock, Asked, Fired, Reached, WaitCalls, SignalsDue;
      Extend(history, graceMs, signals, Fires(delivered));
      if timerPending && clock >= killTimer.value {
        timerPending := false;
        if status.None? {
          signals := signals + [Sent(Kill9, |history|)];
          killed := killed || delivered;
        }
      }
      history := history + [Fires(delivered)];
    }

    method OnExit(code: Option<int>)
      requires Valid()
      modifies this
      ensures Valid() && history == old(history) + [Exits(code)]
    {
      hide Exit, Closed, Clock, Asked, Fired, Reached, WaitCalls, SignalsDue;
      Extend(history, graceMs, signals, Exits(code));
      if status.None? {
        status := Some(code);
      }
      history := history + [Exits(code)];
    }

    method Pass(ms: nat)
      requires Valid()
      modifies this
      ensures Valid() && history == old(history) + [Passes(ms)]
    {
      hide Exit, Closed, Clock, Asked, Fired, Reached, WaitCalls, SignalsDue;
      Extend(history, graceMs, signals, Passes(ms));
      clock := clock + ms;
      history := history + [Passes(ms)];
    }

    method OnClose()
      requires Valid()
      modifies this
      ensures Valid() && history == old(history) + [Closes]
    {
      hide Exit, Closed, Clock, Asked, Fired, Reached, WaitCalls, SignalsDue;
      Extend(history, graceMs, signals, Closes);
      if status.Some? && exitCode.None? {
        exitCode, timerPending := status, false;
        var waiting := exitWaiters;
        exitWaiters := [];
        for i := 0 to |waiting|
          invariant unchanged(`history) && unchanged(`signals) && unchanged(`waits) && unchanged(`status)
          invariant unchanged(`killed) && unchanged(`clock) && unchanged(`killTimer) && unchanged(`timers)
          invariant exitCode == status && !timerPending && exitWaiters == []
          invariant |resolved| == i && forall j :: 0 <= j < i ==> resolved[j] == (j, status.value)
        {
          resolved := resolved + [(waiting[i], exitCode.value)];
        }
      }
      history := history + [Closes];
    }

    method WaitExit()
      requires Valid()
      modifies this
      ensures Valid() && history == old(history) + [Waits]
    {
      hide Exit, Closed, Clock, Asked, Fired, Reached, WaitCalls, SignalsDue;
      Extend(history, graceMs, signals, Waits);
      if exitCode.None? {
        exitWaiters := exitWaiters + [waits];
      } else {
        resolved := resolved + [(waits, exitCode.value)];
      }
      waits := waits + 1;
      history := history + [Waits];
    }
  }

  /** The signals sent are those that were due, and no others. */
  ghost predicate SignalsDue(ops: seq<Op>, grace: nat, signals: seq<Sent>) {
    && (forall k :: Sent(Term, k) in signals <==> TermDue(ops, grace, k))
    && (forall k :: Sent(Kill9, k) in signals <==> Kill9Due(ops, grace, k))
  }

  /** Nobody is answered before `close`; afterwards every call, early or late, has been answered
      exactly once, with the status the process exited with. */
  ghost predicate ResolvedOnce(ops: seq<Op>, resolved: seq<(nat, Option<int>)>) {
    && |resolved| == (if Closed(ops) then WaitCalls(ops) else 0)
    && forall i :: 0 <= i < |resolved| ==> Exit(ops).Some? && resolved[i] == (i, Exit(ops).value)
  }

  /** One more step. */
  lemma Extend(ops: seq<Op>, grace: nat, signals: seq<Sent>, op: Op)
    requires SignalsDue(ops, grace, signals)
    ensures var all := ops + [op];
      var fires := op.Fires? && Overdue(ops, grace) && !Fired(ops, grace) && !Closed(ops);
      var alive := Exit(ops).None?;
      && Exit(all) == (if alive && op.Exits? then Some(op.code) else Exit(ops))
      && Closed(all) == (Closed(ops) || (op.Closes? && !alive))
      && Clock(all) == Clock(ops) + (if op.Passes? then op.ms else 0)
      && Asked(all) == (if Asked(ops).None? && op.Kill? && alive then Some(Clock(ops)) else Asked(ops))
      && Fired(all, grace) == (Fired(ops, grace) || fires)
      && WaitCalls(all) == WaitCalls(ops) + (if op.Waits? then 1 else 0)
      && Reached(all, grace)
         == (Reached(ops, grace) || (alive && ((op.Kill? && op.delivered) || (fires && op.delivered))))
      && (op.Kill? && alive && !Reached(ops, grace) ==> SignalsDue(all, grace, signals + [Sent(Term, |ops|)]))
      && (fires && alive ==> SignalsDue(all, grace, signals + [Sent(Kill9, |ops|)]))
      && (!(op.Kill? && alive && !Reached(ops, grace)) && !(fires && alive) ==> SignalsDue(all, grace, signals))
  {
    var all := ops + [op];
    assert Before(all) == ops;
    assert forall k :: 0 <= k <= |ops| ==> all[..k] == ops[..k];
    assert all[..|ops|] == ops;
  }

  /** Every interleaving of kill, exit, timer, close and wait. */
  method Run(graceMs: nat, ops: seq<Op>)
    returns (signals: seq<Sent>, resolved: seq<(nat, Option<int>)>, waiting: seq<nat>, timers: nat)
    ensures SignalsDue(ops, graceMs, signals)
    ensures ResolvedOnce(ops, resolved)
    ensures |waiting| == if Closed(ops) then 0 else WaitCalls(ops)
    ensures timers == if Asked(ops).Some? then 1 else 0
  {
    var p := new ChildProcess(graceMs);
    for i := 0 to |ops|
      invariant p.Valid() && p.history == ops[..i] && p.graceMs == graceMs && fresh(p)
    {
      assert ops[..i + 1] == ops[..i] + [ops[i]];
      match ops[i] {
        case Kill(delivered) => p.Kill(delivered);
        case Exits(code) => p.OnExit(code);
        case Closes => p.OnClose();
        case Fires(delivered) => p.OnTimer(delivered);
        case Passes(ms) => p.Pass(ms);
        case Waits => p.WaitExit();
      }
    }
    assert ops[..|ops|] == ops;
    return p.signals, p.resolved, p.exitWaiters, p.timers;
  }

  // -- What the rules amount to -----------------------------------------------------------------

  /** SIGKILL only ever goes to a process that is still alive when the grace period after an earlier
      request on it, made while it was alive, is over; */
  lemma {:induction false} Kill9AfterGrace(ops: seq<Op>, grace: nat, k: nat)
    requires Kill9Due(ops, grace, k)
    ensures Exit(ops[..k]).None?
    ensures exists j :: 0 <= j < k && ops[j].Kill? && Exit(ops[..j]).None?
              && Clock(ops[..j]) + grace <= Clock(ops[..k])
  {
    var j := FirstRequest(ops[..k]);
    assert ops[..k][..j] == ops[..j];
  }

  lemma {:induction false} FirstRequest(ops: seq<Op>) returns (j: nat)
    requires Asked(ops).Some?
    ensures j < |ops| && ops[j].Kill? && Exit(ops[..j]).None? && Asked(ops) == Some(Clock(ops[..j]))
    ensures forall i :: 0 <= i < j && ops[i].Kill? ==> Exit(ops[..i]).Some?
  {
    if Asked(Before(ops)).Some? {
      j := FirstRequest(Before(ops));
      assert Before(ops)[..j] == ops[..j];
      assert forall i :: 0 <= i < j ==> Before(ops)[..i] == ops[..i];
    } else {
      j := |ops| - 1;
      NotAsked(Before(ops));
      assert forall i :: 0 <= i < j ==> Before(ops)[..i] == ops[..i];
    }
  }

  lemma {:induction false} NotAsked(ops: seq<Op>)
    requires Asked(ops).None?
    ensures forall i :: 0 <= i < |ops| && ops[i].Kill? ==> Exit(ops[..i]).Some?
  {
    if ops != [] {
      NotAsked(Before(ops));
      assert forall i :: 0 <= i < |ops| - 1 ==> Before(ops)[..i] == ops[..i];
    }
  }

  /** and it is sent at most once in a run. */
  lemma Kill9Once(ops: seq<Op>, grace: nat, k: nat, m: nat)
    requires Kill9Due(ops, grace, k) && Kill9Due(ops, grace, m)
    ensures k == m
  {
    if k < m {
      FiredStays(ops, grace, k + 1, m);
    } else if m < k {
      FiredStays(ops, grace, m + 1, k);
    }
  }

  lemma {:induction false} FiredStays(ops: seq<Op>, grace: nat, k: nat, m: nat)
    requires 1 <= k <= m <= |ops| && Kill9Due(ops, grace, k - 1)
    ensures Fired(ops[..m], grace)
    decreases m - k
  {
    assert Before(ops[..m]) == ops[..m - 1];
    if k < m {
      FiredStays(ops, grace, k, m - 1);
    }
  }

  /** No signal is sent to a process that has exited. */
  lemma SignalsToTheLiving(ops: seq<Op>, grace: nat, signals: seq<Sent>, s: Sent)
    requires SignalsDue(ops, grace, signals) && s in signals
    ensures s.step < |ops| && Exit(ops[..s.step]).None?
  {
    match s.signal {
      case Term => assert Sent(Term, s.step) in signals;
      case Kill9 => assert Sent(Kill9, s.step) in signals;
    }
  }

  /** After a kill request the process is gone within the grace period, or gets SIGKILL: as soon as
      the timer goes off, overdue, before `close`. */
  lemma {:induction false} KillEscalates(ops: seq<Op>, grace: nat, k: nat)
    requires k < |ops| && ops[k].Fires? && Overdue(ops[..k], grace) && !Closed(ops[..k]) && Exit(ops[..k]).None?
    ensures exists m :: 0 <= m <= k && Kill9Due(ops, grace, m)
  {
    if Fired(ops[..k], grace) {
      var m := FirstFire(ops[..k], grace);
      assert ops[..k][..m] == ops[..m];
      StillAlive(ops, m, k);
      assert Kill9Due(ops, grace, m);
    } else {
      assert Kill9Due(ops, grace, k);
    }
  }

  lemma {:induction false} FirstFire(ops: seq<Op>, grace: nat) returns (m: nat)
    requires Fired(ops, grace)
    ensures m < |ops| && ops[m].Fires? && Overdue(ops[..m], grace) && !Closed(ops[..m]) && !Fired(ops[..m], grace)
  {
    if Fired(Before(ops), grace) {
      m := FirstFire(Before(ops), grace);
      assert Before(ops)[..m] == ops[..m];
    } else {
      m := |ops| - 1;
    }
  }

  lemma {:induction false} StillAlive(ops: seq<Op>, m: nat, k: nat)
    requires m <= k <= |ops| && Exit(ops[..k]).None?
    ensures Exit(ops[..m]).None?
    decreases k
  {
    if m < k {
      assert Before(ops[..k]) == ops[..k - 1];
      StillAlive(ops, m, k - 1);
    }
  }
}
