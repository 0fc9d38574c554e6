/** The reconnecting WebSocket subscription: its event handlers, and what every run of them shows. */
module Subscription {
  import opened Options

  /** `Math.random()`. */
  type Random = r: real | 0.0 <= r < 1.0

  /** What happens to the subscription. `reenter` says that the status callback of the moment calls
      `close()`. */
  datatype Input =
    | SocketOpens(socket: nat, reenter: bool)
    | SocketCloses(socket: nat, random: Random, reenter: bool)
    | TimerFires(timer: nat, reenter: bool)
    | UserCloses

  /** What an observer of sockets, timers and `close()` sees. */
  datatype Event =
    | Connected(socket: nat)
    | Opened(socket: nat)
    | ClosedBy(socket: nat)
    | Scheduled(timer: nat, delay: real)
    | Cancelled(timer: nat)
    | Fired(timer: nat)
    | UserClosed
    | CloseSent(socket: nat)

  // -- Reading a trace -------------------------------------------------------------------------------

  function PendingNext(pending: set<nat>, e: Event): set<nat> {
    match e
    case Scheduled(timer, _) => pending + {timer}
    case Cancelled(timer) => pending - {timer}
    case Fired(timer) => pending - {timer}
    case _ => pending
  }

  /** The timers that may still fire. */
  function Pending(trace: seq<Event>): set<nat> {
    if trace == [] then {} else PendingNext(Pending(trace[..|trace| - 1]), trace[|trace| - 1])
  }

  predicate IsClosed(trace: seq<Event>) {
    UserClosed in trace
  }

  function Sockets(trace: seq<Event>): nat {
    if trace == [] then 0
    else Sockets(trace[..|trace| - 1]) + if trace[|trace| - 1].Connected? then 1 else 0
  }

  function Timers(trace: seq<Event>): nat {
    if trace == [] then 0
    else Timers(trace[..|trace| - 1]) + if trace[|trace| - 1].Scheduled? then 1 else 0
  }

  /** The closes since a socket last opened. */
  function ClosesSinceOpen(trace: seq<Event>): nat {
    if trace == [] then 0
    else
      var before := ClosesSinceOpen(trace[..|trace| - 1]);
      match trace[|trace| - 1]
      case Opened(_) => 0
      case ClosedBy(_) => before + 1
      case _ => before
  }

  function Pow2(n: nat): int {
    if n == 0 then 1 else 2 * Pow2(n - 1)
  }

  /** The base delay of the `m`-th close since the last open, counting from 0. */
  function Backoff(m: nat, cap: real): real {
    var doubled := (500 * Pow2(m)) as real;
    if doubled <= cap then doubled else cap
  }

  // -- What each input is answered with --------------------------------------------------------------

  /** The pending timer, if any, is cleared. */
  function Clearing(trace: seq<Event>): seq<Event> {
    if Pending(trace) == {} || Timers(trace) == 0 then [] else [Cancelled(Timers(trace) - 1)]
  }

  /** `close()`: the newest socket is told to close. */
  function Closing(trace: seq<Event>): seq<Event> {
    [UserClosed] + Clearing(trace) + if Sockets(trace) == 0 then [] else [CloseSent(Sockets(trace) - 1)]
  }

  /** How long the close after a trace waits. */
  function Delay(trace: seq<Event>, cap: real, random: Random): real {
    Backoff(ClosesSinceOpen(trace), cap) + random * 250.0
  }

  /** What an input adds to the trace. One about a socket that does not exist or a timer that is not
      pending cannot happen. */
  function Reaction(cap: real, trace: seq<Event>, input: Input): seq<Event> {
    match input
    case SocketOpens(socket, reenter) =>
      if socket >= Sockets(trace) then []
      else if IsClosed(trace) then [Opened(socket), CloseSent(socket)]
      else [Opened(socket)] + if reenter then Closing(trace) else []
    case SocketCloses(socket, random, reenter) =>
      if socket >= Sockets(trace) then []
      else if reenter then [ClosedBy(socket)] + Closing(trace)
      else if IsClosed(trace) then [ClosedBy(socket)]
      else [ClosedBy(socket)] + Clearing(trace) + [Scheduled(Timers(trace), Delay(trace, cap, random))]
    case TimerFires(timer, reenter) =>
      if timer !in Pending(trace) then []
      else if reenter && Sockets(trace) > 0 then
        [Fired(timer), UserClosed, CloseSent(Sockets(trace) - 1), Connected(Sockets(trace))]
      else [Fired(timer), Connected(Sockets(trace))]
    case UserCloses => Closing(trace)
  }

  /** The trace of a run. */
  function Replay(cap: real, inputs: seq<Input>): seq<Event> {
    if inputs == [] then [Connected(0)]
    else
      var before := Replay(cap, inputs[..|inputs| - 1]);
      before + Reaction(cap, before, inputs[|inputs| - 1])
  }

  // -- The rules -------------------------------------------------------------------------------------

  /** Which event may follow a trace. */
  ghost predicate Allowed(cap: real, trace: seq<Event>, e: Event) {
    var n := |trace|;
    match e
    case Connected(socket) =>
      && socket == Sockets(trace) && Pending(trace) == {}
      // the initial one, a timer's, or one whose `connecting` callback just called close()
      && (n == 0 || (trace[n - 1].Fired? && !IsClosed(trace)) || ClosedWhileConnecting(trace))
    case Scheduled(timer, delay) =>
      && timer == Timers(trace) && !IsClosed(trace) && Pending(trace) == {}
      && n > 0 && (trace[n - 1].ClosedBy? || trace[n - 1].Cancelled?)
      && ClosesSinceOpen(trace) > 0
      && var base := Backoff(ClosesSinceOpen(trace) - 1, cap);
         base <= delay < base + 250.0
    case Cancelled(timer) => timer in Pending(trace)
    case Fired(timer) => timer in Pending(trace) && !IsClosed(trace)
    case Opened(socket) => socket < Sockets(trace)
    case ClosedBy(socket) => socket < Sockets(trace)
    case UserClosed => n > 0
    case CloseSent(socket) => IsClosed(trace)
  }

  /** The status callback of a connect called `close()`, and nothing else did. */
  ghost predicate ClosedWhileConnecting(trace: seq<Event>) {
    var n := |trace|;
    && n >= 3 && trace[n - 3].Fired? && trace[n - 2].UserClosed? && trace[n - 1].CloseSent?
    && !IsClosed(trace[..n - 2])
  }

  ghost predicate Legal(cap: real, trace: seq<Event>) {
    forall n :: 0 <= n < |trace| ==> Allowed(cap, trace[..n], trace[n])
  }

  /** The socket made last is closed. */
  ghost predicate ClosesNewest(trace: seq<Event>, e: Event) {
    e.CloseSent? && e.socket + 1 == Sockets(trace)
  }

  /** What each event is answered with before the next one can happen. */
  ghost predicate AnsweredAt(trace: seq<Event>, n: nat)
    requires n < |trace|
  {
    var m := |trace|;
    match trace[n]
    case ClosedBy(_) =>
      IsClosed(trace[..n]) ||
      (n + 1 < m && (trace[n + 1].UserClosed? || trace[n + 1].Scheduled?
                     || (trace[n + 1].Cancelled? && n + 2 < m && trace[n + 2].Scheduled?)))
    case Fired(_) =>
      || (n + 1 < m && trace[n + 1].Connected?)
      || (n + 3 < m && ClosedWhileConnecting(trace[..n + 3]) && trace[n + 3].Connected?)
    case Opened(socket) =>
      IsClosed(trace[..n]) ==> n + 1 < m && trace[n + 1] == CloseSent(socket)
    case UserClosed =>
      || (n + 1 < m && Pending(trace[..n]) == {} && ClosesNewest(trace[..n], trace[n + 1]))
      || (n + 2 < m && trace[n + 1].Cancelled? && Pending(trace[..n]) == {trace[n + 1].timer}
          && ClosesNewest(trace[..n], trace[n + 2]))
    case _ => true
  }

  ghost predicate Answered(trace: seq<Event>) {
    forall n :: 0 <= n < |trace| ==> AnsweredAt(trace, n)
  }

  /** What is known of a trace once an event is appended. */
  lemma Appended(cap: real, trace: seq<Event>, e: Event)
    requires Legal(cap, trace) && Allowed(cap, trace, e)
    ensures var t := trace + [e];
      && Legal(cap, t)
      && (IsClosed(t) <==> IsClosed(trace) || e.UserClosed?)
      && Sockets(t) == Sockets(trace) + (if e.Connected? then 1 else 0)
      && Timers(t) == Timers(trace) + (if e.Scheduled? then 1 else 0)
      && Pending(t) == PendingNext(Pending(trace), e)
      && ClosesSinceOpen(t) == (if e.Opened? then 0 else ClosesSinceOpen(trace) + if e.ClosedBy? then 1 else 0)
  {
    hide Legal, Allowed;
    LegalMore(cap, trace, e);
    assert (trace + [e])[..|trace|] == trace;
  }

  lemma LegalMore(cap: real, trace: seq<Event>, e: Event)
    requires Legal(cap, trace) && Allowed(cap, trace, e)
    ensures Legal(cap, trace + [e])
  {
    hide Allowed;
    var t := trace + [e];
    forall n | 0 <= n < |t| ensures Allowed(cap, t[..n], t[n]) {
      if n < |trace| { assert t[..n] == trace[..n]; } else { assert t[..n] == trace; }
    }
  }

  lemma StillAnswered(trace: seq<Event>, more: seq<Event>, n: nat)
    requires n < |trace| && AnsweredAt(trace, n)
    ensures AnsweredAt(trace + more, n)
  {
    var t := trace + more;
    assert t[..n] == trace[..n];
    if n + 3 < |trace| { assert t[..n + 3] == trace[..n + 3]; }
  }

  /** A trace stays answered when the new events are. */
  lemma AnsweredMore(trace: seq<Event>, more: seq<Event>)
    requires Answered(trace)
    requires forall n :: |trace| <= n < |trace + more| ==> AnsweredAt(trace + more, n)
    ensures Answered(trace + more)
  {
    forall n | 0 <= n < |trace| ensures AnsweredAt(trace + more, n) {
      StillAnswered(trace, more, n);
    }
  }

  class Subscription {
    const cap: real
    // the closure's variables
    var closed: bool
    var ws: Option<nat>
    var attempt: nat
    var timer: Option<nat>
    // the platform: sockets and timers made, timers that may fire
    var sockets: nat
    var timers: nat
    var pending: set<nat>
    // what an observer has seen
    var trace: seq<Event>

    ghost predicate World()
      reads this
    {
      && Legal(cap, trace)
      && sockets == Sockets(trace) && timers == Timers(trace) && pending == Pending(trace)
    }

    /** Between two events. */
    ghost predicate Valid()
      reads this
    {
      && World() && Answered(trace)
      && closed == IsClosed(trace)
      && trace != [] && sockets > 0 && ws == Some(sockets - 1)
      && (!closed ==> attempt == ClosesSinceOpen(trace))
      && (forall t :: t in pending ==> !closed && timer == Some(t) && t == timers - 1)
    }

    method Note(e: Event)
      requires World() && Allowed(cap, trace, e)
      modifies this`trace, this`sockets, this`timers, this`pending
      ensures World() && trace == old(trace) + [e]
      ensures sockets == old(sockets) + (if e.Connected? then 1 else 0)
      ensures timers == old(timers) + (if e.Scheduled? then 1 else 0)
      ensures pending == PendingNext(old(pending), e)
      ensures IsClosed(trace) <==> IsClosed(old(trace)) || e.UserClosed?
      ensures ClosesSinceOpen(trace)
           == if e.Opened? then 0 else ClosesSinceOpen(old(trace)) + if e.ClosedBy? then 1 else 0
    {
      hide Legal, Allowed, Pending, IsClosed, Sockets, Timers, ClosesSinceOpen;
      Appended(cap, trace, e);
      pending := PendingNext(pending, e);
      if e.Connected? { sockets := sockets + 1; }
      if e.Scheduled? { timers := timers + 1; }
      trace := trace + [e];
    }

    /** `clearTimeout(timer)`. */
    method ClearTimer()
      requires World()
      requires forall t :: t in pending ==> timer == Some(t) && t == timers - 1
      modifies this`trace, this`sockets, this`timers, this`pending
      ensures World() && pending == {} && sockets == old(sockets) && timers == old(timers)
      ensures trace == old(trace) + Clearing(old(trace))
      ensures old(pending) != {} ==> timer.Some? && old(pending) == {timer.value}
      ensures IsClosed(trace) == IsClosed(old(trace)) && ClosesSinceOpen(trace) == ClosesSinceOpen(old(trace))
    {
      if timer.Some? && timer.value in pending {
        Note(Cancelled(timer.value));
      }
    }
  
    /** `close()`. */
    method Close()
      requires World() && sockets > 0 && ws == Some(sockets - 1) && trace != []
      requires forall t :: t in pending ==> timer == Some(t) && t == timers - 1
      modifies this`closed, this`trace, this`sockets, this`timers, this`pending
      ensures World() && closed && IsClosed(trace) && pending == {} && sockets == old(sockets) && timers == old(timers)
      ensures ClosesSinceOpen(trace) == ClosesSinceOpen(old(trace))
      ensures trace == old(trace) + Closing(old(trace))
      ensures forall n :: |old(trace)| <= n < |trace| ==> AnsweredAt(trace, n)
    {
      hide Legal, Pending, Sockets, Timers, ClosesSinceOpen, AnsweredAt;
      ghost var t := trace;
      closed := true;
      Note(UserClosed);
      ClearTimer();
      Note(CloseSent(ws.value));
      assert trace == t + Closing(t);
      ClosingAnswered(t);
    }

    method UserClose()
      requires Valid()
      modifies this
      ensures Valid()
      ensures trace == old(trace) + Reaction(cap, old(trace), UserCloses)
    {
      hide Legal, Pending, Sockets, Timers, ClosesSinceOpen, IsClosed, AnsweredAt;
      Close();
      AnsweredMore(old(trace), Closing(old(trace)));
    }

    /** `connect()`, `reenter` saying whether the `connecting` callback calls `close()`. */
    method Connect(reenter: bool)
      requires World() && !closed && !IsClosed(trace) && pending == {} && trace != [] && trace[|trace| - 1].Fired?
      requires sockets > 0 && ws == Some(sockets - 1)
      modifies this
      ensures World() && closed == reenter == IsClosed(trace) && pending == {}
      ensures sockets == old(sockets) + 1 && timers == old(timers) && ws == Some(sockets - 1) && attempt == old(attempt)
      ensures ClosesSinceOpen(trace) == ClosesSinceOpen(old(trace))
      ensures trace == old(trace) + (if reenter then [UserClosed, CloseSent(old(sockets) - 1)] else [])
                     + [Connected(old(sockets))]
    {
      hide Legal, Pending, Sockets, Timers, ClosesSinceOpen;
      timer := None;
      if reenter {
        Close();
      }
      var socket := sockets;
      Note(Connected(socket));
      ws := Some(socket);
    }
  
    /** The open handler; `reenter` says whether the `open` callback calls `close()`. */
    method OnOpen(socket: nat, reenter: bool)
      requires Valid() && socket < sockets
      modifies this
      ensures Valid()
      ensures trace == old(trace) + Reaction(cap, old(trace), SocketOpens(socket, reenter))
    {
      hide Legal, Pending, Sockets, Timers, ClosesSinceOpen, IsClosed, AnsweredAt;
      ghost var t := trace;
      Note(Opened(socket));
      if closed {
        Note(CloseSent(socket));
        LateOpenAnswered(t, socket);
        assert trace == t + [Opened(socket), CloseSent(socket)];
        AnsweredMore(t, [Opened(socket), CloseSent(socket)]);
      } else {
        attempt := 0;
        QuietAnswered(t, Opened(socket));
        if reenter {
          Close();
          SameReading(t, Opened(socket));
          AnsweredMore(t + [Opened(socket)], Closing(t));
        }
      }
    }

    /** The close handler; `reenter` says whether the `closed` callback calls `close()`. */
    method OnClose(socket: nat, random: Random, reenter: bool)
      requires Valid() && socket < sockets
      modifies this
      ensures Valid()
      ensures trace == old(trace) + Reaction(cap, old(trace), SocketCloses(socket, random, reenter))
      ensures sockets == old(sockets)
      ensures closed == (old(closed) || reenter)
      ensures closed || (timers == old(timers) + 1 && pending == {old(timers)})
    {
      hide Legal, Pending, Sockets, Timers, ClosesSinceOpen, IsClosed, AnsweredAt, Backoff;
      ghost var t := trace;
      Note(ClosedBy(socket));
      if reenter {
        Close();
        ghost var events := Closing(t);
        SameReading(t, ClosedBy(socket));
        CloseFirst(t, socket, events);
        assert trace == t + ([ClosedBy(socket)] + events);
        AnsweredMore(t, [ClosedBy(socket)] + events);
      }
      if closed {
        if !reenter { QuietAnswered(t, ClosedBy(socket)); }
        return;
      }
      ClearTimer();
      var backoff := Backoff(attempt, cap);
      attempt := attempt + 1;
      timer := Some(timers);
      ghost var scheduled := Scheduled(timers, backoff + random * 250.0);
      Note(Scheduled(timers, backoff + random * 250.0));
      SameReading(t, ClosedBy(socket));
      CloseAnswered(t, socket, Clearing(t), scheduled);
    }

    /** A timer fires: the platform calls `connect`. */
    method OnTimer(fired: nat, reenter: bool)
      requires Valid() && fired in pending
      modifies this
      ensures Valid()
      ensures sockets == old(sockets) + 1 && timers == old(timers) && closed == reenter && pending == {}
      ensures trace == old(trace) + Reaction(cap, old(trace), TimerFires(fired, reenter))
    {
      hide Legal, Pending, Sockets, Timers, ClosesSinceOpen, IsClosed, AnsweredAt;
      ghost var t := trace;
      Note(Fired(fired));
      Connect(reenter);
      if reenter {
        ReentrantAnswered(t, fired, sockets - 2);
        assert trace == t + [Fired(fired), UserClosed, CloseSent(sockets - 2), Connected(sockets - 1)];
        AnsweredMore(t, [Fired(fired), UserClosed, CloseSent(sockets - 2), Connected(sockets - 1)]);
      } else {
        FiredAnswered(t, fired, sockets - 1);
        assert trace == t + [Fired(fired), Connected(sockets - 1)];
        AnsweredMore(t, [Fired(fired), Connected(sockets - 1)]);
      }
    }

    /** The first connect; the caller has no handle yet to close. */
    constructor (cap: real)
      ensures this.cap == cap && Valid() && !closed && trace == [Connected(0)] && pending == {} && timers == 0 && sockets == 1
    {
      this.cap := cap;
      closed, ws, attempt, timer := false, Some(0), 0, None;
      sockets, timers, pending, trace := 1, 0, {}, [Connected(0)];
      new;
      Appended(cap, [], Connected(0));
      assert [] + [Connected(0)] == [Connected(0)];
    }
  }

  lemma CloseAnswered(t: seq<Event>, socket: nat, clearing: seq<Event>, scheduled: Event)
    requires Answered(t) && scheduled.Scheduled?
    requires clearing == [] || (|clearing| == 1 && clearing[0].Cancelled?)
    ensures Answered(t + [ClosedBy(socket)] + clearing + [scheduled])
  {
    var more := [ClosedBy(socket)] + clearing + [scheduled];
    assert t + [ClosedBy(socket)] + clearing + [scheduled] == t + more;
    AnsweredMore(t, more);
  }

  lemma FiredAnswered(t: seq<Event>, fired: nat, socket: nat)
    ensures var u := t + [Fired(fired), Connected(socket)]; AnsweredAt(u, |t|) && AnsweredAt(u, |t| + 1)
  {}

  lemma ReentrantAnswered(t: seq<Event>, fired: nat, newest: nat)
    requires !IsClosed(t) && Pending(t) - {fired} == {} && Sockets(t) == newest + 1
    ensures var u := t + [Fired(fired), UserClosed, CloseSent(newest), Connected(newest + 1)];
      forall n :: |t| <= n < |u| ==> AnsweredAt(u, n)
  {
    var u := t + [Fired(fired), UserClosed, CloseSent(newest), Connected(newest + 1)];
    assert u[..|t| + 1] == t + [Fired(fired)] && (t + [Fired(fired)])[..|t|] == t;
    assert u[..|t| + 3][..|t| + 1] == t + [Fired(fired)];
  }

  /** An opening or closing socket changes nothing of what `close()` would do. */
  lemma SameReading(t: seq<Event>, e: Event)
    requires e.Opened? || e.ClosedBy?
    ensures Closing(t + [e]) == Closing(t) && Clearing(t + [e]) == Clearing(t)
  {
    assert (t + [e])[..|t|] == t;
  }

  lemma ClosingAnswered(t: seq<Event>)
    requires Sockets(t) > 0 && forall timer :: timer in Pending(t) ==> timer + 1 == Timers(t)
    ensures forall n :: |t| <= n < |t + Closing(t)| ==> AnsweredAt(t + Closing(t), n)
  {
    hide Pending, Sockets, Timers, IsClosed;
    var u := t + Closing(t);
    assert u[..|t|] == t;
    if Pending(t) != {} {
      var timer :| timer in Pending(t);
      assert Pending(t) == {timer};
    }
  }

  lemma LateOpenAnswered(t: seq<Event>, socket: nat)
    ensures var u := t + [Opened(socket), CloseSent(socket)];
      AnsweredAt(u, |t|) && AnsweredAt(u, |t| + 1)
  {}

  /** An event that asks for no answer. */
  lemma QuietAnswered(t: seq<Event>, e: Event)
    requires Answered(t)
    requires (e.Opened? && !IsClosed(t)) || (e.ClosedBy? && IsClosed(t))
    ensures Answered(t + [e])
  {
    assert (t + [e])[..|t|] == t;
    AnsweredMore(t, [e]);
  }

  lemma CloseFirst(t: seq<Event>, socket: nat, events: seq<Event>)
    requires events != [] && events[0].UserClosed?
    ensures AnsweredAt(t + ([ClosedBy(socket)] + events), |t|)
  {}

  // -- All runs --------------------------------------------------------------------------------------

  /** Every run shows what its inputs ask for, by the rules. */
  method Run(cap: real, inputs: seq<Input>) returns (trace: seq<Event>)
    ensures trace == Replay(cap, inputs)
    ensures Legal(cap, trace) && Answered(trace)
    ensures DelaysDue(cap, inputs, trace)
  {
    hide Legal, Answered, DelaysDue, Pending, Sockets, Timers, Closing, ClosesSinceOpen, IsClosed, Delay;
    var s := new Subscription(cap);
    for i := 0 to |inputs|
      invariant fresh(s) && s.cap == cap && s.Valid()
      invariant s.trace == Replay(cap, inputs[..i])
    {
      assert inputs[..i + 1][..i] == inputs[..i];
      match inputs[i] {
        case SocketOpens(socket, reenter) => if socket < s.sockets { s.OnOpen(socket, reenter); }
        case SocketCloses(socket, random, reenter) => if socket < s.sockets { s.OnClose(socket, random, reenter); }
        case TimerFires(timer, reenter) => if timer in s.pending { s.OnTimer(timer, reenter); }
        case UserCloses => s.UserClose();
      }
    }
    assert inputs[..|inputs|] == inputs;
    trace := s.trace;
    ReconnectDelay(cap, inputs);
  }

  /** At most one reconnect timer is ever pending. */
  lemma {:induction false} OneTimer(cap: real, trace: seq<Event>, n: nat)
    requires Legal(cap, trace) && n <= |trace|
    ensures |Pending(trace[..n])| <= 1
  {
    if n > 0 {
      OneTimer(cap, trace, n - 1);
      assert trace[..n][..n - 1] == trace[..n - 1];
      assert Allowed(cap, trace[..n - 1], trace[n - 1]);
      Shrinks(Pending(trace[..n - 1]), Pending(trace[..n]));
    }
  }

  lemma Shrinks(a: set<nat>, b: set<nat>)
    requires |a| <= 1
    ensures b <= a ==> |b| <= 1
  {
    if b <= a { assert b + (a - b) == a; }
  }

  /** After `close()` nothing is scheduled and nothing fires; a connect can only be the one whose own
      `connecting` callback made that call. */
  lemma QuietAfterClose(cap: real, trace: seq<Event>, i: nat, n: nat)
    requires Legal(cap, trace) && i < n < |trace| && trace[i].UserClosed?
    ensures !trace[n].Scheduled? && !trace[n].Fired?
    ensures trace[n].Connected? ==> i > 0 && trace[i - 1].Fired? && n == i + 2
  {
    assert Allowed(cap, trace[..n], trace[n]);
    assert trace[..n][i] == UserClosed;
    if trace[n].Connected? {
      assert ClosedWhileConnecting(trace[..n]);
      assert trace[..n][..n - 2] == trace[..n - 2];
      assert forall k :: 0 <= k < n - 2 ==> trace[k] != UserClosed;
    }
  }

  /** So something connects after `close()` exactly when the call came from the `connecting` callback
      of a connect. */
  lemma ConnectsAfterClose(cap: real, trace: seq<Event>, i: nat)
    requires Legal(cap, trace) && Answered(trace) && i < |trace| && trace[i].UserClosed?
    ensures (exists n :: i < n < |trace| && trace[n].Connected?) <==> i > 0 && trace[i - 1].Fired?
  {
    if n :| i < n < |trace| && trace[n].Connected? {
      QuietAfterClose(cap, trace, i, n);
    }
    if i > 0 && trace[i - 1].Fired? {
      assert AnsweredAt(trace, i - 1);
      assert trace[i + 2].Connected?;
    }
  }

  /** A run in which it does. */
  method ConnectAfterClose() returns (trace: seq<Event>)
    ensures Legal(15000.0, trace) && Answered(trace)
    ensures |trace| == 7 && trace[4] == UserClosed && trace[6] == Connected(1)
  {
    hide Legal, Answered, Pending, Sockets, Timers, ClosesSinceOpen, Delay, IsClosed;
    var s := new Subscription(15000.0);
    s.OnClose(0, 0.0, false);
    s.OnTimer(0, true);
    trace := s.trace;
  }

  // -- Delays ----------------------------------------------------------------------------------------

  /** The closes among the inputs since a socket last opened. */
  function ClosesIn(cap: real, inputs: seq<Input>): nat {
    if inputs == [] then 0
    else
      var init, input := inputs[..|inputs| - 1], inputs[|inputs| - 1];
      var before := ClosesIn(cap, init);
      match input
      case SocketOpens(socket, _) => if socket < Sockets(Replay(cap, init)) then 0 else before
      case SocketCloses(socket, _, _) => if socket < Sockets(Replay(cap, init)) then before + 1 else before
      case _ => before
  }

  /** A close that is to be followed by a reconnect. */
  predicate AsksForReconnect(cap: real, inputs: seq<Input>, input: Input) {
    && input.SocketCloses? && !input.reenter
    && input.socket < Sockets(Replay(cap, inputs)) && !IsClosed(Replay(cap, inputs))
  }

  /** Twice as long, up to the cap. */
  function Longer(base: real, cap: real): real {
    if base == cap || 2.0 * base > cap then cap else 2.0 * base
  }

  /** The base delay of the next close: half a second, or the cap if that is less, after an open, and
      longer with every close. */
  function BaseDelay(cap: real, inputs: seq<Input>): real {
    var first := if 500.0 <= cap then 500.0 else cap;
    if inputs == [] then first
    else
      var init, input := inputs[..|inputs| - 1], inputs[|inputs| - 1];
      var before := BaseDelay(cap, init);
      match input
      case SocketOpens(socket, _) => if socket < Sockets(Replay(cap, init)) then first else before
      case SocketCloses(socket, _, _) => if socket < Sockets(Replay(cap, init)) then Longer(before, cap) else before
      case _ => before
  }

  /** Every close before the end asks for a reconnect after the base delay of the moment and its part
      of a quarter of a second. */
  ghost predicate DelaysDue(cap: real, inputs: seq<Input>, trace: seq<Event>) {
    forall i :: 0 <= i < |inputs| && AsksForReconnect(cap, inputs[..i], inputs[i]) ==>
      Scheduled(Timers(Replay(cap, inputs[..i])), BaseDelay(cap, inputs[..i]) + inputs[i].random * 250.0) in trace
  }

  /** The first base is half a second or the cap, and every further one is the longer. */
  lemma BackoffDoubles(m: nat, cap: real)
    ensures Backoff(0, cap) == if 500.0 <= cap then 500.0 else cap
    ensures Backoff(m + 1, cap) == Longer(Backoff(m, cap), cap)
  {
    assert Pow2(m) >= 1 by { Pow2Positive(m); }
  }

  lemma Pow2Positive(n: nat)
    ensures Pow2(n) >= 1
  {
  }

  /** The base is `min(500 * 2^m, cap)`, where `m` closes came since the last open. */
  lemma {:induction false} BaseIsBackoff(cap: real, inputs: seq<Input>)
    ensures BaseDelay(cap, inputs) == Backoff(ClosesIn(cap, inputs), cap)
  {
    hide Sockets, Replay, Backoff, Longer;
    if inputs == [] {
      BackoffDoubles(0, cap);
    } else {
      var init := inputs[..|inputs| - 1];
      BaseIsBackoff(cap, init);
      BackoffDoubles(ClosesIn(cap, init), cap);
    }
  }

  /** Unless the cap is negative that is `min(2 * base, cap)`, and no close waits less than the one before. */
  lemma BackoffIsMin(m: nat, cap: real)
    requires cap >= 0.0
    ensures var doubled := 2.0 * Backoff(m, cap);
      Backoff(m + 1, cap) == if doubled <= cap then doubled else cap
    ensures 0.0 <= Backoff(m, cap) <= Backoff(m + 1, cap) <= cap
  {
    BackoffDoubles(m, cap);
    assert Pow2(m) >= 1 by { Pow2Positive(m); }
  }

  predicate KeepsCount(events: seq<Event>) {
    forall i :: 0 <= i < |events| ==> !events[i].Opened? && !events[i].ClosedBy?
  }

  lemma {:induction false} CountKept(trace: seq<Event>, more: seq<Event>)
    requires KeepsCount(more)
    ensures ClosesSinceOpen(trace + more) == ClosesSinceOpen(trace)
  {
    var n := |more| - 1;
    if more == [] {
      assert trace + more == trace;
    } else {
      CountKept(trace, more[..n]);
      assert (trace + more)[..|trace| + n] == trace + more[..n];
    }
  }

  lemma CountHead(trace: seq<Event>, e: Event, more: seq<Event>)
    requires KeepsCount(more)
    ensures ClosesSinceOpen(trace + ([e] + more))
         == if e.Opened? then 0 else ClosesSinceOpen(trace) + if e.ClosedBy? then 1 else 0
  {
    assert trace + ([e] + more) == (trace + [e]) + more;
    assert (trace + [e])[..|trace|] == trace;
    hide ClosesSinceOpen;
    CountKept(trace + [e], more);
  }

  /** The count the delays go by is that of the inputs. */
  lemma {:induction false} CountOfInputs(cap: real, inputs: seq<Input>)
    ensures ClosesSinceOpen(Replay(cap, inputs)) == ClosesIn(cap, inputs)
  {
    hide Sockets, Reaction, ClosesSinceOpen;
    if inputs == [] {
      NoCloses();
    } else {
      var n := |inputs| - 1;
      CountOfInputs(cap, inputs[..n]);
      CountOfReaction(cap, Replay(cap, inputs[..n]), inputs[n]);
    }
  }

  lemma CountOfReaction(cap: real, before: seq<Event>, input: Input)
    ensures var count := ClosesSinceOpen(before);
      ClosesSinceOpen(before + Reaction(cap, before, input))
      == if input.SocketOpens? && input.socket < Sockets(before) then 0
         else if input.SocketCloses? && input.socket < Sockets(before) then count + 1
         else count
  {
    hide Sockets, Timers, Pending, IsClosed, ClosesSinceOpen, Delay;
    var more := Reaction(cap, before, input);
    if more == [] {
      assert before + more == before;
    } else {
      assert more == [more[0]] + more[1..];
      CountHead(before, more[0], more[1..]);
    }
  }

  lemma NoCloses()
    ensures ClosesSinceOpen([Connected(0)]) == 0
  {}

  lemma {:induction false} ReplayGrows(cap: real, inputs: seq<Input>, n: nat)
    requires n <= |inputs|
    ensures Replay(cap, inputs[..n]) <= Replay(cap, inputs)
  {
    hide Reaction;
    if n == |inputs| {
      assert inputs[..n] == inputs;
    } else {
      var init := inputs[..|inputs| - 1];
      ReplayGrows(cap, init, n);
      assert init[..n] == inputs[..n];
    }
  }

  lemma ReconnectDelay(cap: real, inputs: seq<Input>)
    ensures DelaysDue(cap, inputs, Replay(cap, inputs))
  {
    hide Replay, Sockets, Timers, Pending, IsClosed, ClosesSinceOpen, Backoff, ClosesIn, BaseDelay;
    forall i | 0 <= i < |inputs| && AsksForReconnect(cap, inputs[..i], inputs[i])
      ensures Scheduled(Timers(Replay(cap, inputs[..i])), BaseDelay(cap, inputs[..i]) + inputs[i].random * 250.0)
           in Replay(cap, inputs)
    {
      var before, after := Replay(cap, inputs[..i]), Replay(cap, inputs[..i + 1]);
      var delay := Delay(before, cap, inputs[i].random);
      ReplayStep(cap, inputs, i);
      ReplayGrows(cap, inputs, i + 1);
      CountOfInputs(cap, inputs[..i]);
      BaseIsBackoff(cap, inputs[..i]);
      assert after[|after| - 1] == Scheduled(Timers(before), delay);
      assert Replay(cap, inputs)[|after| - 1] == after[|after| - 1];
    }
  }

  lemma ReplayStep(cap: real, inputs: seq<Input>, i: nat)
    requires i < |inputs|
    ensures Replay(cap, inputs[..i + 1])
         == Replay(cap, inputs[..i]) + Reaction(cap, Replay(cap, inputs[..i]), inputs[i])
  {
    hide Reaction;
    assert inputs[..i + 1][..i] == inputs[..i];
  }

  // -- Live sockets ----------------------------------------------------------------------------------

  /** Every close comes from the socket made last. */
  ghost predicate ClosesInTurn(trace: seq<Event>) {
    forall n :: 0 <= n < |trace| && trace[n].ClosedBy? ==> trace[n].socket + 1 == Sockets(trace[..n])
  }

  ghost predicate NewestClosed(trace: seq<Event>) {
    Sockets(trace) > 0 && ClosedBy(Sockets(trace) - 1) in trace
  }

  /** Of any two sockets made one has closed. */
  ghost predicate OneLive(trace: seq<Event>) {
    forall s, t :: 0 <= s < t < Sockets(trace) ==> ClosedBy(s) in trace || ClosedBy(t) in trace
  }

  /** Whenever a timer fires the newest socket has closed: what `connect` would have to check. */
  ghost predicate FiresAfterClose(trace: seq<Event>) {
    forall n :: 0 <= n < |trace| && trace[n].Fired? ==> NewestClosed(trace[..n])
  }

  /** All sockets but the newest have closed; the newest has too while a connect is under way. */
  ghost predicate OthersClosed(trace: seq<Event>) {
    var n := |trace|;
    && (forall socket :: 0 <= socket < Sockets(trace) - 1 ==> ClosedBy(socket) in trace)
    && (|| (n >= 1 && trace[n - 1].Fired?)
        || (n >= 2 && trace[n - 2].Fired? && trace[n - 1].UserClosed?)
        || (n >= 3 && trace[n - 3].Fired? && trace[n - 2].UserClosed? && trace[n - 1].CloseSent?)
        ==> NewestClosed(trace))
  }

  lemma OthersStayClosed(cap: real, t: seq<Event>, e: Event)
    requires OthersClosed(t) && Allowed(cap, t, e) && (e.Fired? ==> NewestClosed(t)) && (t == [] ==> Sockets(t) == 0)
    requires Sockets(t + [e]) == Sockets(t) + if e.Connected? then 1 else 0
    ensures OthersClosed(t + [e])
  {
    hide Sockets, Pending;
    assert (t + [e])[|t|] == e;
  }

  lemma {:induction false} OthersAlwaysClosed(cap: real, trace: seq<Event>, n: nat)
    requires Legal(cap, trace) && FiresAfterClose(trace) && n <= |trace|
    ensures OthersClosed(trace[..n])
  {
    hide Legal, OthersClosed, Allowed, Pending, Timers, ClosesSinceOpen, IsClosed;
    if n == 0 {
      NoneLive();
    } else {
      OthersAlwaysClosed(cap, trace, n - 1);
      var t, e := trace[..n - 1], trace[n - 1];
      assert trace[..n] == t + [e];
      LegalPrefix(cap, trace, n - 1);
      Appended(cap, t, e);
      OthersStayClosed(cap, t, e);
    }
  }

  lemma NoneLive()
    ensures OthersClosed([])
  {}

  lemma LegalPrefix(cap: real, trace: seq<Event>, n: nat)
    requires Legal(cap, trace) && n <= |trace|
    ensures Legal(cap, trace[..n])
    ensures n < |trace| ==> Allowed(cap, trace[..n], trace[n])
  {
    forall i | 0 <= i < n ensures Allowed(cap, trace[..n][..i], trace[..n][i]) {
      assert trace[..n][..i] == trace[..i];
    }
  }

  lemma {:induction false} SocketsGrow(trace: seq<Event>, m: nat, n: nat)
    requires m <= n <= |trace|
    ensures Sockets(trace[..m]) <= Sockets(trace[..n])
    ensures (forall i :: m <= i < n ==> !trace[i].Connected?) ==> Sockets(trace[..m]) == Sockets(trace[..n])
  {
    if m < n {
      SocketsGrow(trace, m, n - 1);
      assert trace[..n][..n - 1] == trace[..n - 1];
    }
  }

  /** The first event connects. */
  lemma SomeSocket(cap: real, trace: seq<Event>, n: nat)
    requires Legal(cap, trace) && 1 <= n <= |trace|
    ensures Sockets(trace[..n]) > 0
  {
    assert Allowed(cap, trace[..0], trace[0]) && trace[..0] == [];
    assert trace[..1][..0] == [];
    SocketsGrow(trace, 1, n);
  }

  /** If one socket at most is live once the connect that follows a firing is made, the newest socket
      had closed when the timer fired. */
  lemma ConnectFindsItClosed(cap: real, trace: seq<Event>, n: nat, m: nat)
    requires Legal(cap, trace) && 1 <= n < m < |trace| && trace[m].Connected? && OneLive(trace[..m + 1])
    requires forall i :: n <= i < m ==> !trace[i].Connected? && !trace[i].ClosedBy?
    ensures NewestClosed(trace[..n])
  {
    hide Legal, Allowed, Sockets;
    SomeSocket(cap, trace, n);
    SocketsGrow(trace, n, m);
    var k := Sockets(trace[..n]);
    NotYetClosed(cap, trace, m);
    assert ClosedBy(k - 1) in trace[..m + 1];
    var i :| 0 <= i < m + 1 && trace[..m + 1][i] == ClosedBy(k - 1);
    assert trace[..n][i] == ClosedBy(k - 1);
  }

  /** The socket that is being made has not closed. */
  lemma NotYetClosed(cap: real, trace: seq<Event>, m: nat)
    requires Legal(cap, trace) && m < |trace| && trace[m].Connected?
    ensures Sockets(trace[..m + 1]) == Sockets(trace[..m]) + 1
    ensures ClosedBy(Sockets(trace[..m])) !in trace[..m + 1]
  {
    assert trace[..m + 1][..m] == trace[..m];
    hide Sockets;
    forall i | 0 <= i < m ensures trace[i].ClosedBy? ==> trace[i].socket < Sockets(trace[..m]) {
      assert Allowed(cap, trace[..i], trace[i]);
      SocketsGrow(trace, i, m);
    }
  }

  /** At most one socket is ever live exactly when every timer finds the newest socket closed. */
  lemma OneLiveExactly(cap: real, trace: seq<Event>)
    requires Legal(cap, trace) && Answered(trace)
    ensures (forall n :: 0 <= n <= |trace| ==> OneLive(trace[..n])) <==> FiresAfterClose(trace)
  {
    hide Legal, Sockets, Pending, NewestClosed;
    if forall n :: 0 <= n <= |trace| ==> OneLive(trace[..n]) {
      forall n | 0 <= n < |trace| && trace[n].Fired? ensures NewestClosed(trace[..n]) {
        FiredConnects(cap, trace, n);
      }
    }
    if FiresAfterClose(trace) {
      forall n | 0 <= n <= |trace| ensures OneLive(trace[..n]) {
        OthersAlwaysClosed(cap, trace, n);
      }
    }
  }

  lemma FiredConnects(cap: real, trace: seq<Event>, n: nat)
    requires Legal(cap, trace) && Answered(trace) && n < |trace| && trace[n].Fired?
    requires forall n :: 0 <= n <= |trace| ==> OneLive(trace[..n])
    ensures NewestClosed(trace[..n])
  {
    LegalPrefix(cap, trace, n);
    hide Legal, Sockets, NewestClosed, OneLive, AnsweredAt;
    NotFirst(cap, trace, n);
    var m := AnswerToFiring(trace, n);
    assert OneLive(trace[..m + 1]);
    ConnectFindsItClosed(cap, trace, n, m);
  }

  lemma AnswerToFiring(trace: seq<Event>, n: nat) returns (m: nat)
    requires n < |trace| && trace[n].Fired? && AnsweredAt(trace, n)
    ensures n < m < |trace| && trace[m].Connected?
    ensures forall i :: n <= i < m ==> !trace[i].Connected? && !trace[i].ClosedBy?
  {
    m := if trace[n + 1].Connected? then n + 1 else n + 3;
    if m == n + 3 {
      assert trace[..n + 3][n + 1] == trace[n + 1] && trace[..n + 3][n + 2] == trace[n + 2];
    }
  }

  lemma NotFirst(cap: real, trace: seq<Event>, n: nat)
    requires n < |trace| && Allowed(cap, trace[..n], trace[n]) && !trace[n].Connected?
    ensures n > 0
  {
    var none: seq<Event> := [];
    assert trace[..0] == none;
  }

  /** A pending timer, a close and a cancelled timer mean that the newest socket has closed. */
  ghost predicate ClosedBefore(trace: seq<Event>) {
    var n := |trace|;
    Pending(trace) != {} || (n >= 1 && (trace[n - 1].ClosedBy? || trace[n - 1].Cancelled?)) ==> NewestClosed(trace)
  }

  lemma ClosedBeforeStep(cap: real, t: seq<Event>, e: Event)
    requires ClosedBefore(t) && Allowed(cap, t, e) && (e.ClosedBy? ==> e.socket + 1 == Sockets(t))
    requires Sockets(t + [e]) == Sockets(t) + (if e.Connected? then 1 else 0)
    requires Pending(t + [e]) == PendingNext(Pending(t), e)
    ensures ClosedBefore(t + [e])
  {
    hide Sockets, Pending;
    assert (t + [e])[|t|] == e;
  }

  lemma {:induction false} ClosedInTurn(cap: real, trace: seq<Event>, n: nat)
    requires Legal(cap, trace) && ClosesInTurn(trace) && n <= |trace|
    ensures ClosedBefore(trace[..n])
  {
    hide Legal, ClosedBefore, Allowed, Pending, Timers, ClosesSinceOpen, IsClosed;
    if n == 0 {
      NothingPending();
    } else {
      ClosedInTurn(cap, trace, n - 1);
      var t, e := trace[..n - 1], trace[n - 1];
      assert trace[..n] == t + [e];
      LegalPrefix(cap, trace, n - 1);
      Appended(cap, t, e);
      ClosedBeforeStep(cap, t, e);
    }
  }

  lemma NothingPending()
    ensures ClosedBefore([])
  {}

  /** So it is when no socket reports a close after it was replaced. */
  lemma OneLiveSocket(cap: real, trace: seq<Event>)
    requires Legal(cap, trace) && Answered(trace) && ClosesInTurn(trace)
    ensures forall n :: 0 <= n <= |trace| ==> OneLive(trace[..n])
  {
    hide Sockets, Pending, NewestClosed, OneLive;
    forall n | 0 <= n < |trace| && trace[n].Fired? ensures NewestClosed(trace[..n]) {
      assert Allowed(cap, trace[..n], trace[n]);
      ClosedInTurn(cap, trace, n);
    }
    OneLiveExactly(cap, trace);
  }

  /** A close, and the reconnect it leads to. */
  method CloseAndReconnect(s: Subscription, socket: nat)
    requires s.Valid() && !s.closed && s.pending == {} && socket < s.sockets
    modifies s
    ensures s.Valid() && !s.closed && s.pending == {} && s.sockets == old(s.sockets) + 1
    ensures |s.trace| == |old(s.trace)| + 4 && s.trace[..|old(s.trace)|] == old(s.trace)
    ensures s.trace[|s.trace| - 4] == ClosedBy(socket) && s.trace[|s.trace| - 3].Scheduled?
    ensures s.trace[|s.trace| - 2].Fired? && s.trace[|s.trace| - 1] == Connected(old(s.sockets))
  {
    hide Legal, Answered, Pending, Sockets, Timers, ClosesSinceOpen, Delay, IsClosed;
    var timer := s.timers;
    s.OnClose(socket, 0.0, false);
    s.OnTimer(timer, false);
  }

  /** A socket that closes a second time, after its replacement has connected, brings a second live
      socket. */
  method SecondLiveSocket() returns (trace: seq<Event>)
    ensures Legal(15000.0, trace) && Answered(trace)
    ensures Connected(1) in trace && ClosedBy(1) !in trace
    ensures Connected(2) in trace && ClosedBy(2) !in trace
  {
    hide Legal, Answered, Pending, Sockets, Timers, ClosesSinceOpen, IsClosed;
    var s := new Subscription(15000.0);
    CloseAndReconnect(s, 0);
    assert s.trace[0] == Connected(0) && s.trace[4] == Connected(1);
    CloseAndReconnect(s, 0);
    trace := s.trace;
    assert trace[..5][4] == Connected(1) && trace[8] == Connected(2);
    assert forall i :: 0 <= i < |trace| && trace[i].ClosedBy? ==> trace[i].socket == 0;
  }
}
