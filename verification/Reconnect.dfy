/** ws_source.cpp: what the websocket source's calls and completion handlers do to
    its state, its reconnect counter and its timer, and how the reconnecting
    behaves over every run. */
module Reconnect {

  import opened Options
  import opened Powers

  datatype State = STOPPED | STARTING | RUNNING | STOPPING | FAILED

  datatype Op = Resolve | Connect | TlsHandshake | WsHandshake | Read | Close

  /** What the source hands to the outside, in order: published states, started
      asynchronous operations and armed timers. */
  datatype Effect =
    | Published(state: State)
    | Started(op: Op)
    | Armed(delay: nat)

  const MAX_RECONNECT_ATTEMPTS: nat := 10
  const RECONNECT_BASE_DELAY: nat := 200
  const RECONNECT_MAX_DELAY: nat := 5000

  function Min(x: nat, y: nat): nat {
    if x <= y then x else y
  }

  /** Exponential backoff, doubling five times at most, with a ceiling. */
  function Delay(attempt: nat): nat {
    Min(RECONNECT_BASE_DELAY * Pow2(Min(attempt, 5)), RECONNECT_MAX_DELAY)
  }

  datatype Event =
    | CallStart
    | CallStop(open: bool)
    | CallRestart(open: bool)
    | Resolved(ok: bool)
    | Connected(ok: bool)
    | TlsHandshaken(ok: bool)
    | WsHandshaken(ok: bool)
    | ReadDone(ok: bool)
    | Closed(ok: bool)
    | TimerDone(cancelled: bool)

  /** `open` tells whether the lowest layer of the stream is open when it is
      about to be closed; a handler's `ok` is the absence of an error. */
  datatype Source = Source(
    useTls: bool,
    state: State,
    restartRequested: bool,
    attempts: nat,
    timer: Option<nat>,
    log: seq<Effect>)
  {
    function Publish(s: State): Source {
      this.(state := s, log := log + [Published(s)])
    }

    function Begin(op: Op): Source {
      this.(log := log + [Started(op)])
    }

    function Start(): Source {
      var quiet := this.(timer := None);
      if state == STARTING || state == RUNNING then quiet
      else quiet.(restartRequested := false).Publish(STARTING).Begin(Resolve)
    }

    function Stop(open: bool): Source {
      var quiet := this.(restartRequested := false, timer := None);
      if state == STOPPED || state == STOPPING then quiet
      else quiet.Publish(STOPPING).DoClose(open)
    }

    function Restart(open: bool): Source {
      var asked := this.(restartRequested := true);
      if state == STOPPED || state == FAILED then asked.Start()
      else if state == STOPPING then asked
      else asked.Publish(STOPPING).DoClose(open)
    }

    function DoClose(open: bool): Source {
      if open then Begin(Close) else OnClose(true)
    }

    function OnClose(ok: bool): Source {
      var closed := if ok then Publish(STOPPED) else Publish(FAILED).ScheduleReconnect();
      if closed.restartRequested then closed.(restartRequested := false).Start() else closed
    }

    function Fail(): Source {
      Publish(FAILED).ScheduleReconnect()
    }

    function ScheduleReconnect(): Source {
      if state == STOPPING || state == STOPPED || attempts >= MAX_RECONNECT_ATTEMPTS then this
      else this.(attempts := attempts + 1, timer := Some(Delay(attempts)), log := log + [Armed(Delay(attempts))])
    }

    function OnWsHandshake(ok: bool): Source {
      if ok then this.(attempts := 0).Publish(RUNNING).Begin(Read) else Fail()
    }

    function OnRead(ok: bool): Source {
      if !ok then Fail() else if state == RUNNING then Begin(Read) else this
    }

    function OnTimer(cancelled: bool): Source {
      if cancelled then this
      else
        var expired := this.(timer := None);
        if state == STOPPING || state == RUNNING then expired else expired.Start()
    }

    function Handle(e: Event): Source {
      match e
      case CallStart => Start()
      case CallStop(open) => Stop(open)
      case CallRestart(open) => Restart(open)
      case Resolved(ok) => if ok then Begin(Connect) else Fail()
      case Connected(ok) => if ok then Begin(if useTls then TlsHandshake else WsHandshake) else Fail()
      case TlsHandshaken(ok) => if ok then Begin(WsHandshake) else Fail()
      case WsHandshaken(ok) => OnWsHandshake(ok)
      case ReadDone(ok) => OnRead(ok)
      case Closed(ok) => OnClose(ok)
      case TimerDone(cancelled) => OnTimer(cancelled)
    }

    function Run(es: seq<Event>): Source
      decreases |es|
    {
      if es == [] then this else Handle(es[0]).Run(es[1..])
    }
  }

  /** A stop asks for no restart and disarms the timer. Unless the source is stopped or
      stopping already, it closes an open stream, or is stopped at once. */
  lemma StopDisarms(s: Source, open: bool)
    ensures var s' := s.Stop(open);
            && s'.timer.None? && !s'.restartRequested
            && if s.state == STOPPED || s.state == STOPPING then s'.state == s.state && s'.log == s.log
               else if open then s'.state == STOPPING && s'.log == s.log + [Published(STOPPING), Started(Close)]
               else s'.state == STOPPED && s'.log == s.log + [Published(STOPPING), Published(STOPPED)]
  {
  }

  /** A restart ends in a fresh connection attempt, whether the stream was open and
      however its closing goes; a retry armed by a failed close is disarmed. */
  lemma RestartStartsOver(s: Source, open: bool, closedWell: bool)
    ensures var s1 := s.Restart(open);
            var s2 := if s1.state == STOPPING then s1.OnClose(closedWell) else s1;
            && s2.state == STARTING && s2.timer.None? && !s2.restartRequested
            && s2.log != [] && s2.log[|s2.log| - 1] == Started(Resolve)
  {
  }

  /** What a restart sets going: an attempt at once when stopped or failed, nothing new
      while the stream is already closing, and otherwise the close of an open stream, or
      an attempt at once when there is none to close. */
  lemma RestartDoes(s: Source, open: bool)
    ensures s.Restart(open).log == s.log +
            (var attempt := [Published(STARTING), Started(Resolve)];
             match s.state
             case STOPPED => attempt
             case FAILED => attempt
             case STOPPING => []
             case _ =>
               if open then [Published(STOPPING), Started(Close)]
               else [Published(STOPPING), Published(STOPPED)] + attempt)
    ensures s.Restart(open).state == STOPPING ==> s.Restart(open).restartRequested
  {
  }

  function Constructed(useTls: bool): Source {
    Source(useTls, STOPPED, false, 0, None, [])
  }

  // ---- The contract of the object ----

  class WsSource {
    const useTls: bool
    var state: State
    var restartRequested: bool
    var reconnectAttempts: nat
    var reconnectTimer: Option<nat>
    /** The published states and the requests made of the io_context. */
    var log: seq<Effect>

    function Value(): Source
      reads this
    {
      Source(useTls, state, restartRequested, reconnectAttempts, reconnectTimer, log)
    }

    constructor (useTls: bool)
      ensures Value() == Constructed(useTls)
    {
      this.useTls := useTls;
      state, restartRequested, reconnectAttempts := STOPPED, false, 0;
      reconnectTimer, log := None, [];
    }

    method PublishState(s: State)
      modifies this
      ensures Value() == old(Value()).Publish(s)
    {
      state := s;
      log := log + [Published(s)];
    }

    method Begin(op: Op)
      modifies this
      ensures Value() == old(Value()).Begin(op)
    {
      log := log + [Started(op)];
    }

    method Start()
      modifies this
      ensures Value() == old(Value()).Start()
    {
      reconnectTimer := None;
      if state == STARTING || state == RUNNING { return; }
      restartRequested := false;
      PublishState(STARTING);
      Begin(Resolve);
    }

    method Stop(open: bool)
      modifies this
      ensures Value() == old(Value()).Stop(open)
    {
      restartRequested := false;
      reconnectTimer := None;
      if state == STOPPED || state == STOPPING { return; }
      PublishState(STOPPING);
      DoClose(open);
    }

    method Restart(open: bool)
      modifies this
      ensures Value() == old(Value()).Restart(open)
    {
      restartRequested := true;
      if state == STOPPED || state == FAILED {
        Start();
        return;
      }
      if state == STOPPING { return; }
      PublishState(STOPPING);
      DoClose(open);
    }

    method DoClose(open: bool)
      modifies this
      ensures Value() == old(Value()).DoClose(open)
    {
      if !open {
        OnClose(true);
        return;
      }
      Begin(Close);
    }

    method OnResolve(ok: bool)
      modifies this
      ensures Value() == old(Value()).Handle(Resolved(ok))
    {
      if !ok {
        Fail();
        return;
      }
      Begin(Connect);
    }

    method OnConnect(ok: bool)
      modifies this
      ensures Value() == old(Value()).Handle(Connected(ok))
    {
      if !ok {
        Fail();
        return;
      }
      if !useTls {
        Begin(WsHandshake);
        return;
      }
      Begin(TlsHandshake);
    }

    method OnTlsHandshake(ok: bool)
      modifies this
      ensures Value() == old(Value()).Handle(TlsHandshaken(ok))
    {
      if !ok {
        Fail();
        return;
      }
      Begin(WsHandshake);
    }

    method OnWsHandshake(ok: bool)
      modifies this
      ensures Value() == old(Value()).Handle(WsHandshaken(ok))
    {
      if !ok {
        Fail();
        return;
      }
      reconnectAttempts := 0;
      PublishState(RUNNING);
      Begin(Read);
    }

    method OnRead(ok: bool)
      modifies this
      ensures Value() == old(Value()).Handle(ReadDone(ok))
    {
      if !ok {
        Fail();
        return;
      }
      if state == RUNNING {
        Begin(Read);
      }
    }

    method OnClose(ok: bool)
      modifies this
      ensures Value() == old(Value()).Handle(Closed(ok))
    {
      if !ok {
        PublishState(FAILED);
        ScheduleReconnect();
      } else {
        PublishState(STOPPED);
      }
      if restartRequested {
        restartRequested := false;
        Start();
      }
    }

    method Fail()
      modifies this
      ensures Value() == old(Value()).Fail()
    {
      PublishState(FAILED);
      ScheduleReconnect();
    }

    method ScheduleReconnect()
      modifies this
      ensures Value() == old(Value()).ScheduleReconnect()
    {
      if state == STOPPING || state == STOPPED { return; }
      if reconnectAttempts >= MAX_RECONNECT_ATTEMPTS { return; }
      var attempt := reconnectAttempts;
      reconnectAttempts := reconnectAttempts + 1;
      var multiplier := Pow2(Min(attempt, 5));
      var delay := Min(RECONNECT_BASE_DELAY * multiplier, RECONNECT_MAX_DELAY);
      reconnectTimer := Some(delay);
      log := log + [Armed(delay)];
    }

    /** The timer's callback. */
    method OnTimer(cancelled: bool)
      modifies this
      ensures Value() == old(Value()).Handle(TimerDone(cancelled))
    {
      if cancelled { return; }
      reconnectTimer := None;
      if state == STOPPING || state == RUNNING { return; }
      Start();
    }
  }
}
