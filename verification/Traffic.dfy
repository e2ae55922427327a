/** What leads to what in the websocket source of ws_source.cpp, over whole runs:
    every operation is begun exactly as often as what precedes it has succeeded, and a
    running source always has a read under way. */
module Traffic {
  import opened Options
  import opened Reconnect
  import opened Backoff

  // ---- Counting ----

  function Count(log: seq<Effect>, e: Effect): nat {
    if log == [] then 0 else Count(log[..|log| - 1], e) + (if log[|log| - 1] == e then 1 else 0)
  }

  function Times(es: seq<Event>, e: Event): nat {
    if es == [] then 0 else (if es[0] == e then 1 else 0) + Times(es[1..], e)
  }

  lemma Counted(log: seq<Effect>, last: Effect, e: Effect)
    ensures Count(log + [last], e) == Count(log, e) + (if last == e then 1 else 0)
  {
    assert (log + [last])[..|log|] == log;
  }

  /** How many of these effects each call and handler adds. */
  ghost predicate Adds(s: Source, s': Source, e: Effect, n: nat) {
    Count(s'.log, e) == Count(s.log, e) + n
  }

  lemma PublishAdds(s: Source, st: State, e: Effect)
    ensures Adds(s, s.Publish(st), e, if e == Published(st) then 1 else 0)
  {
    Counted(s.log, Published(st), e);
  }

  lemma BeginAdds(s: Source, op: Op, e: Effect)
    ensures Adds(s, s.Begin(op), e, if e == Started(op) then 1 else 0)
  {
    Counted(s.log, Started(op), e);
  }

  /** The effects these laws count: all but the armed timers, which the backoff is
      about, and what a start and a stop publish and begin. */
  predicate Tracked(e: Effect) {
    || e == Started(Connect) || e == Started(TlsHandshake) || e == Started(WsHandshake)
    || e == Published(RUNNING) || e == Published(FAILED)
  }

  lemma StartAdds(s: Source, e: Effect)
    requires Tracked(e)
    ensures Adds(s, s.Start(), e, 0)
  {
    var quiet := s.(timer := None, restartRequested := false);
    PublishAdds(quiet, STARTING, e);
    BeginAdds(quiet.Publish(STARTING), Resolve, e);
  }

  lemma FailAdds(s: Source, e: Effect)
    requires Tracked(e)
    ensures Adds(s, s.Fail(), e, if e == Published(FAILED) then 1 else 0)
  {
    var failed := s.Publish(FAILED);
    PublishAdds(s, FAILED, e);
    if failed.ScheduleReconnect() != failed {
      Counted(failed.log, Armed(Delay(failed.attempts)), e);
    }
  }

  lemma CloseAdds(s: Source, ok: bool, e: Effect)
    requires Tracked(e)
    ensures Adds(s, s.OnClose(ok), e, if ok then 0 else One(e, Published(FAILED)))
  {
    var closed := if ok then s.Publish(STOPPED) else s.Fail();
    PublishAdds(s, STOPPED, e);
    FailAdds(s, e);
    StartAdds(closed.(restartRequested := false), e);
  }

  lemma StoppingAdds(s: Source, open: bool, e: Effect)
    requires Tracked(e)
    ensures Adds(s, s.Publish(STOPPING).DoClose(open), e, 0)
  {
    PublishAdds(s, STOPPING, e);
    BeginAdds(s.Publish(STOPPING), Close, e);
    CloseAdds(s.Publish(STOPPING), true, e);
  }

  lemma StopAdds(s: Source, open: bool, e: Effect)
    requires Tracked(e)
    ensures Adds(s, s.Stop(open), e, 0)
  {
    StoppingAdds(s.(restartRequested := false, timer := None), open, e);
  }

  lemma RestartAdds(s: Source, open: bool, e: Effect)
    requires Tracked(e)
    ensures Adds(s, s.Restart(open), e, 0)
  {
    StartAdds(s.(restartRequested := true), e);
    StoppingAdds(s.(restartRequested := true), open, e);
  }

  lemma TimerAdds(s: Source, cancelled: bool, e: Effect)
    requires Tracked(e)
    ensures Adds(s, s.OnTimer(cancelled), e, 0)
  {
    StartAdds(s.(timer := None), e);
  }

  /** An operation completes and leads to `next`, or fails. */
  lemma CompletionAdds(s: Source, ok: bool, next: Op, e: Effect)
    requires Tracked(e)
    ensures Adds(s, if ok then s.Begin(next) else s.Fail(), e,
                 One(e, if ok then Started(next) else Published(FAILED)))
  {
    BeginAdds(s, next, e);
    FailAdds(s, e);
  }

  lemma HandshakeAdds(s: Source, ok: bool, e: Effect)
    requires Tracked(e)
    ensures Adds(s, s.OnWsHandshake(ok), e, One(e, if ok then Published(RUNNING) else Published(FAILED)))
  {
    FailAdds(s, e);
    PublishAdds(s.(attempts := 0), RUNNING, e);
    BeginAdds(s.(attempts := 0).Publish(RUNNING), Read, e);
  }

  lemma ReadAdds(s: Source, ok: bool, e: Effect)
    requires Tracked(e)
    ensures Adds(s, s.OnRead(ok), e, if ok then 0 else One(e, Published(FAILED)))
  {
    FailAdds(s, e);
    BeginAdds(s, Read, e);
  }

  /** How often this event leads to this effect. */
  function Leads(useTls: bool, ev: Event, e: Effect): nat {
    match ev
    case Resolved(ok) => One(e, if ok then Started(Connect) else Published(FAILED))
    case Connected(ok) =>
      One(e, if ok then Started(if useTls then TlsHandshake else WsHandshake) else Published(FAILED))
    case TlsHandshaken(ok) => One(e, if ok then Started(WsHandshake) else Published(FAILED))
    case WsHandshaken(ok) => One(e, if ok then Published(RUNNING) else Published(FAILED))
    case ReadDone(ok) => if ok then 0 else One(e, Published(FAILED))
    case Closed(ok) => if ok then 0 else One(e, Published(FAILED))
    case _ => 0
  }

  function One(e: Effect, led: Effect): nat {
    if e == led then 1 else 0
  }

  predicate Fails(ev: Event) {
    || ev == Resolved(false) || ev == Connected(false) || ev == TlsHandshaken(false)
    || ev == WsHandshaken(false) || ev == ReadDone(false) || ev == Closed(false)
  }

  lemma HandleAdds(s: Source, ev: Event, e: Effect)
    requires Tracked(e)
    ensures Adds(s, s.Handle(ev), e, Leads(s.useTls, ev, e))
  {
    match ev {
      case CallStart => StartAdds(s, e);
      case CallStop(open) => StopAdds(s, open, e);
      case CallRestart(open) => RestartAdds(s, open, e);
      case Resolved(ok) => CompletionAdds(s, ok, Connect, e);
      case Connected(ok) => CompletionAdds(s, ok, if s.useTls then TlsHandshake else WsHandshake, e);
      case TlsHandshaken(ok) => CompletionAdds(s, ok, WsHandshake, e);
      case WsHandshaken(ok) => HandshakeAdds(s, ok, e);
      case ReadDone(ok) => ReadAdds(s, ok, e);
      case Closed(ok) => CloseAdds(s, ok, e);
      case TimerDone(cancelled) => TimerAdds(s, cancelled, e);
    }
  }

  lemma HandleKeepsTls(s: Source, ev: Event)
    ensures s.Handle(ev).useTls == s.useTls
  {
  }

  function LeadsAll(useTls: bool, es: seq<Event>, e: Effect): nat {
    if es == [] then 0 else Leads(useTls, es[0], e) + LeadsAll(useTls, es[1..], e)
  }

  lemma {:induction false} RunAdds(s: Source, es: seq<Event>, e: Effect)
    requires Tracked(e)
    ensures Adds(s, s.Run(es), e, LeadsAll(s.useTls, es, e))
    decreases |es|
  {
    if es != [] {
      HandleAdds(s, es[0], e);
      HandleKeepsTls(s, es[0]);
      RunAdds(s.Handle(es[0]), es[1..], e);
    }
  }

  function FailedTimes(es: seq<Event>): nat {
    if es == [] then 0 else (if Fails(es[0]) then 1 else 0) + FailedTimes(es[1..])
  }

  lemma LeadsOnce(useTls: bool, ev: Event)
    ensures Leads(useTls, ev, Started(Connect)) == (if ev == Resolved(true) then 1 else 0)
    ensures Leads(useTls, ev, Started(TlsHandshake)) == (if useTls && ev == Connected(true) then 1 else 0)
    ensures Leads(useTls, ev, Started(WsHandshake)) ==
            (if ev == TlsHandshaken(true) || (!useTls && ev == Connected(true)) then 1 else 0)
    ensures Leads(useTls, ev, Published(RUNNING)) == (if ev == WsHandshaken(true) then 1 else 0)
    ensures Leads(useTls, ev, Published(FAILED)) == (if Fails(ev) then 1 else 0)
  {
  }

  lemma {:induction false} LeadsCounts(useTls: bool, es: seq<Event>)
    ensures LeadsAll(useTls, es, Started(Connect)) == Times(es, Resolved(true))
    ensures LeadsAll(useTls, es, Started(TlsHandshake)) == if useTls then Times(es, Connected(true)) else 0
    ensures LeadsAll(useTls, es, Started(WsHandshake)) ==
            Times(es, TlsHandshaken(true)) + (if useTls then 0 else Times(es, Connected(true)))
    ensures LeadsAll(useTls, es, Published(RUNNING)) == Times(es, WsHandshaken(true))
    ensures LeadsAll(useTls, es, Published(FAILED)) == FailedTimes(es)
  {
    if es != [] {
      LeadsCounts(useTls, es[1..]);
      LeadsOnce(useTls, es[0]);
    }
  }

  /** In every run: a connect for each resolve that succeeded; with TLS, a TLS handshake
      for each connect that succeeded and a websocket handshake for each TLS handshake,
      without it, a websocket handshake for each connect; RUNNING for each websocket
      handshake that succeeded and FAILED for each operation that failed. */
  lemma OperationsFollow(useTls: bool, es: seq<Event>)
    ensures var log := Constructed(useTls).Run(es).log;
            && Count(log, Started(Connect)) == Times(es, Resolved(true))
            && Count(log, Started(TlsHandshake)) == (if useTls then Times(es, Connected(true)) else 0)
            && Count(log, Started(WsHandshake)) ==
               Times(es, TlsHandshaken(true)) + (if useTls then 0 else Times(es, Connected(true)))
            && Count(log, Published(RUNNING)) == Times(es, WsHandshaken(true))
            && Count(log, Published(FAILED)) == FailedTimes(es)
  {
    var s := Constructed(useTls);
    LeadsCounts(useTls, es);
    RunAdds(s, es, Started(Connect));
    RunAdds(s, es, Started(TlsHandshake));
    RunAdds(s, es, Started(WsHandshake));
    RunAdds(s, es, Published(RUNNING));
    RunAdds(s, es, Published(FAILED));
  }

  // ---- Reading ----

  /** Reads begun since the source was last published as running. */
  function ReadsSince(log: seq<Effect>): nat {
    if log == [] || log[|log| - 1] == Published(RUNNING) then 0
    else ReadsSince(log[..|log| - 1]) + (if log[|log| - 1] == Started(Read) then 1 else 0)
  }

  /** Messages read since the last successful handshake, `sofar` of them before. */
  function MessagesSince(sofar: nat, es: seq<Event>): nat
    decreases |es|
  {
    if es == [] then sofar else MessagesSince(Messages(sofar, es[0]), es[1..])
  }

  function Messages(sofar: nat, e: Event): nat {
    if e == WsHandshaken(true) then 0 else if e == ReadDone(true) then sofar + 1 else sofar
  }

  lemma LoggedRead(log: seq<Effect>, last: Effect)
    ensures ReadsSince(log + [last]) ==
            if last == Published(RUNNING) then 0 else ReadsSince(log) + (if last == Started(Read) then 1 else 0)
  {
    assert (log + [last])[..|log|] == log;
  }

  ghost predicate Reading(s: Source, messages: nat) {
    s.state == RUNNING ==> ReadsSince(s.log) == messages + 1
  }

  /** Every other call and handler takes the source out of RUNNING or leaves it and the
      log alone. */
  lemma OthersKeepReading(s: Source, e: Event)
    requires e.CallStart? || e.CallStop? || e.CallRestart? || e.Closed? || e.TimerDone?
    ensures s.Handle(e).state == RUNNING ==> s.state == RUNNING && s.Handle(e).log == s.log
  {
  }

  lemma FailStops(s: Source)
    ensures s.Fail().state == FAILED
  {
  }

  lemma HandleKeepsReading(s: Source, e: Event, messages: nat)
    requires Reading(s, messages)
    ensures Reading(s.Handle(e), Messages(messages, e))
  {
    FailStops(s);
    match e {
      case WsHandshaken(ok) =>
        LoggedRead(s.log, Published(RUNNING));
        LoggedRead(s.log + [Published(RUNNING)], Started(Read));
      case ReadDone(ok) => LoggedRead(s.log, Started(Read));
      case Resolved(ok) => LoggedRead(s.log, Started(Connect));
      case Connected(ok) => LoggedRead(s.log, Started(if s.useTls then TlsHandshake else WsHandshake));
      case TlsHandshaken(ok) => LoggedRead(s.log, Started(WsHandshake));
      case _ => OthersKeepReading(s, e);
    }
  }

  lemma {:induction false} RunKeepsReading(s: Source, es: seq<Event>, messages: nat)
    requires Reading(s, messages)
    ensures Reading(s.Run(es), MessagesSince(messages, es))
    decreases |es|
  {
    if es != [] {
      HandleKeepsReading(s, es[0], messages);
      RunKeepsReading(s.Handle(es[0]), es[1..], Messages(messages, es[0]));
    }
  }

  /** In every run, a source that is running has begun one read more than it has read
      messages since its last handshake: it always has a read under way. */
  lemma AlwaysReading(useTls: bool, es: seq<Event>)
    ensures var s := Constructed(useTls).Run(es);
            s.state == RUNNING ==> ReadsSince(s.log) == MessagesSince(0, es) + 1
  {
    RunKeepsReading(Constructed(useTls), es, 0);
  }

  /** A message that arrives when the source is not running is the last. */
  lemma ReadsOnlyWhileRunning(s: Source)
    ensures s.OnRead(true).log == (if s.state == RUNNING then s.log + [Started(Read)] else s.log)
    ensures s.OnRead(true).state == s.state
  {
  }

  // ---- Timers ----

  /** Every failure, of whatever operation, arms the next delay as long as there is one
      left; the one failure that restarts at once instead is that of a close during a
      requested restart. */
  lemma FailuresRetry(s: Source, ev: Event)
    requires Fails(ev) && !(ev.Closed? && s.restartRequested)
    ensures var s', left := s.Handle(ev), s.attempts < MAX_RECONNECT_ATTEMPTS;
            && s'.state == FAILED
            && s'.attempts == s.attempts + (if left then 1 else 0)
            && s'.timer == (if left then Some(Delay(s.attempts)) else s.timer)
            && s'.log == s.log + [Published(FAILED)] + (if left then [Armed(Delay(s.attempts))] else [])
  {
  }

  function WithoutCancelled(es: seq<Event>): seq<Event> {
    if es == [] then []
    else (if es[0] == TimerDone(true) then [] else [es[0]]) + WithoutCancelled(es[1..])
  }

  /** A cancelled timer's callback makes no difference to any run. */
  lemma {:induction false} CancelledTimersDoNothing(s: Source, es: seq<Event>)
    ensures s.Run(es) == s.Run(WithoutCancelled(es))
    decreases |es|
  {
    if es != [] {
      var rest := WithoutCancelled(es[1..]);
      CancelledTimersDoNothing(s.Handle(es[0]), es[1..]);
      if es[0] == TimerDone(true) {
        assert WithoutCancelled(es) == rest;
      } else {
        assert WithoutCancelled(es)[0] == es[0] && WithoutCancelled(es)[1..] == rest;
      }
    }
  }

  /** A timer that expires begins an attempt, unless the source is stopping or has one
      or a connection already. */
  lemma ExpiryDials(s: Source)
    ensures var s' := s.OnTimer(false);
            && s'.timer.None?
            && s'.log == s.log +
               (if s.state == STOPPED || s.state == FAILED then [Published(STARTING), Started(Resolve)] else [])
  {
  }
}
