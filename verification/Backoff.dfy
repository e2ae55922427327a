/** The reconnect machine of ws_source.cpp over whole runs: the backoff between
    two successful handshakes, and what happens when nothing ever succeeds. */
module Backoff {
  import opened Options
  import opened Powers
  import opened Reconnect

  /** The delays armed since the last successful handshake. RUNNING is published
      by a successful handshake and by nothing else. */
  function ArmedSince(log: seq<Effect>): seq<nat> {
    if log == [] then []
    else
      var last := log[|log| - 1];
      if last == Published(RUNNING) then []
      else if last.Armed? then ArmedSince(log[..|log| - 1]) + [last.delay]
      else ArmedSince(log[..|log| - 1])
  }

  /** The first `n` delays of the backoff. */
  function Schedule(n: nat): seq<nat> {
    if n == 0 then [] else Schedule(n - 1) + [Delay(n - 1)]
  }

  function Sum(xs: seq<nat>): nat {
    if xs == [] then 0 else Sum(xs[..|xs| - 1]) + xs[|xs| - 1]
  }

  ghost predicate OnSchedule(s: Source) {
    s.attempts <= MAX_RECONNECT_ATTEMPTS && ArmedSince(s.log) == Schedule(s.attempts)
  }

  lemma Appended(log: seq<Effect>, e: Effect)
    ensures ArmedSince(log + [e]) ==
              if e == Published(RUNNING) then [] else if e.Armed? then ArmedSince(log) + [e.delay] else ArmedSince(log)
  {
    assert (log + [e])[..|log|] == log;
  }

  lemma PublishOnSchedule(s: Source, st: State)
    requires OnSchedule(s) && st != RUNNING
    ensures OnSchedule(s.Publish(st))
  {
    Appended(s.log, Published(st));
  }

  lemma BeginOnSchedule(s: Source, op: Op)
    requires OnSchedule(s)
    ensures OnSchedule(s.Begin(op))
  {
    Appended(s.log, Started(op));
  }

  lemma ScheduleOnSchedule(s: Source)
    requires OnSchedule(s)
    ensures OnSchedule(s.ScheduleReconnect())
  {
    Appended(s.log, Armed(Delay(s.attempts)));
  }

  lemma StartOnSchedule(s: Source)
    requires OnSchedule(s)
    ensures OnSchedule(s.Start())
  {
    var quiet := s.(timer := None, restartRequested := false);
    PublishOnSchedule(quiet, STARTING);
    BeginOnSchedule(quiet.Publish(STARTING), Resolve);
  }

  lemma FailOnSchedule(s: Source)
    requires OnSchedule(s)
    ensures OnSchedule(s.Fail())
  {
    PublishOnSchedule(s, FAILED);
    ScheduleOnSchedule(s.Publish(FAILED));
  }

  lemma CloseOnSchedule(s: Source, ok: bool)
    requires OnSchedule(s)
    ensures OnSchedule(s.OnClose(ok))
  {
    var closed := if ok then s.Publish(STOPPED) else s.Fail();
    FailOnSchedule(s);
    PublishOnSchedule(s, STOPPED);
    StartOnSchedule(closed.(restartRequested := false));
  }

  lemma StoppingOnSchedule(s: Source, open: bool)
    requires OnSchedule(s)
    ensures OnSchedule(s.Publish(STOPPING).DoClose(open))
  {
    PublishOnSchedule(s, STOPPING);
    BeginOnSchedule(s.Publish(STOPPING), Close);
    CloseOnSchedule(s.Publish(STOPPING), true);
  }

  lemma StopOnSchedule(s: Source, open: bool)
    requires OnSchedule(s)
    ensures OnSchedule(s.Stop(open))
  {
    StoppingOnSchedule(s.(restartRequested := false, timer := None), open);
  }

  lemma RestartOnSchedule(s: Source, open: bool)
    requires OnSchedule(s)
    ensures OnSchedule(s.Restart(open))
  {
    StartOnSchedule(s.(restartRequested := true));
    StoppingOnSchedule(s.(restartRequested := true), open);
  }

  lemma HandleOnSchedule(s: Source, e: Event)
    requires OnSchedule(s)
    ensures OnSchedule(s.Handle(e))
  {
    match e {
      case CallStart => StartOnSchedule(s);
      case CallStop(open) => StopOnSchedule(s, open);
      case CallRestart(open) => RestartOnSchedule(s, open);
      case Closed(ok) => CloseOnSchedule(s, ok);
      case TimerDone(_) => StartOnSchedule(s.(timer := None));
      case WsHandshaken(ok) =>
        if ok { ConnectedOnSchedule(s); } else { FailOnSchedule(s); }
      case Resolved(ok) => if ok { BeginOnSchedule(s, Connect); } else { FailOnSchedule(s); }
      case Connected(ok) =>
        if ok { BeginOnSchedule(s, if s.useTls then TlsHandshake else WsHandshake); } else { FailOnSchedule(s); }
      case TlsHandshaken(ok) => if ok { BeginOnSchedule(s, WsHandshake); } else { FailOnSchedule(s); }
      case ReadDone(ok) => if ok { BeginOnSchedule(s, Read); } else { FailOnSchedule(s); }
    }
  }

  /** A successful handshake clears the counter and starts the count afresh. */
  lemma ConnectedOnSchedule(s: Source)
    requires OnSchedule(s)
    ensures OnSchedule(s.OnWsHandshake(true))
  {
    Appended(s.log, Published(RUNNING));
    BeginOnSchedule(s.(attempts := 0).Publish(RUNNING), Read);
  }

  /** Whatever calls and handlers run in whatever order, the delays armed since
      the last successful handshake are the first delays of the backoff, ten at
      most. */
  lemma {:induction false} RunOnSchedule(s: Source, es: seq<Event>)
    requires OnSchedule(s)
    ensures OnSchedule(s.Run(es))
    decreases |es|
  {
    if es != [] {
      HandleOnSchedule(s, es[0]);
      RunOnSchedule(s.Handle(es[0]), es[1..]);
    }
  }

  /** The backoff never shrinks and stays within its bounds. */
  lemma DelaysGrow(i: nat, j: nat)
    requires i <= j
    ensures RECONNECT_BASE_DELAY <= Delay(i) <= Delay(j) <= RECONNECT_MAX_DELAY
  {
    Pow2Mono(0, Min(i, 5));
    Pow2Mono(Min(i, 5), Min(j, 5));
  }

  lemma {:induction false} Pow2Mono(i: nat, j: nat)
    requires i <= j
    ensures 1 <= Pow2(i) <= Pow2(j)
    decreases j
  {
    if i < j {
      Pow2Mono(i, j - 1);
    } else if i > 0 {
      Pow2Mono(i - 1, i - 1);
    }
  }

  lemma SumStep(n: nat)
    ensures Sum(Schedule(n + 1)) == Sum(Schedule(n)) + Delay(n)
  {
    assert Schedule(n + 1)[..|Schedule(n)|] == Schedule(n);
  }

  lemma {:induction false} ScheduleAt(n: nat, i: nat)
    requires i < n
    ensures |Schedule(n)| == n && Schedule(n)[i] == Delay(i)
  {
    if n > 1 && i < n - 1 {
      ScheduleAt(n - 1, i);
    } else if n > 1 {
      ScheduleAt(n - 1, 0);
    }
  }

  /** The first `n` delays are these, and add up to this. */
  ghost predicate Begins(n: nat, delays: seq<nat>, total: nat) {
    Schedule(n) == delays && Sum(delays) == total
  }

  lemma NextDelay(n: nat, delays: seq<nat>, total: nat)
    requires Begins(n, delays, total)
    ensures Begins(n + 1, delays + [Delay(n)], total + Delay(n))
  {
    SumStep(n);
  }

  lemma FirstDelays()
    ensures Begins(5, [200, 400, 800, 1600, 3200], 6200)
  {
    DelayValues();
    assert Begins(0, [], 0);
    NextDelay(0, [], 0);
    NextDelay(1, [200], 200);
    NextDelay(2, [200, 400], 600);
    NextDelay(3, [200, 400, 800], 1400);
    NextDelay(4, [200, 400, 800, 1600], 3000);
  }

  /** The ten delays, which add up to 31.2 seconds. */
  lemma TenDelays()
    ensures Schedule(10) == [200, 400, 800, 1600, 3200, 5000, 5000, 5000, 5000, 5000]
    ensures Sum(Schedule(10)) == 31200
  {
    DelayValues();
    FirstDelays();
    NextDelay(5, [200, 400, 800, 1600, 3200], 6200);
    NextDelay(6, [200, 400, 800, 1600, 3200, 5000], 11200);
    NextDelay(7, [200, 400, 800, 1600, 3200, 5000, 5000], 16200);
    NextDelay(8, [200, 400, 800, 1600, 3200, 5000, 5000, 5000], 21200);
    NextDelay(9, [200, 400, 800, 1600, 3200, 5000, 5000, 5000, 5000], 26200);
  }

  lemma DelayValues()
    ensures Delay(0) == 200 && Delay(1) == 400 && Delay(2) == 800 && Delay(3) == 1600 && Delay(4) == 3200
    ensures forall i :: i >= 5 ==> Delay(i) == 5000
  {
    assert Pow2(3) == 8 && Pow2(5) == 32;
  }

  lemma {:induction false} ScheduleTotals(n: nat, m: nat)
    requires n <= m
    ensures Sum(Schedule(n)) <= Sum(Schedule(m))
    decreases m - n
  {
    if n < m {
      SumStep(n);
      ScheduleTotals(n + 1, m);
    }
  }

  lemma ScheduleGrows(n: nat)
    ensures |Schedule(n)| == n
    ensures forall i, j :: 0 <= i <= j < n ==>
            RECONNECT_BASE_DELAY <= Schedule(n)[i] <= Schedule(n)[j] <= RECONNECT_MAX_DELAY
  {
    if n > 0 {
      ScheduleAt(n, 0);
    }
    forall i, j | 0 <= i <= j < n
      ensures RECONNECT_BASE_DELAY <= Schedule(n)[i] <= Schedule(n)[j] <= RECONNECT_MAX_DELAY
    {
      ScheduleAt(n, i);
      ScheduleAt(n, j);
      DelaysGrow(i, j);
    }
  }

  lemma TotalAtMost(n: nat)
    requires n <= MAX_RECONNECT_ATTEMPTS
    ensures Sum(Schedule(n)) <= 31200
  {
    ScheduleTotals(n, 10);
    TenDelays();
  }

  ghost predicate Bounded(delays: seq<nat>) {
    && |delays| <= 10
    && (forall i, j :: 0 <= i <= j < |delays| ==> 200 <= delays[i] <= delays[j] <= 5000)
    && Sum(delays) <= 31200
  }

  /** From construction on, under any calls and handlers in any order: between
      successful handshakes at most ten reconnects are scheduled, with delays
      that never shrink, stay within 200 and 5000 ms and add up to 31.2 seconds
      at most. */
  lemma BackoffIsBounded(useTls: bool, es: seq<Event>)
    ensures Bounded(ArmedSince(Constructed(useTls).Run(es).log))
  {
    RunOnSchedule(Constructed(useTls), es);
    var n := Constructed(useTls).Run(es).attempts;
    ScheduleGrows(n);
    TotalAtMost(n);
  }

  // ---- A running source ----

  predicate Clear(s: Source) {
    s.state == RUNNING ==> s.attempts == 0
  }

  lemma HandleKeepsClear(s: Source, e: Event)
    requires Clear(s)
    ensures Clear(s.Handle(e))
  {
  }

  /** A running source has a clear counter, whatever has happened. */
  lemma {:induction false} RunningIsClear(s: Source, es: seq<Event>)
    requires Clear(s)
    ensures Clear(s.Run(es))
    decreases |es|
  {
    if es != [] {
      HandleKeepsClear(s, es[0]);
      RunningIsClear(s.Handle(es[0]), es[1..]);
    }
  }

  /** The state a running source has in every run is one this applies to. */
  lemma RunningIsReady(useTls: bool, es: seq<Event>)
    ensures var s := Constructed(useTls).Run(es); OnSchedule(s) && Clear(s)
  {
    RunOnSchedule(Constructed(useTls), es);
    RunningIsClear(Constructed(useTls), es);
  }

  // ---- The object ----

  /** The events of a run, handed to the object one by one. */
  method Drive(source: WsSource, es: seq<Event>)
    modifies source
    ensures source.Value() == old(source.Value()).Run(es)
    ensures old(OnSchedule(source.Value())) ==> OnSchedule(source.Value())
  {
    for i := 0 to |es|
      invariant old(source.Value()).Run(es) == source.Value().Run(es[i..])
    {
      assert es[i..][0] == es[i] && es[i..][1..] == es[i + 1..];
      match es[i] {
        case CallStart => source.Start();
        case CallStop(open) => source.Stop(open);
        case CallRestart(open) => source.Restart(open);
        case Resolved(ok) => source.OnResolve(ok);
        case Connected(ok) => source.OnConnect(ok);
        case TlsHandshaken(ok) => source.OnTlsHandshake(ok);
        case WsHandshaken(ok) => source.OnWsHandshake(ok);
        case ReadDone(ok) => source.OnRead(ok);
        case Closed(ok) => source.OnClose(ok);
        case TimerDone(cancelled) => source.OnTimer(cancelled);
      }
    }
    if old(OnSchedule(source.Value())) {
      RunOnSchedule(old(source.Value()), es);
    }
  }

  /** So a constructed source stays within the backoff, whatever is done to it. */
  method Life(useTls: bool, es: seq<Event>) returns (source: WsSource)
    ensures fresh(source) && source.Value() == Constructed(useTls).Run(es)
    ensures Bounded(ArmedSince(source.log))
  {
    source := new WsSource(useTls);
    Drive(source, es);
    BackoffIsBounded(useTls, es);
  }
}
