/** When every operation fails and nobody calls in: how often the websocket source
    of ws_source.cpp dials before it gives up. An operation that a stop, a restart or
    a failure has cancelled still completes, later and with an error, and its handler
    fails the source again without looking at its state. */
module GivingUp {
  import opened Options
  import opened Reconnect
  import opened Backoff

  function Outstanding(s: Source): Option<Op> {
    if s.log != [] && s.log[|s.log| - 1].Started? then Some(s.log[|s.log| - 1].op) else None
  }

  /** What can happen next: the one outstanding operation completes, with the
      websocket handshake always failing, or the armed timer expires. */
  predicate Happens(s: Source, e: Event) {
    match e
    case Resolved(_) => Outstanding(s) == Some(Resolve)
    case Connected(_) => Outstanding(s) == Some(Connect)
    case TlsHandshaken(_) => Outstanding(s) == Some(TlsHandshake)
    case WsHandshaken(ok) => Outstanding(s) == Some(WsHandshake) && !ok
    case TimerDone(cancelled) => s.timer.Some? && !cancelled
    case _ => false
  }

  /** Connection attempts begun. */
  function Dials(log: seq<Effect>): nat {
    if log == [] then 0
    else Dials(log[..|log| - 1]) + (if log[|log| - 1] == Started(Resolve) then 1 else 0)
  }

  lemma Dialled(log: seq<Effect>, e: Effect)
    ensures Dials(log + [e]) == Dials(log) + (if e == Started(Resolve) then 1 else 0)
  {
    assert (log + [e])[..|log|] == log;
  }

  /** `base` counts the attempts before this series. */
  ghost predicate Trying(s: Source, base: int) {
    && Outstanding(s).Some? && Outstanding(s).value in {Resolve, Connect, TlsHandshake, WsHandshake}
    && s.state == STARTING && s.timer.None? && Dials(s.log) == base + s.attempts + 1
  }

  ghost predicate Pausing(s: Source, base: int) {
    && Outstanding(s).None? && s.state == FAILED && s.timer.Some? && s.attempts > 0 && Dials(s.log) == base + s.attempts
  }

  ghost predicate GaveUp(s: Source, base: int) {
    && Outstanding(s).None? && s.state == FAILED && s.timer.None?
    && s.attempts == MAX_RECONNECT_ATTEMPTS && Dials(s.log) == base + MAX_RECONNECT_ATTEMPTS + 1
  }

  ghost predicate Failing(s: Source, base: int) {
    OnSchedule(s) && (Trying(s, base) || Pausing(s, base) || GaveUp(s, base))
  }

  /** What is left to do: attempts first, then the steps of the current one. */
  ghost function Remaining(s: Source): nat
    requires s.attempts <= MAX_RECONNECT_ATTEMPTS
  {
    10 * (MAX_RECONNECT_ATTEMPTS - s.attempts) +
    if s.timer.Some? then 5
    else match Outstanding(s)
      case Some(Resolve) => 4
      case Some(Connect) => 3
      case Some(TlsHandshake) => 2
      case Some(WsHandshake) => 1
      case _ => 0
  }

  lemma StartTries(s: Source, base: int)
    requires OnSchedule(s) && s.state != STARTING && s.state != RUNNING && Dials(s.log) == base + s.attempts
    ensures Failing(s.Start(), base) && Trying(s.Start(), base) && Outstanding(s.Start()) == Some(Resolve)
  {
    StartOnSchedule(s);
    Dialled(s.log, Published(STARTING));
    Dialled(s.log + [Published(STARTING)], Started(Resolve));
  }

  lemma FailDials(s: Source)
    requires s.attempts <= MAX_RECONNECT_ATTEMPTS
    ensures var s' := s.Fail();
            && s'.state == FAILED && Outstanding(s').None? && Dials(s'.log) == Dials(s.log)
            && (if s.attempts < MAX_RECONNECT_ATTEMPTS then s'.timer.Some? && s'.attempts == s.attempts + 1
                else s'.timer == s.timer && s'.attempts == s.attempts)
  {
    Dialled(s.log, Published(FAILED));
    Dialled(s.log + [Published(FAILED)], Armed(Delay(s.attempts)));
  }

  lemma FailPausesOrGivesUp(s: Source, base: int)
    requires Failing(s, base) && Trying(s, base)
    ensures Failing(s.Fail(), base) && Remaining(s.Fail()) < Remaining(s)
  {
    FailOnSchedule(s);
    FailDials(s);
  }

  lemma BeginTries(s: Source, base: int, op: Op)
    requires Failing(s, base) && Trying(s, base) && op in {Connect, TlsHandshake, WsHandshake}
    ensures Failing(s.Begin(op), base) && Trying(s.Begin(op), base) && Outstanding(s.Begin(op)) == Some(op)
  {
    BeginOnSchedule(s, op);
    Dialled(s.log, Started(op));
  }

  /** An operation completes and leads to `next`, or fails. */
  lemma CompletionProgresses(s: Source, base: int, ok: bool, next: Op)
    requires Failing(s, base) && Trying(s, base) && next in {Connect, TlsHandshake, WsHandshake}
    requires match next
             case Connect => Outstanding(s) == Some(Resolve)
             case TlsHandshake => Outstanding(s) == Some(Connect)
             case _ => Outstanding(s) == Some(Connect) || Outstanding(s) == Some(TlsHandshake)
    ensures var s' := if ok then s.Begin(next) else s.Fail();
            Failing(s', base) && Remaining(s') < Remaining(s)
  {
    if ok {
      BeginTries(s, base, next);
    } else {
      FailPausesOrGivesUp(s, base);
    }
  }

  /** Every event keeps the shape and uses up some of what remains. */
  lemma EventProgresses(s: Source, base: int, e: Event)
    requires Failing(s, base) && Happens(s, e)
    ensures Failing(s.Handle(e), base) && Remaining(s.Handle(e)) < Remaining(s)
  {
    match e {
      case TimerDone(_) => StartTries(s.(timer := None), base);
      case Resolved(ok) => CompletionProgresses(s, base, ok, Connect);
      case Connected(ok) => CompletionProgresses(s, base, ok, if s.useTls then TlsHandshake else WsHandshake);
      case TlsHandshaken(ok) => CompletionProgresses(s, base, ok, WsHandshake);
      case WsHandshaken(_) => FailPausesOrGivesUp(s, base);
    }
  }

  // ---- A source and the handlers still to come ----

  /** `late` counts the cancelled operations whose handlers have not run yet. */
  datatype Track = Track(source: Source, late: nat) {
    function Move(m: Move): Track
      requires Moves(this, m)
    {
      match m
      case Next(e) => Track(source.Handle(e), late)
      case LateFailure =>
        Track(source.Fail(), late - 1 + (if Outstanding(source).Some? then 1 else 0))
    }

    function Run(ms: seq<Move>): Track
      requires Follows(this, ms)
      decreases |ms|
    {
      if ms == [] then this else Move(ms[0]).Run(ms[1..])
    }
  }

  datatype Move = Next(event: Event) | LateFailure

  predicate Moves(t: Track, m: Move) {
    match m
    case Next(e) => Happens(t.source, e)
    case LateFailure => t.late > 0
  }

  predicate Follows(t: Track, ms: seq<Move>)
    decreases |ms|
  {
    ms == [] || (Moves(t, ms[0]) && Follows(t.Move(ms[0]), ms[1..]))
  }

  ghost predicate CanMove(t: Track) {
    exists m :: Moves(t, m)
  }

  /** A late failure costs an attempt when it meets an armed timer that it replaces. */
  function Cost(t: Track, m: Move): nat {
    if m.LateFailure? && t.source.timer.Some? && t.source.attempts < MAX_RECONNECT_ATTEMPTS then 1 else 0
  }

  function Costs(t: Track, ms: seq<Move>): nat
    requires Follows(t, ms)
    decreases |ms|
  {
    if ms == [] then 0 else Cost(t, ms[0]) + Costs(t.Move(ms[0]), ms[1..])
  }

  /** A late failure never helps: it cancels the current attempt, or it takes the
      place of a delay that has not run out yet, which costs an attempt. */
  lemma LateFailureProgresses(t: Track, base: int)
    requires Failing(t.source, base) && Moves(t, LateFailure)
    ensures var t' := t.Move(LateFailure);
            && Failing(t'.source, base - Cost(t, LateFailure))
            && Remaining(t'.source) + t'.late < Remaining(t.source) + t.late
  {
    var s := t.source;
    FailOnSchedule(s);
    FailDials(s);
  }

  lemma MoveProgresses(t: Track, base: int, m: Move)
    requires Failing(t.source, base) && Moves(t, m)
    ensures var t' := t.Move(m);
            && Failing(t'.source, base - Cost(t, m))
            && Remaining(t'.source) + t'.late < Remaining(t.source) + t.late
            && (t.late == 0 ==> t'.late == 0 && Cost(t, m) == 0)
  {
    match m {
      case Next(e) => EventProgresses(t.source, base, e);
      case LateFailure => LateFailureProgresses(t, base);
    }
  }

  lemma {:induction false} SeriesProgresses(t: Track, base: int, ms: seq<Move>)
    requires Failing(t.source, base) && Follows(t, ms)
    ensures var end := t.Run(ms);
            && Failing(end.source, base - Costs(t, ms))
            && |ms| + Remaining(end.source) + end.late <= Remaining(t.source) + t.late
            && (t.late == 0 ==> end.late == 0 && Costs(t, ms) == 0)
    decreases |ms|
  {
    if ms != [] {
      MoveProgresses(t, base, ms[0]);
      SeriesProgresses(t.Move(ms[0]), base - Cost(t, ms[0]), ms[1..]);
    }
  }

  /** A failing source that has not given up always has something coming. */
  lemma NotStuck(s: Source, base: int)
    requires Failing(s, base)
    ensures (exists e :: Happens(s, e)) <==> !GaveUp(s, base)
  {
    if Pausing(s, base) {
      assert Happens(s, TimerDone(false));
    } else if Trying(s, base) {
      var op := Outstanding(s).value;
      var e := if op == Resolve then Resolved(false) else if op == Connect then Connected(false)
               else if op == TlsHandshake then TlsHandshaken(false) else WsHandshaken(false);
      assert Happens(s, e);
    }
  }

  lemma CanMoveExactlyWhen(t: Track, base: int)
    requires Failing(t.source, base)
    ensures CanMove(t) <==> !GaveUp(t.source, base) || t.late > 0
  {
    NotStuck(t.source, base);
    if t.late > 0 {
      assert Moves(t, LateFailure);
    }
    if e :| Happens(t.source, e) {
      assert Moves(t, Next(e));
    }
  }

  // ---- How a failing series ends ----

  /** At rest after so many dials: ten delays armed, 31200 ms in all, no timer left. */
  ghost predicate RestsAfter(end: Source, dials: int) {
    && end.state == FAILED && end.timer.None?
    && Dials(end.log) == dials && end.attempts == MAX_RECONNECT_ATTEMPTS
    && ArmedSince(end.log) == Schedule(end.attempts) && Sum(ArmedSince(end.log)) == 31200
  }

  /** A failing series has no more than `bound` moves, and when none is left the
      source rests after `dials` dials, less one for every late failure that took
      the place of a delay. */
  ghost predicate Ends(t: Track, ms: seq<Move>, bound: nat, dials: int)
    requires Follows(t, ms)
  {
    |ms| <= bound && (CanMove(t.Run(ms)) || RestsAfter(t.Run(ms).source, dials - Costs(t, ms)))
  }

  lemma SeriesEnds(t: Track, ms: seq<Move>, bound: nat, dials: int)
    requires Failing(t.source, dials - 11) && Remaining(t.source) + t.late == bound && Follows(t, ms)
    ensures Ends(t, ms, bound, dials)
  {
    SeriesProgresses(t, dials - 11, ms);
    TenDelays();
    CanMoveExactlyWhen(t.Run(ms), dials - 11 - Costs(t, ms));
  }

  /** Every series can be completed. */
  lemma {:induction false} Complete(t: Track, base: int) returns (ms: seq<Move>)
    requires Failing(t.source, base)
    ensures Follows(t, ms) && !CanMove(t.Run(ms))
    decreases Remaining(t.source) + t.late
  {
    if m :| Moves(t, m) {
      MoveProgresses(t, base, m);
      var rest := Complete(t.Move(m), base - Cost(t, m));
      ms := [m] + rest;
      assert ms[1..] == rest;
    } else {
      ms := [];
    }
  }

  lemma {:induction false} SeriesConcat(t: Track, ms: seq<Move>, ns: seq<Move>)
    requires Follows(t, ms) && Follows(t.Run(ms), ns)
    ensures Follows(t, ms + ns) && t.Run(ms + ns) == t.Run(ms).Run(ns)
    ensures Costs(t, ms + ns) == Costs(t, ms) + Costs(t.Run(ms), ns)
    decreases |ms|
  {
    if ms == [] {
      assert ms + ns == ns;
    } else {
      assert (ms + ns)[1..] == ms[1..] + ns;
      SeriesConcat(t.Move(ms[0]), ms[1..], ns);
    }
  }

  /** Every completed series rests after so many dials. */
  ghost predicate AlwaysDials(t: Track, dials: int) {
    forall ms :: Follows(t, ms) && !CanMove(t.Run(ms)) ==> Dials(t.Run(ms).source.log) == dials
  }

  /** Two late failures in a row cost an attempt, and so does one if it meets an
      armed timer. */
  lemma CostlyStart(t: Track, base: int) returns (ms: seq<Move>)
    requires Failing(t.source, base) && t.source.attempts < MAX_RECONNECT_ATTEMPTS - 1 && t.late > 0
    ensures Follows(t, ms) && Costs(t, ms) > 0
  {
    if Pausing(t.source, base) {
      ms := [LateFailure];
      assert ms[1..] == [];
    } else {
      FailDials(t.source);
      var t' := t.Move(LateFailure);
      ms := [LateFailure, LateFailure];
      assert ms[1..] == [LateFailure] && ms[1..][1..] == [];
      assert Cost(t', LateFailure) == 1;
    }
  }

  /** The full count of dials is certain exactly when no cancelled operation is
      still to complete. */
  lemma FullCountExactlyWhen(t: Track, dials: int)
    requires Failing(t.source, dials - 11) && t.source.attempts < MAX_RECONNECT_ATTEMPTS - 1
    ensures AlwaysDials(t, dials) <==> t.late == 0
  {
    if t.late == 0 {
      forall ms | Follows(t, ms) && !CanMove(t.Run(ms)) ensures Dials(t.Run(ms).source.log) == dials {
        SeriesProgresses(t, dials - 11, ms);
        CanMoveExactlyWhen(t.Run(ms), dials - 11);
      }
    } else {
      var ms := CostlySeries(t, dials);
      assert Dials(t.Run(ms).source.log) < dials;
    }
  }

  lemma CostlySeries(t: Track, dials: int) returns (ms: seq<Move>)
    requires Failing(t.source, dials - 11) && t.source.attempts < MAX_RECONNECT_ATTEMPTS - 1 && t.late > 0
    ensures Follows(t, ms) && !CanMove(t.Run(ms)) && Dials(t.Run(ms).source.log) < dials
  {
    var first := CostlyStart(t, dials - 11);
    SeriesProgresses(t, dials - 11, first);
    var rest := Complete(t.Run(first), dials - 11 - Costs(t, first));
    SeriesConcat(t, first, rest);
    ms := first + rest;
    SeriesProgresses(t, dials - 11, ms);
    CanMoveExactlyWhen(t.Run(ms), dials - 11 - Costs(t, ms));
  }

  // ---- The two ways to begin ----

  lemma StartBegins(s: Source)
    requires OnSchedule(s) && s.attempts == 0 && s.state != STARTING && s.state != RUNNING
    ensures Failing(s.Start(), Dials(s.log)) && Remaining(s.Start()) == 104 && s.Start().attempts == 0
  {
    StartTries(s, Dials(s.log));
  }

  /** Started with a clear counter, from any state it can be started from and with
      any number of cancelled operations still to complete, a source that only fails
      stops by itself: no series has more than 104 moves plus one for each of those,
      and when nothing can happen any more it rests in FAILED with no timer armed
      after eleven dials, less one for every late failure that took the place of a
      delay. */
  lemma GivesUpAfterElevenDials(s: Source, late: nat, ms: seq<Move>)
    requires OnSchedule(s) && s.attempts == 0 && s.state != STARTING && s.state != RUNNING
    requires Follows(Track(s.Start(), late), ms)
    ensures Ends(Track(s.Start(), late), ms, 104 + late, Dials(s.log) + 11)
  {
    StartBegins(s);
    SeriesEnds(Track(s.Start(), late), ms, 104 + late, Dials(s.log) + 11);
  }

  /** So eleven dials are certain exactly when no cancelled operation is still to
      complete. */
  lemma ElevenDialsExactlyWhen(s: Source, late: nat)
    requires OnSchedule(s) && s.attempts == 0 && s.state != STARTING && s.state != RUNNING
    ensures AlwaysDials(Track(s.Start(), late), Dials(s.log) + 11) <==> late == 0
  {
    StartBegins(s);
    FullCountExactlyWhen(Track(s.Start(), late), Dials(s.log) + 11);
  }

  lemma LossPauses(s: Source)
    requires OnSchedule(s) && s.attempts == 0
    ensures Failing(s.OnRead(false), Dials(s.log) - 1) && Remaining(s.OnRead(false)) == 95
    ensures s.OnRead(false).attempts == 1
  {
    FailOnSchedule(s);
    FailDials(s);
  }

  /** A running source that loses its connection and then only fails dials ten times
      more, less one for every late failure that took the place of a delay. */
  lemma LostConnectionDialsTenTimes(s: Source, late: nat, ms: seq<Move>)
    requires OnSchedule(s) && s.attempts == 0
    requires Follows(Track(s.OnRead(false), late), ms)
    ensures Ends(Track(s.OnRead(false), late), ms, 95 + late, Dials(s.log) + 10)
  {
    LossPauses(s);
    SeriesEnds(Track(s.OnRead(false), late), ms, 95 + late, Dials(s.log) + 10);
  }

  lemma TenDialsExactlyWhen(s: Source, late: nat)
    requires OnSchedule(s) && s.attempts == 0
    ensures AlwaysDials(Track(s.OnRead(false), late), Dials(s.log) + 10) <==> late == 0
  {
    LossPauses(s);
    FullCountExactlyWhen(Track(s.OnRead(false), late), Dials(s.log) + 10);
  }

  /** One cancelled operation is enough: it cancels the new resolve, and when that
      fails late too the counter stands at two after one dial. */
  lemma TwoLateFailures(s: Source)
    requires OnSchedule(s) && s.attempts == 0 && s.state != STARTING && s.state != RUNNING
    ensures var t, ms := Track(s.Start(), 1), [LateFailure, LateFailure];
            && Follows(t, ms) && Costs(t, ms) == 1
            && t.Run(ms).source.attempts == 2 && Dials(t.Run(ms).source.log) == Dials(s.log) + 1
  {
    StartBegins(s);
    var t, ms := Track(s.Start(), 1), [LateFailure, LateFailure];
    FailDials(t.source);
    FailDials(t.Move(LateFailure).source);
    assert ms[1..] == [LateFailure] && ms[1..][1..] == [];
    SeriesProgresses(t, Dials(s.log), ms);
  }

  /** A stop while the first resolve is under way leads there: it leaves the source
      stopped with a clear counter and the resolve it cancelled still to complete.
      However a start goes on after the two late failures, it never dials eleven
      times. */
  lemma StopWhileConnecting(useTls: bool, rest: seq<Move>)
    ensures var s := Constructed(useTls).Handle(CallStart).Handle(CallStop(false));
            var t, ms := Track(s.Start(), 1), [LateFailure, LateFailure];
            && s.state == STOPPED && s.attempts == 0 && OnSchedule(s)
            && Follows(t, ms)
            && (Follows(t.Run(ms), rest) && !CanMove(t.Run(ms).Run(rest)) ==>
                  Dials(t.Run(ms).Run(rest).source.log) <= Dials(s.log) + 10)
  {
    var s := Constructed(useTls).Handle(CallStart).Handle(CallStop(false));
    RunOnSchedule(Constructed(useTls), [CallStart, CallStop(false)]);
    assert [CallStart, CallStop(false)][1..] == [CallStop(false)] && [CallStop(false)][1..] == [];
    AtMostTen(s, rest);
  }

  lemma AtMostTen(s: Source, rest: seq<Move>)
    requires OnSchedule(s) && s.attempts == 0 && s.state != STARTING && s.state != RUNNING
    ensures var t, ms := Track(s.Start(), 1), [LateFailure, LateFailure];
            && Follows(t, ms)
            && (Follows(t.Run(ms), rest) && !CanMove(t.Run(ms).Run(rest)) ==>
                  Dials(t.Run(ms).Run(rest).source.log) <= Dials(s.log) + 10)
  {
    var t, ms := Track(s.Start(), 1), [LateFailure, LateFailure];
    TwoLateFailures(s);
    if Follows(t.Run(ms), rest) {
      SeriesConcat(t, ms, rest);
      GivesUpAfterElevenDials(s, 1, ms + rest);
    }
  }
}
