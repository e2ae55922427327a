/** The queue of queue.h under concurrency. Every action below is one atomic step
    of one thread; a run is any sequence of enabled actions. */
module Monitor {
  import opened Options
  import opened Queue

  type Tid = nat

  /** Where a thread is. `Waiting...` wants the mutex, `In...` holds it. A thread
      whose wait has been notified, or has woken spuriously, wants the mutex
      again and is `WaitingPop` like a fresh call. */
  datatype Pc<T> =
    | Idle
    | WaitingPush(item: T)
    | InPush(item: T)
    | BeforeNotifyOne
    | WaitingPop
    | InPop
    | Asleep
    | WaitingClose
    | InClose
    | BeforeNotifyAll

  datatype Action<T> =
    | CallPush(item: T)
    | CallPop
    | CallClose
    | Lock
    | Body
    | NotifyOne(woken: Option<Tid>)
    | NotifyAll
    | SpuriousWakeup

  /** `accepted` and `popped` are the histories of items that went in and out. */
  datatype State<T> = State(
    capacity: nat,
    shared: Shared<T>,
    holder: Option<Tid>,
    pcs: map<Tid, Pc<T>>,
    accepted: seq<T>,
    popped: seq<T>)
  {
    function At(t: Tid, pc: Pc<T>): State<T> {
      this.(pcs := pcs[t := pc])
    }

    ghost function Sleepers(): set<Tid> {
      set t | t in pcs && pcs[t].Asleep?
    }

    /** Threads that will wake a sleeper or look at the queue themselves. */
    ghost function Helpers(): set<Tid> {
      set t | t in pcs && Helps(pcs[t])
    }

    ghost predicate Enabled(t: Tid, a: Action<T>) {
      && t in pcs
      && match a
         case CallPush(_) => pcs[t].Idle?
         case CallPop => pcs[t].Idle?
         case CallClose => pcs[t].Idle?
         case Lock => holder.None? && (pcs[t].WaitingPush? || pcs[t].WaitingPop? || pcs[t].WaitingClose?)
         case Body => pcs[t].InPush? || pcs[t].InPop? || pcs[t].InClose?
         case NotifyOne(woken) =>
           && pcs[t].BeforeNotifyOne?
           && if woken.Some? then woken.value in Sleepers() else Sleepers() == {}
         case NotifyAll => pcs[t].BeforeNotifyAll?
         case SpuriousWakeup => pcs[t].Asleep?
    }

    function Apply(t: Tid, a: Action<T>): State<T>
      requires Enabled(t, a)
    {
      match a
      case CallPush(item) => At(t, WaitingPush(item))
      case CallPop => At(t, WaitingPop)
      case CallClose => At(t, WaitingClose)
      case Lock => Locked(t)
      case Body => Critical(t).(holder := None)
      case NotifyOne(woken) =>
        if woken.Some? then At(t, Idle).At(woken.value, WaitingPop) else At(t, Idle)
      case NotifyAll =>
        this.(pcs := map u | u in pcs :: if u == t then Idle else if pcs[u].Asleep? then WaitingPop else pcs[u])
      case SpuriousWakeup => At(t, WaitingPop)
    }

    function Locked(t: Tid): State<T>
      requires Enabled(t, Lock)
    {
      At(t, match pcs[t]
            case WaitingPush(item) => InPush(item)
            case WaitingPop => InPop
            case _ => InClose).(holder := Some(t))
    }

    /** The thread's critical section; wait_pop goes to sleep and gives up the
        mutex in one step when its condition does not hold. */
    function Critical(t: Tid): State<T>
      requires Enabled(t, Body)
    {
      match pcs[t]
      case InPush(item) =>
        var (after, pushed) := shared.Push(item, capacity);
        if pushed then At(t, BeforeNotifyOne).(shared := after, accepted := accepted + [item])
        else At(t, Idle)
      case InPop =>
        if !shared.Ready() then At(t, Asleep)
        else
          var (after, item) := shared.Pop();
          At(t, Idle).(shared := after, popped := popped + (if item.Some? then [item.value] else []))
      case _ => At(t, BeforeNotifyAll).(shared := shared.Close())
    }

    // ---- Invariants ----

    /** Only the holder of the mutex is inside a critical section. */
    ghost predicate Exclusive() {
      && (holder.Some? ==> holder.value in pcs)
      && forall t :: t in pcs ==> ((pcs[t].InPush? || pcs[t].InPop? || pcs[t].InClose?) <==> holder == Some(t))
    }

    /** First in, first out, nothing lost, nothing invented, never too many. */
    ghost predicate Conserves() {
      accepted == popped + shared.items && |shared.items| <= capacity
    }

    /** While anyone sleeps there is a helper for every queued item, and once the
        queue is closed a notify_all is still to come. */
    ghost predicate NoWakeupLost() {
      Sleepers() != {} ==>
        && |shared.items| <= |Helpers()|
        && (shared.closed ==> exists t :: t in pcs && pcs[t].BeforeNotifyAll?)
    }

    ghost predicate Inv() {
      Exclusive() && Conserves() && NoWakeupLost()
    }
  }

  ghost predicate Init<T>(s: State<T>) {
    && s.shared == Shared([], false) && s.holder.None? && s.accepted == [] && s.popped == []
    && forall t :: t in s.pcs ==> s.pcs[t].Idle?
  }

  // ---- Every step keeps the invariants ----

  lemma StepExclusive<T>(s: State<T>, t: Tid, a: Action<T>)
    requires s.Exclusive() && s.Enabled(t, a)
    ensures s.Apply(t, a).Exclusive()
  {
  }

  lemma StepConserves<T>(s: State<T>, t: Tid, a: Action<T>)
    requires s.Conserves() && s.Enabled(t, a)
    ensures s.Apply(t, a).Conserves()
  {
  }

  predicate Helps<T>(pc: Pc<T>) {
    pc.BeforeNotifyOne? || pc.WaitingPop? || pc.InPop?
  }

  /** `s'` is `s` with one thread moved, and perhaps other fields changed. */
  ghost predicate MovedOne<T>(s: State<T>, s': State<T>, t: Tid) {
    t in s.pcs && t in s'.pcs && s'.pcs == s.pcs[t := s'.pcs[t]]
  }

  /** Moving one thread changes the number of helpers by that thread alone. */
  lemma CountMoved<T>(s: State<T>, s': State<T>, t: Tid)
    requires MovedOne(s, s', t)
    ensures |s'.Helpers()| - (if Helps(s'.pcs[t]) then 1 else 0) == |s.Helpers()| - (if Helps(s.pcs[t]) then 1 else 0)
    ensures s'.Sleepers() - {t} == s.Sleepers() - {t}
  {
    forall u | u != t ensures u in s'.Helpers() <==> u in s.Helpers() {
      OthersStay(s, s', t, u);
    }
    forall u | u != t ensures u in s'.Sleepers() <==> u in s.Sleepers() {
      OthersStay(s, s', t, u);
    }
    SameButOne(s.Helpers(), s'.Helpers(), t);
    SameButOne(s.Sleepers(), s'.Sleepers(), t);
  }

  lemma OthersStay<T>(s: State<T>, s': State<T>, t: Tid, u: Tid)
    requires MovedOne(s, s', t) && u != t
    ensures u in s'.Helpers() <==> u in s.Helpers()
    ensures u in s'.Sleepers() <==> u in s.Sleepers()
  {
    assert u in s'.pcs <==> u in s.pcs;
  }

  lemma SameButOne(u: set<Tid>, v: set<Tid>, t: Tid)
    requires forall x :: x != t ==> (x in v <==> x in u)
    ensures v - {t} == u - {t}
    ensures |v| - (if t in v then 1 else 0) == |u| - (if t in u then 1 else 0)
  {
    assert v - {t} == u - {t};
    Split(u, t);
    Split(v, t);
  }

  lemma Split(u: set<Tid>, t: Tid)
    ensures |u| == |u - {t}| + (if t in u then 1 else 0)
  {
    if t !in u {
      assert u - {t} == u;
    }
  }

  /** The closing half of the invariant. */
  lemma StepKeepsNotifyAll<T>(s: State<T>, t: Tid, a: Action<T>)
    requires s.NoWakeupLost() && s.Enabled(t, a)
    ensures var s' := s.Apply(t, a);
            s'.Sleepers() != {} && s'.shared.closed ==> exists u :: u in s'.pcs && s'.pcs[u].BeforeNotifyAll?
  {
    var s' := s.Apply(t, a);
    if s'.Sleepers() != {} && s'.shared.closed {
      var sleeper :| sleeper in s'.Sleepers();
      if a.Body? && s.pcs[t].InClose? {
        assert s'.pcs[t].BeforeNotifyAll?;
      } else {
        assert sleeper in s.Sleepers();
        var u :| u in s.pcs && s.pcs[u].BeforeNotifyAll?;
        assert s'.pcs[u].BeforeNotifyAll?;
      }
    }
  }

  /** The counting half: a moved thread may stop helping only if it takes an
      item with it, and an item may come only with a new helper. */
  lemma HelpersKeepUp<T>(s: State<T>, s': State<T>, t: Tid)
    requires s.NoWakeupLost() && MovedOne(s, s', t)
    requires s'.pcs[t].Asleep? ==> s'.shared.items == []
    requires || |s'.shared.items| - (if Helps(s'.pcs[t]) then 1 else 0) <=
                |s.shared.items| - (if Helps(s.pcs[t]) then 1 else 0)
             || s'.shared.items == []
    ensures s'.Sleepers() != {} ==> |s'.shared.items| <= |s'.Helpers()|
  {
    CountMoved(s, s', t);
    if s'.Sleepers() != {} && s'.shared.items != [] {
      assert t !in s'.Sleepers();
      assert s'.Sleepers() - {t} == s'.Sleepers();
      assert s.Sleepers() != {};
    }
  }

  lemma StepKeepsHelpers<T>(s: State<T>, t: Tid, a: Action<T>)
    requires s.NoWakeupLost() && s.Enabled(t, a)
    requires !a.NotifyOne? && !a.NotifyAll?
    ensures var s' := s.Apply(t, a);
            s'.Sleepers() != {} ==> |s'.shared.items| <= |s'.Helpers()|
  {
    HelpersKeepUp(s, s.Apply(t, a), t);
  }

  /** A notify_one replaces the notifier by the consumer it wakes. */
  lemma NotifyOneKeepsHelpers<T>(s: State<T>, t: Tid, woken: Option<Tid>)
    requires s.NoWakeupLost() && s.Enabled(t, NotifyOne(woken))
    ensures var s' := s.Apply(t, NotifyOne(woken));
            s'.Sleepers() != {} ==> |s'.shared.items| <= |s'.Helpers()|
  {
    var s' := s.Apply(t, NotifyOne(woken));
    if woken.None? {
      assert s'.Sleepers() <= s.Sleepers();
    } else {
      var u := woken.value;
      assert u in s.Sleepers() && t in s.Helpers() && u !in s.Helpers();
      assert s'.Helpers() == s.Helpers() - {t} + {u};
    }
  }

  /** No step loses a wakeup. */
  lemma StepNoWakeupLost<T>(s: State<T>, t: Tid, a: Action<T>)
    requires s.NoWakeupLost() && s.Enabled(t, a)
    ensures s.Apply(t, a).NoWakeupLost()
  {
    StepKeepsNotifyAll(s, t, a);
    match a {
      case NotifyOne(woken) => NotifyOneKeepsHelpers(s, t, woken);
      case NotifyAll => assert s.Apply(t, a).Sleepers() == {};
      case _ => StepKeepsHelpers(s, t, a);
    }
  }

  // ---- Every run ----

  datatype Event<T> = Event(thread: Tid, action: Action<T>)

  ghost predicate Runs<T>(s: State<T>, es: seq<Event<T>>)
    decreases |es|
  {
    es == [] || (s.Enabled(es[0].thread, es[0].action) && Runs(s.Apply(es[0].thread, es[0].action), es[1..]))
  }

  function After<T>(s: State<T>, es: seq<Event<T>>): State<T>
    requires Runs(s, es)
    decreases |es|
  {
    if es == [] then s else After(s.Apply(es[0].thread, es[0].action), es[1..])
  }

  /** In every interleaving what was accepted is what was popped followed by what
      is queued, at most `capacity` items are queued, and no wakeup is lost. */
  lemma {:induction false} RunKeepsInv<T>(s: State<T>, es: seq<Event<T>>)
    requires s.Inv() && Runs(s, es)
    ensures After(s, es).Inv()
    decreases |es|
  {
    if es != [] {
      var t, a := es[0].thread, es[0].action;
      StepExclusive(s, t, a);
      StepConserves(s, t, a);
      StepNoWakeupLost(s, t, a);
      RunKeepsInv(s.Apply(t, a), es[1..]);
    }
  }

  lemma InitInv<T>(s: State<T>)
    requires Init(s)
    ensures s.Inv()
  {
    assert s.Sleepers() == {};
  }

  /** Everyone has returned or is asleep. */
  ghost predicate Quiet<T>(s: State<T>) {
    forall t :: t in s.pcs ==> s.pcs[t].Idle? || s.pcs[t].Asleep?
  }

  /** When nothing is in progress any more, a consumer that is still asleep has
      nothing to do: the queue is empty and open. */
  lemma SleepersHaveNothingToDo<T>(s: State<T>, es: seq<Event<T>>)
    requires Init(s) && Runs(s, es) && Quiet(After(s, es))
    ensures After(s, es).Sleepers() != {} ==> !After(s, es).shared.Ready()
  {
    InitInv(s);
    RunKeepsInv(s, es);
    assert After(s, es).Helpers() == {};
  }

  /** The actions of calls already made, which no scheduler can refuse for ever. */
  predicate Internal<T>(a: Action<T>) {
    a.Lock? || a.Body? || a.NotifyOne? || a.NotifyAll?
  }

  /** Unless everyone has returned or sleeps, some thread can take a step of a
      call already made: the queue never deadlocks. */
  lemma NeverDeadlocks<T>(s: State<T>, es: seq<Event<T>>)
    requires Init(s) && Runs(s, es) && !Quiet(After(s, es))
    ensures exists t: Tid, a: Action<T> :: Internal(a) && After(s, es).Enabled(t, a)
  {
    InitInv(s);
    RunKeepsInv(s, es);
    var now := After(s, es);
    var t :| t in now.pcs && !now.pcs[t].Idle? && !now.pcs[t].Asleep?;
    if now.holder.Some? {
      assert now.Enabled(now.holder.value, Body);
    } else if now.pcs[t].BeforeNotifyOne? {
      if now.Sleepers() == {} {
        assert now.Enabled(t, NotifyOne(None));
      } else {
        var u :| u in now.Sleepers();
        assert now.Enabled(t, NotifyOne(Some(u)));
      }
    } else if now.pcs[t].BeforeNotifyAll? {
      assert now.Enabled(t, NotifyAll);
    } else {
      assert now.Enabled(t, Lock);
    }
  }

  // ---- What a call does, from the histories alone ----

  /** Some closer has run its critical section. */
  ghost predicate Closes<T>(s: State<T>, es: seq<Event<T>>)
    requires Runs(s, es)
    decreases |es|
  {
    es != [] &&
    ((es[0].action.Body? && s.pcs[es[0].thread].InClose?) || Closes(s.Apply(es[0].thread, es[0].action), es[1..]))
  }

  /** The queue is closed exactly when a closer has been there; it then stays closed
      and accepts nothing more. */
  lemma {:induction false} ClosedExactlyWhen<T>(s: State<T>, es: seq<Event<T>>)
    requires Runs(s, es)
    ensures After(s, es).shared.closed <==> s.shared.closed || Closes(s, es)
    ensures s.shared.closed ==> After(s, es).accepted == s.accepted
    ensures After(s, es).capacity == s.capacity
    decreases |es|
  {
    if es != [] {
      ClosedExactlyWhen(s.Apply(es[0].thread, es[0].action), es[1..]);
    }
  }

  /** What the critical section of a thread does, given whether the queue has been
      closed: a push is accepted exactly when there is room and the queue is open, a
      pop takes the oldest item that is left, gives up if there is none and the queue
      is closed, and sleeps otherwise. */
  ghost predicate BodyDoes<T>(s: State<T>, t: Tid, closed: bool, s': State<T>)
    requires t in s.pcs && |s.popped| <= |s.accepted|
  {
    var queued := |s.accepted| - |s.popped|;
    && t in s'.pcs && s'.holder.None? && MovedOne(s, s', t)
    && match s.pcs[t]
       case InPush(item) =>
         var room := !closed && queued < s.capacity;
         && s'.accepted == (if room then s.accepted + [item] else s.accepted) && s'.popped == s.popped
         && s'.pcs[t] == (if room then BeforeNotifyOne else Idle)
       case InPop =>
         && s'.popped == (if queued > 0 then s.popped + [s.accepted[|s.popped|]] else s.popped)
         && s'.accepted == s.accepted
         && s'.pcs[t] == (if queued > 0 || closed then Idle else Asleep)
       case _ => s'.accepted == s.accepted && s'.popped == s.popped && s'.pcs[t] == BeforeNotifyAll
  }

  /** In every run, in terms of what has been accepted and popped so far and of
      whether a closer has been there. */
  lemma BodyEffect<T>(start: State<T>, es: seq<Event<T>>, t: Tid)
    requires Init(start) && Runs(start, es) && After(start, es).Enabled(t, Body)
    ensures var s := After(start, es);
            && s.capacity == start.capacity && |s.popped| <= |s.accepted|
            && BodyDoes(s, t, Closes(start, es), s.Apply(t, Body))
  {
    InitInv(start);
    RunKeepsInv(start, es);
    ClosedExactlyWhen(start, es);
  }

  // ---- Draining ----

  /** What a thread's call still has to do. A notify_one hands work to the thread
      it wakes, a notify_all to as many as there are. */
  function Weight<T>(pc: Pc<T>, threads: nat): nat {
    match pc
    case Idle => 0
    case Asleep => 0
    case InPop => 1
    case WaitingPop => 2
    case BeforeNotifyOne => 3
    case InPush(_) => 4
    case WaitingPush(_) => 5
    case BeforeNotifyAll => 2 * threads + 1
    case InClose => 2 * threads + 2
    case WaitingClose => 2 * threads + 3
  }

  ghost function Work<T>(pcs: map<Tid, Pc<T>>, threads: nat): nat {
    if pcs == map[] then 0
    else
      var t :| t in pcs;
      Weight(pcs[t], threads) + Work(pcs - {t}, threads)
  }

  lemma {:induction false} WorkWithout<T>(pcs: map<Tid, Pc<T>>, t: Tid, threads: nat)
    requires t in pcs
    ensures Work(pcs, threads) == Weight(pcs[t], threads) + Work(pcs - {t}, threads)
    decreases |pcs|
  {
    var u :| u in pcs && Work(pcs, threads) == Weight(pcs[u], threads) + Work(pcs - {u}, threads);
    if u != t {
      WorkWithout(pcs - {u}, t, threads);
      WorkWithout(pcs - {t}, u, threads);
      assert pcs - {u} - {t} == pcs - {t} - {u};
    }
  }

  lemma WorkMoved<T>(pcs: map<Tid, Pc<T>>, t: Tid, pc: Pc<T>, threads: nat)
    requires t in pcs
    ensures Work(pcs[t := pc], threads) == Work(pcs, threads) - Weight(pcs[t], threads) + Weight(pc, threads)
  {
    WorkWithout(pcs, t, threads);
    WorkWithout(pcs[t := pc], t, threads);
    assert pcs[t := pc] - {t} == pcs - {t};
  }

  function Woken<T>(pcs: map<Tid, Pc<T>>): map<Tid, Pc<T>> {
    map u | u in pcs :: if pcs[u].Asleep? then WaitingPop else pcs[u]
  }

  lemma {:induction false} WorkWoken<T>(pcs: map<Tid, Pc<T>>, threads: nat)
    ensures Work(Woken(pcs), threads) <= Work(pcs, threads) + 2 * |pcs|
    decreases |pcs|
  {
    if pcs == map[] {
      assert Woken(pcs) == map[];
    } else {
      var t :| t in pcs;
      WorkWoken(pcs - {t}, threads);
      WorkWithout(pcs, t, threads);
      WorkWithout(Woken(pcs), t, threads);
      assert Woken(pcs) - {t} == Woken(pcs - {t});
    }
  }

  lemma MovedOneWorks<T>(s: State<T>, s': State<T>, t: Tid, threads: nat)
    requires MovedOne(s, s', t) && Weight(s'.pcs[t], threads) < Weight(s.pcs[t], threads)
    ensures |s'.pcs| == |s.pcs| && Work(s'.pcs, threads) < Work(s.pcs, threads)
  {
    WorkMoved(s.pcs, t, s'.pcs[t], threads);
    SameKeys(s.pcs, s'.pcs);
  }

  lemma SameKeys<T>(m: map<Tid, Pc<T>>, m': map<Tid, Pc<T>>)
    requires m.Keys == m'.Keys
    ensures |m| == |m'|
  {
    assert |m.Keys| == |m| && |m'.Keys| == |m'|;
  }

  lemma NotifyOneWorks<T>(s: State<T>, t: Tid, u: Tid)
    requires s.Enabled(t, NotifyOne(Some(u)))
    ensures var s' := s.Apply(t, NotifyOne(Some(u)));
            |s'.pcs| == |s.pcs| && Work(s'.pcs, |s.pcs|) < Work(s.pcs, |s.pcs|)
  {
    WorkMoved(s.pcs, t, Idle, |s.pcs|);
    WorkMoved(s.pcs[t := Idle], u, WaitingPop, |s.pcs|);
    SameKeys(s.pcs, s.pcs[t := Idle][u := WaitingPop]);
  }

  lemma NotifyAllWorks<T>(s: State<T>, t: Tid)
    requires s.Enabled(t, NotifyAll)
    ensures var s' := s.Apply(t, NotifyAll);
            |s'.pcs| == |s.pcs| && Work(s'.pcs, |s.pcs|) < Work(s.pcs, |s.pcs|)
  {
    var rest := s.pcs[t := Idle];
    WorkMoved(s.pcs, t, Idle, |s.pcs|);
    SameKeys(s.pcs, rest);
    WorkWoken(rest, |s.pcs|);
    SameKeys(rest, Woken(rest));
    assert s.Apply(t, NotifyAll).pcs == Woken(rest);
  }

  /** Every step of a call already made uses up work. */
  lemma InternalStepWorks<T>(s: State<T>, t: Tid, a: Action<T>)
    requires s.Enabled(t, a) && Internal(a)
    ensures var s' := s.Apply(t, a);
            |s'.pcs| == |s.pcs| && Work(s'.pcs, |s.pcs|) < Work(s.pcs, |s.pcs|)
  {
    if a.NotifyAll? {
      NotifyAllWorks(s, t);
    } else if a.NotifyOne? && a.woken.Some? {
      NotifyOneWorks(s, t, a.woken.value);
    } else {
      MovedOneWorks(s, s.Apply(t, a), t, |s.pcs|);
    }
  }

  predicate AllInternal<T>(es: seq<Event<T>>) {
    forall i :: 0 <= i < |es| ==> Internal(es[i].action)
  }

  /** Without new calls and spurious wakeups a run is no longer than its work. */
  lemma {:induction false} InternalRunsEnd<T>(s: State<T>, es: seq<Event<T>>)
    requires Runs(s, es) && AllInternal(es)
    ensures |After(s, es).pcs| == |s.pcs|
    ensures |es| + Work(After(s, es).pcs, |s.pcs|) <= Work(s.pcs, |s.pcs|)
    decreases |es|
  {
    if es != [] {
      InternalStepWorks(s, es[0].thread, es[0].action);
      InternalRunsEnd(s.Apply(es[0].thread, es[0].action), es[1..]);
    }
  }

  lemma {:induction false} RunsOn<T>(s: State<T>, es: seq<Event<T>>, fs: seq<Event<T>>)
    requires Runs(s, es) && Runs(After(s, es), fs)
    ensures Runs(s, es + fs) && After(s, es + fs) == After(After(s, es), fs)
    decreases |es|
  {
    if es == [] {
      assert es + fs == fs;
    } else {
      assert (es + fs)[1..] == es[1..] + fs;
      RunsOn(s.Apply(es[0].thread, es[0].action), es[1..], fs);
    }
  }

  /** After any run, the calls already made come to rest by themselves in a bounded
      number of steps. When no step of theirs is left, every producer and closer
      has returned; so has every consumer if the queue is closed or not empty. */
  lemma CallsDrain<T>(s: State<T>, es: seq<Event<T>>, rest: seq<Event<T>>)
    requires Init(s) && Runs(s, es) && Runs(After(s, es), rest) && AllInternal(rest)
    ensures |rest| <= Work(After(s, es).pcs, |After(s, es).pcs|)
    ensures var end := After(After(s, es), rest);
            || (exists t: Tid, a: Action<T> :: Internal(a) && end.Enabled(t, a))
            || (Quiet(end) && (end.shared.Ready() ==> forall t :: t in end.pcs ==> end.pcs[t].Idle?))
  {
    InternalRunsEnd(After(s, es), rest);
    RunsOn(s, es, rest);
    var end := After(s, es + rest);
    if Quiet(end) {
      SleepersHaveNothingToDo(s, es + rest);
      forall t | t in end.pcs && end.shared.Ready() ensures end.pcs[t].Idle? {
        assert t !in end.Sleepers();
      }
    } else {
      NeverDeadlocks(s, es + rest);
    }
  }

  // ---- The object ----

  /** Any interleaving, its critical sections performed on a queue object: the
      queue ends with the machine's items, and the consumers have received what the
      machine has popped. */
  method Drive<T>(queue: Queue<T>, start: State<T>, es: seq<Event<T>>) returns (received: seq<T>)
    requires Init(start) && Runs(start, es)
    requires queue.State() == start.shared && queue.capacity == start.capacity
    modifies queue
    ensures queue.State() == After(start, es).shared && received == After(start, es).popped
    ensures After(start, es).accepted == received + queue.items && |queue.items| <= queue.capacity
  {
    var now := start;
    received := [];
    for i := 0 to |es|
      invariant queue.State() == now.shared && received == now.popped && now.capacity == queue.capacity
      invariant Runs(now, es[i..]) && After(now, es[i..]) == After(start, es)
    {
      assert es[i..][0] == es[i] && es[i..][1..] == es[i + 1..];
      var t, a := es[i].thread, es[i].action;
      if a.Body? {
        var item := PerformBody(queue, now, t);
        received := received + (if item.Some? then [item.value] else []);
      }
      now := now.Apply(t, a);
    }
    InitInv(start);
    RunKeepsInv(start, es);
  }

  /** One critical section on the object. */
  method PerformBody<T>(queue: Queue<T>, s: State<T>, t: Tid) returns (item: Option<T>)
    requires s.Enabled(t, Body) && queue.State() == s.shared && queue.capacity == s.capacity
    modifies queue
    ensures queue.State() == s.Critical(t).shared
    ensures s.Critical(t).popped == s.popped + (if item.Some? then [item.value] else [])
  {
    item := None;
    var pc := s.pcs[t];
    if pc.InPush? {
      var pushed := queue.TryPush(pc.item);
    } else if pc.InClose? {
      queue.Close();
    } else if s.shared.Ready() {
      item := queue.Pop();
    }
  }
}
