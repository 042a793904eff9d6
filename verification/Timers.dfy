/**
 * The timers of sleeping threads: a list swept at every tick.  The sweep steps over the
 * element that follows each removed one.
 */
module Timers {

  const LONG_SPAN := 0x1_0000_0000

  datatype Timer = Timer(thread: int, expiry: nat)

  predicate Expired(t: Timer, now: nat) { t.expiry < now }

  /** What a sweep at time `now` leaves, and whom it wakes. */
  function Swept(s: seq<Timer>, now: nat): seq<Timer> {
    if s == [] then []
    else if Expired(s[0], now) then
      if |s| == 1 then [] else [s[1]] + Swept(s[2..], now)
    else [s[0]] + Swept(s[1..], now)
  }

  function Woken(s: seq<Timer>, now: nat): seq<Timer> {
    if s == [] then []
    else if Expired(s[0], now) then
      if |s| == 1 then [s[0]] else [s[0]] + Woken(s[2..], now)
    else Woken(s[1..], now)
  }

  /** Where the timer at index k goes in a sweep: -1 if it is removed. */
  function Place(s: seq<Timer>, now: nat, k: nat): int
    requires k < |s|
  {
    if Expired(s[0], now) then
      if k == 0 then -1
      else if k == 1 then 0
      else Shift(Place(s[2..], now, k - 2))
    else if k == 0 then 0
    else Shift(Place(s[1..], now, k - 1))
  }

  function Shift(p: int): int { if p < 0 then p else p + 1 }

  /** A timer left by the sweep sits where its place says; one removed had expired. */
  lemma {:induction false} PlaceIs(s: seq<Timer>, now: nat, k: nat)
    requires k < |s|
    ensures Place(s, now, k) < 0 ==> Place(s, now, k) == -1 && Expired(s[k], now)
    ensures Place(s, now, k) >= 0 ==> Place(s, now, k) <= k && Place(s, now, k) < |Swept(s, now)| && Swept(s, now)[Place(s, now, k)] == s[k]
    decreases |s|
  {
    if Expired(s[0], now) {
      if k >= 2 { PlaceIs(s[2..], now, k - 2); }
    } else if k > 0 {
      PlaceIs(s[1..], now, k - 1);
    }
  }

  /** The sweep keeps the order of those it leaves. */
  lemma {:induction false} OrderKept(s: seq<Timer>, now: nat, j: nat, k: nat)
    requires j < k < |s|
    ensures Place(s, now, j) >= 0 && Place(s, now, k) >= 0 ==> Place(s, now, j) < Place(s, now, k)
    decreases |s|
  {
    if Expired(s[0], now) {
      if j >= 2 { OrderKept(s[2..], now, j - 2, k - 2); } else if k >= 2 { PlaceIs(s[2..], now, k - 2); }
    } else if j > 0 {
      OrderKept(s[1..], now, j - 1, k - 1);
    } else {
      PlaceIs(s[1..], now, k - 1);
    }
  }

  /** Every timer is left or woken, and none twice. */
  lemma {:induction false} SweepConserves(s: seq<Timer>, now: nat)
    ensures multiset(Swept(s, now)) + multiset(Woken(s, now)) == multiset(s)
    decreases |s|
  {
    hide Expired;
    if s == [] {
    } else if Expired(s[0], now) && |s| == 1 {
      assert s == [s[0]];
    } else if Expired(s[0], now) {
      SweepConserves(s[2..], now);
      SkippedBags(s, Swept(s[2..], now), Woken(s[2..], now));
    } else {
      SweepConserves(s[1..], now);
      KeptBags(s, Swept(s[1..], now), Woken(s[1..], now));
    }
  }

  lemma SkippedBags(s: seq<Timer>, a: seq<Timer>, b: seq<Timer>)
    requires |s| > 1 && multiset(a) + multiset(b) == multiset(s[2..])
    ensures multiset([s[1]] + a) + multiset([s[0]] + b) == multiset(s)
  {
    Bags([s[0]], b);
    Bags([s[1]], a);
    Bags([s[0], s[1]], s[2..]);
    assert s == [s[0], s[1]] + s[2..];
  }

  lemma KeptBags(s: seq<Timer>, a: seq<Timer>, b: seq<Timer>)
    requires s != [] && multiset(a) + multiset(b) == multiset(s[1..])
    ensures multiset([s[0]] + a) + multiset(b) == multiset(s)
  {
    Bags([s[0]], a);
    Bags([s[0]], s[1..]);
    assert s == [s[0]] + s[1..];
  }

  lemma Bags(a: seq<Timer>, b: seq<Timer>)
    ensures multiset(a + b) == multiset(a) + multiset(b)
  {}

  /** Only expired timers are woken. */
  lemma {:induction false} WokenExpired(s: seq<Timer>, now: nat, i: nat)
    requires i < |Woken(s, now)|
    ensures Expired(Woken(s, now)[i], now)
    decreases |s|
  {
    if Expired(s[0], now) {
      if i > 0 { WokenExpired(s[2..], now, i - 1); }
    } else {
      WokenExpired(s[1..], now, i);
    }
  }

  /** An expired timer that the sweep steps over has moved nearer the front. */
  lemma {:induction false} ExpiredAdvances(s: seq<Timer>, now: nat, k: nat)
    requires k < |s| && Expired(s[k], now)
    ensures Place(s, now, k) < k
    decreases |s|
  {
    if Expired(s[0], now) {
      if k >= 2 { ExpiredAdvances(s[2..], now, k - 2); }
    } else if k > 0 {
      ExpiredAdvances(s[1..], now, k - 1);
    }
  }

  /** A timer goes in a sweep exactly if it has expired and the one in front of it did not go in the same sweep. */
  lemma {:induction false} RemovedIff(s: seq<Timer>, now: nat, k: nat)
    requires k < |s|
    ensures Place(s, now, k) < 0 <==> Expired(s[k], now) && (k == 0 || Place(s, now, k - 1) >= 0)
    decreases |s|
  {
    if Expired(s[0], now) {
      if k >= 2 { RemovedIff(s[2..], now, k - 2); }
    } else if k > 0 {
      RemovedIff(s[1..], now, k - 1);
    }
  }

  // ---------------------------------------------------------------- runs

  datatype Event = Sleep(timer: Timer) | Tick

  datatype State = State(timers: seq<Timer>, ticks: nat)

  function After(st: State, e: Event): State {
    match e
    case Sleep(t) => st.(timers := st.timers + [t])
    case Tick => State(Swept(st.timers, st.ticks + 1), st.ticks + 1)
  }

  function PlaceAfter(st: State, e: Event, k: nat): int
    requires k < |st.timers|
  {
    match e
    case Sleep(_) => k
    case Tick => Place(st.timers, st.ticks + 1, k)
  }

  function RunAll(st: State, es: seq<Event>): State
    decreases |es|
  {
    if es == [] then st else RunAll(After(st, es[0]), es[1..])
  }

  lemma PlaceAfterIs(st: State, e: Event, k: nat)
    requires k < |st.timers|
    ensures PlaceAfter(st, e, k) >= 0 ==>
      PlaceAfter(st, e, k) < |After(st, e).timers| && After(st, e).timers[PlaceAfter(st, e, k)] == st.timers[k]
  {
    if e.Tick? { PlaceIs(st.timers, st.ticks + 1, k); }
  }

  /** Where the timer at index k is after a run: -1 if it has been removed. */
  function PlaceRun(st: State, es: seq<Event>, k: nat): int
    requires k < |st.timers|
    decreases |es|
  {
    if es == [] then k
    else
      var p := PlaceAfter(st, es[0], k);
      PlaceAfterIs(st, es[0], k);
      if p < 0 then p else PlaceRun(After(st, es[0]), es[1..], p)
  }

  /** A timer that is not gone is where its place says. */
  lemma {:induction false} PlaceRunIs(st: State, es: seq<Event>, k: nat)
    requires k < |st.timers|
    ensures var p := PlaceRun(st, es, k); p >= 0 ==> p < |RunAll(st, es).timers| && RunAll(st, es).timers[p] == st.timers[k]
    decreases |es|
  {
    if es != [] {
      PlaceAfterIs(st, es[0], k);
      var p := PlaceAfter(st, es[0], k);
      if p >= 0 { PlaceRunIs(After(st, es[0]), es[1..], p); }
    }
  }

  function Ticks(es: seq<Event>): nat {
    if es == [] then 0 else (if es[0].Tick? then 1 else 0) + Ticks(es[1..])
  }

  /** A timer at index k that the next tick finds expired is gone within k + 1 ticks, whoever goes to sleep meanwhile. */
  lemma {:induction false} GoneInTime(st: State, es: seq<Event>, k: nat)
    requires k < |st.timers| && Expired(st.timers[k], st.ticks + 1) && Ticks(es) >= k + 1
    ensures PlaceRun(st, es, k) < 0
    decreases |es|
  {
    var e := es[0];
    var p := PlaceAfter(st, e, k);
    PlaceAfterIs(st, e, k);
    if e.Tick? { ExpiredAdvances(st.timers, st.ticks + 1, k); }
    if p >= 0 { GoneInTime(After(st, e), es[1..], p); }
  }

  /** From any moment on: a timer at index k is gone k + 1 ticks after it has expired at the latest. */
  lemma {:induction false} GoneAfterExpiry(st: State, es: seq<Event>, k: nat)
    requires k < |st.timers| && Ticks(es) >= k + 1 && st.ticks + Ticks(es) >= st.timers[k].expiry + k + 1
    ensures PlaceRun(st, es, k) < 0
    decreases |es|
  {
    if st.timers[k].expiry <= st.ticks {
      GoneInTime(st, es, k);
    } else {
      PlaceAfterIs(st, es[0], k);
      if es[0].Tick? { PlaceIs(st.timers, st.ticks + 1, k); }
      var p := PlaceAfter(st, es[0], k);
      if p >= 0 { GoneAfterExpiry(After(st, es[0]), es[1..], p); }
    }
  }

  /** An expired timer can outlive a tick: the one in front of it goes first. */
  lemma SteppedOver()
    ensures var st := State([Timer(1, 0), Timer(2, 0)], 0);
      PlaceRun(st, [Tick], 1) == 0 && PlaceRun(st, [Tick, Tick], 1) == -1
  {
    var s := [Timer(1, 0), Timer(2, 0)];
    assert s[2..] == [];
    assert Swept(s, 1) == [Timer(2, 0)];
    assert [Tick][1..] == [] && [Tick, Tick][1..] == [Tick];
  }

  /** k timers, of which the last expires at the next tick, the one before it a tick later, and so on. */
  function Staggered(k: nat, now: nat): seq<Timer> {
    if k == 0 then [] else [Timer(now + k - 1, now + k - 1)] + Staggered(k - 1, now)
  }

  function AllTicks(n: nat): seq<Event> {
    if n == 0 then [] else [Tick] + AllTicks(n - 1)
  }

  lemma {:induction false} StaggeredLength(k: nat, now: nat)
    ensures |Staggered(k, now)| == k
  {
    if k > 0 { StaggeredLength(k - 1, now); }
  }

  /** A tick removes the last of them and steps over the timer behind. */
  lemma {:induction false} StaggeredSwept(k: nat, now: nat, t: Timer)
    requires k > 0
    ensures |Staggered(k, now)| == k
    ensures Swept(Staggered(k, now) + [t], now + 1) == Staggered(k - 1, now + 1) + [t]
    ensures Place(Staggered(k, now) + [t], now + 1, k) == k - 1
  {
    StaggeredLength(k, now);
    var s := Staggered(k, now) + [t];
    if k == 1 {
      assert Staggered(1, now) == [Timer(now, now)];
      assert s == [Timer(now, now), t] && s[2..] == [];
    } else {
      StaggeredSwept(k - 1, now, t);
      assert s == [Timer(now + k - 1, now + k - 1)] + (Staggered(k - 1, now) + [t]);
      assert s[1..] == Staggered(k - 1, now) + [t];
      assert Staggered(k - 1, now + 1) == [Timer(now + k - 1, now + k - 1)] + Staggered(k - 2, now + 1);
    }
  }

  /** With one timer expiring right in front of it at each tick, timer t at index k moves up by one a tick. */
  lemma {:induction false} MovesUp(k: nat, now: nat, t: Timer, n: nat)
    requires n <= k
    ensures |Staggered(k, now)| == k
    ensures PlaceRun(State(Staggered(k, now) + [t], now), AllTicks(n), k) == k - n
    decreases k
  {
    StaggeredLength(k, now);
    if n > 0 {
      StaggeredSwept(k, now, t);
      MovesUp(k - 1, now + 1, t, n - 1);
      assert AllTicks(n)[1..] == AllTicks(n - 1);
    }
  }

  lemma {:induction false} TicksAre(n: nat)
    ensures Ticks(AllTicks(n)) == n
  {
    if n > 0 {
      TicksAre(n - 1);
      assert AllTicks(n)[1..] == AllTicks(n - 1);
    }
  }

  /** The bound of k + 1 ticks is reached for every index k: after k ticks the expired timer is still there. */
  lemma BoundReached(k: nat)
    ensures var st := State(Staggered(k, 0) + [Timer(-1, 0)], 0);
      && |st.timers| == k + 1 && st.timers[k] == Timer(-1, 0) && Expired(st.timers[k], st.ticks + 1)
      && PlaceRun(st, AllTicks(k), k) == 0 && PlaceRun(st, AllTicks(k + 1), k) < 0
  {
    MovesUp(k, 0, Timer(-1, 0), k);
    TicksAre(k + 1);
    GoneInTime(State(Staggered(k, 0) + [Timer(-1, 0)], 0), AllTicks(k + 1), k);
  }

  // ---------------------------------------------------------------- the program

  /** A call of sleep: the thread, for how many milliseconds, and at which tick. */
  datatype Request = Request(thread: int, millis: nat, at: nat)

  /** The request a timer was removed for, the thread woken for it, and the tick. */
  datatype Waking = Waking(request: Request, thread: int, at: nat)

  datatype TimerOp = DoSleep(millis: nat, thread: int) | DoTick

  function Deadline(r: Request, frequency: nat): nat { r.at + r.millis * frequency / 1000 }

  /** The timer that a request leaves on the list: its deadline is kept in 32 bits. */
  function Stored(r: Request, frequency: nat): Timer { Timer(r.thread, Deadline(r, frequency) % LONG_SPAN) }

  /** The timer of a request whose deadline fits in 32 bits belongs to its thread and expires right after. */
  ghost predicate Keeps(t: Timer, r: Request, frequency: nat) {
    && t.thread == r.thread
    && (r.at + r.millis * frequency / 1000 < LONG_SPAN ==>
      forall now: nat {:trigger Expired(t, now)} :: Expired(t, now) <==> now - r.at > r.millis * frequency / 1000)
  }

  /** The thread asked for was woken, and if the deadline fits in 32 bits not before the time was over. */
  ghost predicate Kept(w: Waking, frequency: nat) {
    && w.thread == w.request.thread
    && (w.request.at + w.request.millis * frequency / 1000 < LONG_SPAN ==>
      && w.at - w.request.at > w.request.millis * frequency / 1000
      && (w.at - w.request.at) * 1000 > w.request.millis * frequency)
  }

  /** The calls of sleep, with their ticks, and what they do to the list. */
  function Requests(ops: seq<TimerOp>, ticks: nat): seq<Request>
    decreases |ops|
  {
    if ops == [] then []
    else if ops[0].DoTick? then Requests(ops[1..], ticks + 1)
    else [Request(ops[0].thread, ops[0].millis, ticks)] + Requests(ops[1..], ticks)
  }

  function Events(ops: seq<TimerOp>, ticks: nat, frequency: nat): seq<Event>
    decreases |ops|
  {
    if ops == [] then []
    else if ops[0].DoTick? then [Tick] + Events(ops[1..], ticks + 1, frequency)
    else [Sleep(Stored(Request(ops[0].thread, ops[0].millis, ticks), frequency))] + Events(ops[1..], ticks, frequency)
  }

  function Woke(log: seq<Waking>): (rs: seq<Request>)
    ensures |rs| == |log|
  {
    seq(|log|, i requires 0 <= i < |log| => log[i].request)
  }

  /** Woken after its deadline, as far as 32 bits can tell. */
  predicate Late(w: Waking, frequency: nat) {
    w.thread == w.request.thread && Deadline(w.request, frequency) % LONG_SPAN < w.at
  }

  lemma LateKept(w: Waking, frequency: nat)
    requires Late(w, frequency)
    ensures Kept(w, frequency)
  {}

  lemma KeptAll(log: seq<Waking>, frequency: nat)
    requires forall w :: w in log ==> Kept(w, frequency)
    ensures forall w :: w in log ==> w.thread == w.request.thread
    ensures forall w :: w in log && w.request.at + w.request.millis * frequency / 1000 < LONG_SPAN ==>
      && w.at - w.request.at > w.request.millis * frequency / 1000
      && (w.at - w.request.at) * 1000 > w.request.millis * frequency
  {}

  lemma KeepsAll(timers: seq<Timer>, asked: seq<Request>, frequency: nat)
    requires |asked| == |timers| && forall i {:trigger timers[i]} :: 0 <= i < |timers| ==> Keeps(timers[i], asked[i], frequency)
    ensures forall i {:trigger timers[i]} :: 0 <= i < |timers| ==>
      && timers[i].thread == asked[i].thread
      && (asked[i].at + asked[i].millis * frequency / 1000 < LONG_SPAN ==>
        forall now: nat {:trigger Expired(timers[i], now)} ::
          Expired(timers[i], now) <==> now - asked[i].at > asked[i].millis * frequency / 1000)
  {}

  lemma StoredKeeps(r: Request, frequency: nat)
    ensures Keeps(Stored(r, frequency), r, frequency)
  {}

  class SystemTimer {
    var systemTicks: nat
    var timers: seq<Timer>
    const tickFrequency: nat
    /** What each timer on the list was asked for, and who was woken so far. */
    ghost var asked: seq<Request>
    ghost var log: seq<Waking>

    ghost predicate Valid()
      reads this
    {
      && |asked| == |timers| && (forall i {:trigger timers[i]} :: 0 <= i < |timers| ==> timers[i] == Stored(asked[i], tickFrequency))
      && forall i {:trigger log[i]} :: 0 <= i < |log| ==> Late(log[i], tickFrequency)
    }

    constructor (frequency: nat)
      ensures Valid() && timers == [] && systemTicks == 0 && tickFrequency == frequency && log == []
    {
      timers, systemTicks, tickFrequency, asked, log := [], 0, frequency, [], [];
    }

    /** SystemTimer::sleep */
    method Sleep(millis: nat, thread: int)
      requires Valid() && millis * tickFrequency < 0x8000_0000
      modifies this
      ensures Valid() && systemTicks == old(systemTicks) && log == old(log)
      ensures asked == old(asked) + [Request(thread, millis, systemTicks)]
      ensures timers == old(timers) + [Stored(Request(thread, millis, systemTicks), tickFrequency)]
      ensures timers != [] && Keeps(timers[|timers| - 1], Request(thread, millis, systemTicks), tickFrequency)
    {
      StoredKeeps(Request(thread, millis, systemTicks), tickFrequency);
      var expiry := (systemTicks + millis * tickFrequency / 1000) % LONG_SPAN;
      timers := timers + [Timer(thread, expiry)];
      asked := asked + [Request(thread, millis, systemTicks)];
    }

    /** timerTickISR */
    method TimerTick()
      requires Valid()
      modifies this
      ensures Valid()
      ensures State(timers, systemTicks) == After(old(State(timers, systemTicks)), Tick)
      ensures Logged(old(log), log, Woken(old(timers), systemTicks), systemTicks, tickFrequency)
      ensures multiset(asked) + multiset(Woke(log)) == multiset(old(asked)) + multiset(Woke(old(log)))
    {
      hide Woke, Logged, Sweeping, Swept, Woken, Late, Stored;
      systemTicks := systemTicks + 1;
      ghost var s, woken := timers, [];
      StartSweep(s, log, systemTicks, tickFrequency);
      var i := 0;
      while i < |timers|
        invariant 0 <= i <= |timers| + 1 && systemTicks == old(systemTicks) + 1 && Valid()
        invariant Sweeping(s, [], timers, woken, i, systemTicks)
        invariant Logged(old(log), log, woken, systemTicks, tickFrequency)
        invariant multiset(asked) + multiset(Woke(log)) == multiset(old(asked)) + multiset(Woke(old(log)))
        decreases |timers| - i
      {
        ghost var before, wokenBefore := timers, woken;
        if timers[i].expiry < systemTicks {
          ghost var w := Waking(asked[i], timers[i].thread, systemTicks);
          WakeLate(w, timers[i], tickFrequency);
          woken := woken + [timers[i]];
          LogMore(old(log), log, wokenBefore, w, timers[i], tickFrequency);
          MoveBag(asked, log, w, i);
          log := log + [w];
          asked := asked[..i] + asked[i + 1..];
          timers := timers[..i] + timers[i + 1..];
          RemoveStep(s, [], before, wokenBefore, i, systemTicks);
        } else {
          KeepStep(s, [], timers, woken, i, systemTicks);
        }
        i := i + 1;
      }
      EndSweep(s, [], timers, woken, i, systemTicks);
      assert [] + Woken(s, systemTicks) == Woken(s, systemTicks);
    }

    /**
     * Any run of sleeps and ticks: the list goes through the states of the events, and each call
     * of sleep is still pending or was answered by one waking.  Unless the deadline leaves 32 bits,
     * more ticks than the milliseconds asked for have passed at a waking, and a pending timer counts
     * as expired at exactly those ticks.
     */
    method Run(ops: seq<TimerOp>)
      requires Valid() && forall k :: 0 <= k < |ops| && ops[k].DoSleep? ==> ops[k].millis * tickFrequency < 0x8000_0000
      modifies this
      ensures Valid() && State(timers, systemTicks) == RunAll(old(State(timers, systemTicks)), Events(ops, old(systemTicks), tickFrequency))
      ensures multiset(asked) + multiset(Woke(log)) ==
        multiset(old(asked)) + multiset(Woke(old(log))) + multiset(Requests(ops, old(systemTicks)))
      ensures forall w :: w in log ==> w.thread == w.request.thread
      ensures forall w :: w in log && w.request.at + w.request.millis * tickFrequency / 1000 < LONG_SPAN ==>
        && w.at - w.request.at > w.request.millis * tickFrequency / 1000
        && (w.at - w.request.at) * 1000 > w.request.millis * tickFrequency
      ensures |asked| == |timers| && forall i {:trigger timers[i]} :: 0 <= i < |timers| ==>
        && timers[i].thread == asked[i].thread
        && (asked[i].at + asked[i].millis * tickFrequency / 1000 < LONG_SPAN ==>
          forall now: nat {:trigger Expired(timers[i], now)} ::
            Expired(timers[i], now) <==> now - asked[i].at > asked[i].millis * tickFrequency / 1000)
    {
      hide Woke, Events, Requests, RunAll, After, Valid, EventOf, Asks, Expired;
      ghost var ticks, st := systemTicks, State(timers, systemTicks);
      ghost var all, asks := Events(ops, ticks, tickFrequency), Requests(ops, ticks);
      ghost var bag := multiset(asked) + multiset(Woke(log));
      NoOps(ops, tickFrequency);
      for n := 0 to |ops|
        invariant Valid()
        invariant RunAll(State(timers, systemTicks), Events(ops[n..], systemTicks, tickFrequency)) == RunAll(st, all)
        invariant multiset(asked) + multiset(Woke(log)) + multiset(Requests(ops[n..], systemTicks)) == bag + multiset(asks)
      {
        EventsStep(ops, n, State(timers, systemTicks), tickFrequency);
        Perform(ops[n]);
      }
      NoOps(ops, tickFrequency);
      InTime();
      Pending();
    }

    method Perform(op: TimerOp)
      requires Valid() && (op.DoSleep? ==> op.millis * tickFrequency < 0x8000_0000)
      modifies this
      ensures Valid() && State(timers, systemTicks) == After(old(State(timers, systemTicks)), EventOf(op, old(systemTicks), tickFrequency))
      ensures systemTicks == old(systemTicks) + (if op.DoTick? then 1 else 0)
      ensures multiset(asked) + multiset(Woke(log)) == multiset(old(asked)) + multiset(Woke(old(log))) + Asks(op, old(systemTicks))
    {
      match op
      case DoSleep(millis, thread) => Sleep(millis, thread);
      case DoTick => TimerTick();
    }

    lemma InTime()
      requires Valid()
      ensures forall w :: w in log ==> w.thread == w.request.thread
      ensures forall w :: w in log && w.request.at + w.request.millis * tickFrequency / 1000 < LONG_SPAN ==>
        && w.at - w.request.at > w.request.millis * tickFrequency / 1000
        && (w.at - w.request.at) * 1000 > w.request.millis * tickFrequency
    {
      hide Late, Kept;
      forall w | w in log ensures Kept(w, tickFrequency) {
        var i :| 0 <= i < |log| && log[i] == w;
        LateKept(log[i], tickFrequency);
      }
      KeptAll(log, tickFrequency);
    }

    lemma Pending()
      requires Valid()
      ensures |asked| == |timers| && forall i {:trigger timers[i]} :: 0 <= i < |timers| ==>
        && timers[i].thread == asked[i].thread
        && (asked[i].at + asked[i].millis * tickFrequency / 1000 < LONG_SPAN ==>
          forall now: nat {:trigger Expired(timers[i], now)} ::
            Expired(timers[i], now) <==> now - asked[i].at > asked[i].millis * tickFrequency / 1000)
    {
      hide Late, Keeps, Stored, Expired;
      forall i | 0 <= i < |timers| ensures Keeps(timers[i], asked[i], tickFrequency) {
        StoredKeeps(asked[i], tickFrequency);
      }
      KeepsAll(timers, asked, tickFrequency);
    }
  }

  function EventOf(op: TimerOp, ticks: nat, frequency: nat): Event {
    if op.DoTick? then Tick else Sleep(Stored(Request(op.thread, op.millis, ticks), frequency))
  }

  function Asks(op: TimerOp, ticks: nat): multiset<Request> {
    if op.DoTick? then multiset{} else multiset{Request(op.thread, op.millis, ticks)}
  }

  lemma NoOps(ops: seq<TimerOp>, frequency: nat)
    ensures ops[0..] == ops
    ensures forall st {:trigger RunAll(st, [])} :: RunAll(st, []) == st
    ensures forall ticks: nat {:trigger Events(ops[|ops|..], ticks, frequency)} :: Events(ops[|ops|..], ticks, frequency) == []
    ensures forall ticks: nat {:trigger Requests(ops[|ops|..], ticks)} :: Requests(ops[|ops|..], ticks) == []
  {}

  lemma EventsStep(all: seq<TimerOp>, n: nat, st: State, frequency: nat)
    requires n < |all|
    ensures var ops, ticks := all[n..], st.ticks; var ticks' := if all[n].DoTick? then ticks + 1 else ticks;
      && RunAll(st, Events(ops, ticks, frequency)) == RunAll(After(st, EventOf(all[n], ticks, frequency)), Events(all[n + 1..], ticks', frequency))
      && multiset(Requests(ops, ticks)) == Asks(all[n], ticks) + multiset(Requests(all[n + 1..], ticks'))
  {
    hide After;
    var ops, ticks := all[n..], st.ticks;
    assert ops[1..] == all[n + 1..];
    var ticks' := if all[n].DoTick? then ticks + 1 else ticks;
    assert Events(ops, ticks, frequency) == [EventOf(all[n], ticks, frequency)] + Events(ops[1..], ticks', frequency);
    if all[n].DoSleep? {
      RequestBag(Request(all[n].thread, all[n].millis, ticks), Requests(ops[1..], ticks));
    }
  }

  lemma RequestBag(r: Request, rs: seq<Request>)
    ensures multiset([r] + rs) == multiset{r} + multiset(rs)
  {}

  /** The log grew by those woken now. */
  ghost predicate Logged(before: seq<Waking>, log: seq<Waking>, woken: seq<Timer>, now: nat, frequency: nat) {
    && |log| == |before| + |woken| && log[..|before|] == before
    && forall j {:trigger woken[j]} :: 0 <= j < |woken| ==>
      Stored(log[|before| + j].request, frequency) == woken[j] && log[|before| + j].thread == woken[j].thread && log[|before| + j].at == now
  }

  lemma LogMore(before: seq<Waking>, log: seq<Waking>, woken: seq<Timer>, w: Waking, t: Timer, frequency: nat)
    requires Logged(before, log, woken, w.at, frequency) && Stored(w.request, frequency) == t && w.thread == t.thread
    ensures Logged(before, log + [w], woken + [t], w.at, frequency)
  {
    var log', woken' := log + [w], woken + [t];
    assert log'[..|before|] == log[..|before|];
    forall j | 0 <= j < |woken'| ensures Stored(log'[|before| + j].request, frequency) == woken'[j] && log'[|before| + j].thread == woken'[j].thread && log'[|before| + j].at == w.at {
      if j < |woken| { assert woken'[j] == woken[j] && log'[|before| + j] == log[|before| + j]; }
    }
  }

  lemma WakeLate(w: Waking, t: Timer, frequency: nat)
    requires Stored(w.request, frequency) == t && t.expiry < w.at && w.thread == t.thread
    ensures Late(w, frequency)
  {}

  lemma StartSweep(s: seq<Timer>, log: seq<Waking>, now: nat, frequency: nat)
    ensures Sweeping(s, [], s, [], 0, now) && Logged(log, log, [], now, frequency)
  {
    assert s[0..] == s && [] + Swept(s, now) == Swept(s, now) && [] + Woken(s, now) == Woken(s, now);
  }

  lemma MoveBag(asked: seq<Request>, log: seq<Waking>, w: Waking, i: nat)
    requires i < |asked| && w.request == asked[i]
    ensures multiset(asked[..i] + asked[i + 1..]) + multiset(Woke(log + [w])) == multiset(asked) + multiset(Woke(log))
  {
    assert asked == asked[..i] + [asked[i]] + asked[i + 1..];
    assert Woke(log + [w]) == Woke(log) + [w.request];
  }
  /** A sweep of s at index i of what is left; past the end if the last element was removed. */
  ghost predicate Sweeping(s: seq<Timer>, w: seq<Timer>, left: seq<Timer>, woken: seq<Timer>, i: nat, now: nat) {
    if i <= |left| then left[..i] + Swept(left[i..], now) == Swept(s, now) && woken + Woken(left[i..], now) == w + Woken(s, now)
    else left == Swept(s, now) && woken == w + Woken(s, now)
  }

  lemma RemoveStep(s: seq<Timer>, w: seq<Timer>, left: seq<Timer>, woken: seq<Timer>, i: nat, now: nat)
    requires i < |left| && Sweeping(s, w, left, woken, i, now) && Expired(left[i], now)
    ensures Sweeping(s, w, left[..i] + left[i + 1..], woken + [left[i]], i + 1, now)
  {
    var left', rest := left[..i] + left[i + 1..], left[i..];
    if |rest| == 1 {
      assert left' == left[..i] && left[..i] + [] == left[..i];
    } else {
      assert left'[i + 1..] == rest[2..];
      assert left'[..i + 1] == left[..i] + [rest[1]];
      assert left'[..i + 1] + Swept(rest[2..], now) == left[..i] + Swept(rest, now);
      assert woken + [rest[0]] + Woken(rest[2..], now) == woken + Woken(rest, now);
    }
  }

  lemma KeepStep(s: seq<Timer>, w: seq<Timer>, left: seq<Timer>, woken: seq<Timer>, i: nat, now: nat)
    requires i < |left| && Sweeping(s, w, left, woken, i, now) && !Expired(left[i], now)
    ensures Sweeping(s, w, left, woken, i + 1, now)
  {
    var rest := left[i..];
    assert left[i + 1..] == rest[1..] && left[..i + 1] == left[..i] + [rest[0]];
    assert left[..i + 1] + Swept(rest[1..], now) == left[..i] + Swept(rest, now);
  }

  lemma EndSweep(s: seq<Timer>, w: seq<Timer>, left: seq<Timer>, woken: seq<Timer>, i: nat, now: nat)
    requires |left| <= i <= |left| + 1 && Sweeping(s, w, left, woken, i, now)
    ensures left == Swept(s, now) && woken == w + Woken(s, now)
  {
    if i == |left| {
      assert left[..i] == left && left[i..] == [];
      assert left + [] == left && woken + [] == woken;
    }
  }

  /**
   * A thread is woken only after the deadline it asked for, exactly for deadlines that fit in
   * 32 bits: beyond, the stored one is earlier and a tick before the deadline wakes it.
   */
  lemma DeadlineKept(deadline: nat)
    ensures (forall now: nat :: Expired(Timer(0, deadline % LONG_SPAN), now) ==> deadline < now) <==> deadline < LONG_SPAN
  {
    if deadline >= LONG_SPAN {
      assert Expired(Timer(0, deadline % LONG_SPAN), deadline);
    }
  }
}
