/** The loop watchdog: a monitor thread and the loop thread over shared atomics, one load, store or
    exchange at a time, with time passing in between. */
module Watchdog {

  /** Where the monitor is in its loop. The two operands of `nowMs() - lastFeedMs.load()` are read in
      an order the language leaves open: First holds the one read first. */
  datatype Monitor =
    | Sleeping
    | TimeoutLoaded(timeout: nat)
    | ArmedSeen(timeout: nat)
    | First(timeout: nat, value: int)
    | Expired

  /** Where the loop thread is: the clock value it has read and not stored yet, if any. */
  datatype Loop = Idle | Feeding(read: int) | Enabling(read: int) | Arming

  datatype State = State(now: int, armed: bool, lastFeed: int, timeout: nat, monitor: Monitor, loop: Loop,
                         enables: nat, expiries: nat)

  datatype Step = Tick(ms: nat) | MonitorStep | FeedRead | EnableRead | LoopStore | Disable | SetTimeout(ms: nat)

  /** The next access of the monitor; `nowFirst` is the order in which it reads its two operands. */
  function DoMonitor(s: State, nowFirst: bool): State {
    match s.monitor
    case Sleeping => s.(monitor := TimeoutLoaded(s.timeout))
    case TimeoutLoaded(t) => if s.armed && t != 0 then s.(monitor := ArmedSeen(t)) else s.(monitor := Sleeping)
    case ArmedSeen(t) => s.(monitor := First(t, if nowFirst then s.now else s.lastFeed))
    case First(t, v) =>
      var now, fed := if nowFirst then v else s.now, if nowFirst then s.lastFeed else v;
      if now - fed <= t then s.(monitor := Sleeping) else s.(monitor := Expired)
    case Expired =>
      if s.armed then s.(monitor := Sleeping, armed := false, expiries := s.expiries + 1)
      else s.(monitor := Sleeping)
  }

  function Do(s: State, step: Step, nowFirst: bool): State {
    match step
    case Tick(ms) => s.(now := s.now + ms)
    case MonitorStep => DoMonitor(s, nowFirst)
    case FeedRead => s.(loop := Feeding(s.now))
    case EnableRead => s.(loop := Enabling(s.now))
    case LoopStore =>
      (match s.loop
       case Idle => s
       case Feeding(t) => s.(lastFeed := t, loop := Idle)
       case Enabling(t) => s.(lastFeed := t, loop := Arming)
       case Arming => s.(armed := true, loop := Idle, enables := s.enables + 1))
    case Disable => s.(armed := false)
    case SetTimeout(ms) => s.(timeout := ms)
  }

  /** The loop thread finishes one call before it begins another. */
  predicate InOrder(s: State, step: Step) {
    (step.FeedRead? || step.EnableRead? || step.Disable? || step.SetTimeout? ==> s.loop.Idle?)
    && (step.LoopStore? ==> !s.loop.Idle?)
  }

  function Exec(s: State, run: seq<Step>, nowFirst: bool): State
    decreases |run|
  {
    if run == [] then s else Exec(Do(s, run[0], nowFirst), run[1..], nowFirst)
  }

  /** Before the first enable nothing is armed and the monitor has not started. */
  function Start(now: int, lastFeed: int, timeout: nat): State {
    State(now, false, lastFeed, timeout, Sleeping, Idle, 0, 0)
  }

  // ---------------------------------------------------------------- it fires once per enable

  /** In every interleaving, expiries and the arming still pending are paid for by enables. */
  lemma {:induction false} FiresOncePerEnable(s: State, run: seq<Step>, nowFirst: bool)
    requires s.expiries + (if s.armed then 1 else 0) <= s.enables
    ensures var s' := Exec(s, run, nowFirst);
            s'.expiries + (if s'.armed then 1 else 0) <= s'.enables
    decreases |run|
  {
    if run != [] {
      FiresOncePerEnable(Do(s, run[0], nowFirst), run[1..], nowFirst);
    }
  }

  // ---------------------------------------------------------------- a loop that feeds is not expired

  /** When feeding is owed: from the first enable on, or only while the watchdog is armed. */
  datatype Duty = FromFirstEnable | WhileArmed

  /** The value last fed is at most g ms old whenever feeding is owed. */
  predicate Fed(s: State, g: nat, duty: Duty) {
    (if duty == WhileArmed then s.armed else s.enables > 0) ==> s.now - s.lastFeed <= g
  }

  predicate Permitted(s: State, step: Step, g: nat) {
    InOrder(s, step) && (step.SetTimeout? ==> step.ms == 0 || step.ms >= g)
  }

  /** The run keeps the order of the loop thread, feeds every g ms, and sets no timeout other than 0
      that is shorter than g. */
  ghost predicate FeedsInTime(s: State, run: seq<Step>, g: nat, nowFirst: bool, duty: Duty)
    decreases |run|
  {
    && Fed(s, g, duty)
    && (run != [] ==> Permitted(s, run[0], g) && FeedsInTime(Do(s, run[0], nowFirst), run[1..], g, nowFirst, duty))
  }

  /** What every step keeps: fed values are in order, and the monitor, having read the clock, is
      never about to find the loop late. */
  ghost predicate Healthy(s: State, g: nat) {
    && s.lastFeed <= s.now && (s.timeout == 0 || s.timeout >= g)
    && (s.loop.Feeding? || s.loop.Enabling? ==> s.lastFeed <= s.loop.read <= s.now)
    && (s.armed ==> s.enables > 0)
    && match s.monitor
       case Sleeping => true
       case TimeoutLoaded(t) => t == 0 || t >= g
       case ArmedSeen(t) => t >= g && s.enables > 0
       case First(t, v) => t >= g && v - s.lastFeed <= g
       case Expired => false
  }

  lemma StepKeepsHealthy(s: State, step: Step, g: nat)
    requires Healthy(s, g) && Fed(s, g, FromFirstEnable) && Permitted(s, step, g)
    ensures Healthy(Do(s, step, true), g) && Do(s, step, true).expiries == s.expiries
  {
  }

  lemma {:induction false} HealthyRun(s: State, run: seq<Step>, g: nat)
    requires Healthy(s, g) && FeedsInTime(s, run, g, true, FromFirstEnable)
    ensures Exec(s, run, true).expiries == s.expiries
    decreases |run|
  {
    if run != [] {
      StepKeepsHealthy(s, run[0], g);
      HealthyRun(Do(s, run[0], true), run[1..], g);
    }
  }

  /** A loop that feeds at least every g ms is never expired while every timeout is 0 or at least g,
      whatever the interleaving, if the monitor reads the clock before the time of the last feed. */
  lemma FedLoopIsNotExpired(now: int, lastFeed: int, timeout: nat, run: seq<Step>, g: nat)
    requires lastFeed <= now && (timeout == 0 || timeout >= g)
    requires FeedsInTime(Start(now, lastFeed, timeout), run, g, true, FromFirstEnable)
    ensures Exec(Start(now, lastFeed, timeout), run, true).expiries == 0
  {
    HealthyRun(Start(now, lastFeed, timeout), run, g);
  }

  /** Runs a list of steps that feeds in time, from its last step back to its first. */
  lemma {:induction false} Replay(s: State, run: seq<Step>, states: seq<State>, g: nat, nowFirst: bool, duty: Duty)
    requires |states| == |run| + 1 && states[0] == s
    requires forall i :: 0 <= i < |states| ==> Fed(states[i], g, duty)
    requires forall i :: 0 <= i < |run| ==> Permitted(states[i], run[i], g)
    requires forall i :: 0 <= i < |run| ==> states[i + 1] == Do(states[i], run[i], nowFirst)
    ensures FeedsInTime(s, run, g, nowFirst, duty) && Exec(s, run, nowFirst) == states[|run|]
    decreases |run|
  {
    if run != [] {
      Replay(states[1], run[1..], states[1..], g, nowFirst, duty);
    }
  }

  /** Two runs, one after the other. */
  lemma {:induction false} Join(s: State, run1: seq<Step>, run2: seq<Step>, g: nat, nowFirst: bool, duty: Duty)
    requires FeedsInTime(s, run1, g, nowFirst, duty) && FeedsInTime(Exec(s, run1, nowFirst), run2, g, nowFirst, duty)
    ensures FeedsInTime(s, run1 + run2, g, nowFirst, duty)
    ensures Exec(s, run1 + run2, nowFirst) == Exec(Exec(s, run1, nowFirst), run2, nowFirst)
    decreases |run1|
  {
    if run1 == [] {
      assert run1 + run2 == run2;
    } else {
      assert (run1 + run2)[1..] == run1[1..] + run2;
      Join(Do(s, run1[0], nowFirst), run1[1..], run2, g, nowFirst, duty);
    }
  }

  /** The watchdog armed at time 0 with timeout g, and the monitor having seen it armed. */
  function Armed(g: nat): State {
    State(0, true, 0, g, Sleeping, Idle, 1, 0)
  }

  lemma PollBegins(g: nat, nowFirst: bool, duty: Duty)
    requires g > 0
    ensures var run := [MonitorStep, MonitorStep];
            FeedsInTime(Armed(g), run, g, nowFirst, duty)
                    && Exec(Armed(g), run, nowFirst) == Armed(g).(monitor := ArmedSeen(g))
  {
    var a := Armed(g);
    Replay(a, [MonitorStep, MonitorStep], [a, a.(monitor := TimeoutLoaded(g)), a.(monitor := ArmedSeen(g))],
           g, nowFirst, duty);
  }

  /** The order matters: read the other way round, the monitor can hold an old feed time while the
      loop goes on feeding, and expire a loop that never was late. */
  lemma FeedTimeFirstExpiresFedLoop(g: nat)
    requires g > 0
    ensures exists run ::
              FeedsInTime(Armed(g), run, g, false, FromFirstEnable) && Exec(Armed(g), run, false).expiries == 1
  {
    hide FeedsInTime, Exec;
    PollBegins(g, false, FromFirstEnable);
    var seen := Armed(g).(monitor := First(g, 0));
    var fed := seen.(now := g, lastFeed := g);
    var run1 := [MonitorStep, Tick(g), FeedRead, LoopStore];
    Replay(Armed(g).(monitor := ArmedSeen(g)), run1,
           [Armed(g).(monitor := ArmedSeen(g)), seen, seen.(now := g), seen.(now := g, loop := Feeding(g)), fed],
           g, false, FromFirstEnable);
    var late := fed.(now := g + 1);
    var run2 := [Tick(1), MonitorStep, MonitorStep];
    Replay(fed, run2, [fed, late, late.(monitor := Expired), late.(monitor := Sleeping, armed := false, expiries := 1)],
           g, false, FromFirstEnable);
    Join(Armed(g), [MonitorStep, MonitorStep], run1, g, false, FromFirstEnable);
    Join(Armed(g), [MonitorStep, MonitorStep] + run1, run2, g, false, FromFirstEnable);
  }

  /** And so does feeding while disarmed: a monitor that saw the watchdog armed before it was disabled
      can expire it right after it is enabled again, though the loop is never late while armed. */
  lemma DisarmedLoopMayBeExpired(g: nat)
    requires g > 0
    ensures exists run :: FeedsInTime(Armed(g), run, g, true, WhileArmed) && Exec(Armed(g), run, true).expiries == 1
  {
    hide FeedsInTime, Exec;
    PollBegins(g, true, WhileArmed);
    var late := g + 1;
    var seen := Armed(g).(monitor := ArmedSeen(g));
    var off := seen.(armed := false, now := late);
    var run1 := [Disable, Tick(late), MonitorStep, MonitorStep];
    Replay(seen, run1,
           [seen, seen.(armed := false), off, off.(monitor := First(g, late)), off.(monitor := Expired)],
           g, true, WhileArmed);
    var again := off.(monitor := Expired, lastFeed := late);
    var run2 := [EnableRead, LoopStore, LoopStore, MonitorStep];
    Replay(off.(monitor := Expired), run2,
           [off.(monitor := Expired), off.(monitor := Expired, loop := Enabling(late)), again.(loop := Arming),
            again.(armed := true, enables := 2), again.(monitor := Sleeping, enables := 2, expiries := 1)],
           g, true, WhileArmed);
    Join(Armed(g), [MonitorStep, MonitorStep], run1, g, true, WhileArmed);
    Join(Armed(g), [MonitorStep, MonitorStep] + run1, run2, g, true, WhileArmed);
  }

  /** Feeding from the first enable on is feeding while armed: nothing is armed before it. */
  lemma {:induction false} FedAlwaysIsFedWhileArmed(s: State, run: seq<Step>, g: nat, nowFirst: bool)
    requires FeedsInTime(s, run, g, nowFirst, FromFirstEnable) && (s.armed ==> s.enables > 0)
    ensures FeedsInTime(s, run, g, nowFirst, WhileArmed)
    decreases |run|
  {
    if run != [] { FedAlwaysIsFedWhileArmed(Do(s, run[0], nowFirst), run[1..], g, nowFirst); }
  }

  /** Some run that feeds in time is expired all the same. */
  ghost predicate ExpiresFedLoop(g: nat, nowFirst: bool, duty: Duty) {
    exists run :: FeedsInTime(Armed(g), run, g, nowFirst, duty) && Exec(Armed(g), run, nowFirst).expiries != 0
  }

  /** The watchdog never expires a loop that feeds in time just when it reads the clock before the time of
      the last feed, and the loop feeds from the first enable on, not only while armed. */
  lemma NeverExpiresFedLoopIff(g: nat, nowFirst: bool, duty: Duty)
    requires g > 0
    ensures !ExpiresFedLoop(g, nowFirst, duty) <==> nowFirst && duty == FromFirstEnable
  {
    if nowFirst && duty == FromFirstEnable {
      forall run | FeedsInTime(Armed(g), run, g, nowFirst, duty) ensures Exec(Armed(g), run, nowFirst).expiries == 0 {
        HealthyRun(Armed(g), run, g);
      }
    } else if nowFirst {
      DisarmedLoopMayBeExpired(g);
    } else {
      FeedTimeFirstExpiresFedLoop(g);
      hide FeedsInTime, Exec;
      var run :| FeedsInTime(Armed(g), run, g, false, FromFirstEnable) && Exec(Armed(g), run, false).expiries == 1;
      FedAlwaysIsFedWhileArmed(Armed(g), run, g, false);
      assert FeedsInTime(Armed(g), run, g, false, duty);
    }
  }

  // ---------------------------------------------------------------- a frozen loop is expired

  function MonitorSteps(run: seq<Step>): nat {
    if run == [] then 0 else (if run[0].MonitorStep? then 1 else 0) + MonitorSteps(run[1..])
  }

  /** Where the poll is, m accesses after it began with the loop frozen, armed and late by more than
      the timeout t; from the fifth on the handler has been run, once. */
  ghost predicate PollOfFrozen(s: State, m: nat, t: nat, fed: int, expired: nat, nowFirst: bool) {
    && s.lastFeed == fed && s.now - fed > t > 0 && s.timeout == t && s.loop == Idle
    && (m < 5 ==> s.armed && s.expiries == expired)
    && (m >= 5 ==> !s.armed && s.expiries == expired + 1 && (s.monitor == Sleeping || s.monitor == TimeoutLoaded(t)))
    && match m
       case 0 => s.monitor == Sleeping
       case 1 => s.monitor == TimeoutLoaded(t)
       case 2 => s.monitor == ArmedSeen(t)
       case 3 => s.monitor.First? && s.monitor.timeout == t
                 && (if nowFirst then s.monitor.value - fed > t else s.monitor.value == fed)
       case 4 => s.monitor == Expired
       case _ => true
  }

  lemma {:induction false} FrozenRun(s: State, run: seq<Step>, m: nat, t: nat, fed: int, expired: nat, nowFirst: bool)
    requires PollOfFrozen(s, m, t, fed, expired, nowFirst)
    requires forall i :: 0 <= i < |run| ==> run[i].Tick? || run[i].MonitorStep?
    ensures PollOfFrozen(Exec(s, run, nowFirst), m + MonitorSteps(run), t, fed, expired, nowFirst)
    decreases |run|
  {
    if run != [] {
      FrozenRun(Do(s, run[0], nowFirst), run[1..], if run[0].MonitorStep? then m + 1 else m, t, fed, expired, nowFirst);
    }
  }

  /** A loop that freezes while armed is expired by the first poll begun after the timeout: five
      accesses of the monitor later the handler has been run exactly once and the watchdog is
      disarmed, and it stays so; whatever the order of the two reads. */
  lemma FrozenLoopIsExpired(s: State, run: seq<Step>, nowFirst: bool)
    requires s.armed && s.loop == Idle && s.monitor == Sleeping && s.now - s.lastFeed > s.timeout > 0
    requires forall i :: 0 <= i < |run| ==> run[i].Tick? || run[i].MonitorStep?
    ensures var s' := Exec(s, run, nowFirst);
            if MonitorSteps(run) >= 5 then s'.expiries == s.expiries + 1 && !s'.armed
            else s'.expiries == s.expiries && s'.armed
  {
    FrozenRun(s, run, 0, s.timeout, s.lastFeed, s.expiries, nowFirst);
  }

  // ---------------------------------------------------------------- the code

  /** The shared variables, and the two threads' programs cut into their single accesses. Which operand
      of its comparison the monitor reads first is up to the compiler. */
  class LoopWatchdog {
    const nowFirst: bool
    var now: int
    var armed: bool
    var lastFeedMs: int
    var timeoutMs: nat
    var monitor: Monitor
    var loop: Loop
    ghost var enables: nat
    ghost var expiries: nat

    ghost function View(): State
      reads this
    {
      State(now, armed, lastFeedMs, timeoutMs, monitor, loop, enables, expiries)
    }

    constructor (now: int, timeoutMs: nat, nowFirst: bool)
      ensures View() == Start(now, 0, timeoutMs) && this.nowFirst == nowFirst
    {
      this.nowFirst := nowFirst;
      this.now, armed, lastFeedMs, this.timeoutMs := now, false, 0, timeoutMs;
      monitor, loop, enables, expiries := Sleeping, Idle, 0, 0;
    }

    /** One access of monitor(); the result says that it runs the expiry handler. */
    method MonitorAccess() returns (fires: bool)
      modifies this
      ensures View() == Do(old(View()), MonitorStep, nowFirst)
      ensures fires <==> expiries == old(expiries) + 1
    {
      fires := false;
      match monitor {
        case Sleeping =>
          monitor := TimeoutLoaded(timeoutMs);
        case TimeoutLoaded(timeout) =>
          monitor := if !armed || timeout == 0 then Sleeping else ArmedSeen(timeout);
        case ArmedSeen(timeout) =>
          monitor := First(timeout, if nowFirst then now else lastFeedMs);
        case First(timeout, read) =>
          var elapsed := if nowFirst then read - lastFeedMs else now - read;
          monitor := if elapsed <= timeout then Sleeping else Expired;
        case Expired =>
          fires := armed;
          armed := false;
          if fires {
            expiries := expiries + 1;
          }
          monitor := Sleeping;
      }
    }

    /** feedLoopWDT, up to its store. */
    method BeginFeed()
      modifies this`loop
      ensures View() == Do(old(View()), FeedRead, nowFirst)
    {
      loop := Feeding(now);
    }

    /** enableLoopWDT, up to its first store. */
    method BeginEnable()
      modifies this`loop
      ensures View() == Do(old(View()), EnableRead, nowFirst)
    {
      loop := Enabling(now);
    }

    /** The next store of the call that has begun. */
    method Store()
      modifies this
      ensures View() == Do(old(View()), LoopStore, nowFirst)
    {
      match loop {
        case Idle =>
        case Feeding(read) =>
          lastFeedMs := read;
          loop := Idle;
        case Enabling(read) =>
          lastFeedMs := read;
          loop := Arming;
        case Arming =>
          armed := true;
          enables := enables + 1;
          loop := Idle;
      }
    }

    method DisableLoopWDT()
      modifies this`armed
      ensures View() == Do(old(View()), Disable, nowFirst)
    {
      armed := false;
    }
  }
}
