/** Every line of a script in the injector, over whole runs: how often it is raised, and when. */
module Lines {
  import opened Common
  import opened Injector
  import opened Script
  import opened Timeline

  // ---------------------------------------------------------------- order without punctuality

  /** The pending events are in order, and each has a number already given out. */
  ghost predicate Ordered(st: State) {
    Sorted(st.events) && forall e :: e in st.events ==> e.id < st.nextId
  }

  lemma EnqueueKeepsOrdered(st: State, r: Request)
    requires Ordered(st)
    ensures Ordered(Enqueue(st, r))
  {
    var e := Entry(r.key, st.nextId, r.event, true);
    InsertKeepsSorted(st.events, e);
    InsertMembers(st.events, e);
  }

  lemma {:induction false} InsertAllKeepsOrdered(st: State, rs: seq<Request>)
    requires Ordered(st)
    ensures Ordered(st.(events := InsertAll(st.events, rs, st.nextId), nextId := st.nextId + |rs|))
    decreases |rs|
  {
    hide Sorted;
    if rs != [] {
      EnqueueKeepsOrdered(st, rs[0]);
      InsertAllKeepsOrdered(Enqueue(st, rs[0]), rs[1..]);
    }
  }

  /** Whatever is asked for, also for times long past. */
  lemma RaiseDueKeepsOrdered(st: State, raise: Behaviour)
    requires Ordered(st)
    ensures Ordered(RaiseDue(st, raise))
  {
    EraseFrontIsSuffix(st.events);
    var st1 := st.(events := EraseFront(st.events));
    assert Ordered(st1);
    hide Sorted, EraseFront, Collect, SortRequests, InsertAll, Kill;
    if st1.events != [] && st1.events[0].key <= st.clock {
      var g := GroupLen(st1.events, st1.events[0].key);
      KillKeepsOrder(st1.events, g, st.nextId);
      var rs := SortRequests(Collect(st1.events[..g], raise));
      InsertAllKeepsOrdered(Emptied(st1), rs);
    }
  }

  /** The clock moves by at most 10 us, and not at all while anything is due. */
  lemma ClockAfterPass(st: State, raise: Behaviour)
    requires Ordered(st)
    ensures var st' := Iterate(st, raise);
            && Ordered(st') && st.clock <= st'.clock <= st.clock + 10
            && forall e :: e in st'.events && e.live && e.key <= st.clock ==> st'.clock == st.clock
  {
    RaiseDueKeepsOrdered(st, raise);
    GroupIsPending(st);
    var st1 := RaiseDue(st, raise);
    hide RaiseDue, Sorted;
    FirstLiveIsLeast(st1.events);
  }

  /** When the event was raised. */
  function TimesOf(log: seq<Raised>, me: nat): seq<nat> {
    if log == [] then [] else (if log[0].event == me then [log[0].at] else []) + TimesOf(log[1..], me)
  }

  lemma {:induction false} TimesConcat(xs: seq<Raised>, ys: seq<Raised>, me: nat)
    ensures TimesOf(xs + ys, me) == TimesOf(xs, me) + TimesOf(ys, me)
  {
    if xs == [] {
      assert xs + ys == ys;
    } else {
      assert (xs + ys)[1..] == xs[1..] + ys;
      TimesConcat(xs[1..], ys, me);
      Assoc(if xs[0].event == me then [xs[0].at] else [], TimesOf(xs[1..], me), TimesOf(ys, me));
    }
  }

  lemma {:induction false} TimesOfGroup(group: seq<Entry>, now: nat, me: nat)
    requires |Mine(group, me)| <= 1
    ensures TimesOf(LogOf(group, now), me) == if Mine(group, me) == [] then [] else [now]
  {
    if group != [] {
      TimesOfGroup(group[1..], now, me);
      TimesConcat(if group[0].live then [Raised(group[0].key, group[0].id, group[0].event, now)] else [],
                  LogOf(group[1..], now), me);
    }
  }

  lemma LogAfterPass(st: State, raise: Behaviour)
    ensures Iterate(st, raise).log == st.log + LogOf(NextGroup(st), st.clock)
  {
    hide EraseFront, Collect, SortRequests, InsertAll, Kill;
    assert st.log + [] == st.log;
  }

  lemma TimesAfterPass(st: State, raise: Behaviour, me: nat)
    requires |Mine(st.events, me)| <= 1
    ensures TimesOf(Iterate(st, raise).log, me)
            == TimesOf(st.log, me) + if Mine(NextGroup(st), me) == [] then [] else [st.clock]
  {
    hide *;
    LogAfterPass(st, raise);
    MineOfNextGroup(st, me);
    TimesConcat(st.log, LogOf(NextGroup(st), st.clock), me);
    TimesOfGroup(NextGroup(st), st.clock, me);
  }

  // ---------------------------------------------------------------- what a group asks for

  /** The event that is line k. */
  function LineEvent(s: Program, k: nat): nat {
    s.base + 2 * k
  }

  /** A line is raised again just when it is an `at` with a time that is not 0. */
  function AsksAgain(c: Command): seq<nat> {
    if c.At? && c.t > 0 then [c.t] else []
  }

  /** Other events, and those that lines have built, leave the lines alone. */
  ghost predicate Aloof(s: Program) {
    forall pr, now, e :: s.others(pr, now, e).chain.Some? ==> !IsLine(s, s.others(pr, now, e).chain.value.event)
  }

  /** What an event of the script asks for on line k's behalf: again for itself, or as the event that reads
      the line. */
  lemma RaiseAsks(s: Program, pr: Progress, now: nat, e: Entry, k: nat, raise: Behaviour)
    requires Aloof(s) && e.live && k < |s.lines| && raise(e) == RaiseOne(s, pr, now, e)
    ensures var me, pr' := LineEvent(s, k), AfterOne(s, pr, now, e);
            var asks := MyRequests(Requests(e, raise), me);
            && pr'.raised(me) == pr.raised(me) + (if e.event == me then 1 else 0)
            && (pr.read > k ==>
                  pr'.read > k && asks == if e.event == me then AsksAgain(LineLeft(s, pr, me)) else [])
            && (pr.read <= k && e.event != me ==>
                  if pr'.read > k && s.lines[k] != Registered(true) then |asks| == 1 && asks[0] >= now else asks == [])
  {
    var me, o := LineEvent(s, k), raise(e);
    var _ := s.others(pr, now, e);
    assert IsLine(s, me) && (me - s.base) / 2 == k;
    ChainsLine(s, pr, now, e, k);
    hide Aloof, RaiseOne, IsBuilt, NextLine, Reads, Left;
    AskedOf(e, raise, me);
  }

  /** One event's requests for the event `me`. */
  lemma AskedOf(e: Entry, raise: Behaviour, me: nat)
    requires e.live
    ensures var o := raise(e);
            MyRequests(Requests(e, raise), me)
            == (if o.chain.Some? && o.chain.value.event == me then [o.chain.value.key] else [])
               + (if e.event == me && o.sched != 0 then [o.sched] else [])
  {
    var o := raise(e);
    var chained := if o.chain.Some? then [o.chain.value] else [];
    var again := if o.sched != 0 then [Request(o.sched, e.event)] else [];
    MyRequestsConcat(chained, again, me);
  }

  /** An event chains line k just when it reads it, for now or later; a line asks for itself as `at` says. */
  lemma ChainsLine(s: Program, pr: Progress, now: nat, e: Entry, k: nat)
    requires Aloof(s) && k < |s.lines|
    ensures var me, o, pr' := LineEvent(s, k), RaiseOne(s, pr, now, e), AfterOne(s, pr, now, e);
            && (o.chain.Some? && o.chain.value.event == me <==>
                  pr.read == k && pr'.read > k && s.lines[k] != Registered(true))
            && (o.chain.Some? && o.chain.value.event == me ==> o.chain.value.key >= now)
            && (e.event == me ==> (if o.sched == 0 then [] else [o.sched]) == AsksAgain(LineLeft(s, pr, me)))
  {
    var _ := s.others(pr, now, e);
    var me := LineEvent(s, k);
    assert IsLine(s, me);
    hide Left;
  }

  ghost predicate Distinct(group: seq<Entry>) {
    forall i, j :: 0 <= i < j < |group| ==> group[i] != group[j]
  }

  lemma {:induction false} CollectSame(group: seq<Entry>, raise: Behaviour, raise': Behaviour)
    requires forall e :: e in group ==> raise(e) == raise'(e)
    ensures Collect(group, raise) == Collect(group, raise')
  {
    if group != [] { CollectSame(group[1..], raise, raise'); }
  }

  /** What the first of a group asks for, and the rest of it afterwards. */
  lemma CollectInGroup(s: Program, pr: Progress, group: seq<Entry>, now: nat)
    requires group != [] && Distinct(group)
    ensures var pr1 := if group[0].live then AfterOne(s, pr, now, group[0]) else pr;
            Collect(group, (e: Entry) => InGroup(s, pr, group, now, e))
            == Requests(group[0], (e: Entry) => InGroup(s, pr, group, now, e))
               + Collect(group[1..], (e: Entry) => InGroup(s, pr1, group[1..], now, e))
    ensures Distinct(group[1..]) && InGroup(s, pr, group, now, group[0]) == RaiseOne(s, pr, now, group[0])
  {
    var pr1 := if group[0].live then AfterOne(s, pr, now, group[0]) else pr;
    var raise, raise' := (e: Entry) => InGroup(s, pr, group, now, e), (e: Entry) => InGroup(s, pr1, group[1..], now, e);
    hide RaiseOne, AfterOne, Requests;
    forall e | e in group[1..] ensures raise(e) == raise'(e) {
      var i :| 0 <= i < |group[1..]| && group[1..][i] == e;
      assert group[0] != group[i + 1];
    }
    CollectSame(group[1..], raise, raise');
  }

  /** What a whole group does for line k: it is raised as often as it is in the group, and one event that is
      raised reads it. */
  lemma {:induction false} GroupAsks(s: Program, pr: Progress, group: seq<Entry>, now: nat, k: nat)
    requires Aloof(s) && k < |s.lines| && Distinct(group) && |Mine(group, LineEvent(s, k))| <= 1
    ensures var me, pr' := LineEvent(s, k), AfterGroup(s, pr, group, now);
            var asks := MyRequests(Collect(group, (e: Entry) => InGroup(s, pr, group, now, e)), me);
            && pr'.raised(me) == pr.raised(me) + |Mine(group, me)|
            && (pr.read > k ==>
                  pr'.read > k && asks == if Mine(group, me) == [] then [] else AsksAgain(LineLeft(s, pr, me)))
            && (pr.read <= k && Mine(group, me) == [] ==>
                  if pr'.read > k && s.lines[k] != Registered(true) then |asks| == 1 && asks[0] >= now else asks == [])
    decreases |group|
  {
    if group != [] {
      var me, e := LineEvent(s, k), group[0];
      var pr1 := if e.live then AfterOne(s, pr, now, e) else pr;
      var raise := (e: Entry) => InGroup(s, pr, group, now, e);
      LineIs(s, pr, pr1, k);
      CollectInGroup(s, pr, group, now);
      hide AfterOne, RaiseOne, InGroup, Collect, Requests, Aloof, LineLeft, IsLine, Distinct, AsksAgain, MyRequests;
      NothingFromTheDead(e, raise);
      NothingAsked(me);
      GroupAsks(s, pr1, group[1..], now, k);
      if e.live { RaiseAsks(s, pr, now, e, k, raise); }
      MyRequestsConcat(Requests(e, raise), Collect(group[1..], (e: Entry) => InGroup(s, pr1, group[1..], now, e)), me);
    }
  }

  lemma NothingAsked(me: nat)
    ensures MyRequests([], me) == []
  {
  }

  /** What is left of a line depends on how often it has been raised, and on nothing else. */
  lemma LineIs(s: Program, pr: Progress, pr': Progress, k: nat)
    requires k < |s.lines|
    ensures var me := LineEvent(s, k);
            IsLine(s, me) && LineLeft(s, pr, me) == Left(s.lines[k], pr.raised(me))
            && (pr.raised(me) == pr'.raised(me) ==> LineLeft(s, pr, me) == LineLeft(s, pr', me))
  {
    assert (LineEvent(s, k) - s.base) / 2 == k;
  }

  // ---------------------------------------------------------------- whole runs

  /** The injector with a script in it, and how far the script has come. */
  datatype Scene = Scene(inj: State, pr: Progress)

  /** The injector makes a pass, or other threads insert an event or ask for time to pass. */
  datatype Step = Raising | Elsewhere(a: Action)

  function DoStep(s: Program, w: Scene, step: Step): Scene {
    match step
    case Elsewhere(a) => w.(inj := Do(w.inj, a))
    case Raising =>
      var group, now := NextGroup(w.inj), w.inj.clock;
      Scene(Iterate(w.inj, (e: Entry) => InGroup(s, w.pr, group, now, e)), AfterGroup(s, w.pr, group, now))
  }

  function Play(s: Program, w: Scene, run: seq<Step>): Scene
    decreases |run|
  {
    if run == [] then w else Play(s, DoStep(s, w, run[0]), run[1..])
  }

  /** Other threads may insert events of their own for any time, also a past one; the injector is not
      stopped. */
  predicate StepAllowed(s: Program, step: Step) {
    match step
    case Raising => true
    case Elsewhere(AddEvent(r)) => !IsLine(s, r.event)
    case Elsewhere(Delay(_)) => true
    case Elsewhere(_) => false
  }

  ghost predicate RunAllowed(s: Program, run: seq<Step>) {
    forall i :: 0 <= i < |run| ==> StepAllowed(s, run[i])
  }

  /** The first line has been read and is to be raised at once. */
  ghost predicate Opens(s: Program, w: Scene) {
    && Ordered(w.inj) && s.lines != [] && w.pr.read == 1
    && forall k :: 0 <= k < |s.lines| ==>
         var me, first := LineEvent(s, k), k == 0 && s.lines[0] != Registered(true);
         && w.pr.raised(me) == 0 && TimesOf(w.inj.log, me) == []
         && Mine(w.inj.events, me) == if first then [w.inj.clock] else []
  }

  /** A line asked for at `last`, for `key`, is not 10 us late, and the clock stands if it was due then. */
  ghost predicate Awaited(key: nat, last: nat, clock: nat) {
    if key > last then clock <= key + 9 else clock == last
  }

  /** A raise for an `at` at time `at` is followed by one at `next`. */
  predicate Follows(d: Command, at: nat, next: nat) {
    d.At? && d.t > 0 && if d.t > at then d.t <= next <= d.t + 9 else next == at
  }

  /** The raises of a line c are as far apart as it says. */
  ghost predicate Spaced(c: Command, times: seq<nat>) {
    forall i :: 0 <= i < |times| - 1 ==> Follows(Left(c, i), times[i], times[i + 1])
  }

  /** Where a line c stands that has been raised at these times and is pending at the keys `mine`. */
  ghost predicate Stands(c: Command, times: seq<nat>, mine: seq<nat>, clock: nat) {
    && |mine| <= 1 && Spaced(c, times)
    && if times == [] then mine != [] ==> clock <= mine[0] + 9
       else
         var last := |times| - 1;
         && times[last] <= clock && mine == AsksAgain(Left(c, last))
         && (mine != [] ==> Awaited(mine[0], times[last], clock))
  }

  /** What every step keeps for line k. */
  ghost predicate InStep(s: Program, w: Scene, k: nat)
    requires k < |s.lines|
  {
    var me := LineEvent(s, k);
    var times, mine := TimesOf(w.inj.log, me), Mine(w.inj.events, me);
    && w.pr.raised(me) == |times| && Stands(s.lines[k], times, mine, w.inj.clock)
    && (w.pr.read <= k ==> mine == [] && times == [])
  }

  lemma StandsLater(c: Command, times: seq<nat>, mine: seq<nat>, clock: nat, clock': nat)
    requires Stands(c, times, mine, clock) && clock <= clock' <= clock + 10
    requires mine != [] && mine[0] <= clock ==> clock' == clock
    ensures Stands(c, times, mine, clock')
  {
  }

  lemma StandsRead(c: Command, mine: seq<nat>, clock: nat, clock': nat)
    requires |mine| <= 1 && clock <= clock' <= clock + 10
    requires mine != [] ==> clock <= mine[0] && (mine[0] <= clock ==> clock' == clock)
    ensures Stands(c, [], mine, clock')
  {
  }

  /** A raise at `clock` keeps the distance to the one before it, and sets the time for the next. */
  lemma StandsRaised(c: Command, times: seq<nat>, key: nat, clock: nat, clock': nat)
    requires Stands(c, times, [key], clock) && key <= clock <= clock' <= clock + 10
    requires var mine' := AsksAgain(Left(c, |times|)); mine' != [] && mine'[0] <= clock ==> clock' == clock
    ensures Stands(c, times + [clock], AsksAgain(Left(c, |times|)), clock')
  {
    var times', n := times + [clock], |times|;
    AsksAtMostOnce(Left(c, n));
    forall i | 0 <= i < n
      ensures Follows(Left(c, i), times'[i], times'[i + 1])
    {
      assert times'[i] == times[i];
      if i == n - 1 {
        assert AsksAgain(Left(c, i)) == [key];
      } else {
        assert times'[i + 1] == times[i + 1];
      }
    }
  }

  /** A pass, in which the line is raised, or read, or neither. */
  lemma StandsAfterPass(c: Command, isRead: bool, times: seq<nat>, mine: seq<nat>, raised: seq<nat>, mine': seq<nat>,
                        clock: nat, clock': nat)
    requires Stands(c, times, mine, clock) && clock <= clock' <= clock + 10
    requires mine' != [] && mine'[0] <= clock ==> clock' == clock
    requires raised == [] || (raised == mine && mine[0] <= clock)
    requires isRead ==> mine' == if raised == [] then mine else AsksAgain(Left(c, |times|))
    requires !isRead ==> times == mine == [] && |mine'| <= 1 && (mine' != [] ==> mine'[0] >= clock)
    ensures Stands(c, times + (if raised == [] then [] else [clock]), mine', clock')
  {
    StandsOnce(c, times, mine, clock);
    assert times + [] == times;
    hide Stands, Left;
    if raised != [] {
      assert mine == [mine[0]];
      StandsRaised(c, times, mine[0], clock, clock');
    } else if isRead {
      StandsLater(c, times, mine, clock, clock');
    } else {
      StandsRead(c, mine', clock, clock');
    }
  }

  /** What that means for raise j. */
  lemma StandsSays(c: Command, times: seq<nat>, mine: seq<nat>, clock: nat, j: nat)
    requires Stands(c, times, mine, clock) && j < |times|
    ensures match Left(c, j)
            case At(t, _) =>
              && (t > times[j] ==> (if |times| > j + 1 then t <= times[j + 1] <= t + 9 else clock <= t + 9))
              && (0 < t <= times[j] ==> if |times| > j + 1 then times[j + 1] == times[j] else clock == times[j])
              && (t == 0 ==> |times| == j + 1)
            case _ => |times| == j + 1
  {
    var d := Left(c, j);
    hide Left;
    if j == |times| - 1 {
      assert mine == AsksAgain(d);
    } else {
      assert Follows(d, times[j], times[j + 1]);
    }
  }

  /** A line that is raised in a pass is due. */
  lemma RaisedIsDue(st: State, me: nat)
    requires Mine(NextGroup(st), me) != []
    ensures Mine(NextGroup(st), me)[0] <= st.clock
  {
    var key := Mine(NextGroup(st), me)[0];
    MineIsPending(NextGroup(st), me, key);
    GroupIsPending(st);
  }

  /** The injector's part of a pass, and how far the script has come, for line k. */
  lemma PassFacts(s: Program, w: Scene, k: nat)
    requires Aloof(s) && k < |s.lines| && Ordered(w.inj) && |Mine(w.inj.events, LineEvent(s, k))| <= 1
    requires w.pr.read <= k ==> Mine(w.inj.events, LineEvent(s, k)) == []
    ensures var me, w' := LineEvent(s, k), DoStep(s, w, Raising);
            var raised, mine, mine' := Mine(NextGroup(w.inj), me), Mine(w.inj.events, me), Mine(w'.inj.events, me);
            && Ordered(w'.inj) && w.inj.clock <= w'.inj.clock <= w.inj.clock + 10
            && (mine' != [] && mine'[0] <= w.inj.clock ==> w'.inj.clock == w.inj.clock)
            && (raised == [] || (raised == mine && mine[0] <= w.inj.clock))
            && w'.pr.raised(me) == w.pr.raised(me) + |raised|
            && TimesOf(w'.inj.log, me) == TimesOf(w.inj.log, me) + (if raised == [] then [] else [w.inj.clock])
            && (w.pr.read > k ==>
                  && w'.pr.read > k
                  && mine' == if raised == [] then mine else AsksAgain(Left(s.lines[k], w.pr.raised(me))))
            && (w.pr.read <= k ==>
                  (w'.pr.read <= k ==> mine' == []) && |mine'| <= 1 && (mine' != [] ==> mine'[0] >= w.inj.clock))
  {
    var me, group, now := LineEvent(s, k), NextGroup(w.inj), w.inj.clock;
    var raise := (e: Entry) => InGroup(s, w.pr, group, now, e);
    hide *;
    GroupIsDistinct(w.inj);
    MineOfNextGroup(w.inj, me);
    if Mine(group, me) != [] { RaisedIsDue(w.inj, me); }
    StepIs(s, w);
    ClockAfterPass(w.inj, raise);
    GroupAsks(s, w.pr, group, now, k);
    LineIs(s, w.pr, w.pr, k);
    AsksAtMostOnce(LineLeft(s, w.pr, me));
    MineAfterAnyPass(w.inj, raise, me);
    TimesAfterPass(w.inj, raise, me);
    var mine' := Mine(Iterate(w.inj, raise).events, me);
    if mine' != [] { PendingEntry(Iterate(w.inj, raise).events, me); }
  }

  lemma PendingEntry(es: seq<Entry>, me: nat)
    requires Mine(es, me) != []
    ensures exists e :: e in es && e.live && e.event == me && e.key == Mine(es, me)[0]
  {
    hide Mine;
    MineIsPending(es, me, Mine(es, me)[0]);
  }

  lemma AsksAtMostOnce(c: Command)
    ensures |AsksAgain(c)| <= 1
  {
  }

  lemma StepIs(s: Program, w: Scene)
    ensures var group, now := NextGroup(w.inj), w.inj.clock;
            DoStep(s, w, Raising)
            == Scene(Iterate(w.inj, (e: Entry) => InGroup(s, w.pr, group, now, e)), AfterGroup(s, w.pr, group, now))
  {
  }

  lemma GroupIsDistinct(st: State)
    requires Ordered(st)
    ensures Distinct(NextGroup(st))
  {
    EraseFrontIsSuffix(st.events);
    var es := EraseFront(st.events);
    assert forall i, j :: 0 <= i < j < |es| ==> es[i] != es[j];
  }

  lemma PassKeepsInStep(s: Program, w: Scene, k: nat)
    requires Aloof(s) && k < |s.lines| && Ordered(w.inj) && InStep(s, w, k)
    ensures Ordered(DoStep(s, w, Raising).inj) && InStep(s, DoStep(s, w, Raising), k)
  {
    var me, c, w' := LineEvent(s, k), s.lines[k], DoStep(s, w, Raising);
    var times, mine, mine' := TimesOf(w.inj.log, me), Mine(w.inj.events, me), Mine(w'.inj.events, me);
    var clock, clock' := w.inj.clock, w'.inj.clock;
    hide *;
    InStepIs(s, w, k);
    StandsOnce(c, times, mine, clock);
    InStepIs(s, w', k);
    PassFacts(s, w, k);
    StandsAfterPass(c, w.pr.read > k, times, mine, Mine(NextGroup(w.inj), me), mine', clock, clock');
  }

  lemma InStepIs(s: Program, w: Scene, k: nat)
    requires k < |s.lines|
    ensures var me := LineEvent(s, k);
            InStep(s, w, k)
            <==> (&& w.pr.raised(me) == |TimesOf(w.inj.log, me)|
                  && Stands(s.lines[k], TimesOf(w.inj.log, me), Mine(w.inj.events, me), w.inj.clock)
                  && (w.pr.read <= k ==> Mine(w.inj.events, me) == [] && TimesOf(w.inj.log, me) == []))
  {
  }

  lemma StandsOnce(c: Command, times: seq<nat>, mine: seq<nat>, clock: nat)
    requires Stands(c, times, mine, clock)
    ensures |mine| <= 1
  {
  }

  lemma StepKeepsInStep(s: Program, w: Scene, step: Step, k: nat)
    requires Aloof(s) && k < |s.lines| && Ordered(w.inj) && InStep(s, w, k) && StepAllowed(s, step)
    ensures Ordered(DoStep(s, w, step).inj) && InStep(s, DoStep(s, w, step), k)
  {
    match step {
      case Raising => PassKeepsInStep(s, w, k);
      case Elsewhere(AddEvent(r)) =>
        EnqueueKeepsOrdered(w.inj, r);
        LineIs(s, w.pr, w.pr, k);
        MineInsert(w.inj.events, Entry(r.key, w.inj.nextId, r.event, true), LineEvent(s, k));
      case Elsewhere(Delay(_)) =>
    }
  }

  lemma {:induction false} RunKeepsInStep(s: Program, w: Scene, run: seq<Step>, k: nat)
    requires Aloof(s) && k < |s.lines| && Ordered(w.inj) && InStep(s, w, k) && RunAllowed(s, run)
    ensures InStep(s, Play(s, w, run), k)
    decreases |run|
  {
    hide Aloof, Ordered, InStep, DoStep, StepAllowed;
    if run != [] {
      StepKeepsInStep(s, w, run[0], k);
      RunKeepsInStep(s, DoStep(s, w, run[0]), run[1..], k);
    }
  }

  /** In every run, whatever other events do, even for times long past: raise j of a line acts on what j
      raises leave of it. If that is an `at` for a time still ahead, the next raise comes within 9 us of that
      time, and has come when the clock is 10 us past it; if the time is not ahead, it comes before the clock
      moves on; and there is none after anything else. */
  lemma LineIsRaisedInTime(s: Program, w: Scene, run: seq<Step>, k: nat, j: nat)
    requires Aloof(s) && Opens(s, w) && RunAllowed(s, run) && k < |s.lines|
    requires j < |TimesOf(Play(s, w, run).inj.log, LineEvent(s, k))|
    ensures var w', c := Play(s, w, run), Left(s.lines[k], j);
            var times, clock := TimesOf(w'.inj.log, LineEvent(s, k)), w'.inj.clock;
            && w'.pr.raised(LineEvent(s, k)) == |times|
            && match c
               case At(t, _) =>
                 && (t > times[j] ==> (if |times| > j + 1 then t <= times[j + 1] <= t + 9 else clock <= t + 9))
                 && (0 < t <= times[j] ==> if |times| > j + 1 then times[j + 1] == times[j] else clock == times[j])
                 && (t == 0 ==> |times| == j + 1)
               case _ => |times| == j + 1
  {
    OpensInStep(s, w, k);
    RunKeepsInStep(s, w, run, k);
    var w', me := Play(s, w, run), LineEvent(s, k);
    hide *;
    InStepIs(s, w', k);
    StandsSays(s.lines[k], TimesOf(w'.inj.log, me), Mine(w'.inj.events, me), w'.inj.clock, j);
  }

  lemma OpensInStep(s: Program, w: Scene, k: nat)
    requires Opens(s, w) && k < |s.lines|
    ensures Ordered(w.inj) && InStep(s, w, k)
  {
  }

  /** So what stands behind an `at` that is reached before its time is acted on in time. */
  lemma AtActsInTime(s: Program, w: Scene, run: seq<Step>, k: nat, t: nat, rest: Command)
    requires Aloof(s) && Opens(s, w) && RunAllowed(s, run) && k < |s.lines| && s.lines[k] == At(t, rest)
    ensures Left(s.lines[k], 0) == At(t, rest) && Left(s.lines[k], 1) == rest
    ensures var w' := Play(s, w, run);
            var times := TimesOf(w'.inj.log, LineEvent(s, k));
            times != [] && times[0] < t ==>
              (|times| > 1 ==> t <= times[1] <= t + 9) && (w'.inj.clock >= t + 10 ==> |times| > 1)
  {
    assert Left(s.lines[k], 0) == At(t, rest);
    hide Play, Aloof, Opens, RunAllowed, TimesOf;
    if TimesOf(Play(s, w, run).inj.log, LineEvent(s, k)) != [] {
      LineIsRaisedInTime(s, w, run, k, 0);
    }
  }
}
