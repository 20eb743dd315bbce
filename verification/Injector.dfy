/** The event injector that owns the simulated clock: one pass of its loop is one atomic step. */
module Injector {
  import opened Common

  /** An element of the multimap of events. `id` numbers the insertions; `event` names the event
      object; an entry that is not live holds a null pointer, because it has been raised. */
  datatype Entry = Entry(key: nat, id: nat, event: nat, live: bool)

  /** What raising an event asks for: a key at which to raise it again (0: never), and an event to
      chain, with its key. */
  datatype Outcome = Outcome(sched: nat, chain: Option<Request>)

  datatype Request = Request(key: nat, event: nat)

  /** An event raised: at what key it was scheduled and when it happened. */
  datatype Raised = Raised(key: nat, id: nat, event: nat, at: nat)

  datatype State = State(events: seq<Entry>, nextId: nat, clock: nat, timeForward: nat, maxJitter: int,
                         log: seq<Raised>)

  type Behaviour = Entry -> Outcome

  // ---------------------------------------------------------------- one pass of the loop

  function EraseFront(es: seq<Entry>): seq<Entry> {
    if es != [] && !es[0].live then EraseFront(es[1..]) else es
  }

  /** Number of leading entries with this key. */
  function GroupLen(es: seq<Entry>, key: nat): (g: nat)
    ensures g <= |es|
    ensures forall i :: 0 <= i < g ==> es[i].key == key
  {
    if es != [] && es[0].key == key then 1 + GroupLen(es[1..], key) else 0
  }

  /** What one entry adds to the events to insert: its chained event, then itself. */
  function Requests(e: Entry, raise: Behaviour): seq<Request> {
    if !e.live then []
    else
      var o := raise(e);
      (if o.chain.Some? then [o.chain.value] else []) + (if o.sched != 0 then [Request(o.sched, e.event)] else [])
  }

  function Collect(group: seq<Entry>, raise: Behaviour): seq<Request> {
    if group == [] then [] else Requests(group[0], raise) + Collect(group[1..], raise)
  }

  /** multimap::insert on the events to insert: behind those with an equal key. */
  function InsertRequest(rs: seq<Request>, r: Request): seq<Request> {
    if rs == [] || r.key < rs[0].key then [r] + rs else [rs[0]] + InsertRequest(rs[1..], r)
  }

  function SortRequests(rs: seq<Request>): seq<Request> {
    if rs == [] then [] else InsertRequest(SortRequests(rs[..|rs| - 1]), rs[|rs| - 1])
  }

  /** Of what one event asks for, the chained event goes first at equal times. */
  lemma ChainedFirst(e: Entry, raise: Behaviour)
    requires e.live && raise(e).chain.Some? && raise(e).sched != 0
    ensures var chained, again := raise(e).chain.value, Request(raise(e).sched, e.event);
            SortRequests(Requests(e, raise)) == if again.key < chained.key then [again, chained] else [chained, again]
  {
    var chained, again := raise(e).chain.value, Request(raise(e).sched, e.event);
    assert Requests(e, raise) == [chained, again];
    assert [chained, again][..1] == [chained] && [chained][..0] == [] && [chained][1..] == [];
    assert SortRequests([chained]) == InsertRequest([], chained) == [chained];
    assert SortRequests([chained, again]) == InsertRequest([chained], again);
    assert InsertRequest([], again) == [again];
  }

  /** multimap::insert on the events: behind those with an equal key. */
  function Insert(es: seq<Entry>, e: Entry): seq<Entry> {
    if es == [] || e.key < es[0].key then [e] + es else [es[0]] + Insert(es[1..], e)
  }

  function InsertAll(es: seq<Entry>, rs: seq<Request>, id: nat): seq<Entry>
    decreases |rs|
  {
    if rs == [] then es else InsertAll(Insert(es, Entry(rs[0].key, id, rs[0].event, true)), rs[1..], id + 1)
  }

  function Kill(group: seq<Entry>): (es: seq<Entry>)
    ensures |es| == |group|
    ensures forall i :: 0 <= i < |es| ==> es[i] == group[i].(live := false)
  {
    if group == [] then [] else [group[0].(live := false)] + Kill(group[1..])
  }

  function LogOf(group: seq<Entry>, at: nat): seq<Raised> {
    if group == [] then []
    else (if group[0].live then [Raised(group[0].key, group[0].id, group[0].event, at)] else []) + LogOf(group[1..], at)
  }

  function JitterOf(group: seq<Entry>, at: nat, max: int): int {
    if group == [] then max
    else JitterOf(group[1..], at, if group[0].live && at - group[0].key > max then at - group[0].key else max)
  }

  /** Raises the whole first group. */
  function RaiseGroup(st: State, raise: Behaviour): State
    requires st.events != []
  {
    var g := GroupLen(st.events, st.events[0].key);
    var group := st.events[..g];
    var rs := SortRequests(Collect(group, raise));
    st.(events := InsertAll(Kill(group) + st.events[g..], rs, st.nextId),
        nextId := st.nextId + |rs|,
        maxJitter := JitterOf(group, st.clock, st.maxJitter),
        log := st.log + LogOf(group, st.clock))
  }

  /** Key of the first event not yet raised. */
  function FirstLive(es: seq<Entry>): Option<nat> {
    if es == [] then None else if es[0].live then Some(es[0].key) else FirstLive(es[1..])
  }

  /** Moves the clock by up to 10 us, not at all while an event is due. */
  function Advance(st: State): State {
    if st.timeForward == 0 then st
    else
      var first := FirstLive(st.events);
      var add := if first.Some? && first.value <= st.clock then 0 else 10;
      if add > st.timeForward then st.(clock := st.clock + st.timeForward, timeForward := 0)
      else st.(clock := st.clock + add, timeForward := st.timeForward - add)
  }

  function RaiseDue(st: State, raise: Behaviour): State {
    var st1 := st.(events := EraseFront(st.events));
    if st1.events != [] && st1.events[0].key <= st.clock then RaiseGroup(st1, raise) else st1
  }

  function Iterate(st: State, raise: Behaviour): State {
    Advance(RaiseDue(st, raise))
  }

  function Enqueue(st: State, r: Request): State {
    st.(events := Insert(st.events, Entry(r.key, st.nextId, r.event, true)), nextId := st.nextId + 1)
  }

  // ---------------------------------------------------------------- what every step keeps

  predicate Before(k1: nat, i1: nat, k2: nat, i2: nat) {
    k1 < k2 || (k1 == k2 && i1 < i2)
  }

  /** In key order, ties in order of insertion. */
  ghost predicate Sorted(es: seq<Entry>) {
    forall i, j :: 0 <= i < j < |es| ==> Before(es[i].key, es[i].id, es[j].key, es[j].id)
  }

  ghost predicate LogSorted(log: seq<Raised>) {
    forall i, j :: 0 <= i < j < |log| ==> Before(log[i].key, log[i].id, log[j].key, log[j].id)
  }

  /** Everything raised so far comes before everything pending. */
  ghost predicate LogBefore(log: seq<Raised>, es: seq<Entry>) {
    forall l, e :: l in log && e in es && e.live ==> Before(l.key, l.id, e.key, e.id)
  }

  /** No event pending is more than 9 us late. */
  ghost predicate NotLate(es: seq<Entry>, clock: nat) {
    forall e :: e in es && e.live ==> clock < e.key + 10
  }

  /** No event was raised early, none more than 9 us late. */
  ghost predicate OnTime(log: seq<Raised>, clock: nat) {
    forall l :: l in log ==> l.key <= l.at <= l.key + 9 && l.at <= clock
  }

  ghost predicate Numbered(es: seq<Entry>, log: seq<Raised>, nextId: nat) {
    && (forall e :: e in es ==> e.id < nextId)
    && (forall l :: l in log ==> l.id < nextId)
  }

  ghost predicate Inv(st: State) {
    && Sorted(st.events) && LogSorted(st.log) && LogBefore(st.log, st.events)
    && NotLate(st.events, st.clock) && OnTime(st.log, st.clock)
    && Numbered(st.events, st.log, st.nextId) && st.maxJitter <= 9
  }

  /** A raise asks only for keys that are not before the clock. */
  ghost predicate Punctual(o: Outcome, clock: nat) {
    (o.sched == 0 || o.sched >= clock) && (o.chain.Some? ==> o.chain.value.key >= clock)
  }

  ghost predicate AllNotBefore(rs: seq<Request>, clock: nat) {
    forall r :: r in rs ==> r.key >= clock
  }

  lemma {:induction false} InsertRequestMembers(rs: seq<Request>, r: Request)
    ensures forall x :: x in InsertRequest(rs, r) <==> x == r || x in rs
    ensures |InsertRequest(rs, r)| == |rs| + 1
  {
    if rs != [] && r.key >= rs[0].key {
      InsertRequestMembers(rs[1..], r);
      assert rs == [rs[0]] + rs[1..];
    }
  }

  lemma {:induction false} SortRequestsMembers(rs: seq<Request>)
    ensures forall x :: x in SortRequests(rs) <==> x in rs
    ensures |SortRequests(rs)| == |rs|
  {
    if rs != [] {
      var k := |rs| - 1;
      SortRequestsMembers(rs[..k]);
      InsertRequestMembers(SortRequests(rs[..k]), rs[k]);
      assert rs == rs[..k] + [rs[k]];
    }
  }

  lemma {:induction false} CollectNotBefore(group: seq<Entry>, raise: Behaviour, clock: nat)
    requires forall e :: e in group && e.live ==> Punctual(raise(e), clock)
    ensures AllNotBefore(Collect(group, raise), clock)
  {
    if group != [] {
      CollectNotBefore(group[1..], raise, clock);
      assert AllNotBefore(Requests(group[0], raise), clock);
    }
  }

  lemma {:induction false} InsertMembers(es: seq<Entry>, e: Entry)
    ensures forall x :: x in Insert(es, e) <==> x == e || x in es
  {
    if es != [] && e.key >= es[0].key {
      InsertMembers(es[1..], e);
      assert es == [es[0]] + es[1..];
    }
  }

  /** Inserting a newly numbered entry keeps the order. */
  lemma {:induction false} InsertKeepsSorted(es: seq<Entry>, e: Entry)
    requires Sorted(es) && forall x :: x in es ==> x.id < e.id
    ensures Sorted(Insert(es, e))
  {
    if es != [] && e.key >= es[0].key {
      var rest := Insert(es[1..], e);
      InsertKeepsSorted(es[1..], e);
      InsertMembers(es[1..], e);
      forall j | 0 <= j < |rest| ensures Before(es[0].key, es[0].id, rest[j].key, rest[j].id) {
        assert rest[j] in rest;
        if rest[j] != e {
          var i :| 0 <= i < |es[1..]| && es[1..][i] == rest[j];
          assert es[1 + i] == rest[j];
        }
      }
    }
  }

  /** One insertion of an entry that is not before the clock keeps the invariant. */
  lemma InsertKeepsInv(st: State, r: Request)
    requires Inv(st) && r.key >= st.clock
    ensures Inv(Enqueue(st, r))
  {
    var e := Entry(r.key, st.nextId, r.event, true);
    InsertKeepsSorted(st.events, e);
    InsertMembers(st.events, e);
  }

  lemma {:induction false} InsertAllKeepsInv(st: State, rs: seq<Request>)
    requires Inv(st) && AllNotBefore(rs, st.clock)
    ensures Inv(st.(events := InsertAll(st.events, rs, st.nextId), nextId := st.nextId + |rs|))
    decreases |rs|
  {
    if rs != [] {
      InsertKeepsInv(st, rs[0]);
      InsertAllKeepsInv(Enqueue(st, rs[0]), rs[1..]);
    }
  }

  lemma {:induction false} EraseFrontIsSuffix(es: seq<Entry>)
    ensures exists k :: 0 <= k <= |es| && EraseFront(es) == es[k..] && forall i :: 0 <= i < k ==> !es[i].live
    ensures EraseFront(es) != [] ==> EraseFront(es)[0].live
  {
    if es != [] && !es[0].live {
      EraseFrontIsSuffix(es[1..]);
      var k :| 0 <= k <= |es[1..]| && EraseFront(es[1..]) == es[1..][k..]
        && (forall i :: 0 <= i < k ==> !es[1..][i].live);
      assert es[1..][k..] == es[k + 1..];
      assert forall i :: 0 < i < k + 1 ==> es[i] == es[1..][i - 1];
    } else {
      assert es[0..] == es;
    }
  }

  lemma EraseKeepsInv(st: State)
    requires Inv(st)
    ensures Inv(st.(events := EraseFront(st.events)))
  {
    EraseFrontIsSuffix(st.events);
  }

  lemma {:induction false} LogOfMembers(group: seq<Entry>, at: nat)
    ensures forall l :: l in LogOf(group, at) ==>
              exists e :: e in group && e.live && l == Raised(e.key, e.id, e.event, at)
  {
    if group != [] {
      LogOfMembers(group[1..], at);
      assert forall e :: e in group[1..] ==> e in group;
      assert group[0] in group;
    }
  }

  lemma {:induction false} LogOfSorted(group: seq<Entry>, at: nat)
    requires Sorted(group)
    ensures LogSorted(LogOf(group, at))
  {
    if group != [] {
      var tail := LogOf(group[1..], at);
      LogOfSorted(group[1..], at);
      LogOfMembers(group[1..], at);
      forall j | 0 <= j < |tail| ensures Before(group[0].key, group[0].id, tail[j].key, tail[j].id) {
        assert tail[j] in tail;
        var e :| e in group[1..] && tail[j] == Raised(e.key, e.id, e.event, at);
        var i :| 0 <= i < |group[1..]| && group[1..][i] == e;
        assert group[1 + i] == e;
      }
    }
  }

  lemma {:induction false} JitterBound(group: seq<Entry>, at: nat, max: int)
    requires max <= 9 && forall e :: e in group && e.live ==> at < e.key + 10
    ensures JitterOf(group, at, max) <= 9
  {
    if group != [] {
      JitterBound(group[1..], at, if group[0].live && at - group[0].key > max then at - group[0].key else max);
    }
  }

  /** The first i entries have been raised; what they asked for is not inserted yet. */
  function Raising(st: State, i: nat): State
    requires i <= |st.events|
  {
    st.(events := Kill(st.events[..i]) + st.events[i..],
        maxJitter := JitterOf(st.events[..i], st.clock, st.maxJitter),
        log := st.log + LogOf(st.events[..i], st.clock))
  }

  function Emptied(st: State): State
    requires st.events != []
  {
    Raising(st, GroupLen(st.events, st.events[0].key))
  }

  lemma KillKeepsOrder(es: seq<Entry>, g: nat, nextId: nat)
    requires g <= |es| && Sorted(es) && forall e :: e in es ==> e.id < nextId
    ensures var es' := Kill(es[..g]) + es[g..];
            && Sorted(es')
            && forall e :: e in es' ==> e.id < nextId && (e.live ==> e in es[g..])
  {
    var es' := Kill(es[..g]) + es[g..];
    forall i | 0 <= i < |es|
      ensures es'[i].key == es[i].key && es'[i].id == es[i].id < nextId && (es'[i].live ==> es'[i] in es[g..])
    {
      assert es[i] in es;
      if i < g { assert es'[i] == Kill(es[..g])[i]; }
    }
  }

  /** The log of the first group continues the log, and stays before the rest. */
  lemma LogExtends(log: seq<Raised>, es: seq<Entry>, g: nat, at: nat)
    requires g <= |es| && Sorted(es) && LogSorted(log) && LogBefore(log, es)
    ensures LogSorted(log + LogOf(es[..g], at)) && LogBefore(log + LogOf(es[..g], at), es[g..])
  {
    var more := LogOf(es[..g], at);
    LogOfMembers(es[..g], at);
    LogOfSorted(es[..g], at);
    forall l | l in more
      ensures forall k :: k in log ==> Before(k.key, k.id, l.key, l.id)
      ensures forall x :: x in es[g..] ==> Before(l.key, l.id, x.key, x.id)
    {
      var e :| e in es[..g] && e.live && l == Raised(e.key, e.id, e.event, at);
      var i :| 0 <= i < g && es[..g][i] == e;
      assert es[i] == e && e in es;
      forall x | x in es[g..] ensures Before(l.key, l.id, x.key, x.id) {
        var j :| 0 <= j < |es[g..]| && es[g..][j] == x;
        assert es[g + j] == x;
      }
    }
    forall i, j | 0 <= i < |log| && 0 <= j < |more| ensures Before(log[i].key, log[i].id, more[j].key, more[j].id) {
      assert log[i] in log && more[j] in more;
    }
  }

  lemma LogOnTime(log: seq<Raised>, es: seq<Entry>, g: nat, clock: nat)
    requires g <= |es| && OnTime(log, clock) && NotLate(es, clock)
    requires forall i :: 0 <= i < g ==> es[i].key <= clock
    ensures OnTime(log + LogOf(es[..g], clock), clock)
  {
    LogOfMembers(es[..g], clock);
    forall l | l in LogOf(es[..g], clock) ensures l.key <= l.at <= l.key + 9 && l.at <= clock {
      var e :| e in es[..g] && e.live && l == Raised(e.key, e.id, e.event, clock);
      var i :| 0 <= i < g && es[..g][i] == e;
      assert es[i] in es;
    }
  }

  lemma RestIsPending(log: seq<Raised>, es: seq<Entry>, g: nat, clock: nat, nextId: nat)
    requires g <= |es| && Sorted(es) && NotLate(es, clock) && Numbered(es, log, nextId)
    requires LogBefore(log + LogOf(es[..g], clock), es[g..])
    ensures var es' := Kill(es[..g]) + es[g..];
            var log' := log + LogOf(es[..g], clock);
            NotLate(es', clock) && Numbered(es', log', nextId) && LogBefore(log', es')
  {
    KillKeepsOrder(es, g, nextId);
    LogOfMembers(es[..g], clock);
    assert forall e :: e in es[..g] || e in es[g..] ==> e in es;
  }

  lemma RaisingKeepsInv(st: State)
    requires Inv(st) && st.events != [] && st.events[0].key <= st.clock
    ensures Inv(Emptied(st))
  {
    hide Sorted, LogSorted, LogBefore, NotLate, OnTime, LogOf, JitterOf;
    var g := GroupLen(st.events, st.events[0].key);
    KillKeepsOrder(st.events, g, st.nextId);
    LogExtends(st.log, st.events, g, st.clock);
    LogOnTime(st.log, st.events, g, st.clock);
    RestIsPending(st.log, st.events, g, st.clock, st.nextId);
    GroupJitter(st, g);
  }

  lemma GroupJitter(st: State, g: nat)
    requires g <= |st.events| && NotLate(st.events, st.clock) && st.maxJitter <= 9
    ensures JitterOf(st.events[..g], st.clock, st.maxJitter) <= 9
  {
    assert forall e :: e in st.events[..g] ==> e in st.events;
    JitterBound(st.events[..g], st.clock, st.maxJitter);
  }

  /** The first event not yet raised has the least key of all that are not. */
  lemma {:induction false} FirstLiveIsLeast(es: seq<Entry>)
    requires Sorted(es)
    ensures FirstLive(es) == None ==> forall e :: e in es ==> !e.live
    ensures FirstLive(es).Some? ==> (exists e :: e in es && e.live && e.key == FirstLive(es).value)
    ensures FirstLive(es).Some? ==> forall e :: e in es && e.live ==> FirstLive(es).value <= e.key
  {
    if es != [] {
      assert es == [es[0]] + es[1..];
      if !es[0].live {
        FirstLiveIsLeast(es[1..]);
      } else {
        assert es[0] in es;
      }
    }
  }

  /** Moving the clock keeps the invariant: it stands still while anything is due. */
  lemma AdvanceKeepsInv(st: State)
    requires Inv(st)
    ensures Inv(Advance(st))
  {
    FirstLiveIsLeast(st.events);
  }

  lemma RaiseDueKeepsInv(st: State, raise: Behaviour)
    requires Inv(st) && forall e :: e in NextGroup(st) && e.live ==> Punctual(raise(e), st.clock)
    ensures Inv(RaiseDue(st, raise))
  {
    EraseKeepsInv(st);
    EraseFrontIsSuffix(st.events);
    var st1 := st.(events := EraseFront(st.events));
    hide Inv, Punctual, AllNotBefore, EraseFront, Collect, SortRequests, InsertAll;
    if st1.events != [] && st1.events[0].key <= st.clock {
      RaisingKeepsInv(st1);
      var group := st1.events[..GroupLen(st1.events, st1.events[0].key)];
      CollectNotBefore(group, raise, st.clock);
      SortRequestsMembers(Collect(group, raise));
      InsertAllKeepsInv(Emptied(st1), SortRequests(Collect(group, raise)));
    }
  }

  /** One pass of the loop keeps the invariant, if every raise is punctual. */
  lemma IterateKeepsInv(st: State, raise: Behaviour)
    requires Inv(st) && forall e :: e in NextGroup(st) && e.live ==> Punctual(raise(e), st.clock)
    ensures Inv(Iterate(st, raise))
  {
    RaiseDueKeepsInv(st, raise);
    AdvanceKeepsInv(RaiseDue(st, raise));
  }

  // ---------------------------------------------------------------- whole runs

  /** What the threads do, one at a time: any thread inserts an event or asks for time to pass, the
      injector makes a pass, and the injector is stopped, which hands back the time not yet spent. */
  datatype Action = AddEvent(request: Request) | Delay(us: nat) | Pass(raise: Behaviour) | Stop

  function Do(st: State, a: Action): State {
    match a
    case AddEvent(r) => Enqueue(st, r)
    case Delay(us) => st.(timeForward := st.timeForward + us)
    case Pass(raise) => Iterate(st, raise)
    case Stop => st.(events := [], clock := st.clock + st.timeForward, timeForward := 0)
  }

  function Exec(st: State, run: seq<Action>): State
    decreases |run|
  {
    if run == [] then st else Exec(Do(st, run[0]), run[1..])
  }

  /** No key, inserted or asked for, is before the clock at that moment. */
  ghost predicate Allowed(st: State, a: Action) {
    match a
    case AddEvent(r) => r.key >= st.clock
    case Pass(raise) => forall e :: e in NextGroup(st) && e.live ==> Punctual(raise(e), st.clock)
    case _ => true
  }

  ghost predicate Disciplined(st: State, run: seq<Action>)
    decreases |run|
  {
    run == [] || (Allowed(st, run[0]) && Disciplined(Do(st, run[0]), run[1..]))
  }

  function Start(clock: nat): State {
    State([], 0, clock, 0, 0, [])
  }

  /** Safety of all runs: raised at most once, in key order with ties in insertion order, never
      early, at most 9 us late; and nothing pending is more than 9 us late. */
  lemma {:induction false} RunKeepsInv(st: State, run: seq<Action>)
    requires Inv(st) && Disciplined(st, run)
    ensures Inv(Exec(st, run))
    decreases |run|
  {
    if run != [] {
      match run[0] {
        case AddEvent(r) => InsertKeepsInv(st, r);
        case Pass(raise) => IterateKeepsInv(st, raise);
        case _ =>
      }
      RunKeepsInv(Do(st, run[0]), run[1..]);
    }
  }

  lemma EveryRunIsOrderlyAndOnTime(clock: nat, run: seq<Action>)
    requires Disciplined(Start(clock), run)
    ensures var st := Exec(Start(clock), run);
            && LogSorted(st.log) && OnTime(st.log, st.clock) && NotLate(st.events, st.clock) && st.maxJitter <= 9
  {
    RunKeepsInv(Start(clock), run);
  }

  // ---------------------------------------------------------------- no event is lost

  /** The entry is pending, or has been raised. */
  ghost predicate Tracked(st: State, key: nat, id: nat, event: nat) {
    Entry(key, id, event, true) in st.events || exists at :: Raised(key, id, event, at) in st.log
  }

  lemma {:induction false} InsertAllKeepsMembers(es: seq<Entry>, rs: seq<Request>, id: nat)
    ensures forall e :: e in es ==> e in InsertAll(es, rs, id)
    decreases |rs|
  {
    if rs != [] {
      var e := Entry(rs[0].key, id, rs[0].event, true);
      InsertMembers(es, e);
      InsertAllKeepsMembers(Insert(es, e), rs[1..], id + 1);
    }
  }

  lemma {:induction false} LiveIsLogged(group: seq<Entry>, at: nat, e: Entry)
    requires e in group && e.live
    ensures Raised(e.key, e.id, e.event, at) in LogOf(group, at)
  {
    if group[0] != e {
      assert group == [group[0]] + group[1..];
      LiveIsLogged(group[1..], at, e);
    }
  }

  /** Raising a group turns its live entries into log entries and keeps the others. */
  lemma GroupKeepsTracked(st: State, raise: Behaviour, key: nat, id: nat, event: nat)
    requires Tracked(st, key, id, event) && st.events != []
    ensures Tracked(RaiseGroup(st, raise), key, id, event)
  {
    var e := Entry(key, id, event, true);
    var g := GroupLen(st.events, st.events[0].key);
    var rs := SortRequests(Collect(st.events[..g], raise));
    hide SortRequests, Collect, JitterOf, LogOf, Kill, InsertAll, GroupLen;
    assert st.events == st.events[..g] + st.events[g..];
    if e in st.events[..g] {
      LiveIsLogged(st.events[..g], st.clock, e);
    }
    InsertAllKeepsMembers(Kill(st.events[..g]) + st.events[g..], rs, st.nextId);
  }

  lemma IterateKeepsTracked(st: State, raise: Behaviour, key: nat, id: nat, event: nat)
    requires Tracked(st, key, id, event)
    ensures Tracked(Iterate(st, raise), key, id, event)
  {
    hide RaiseGroup, FirstLive;
    EraseFrontIsSuffix(st.events);
    hide EraseFront;
    var st1 := st.(events := EraseFront(st.events));
    assert Entry(key, id, event, true) in st.events ==> Entry(key, id, event, true) in st1.events;
    if st1.events != [] && st1.events[0].key <= st.clock {
      GroupKeepsTracked(st1, raise, key, id, event);
    }
  }

  /** An event once inserted is raised within 9 us of its key, whatever else happens, unless the
      injector is stopped: when the clock is 10 us past the key it has been. */
  lemma {:induction false} RaisedByDeadline(st: State, run: seq<Action>, key: nat, id: nat, event: nat)
    requires Inv(st) && Disciplined(st, run) && Tracked(st, key, id, event) && Stop !in run
    ensures var st' := Exec(st, run);
            st'.clock >= key + 10 ==> exists at :: key <= at <= key + 9 && Raised(key, id, event, at) in st'.log
    decreases |run|
  {
    if run == [] {
      if st.clock >= key + 10 {
        var at :| Raised(key, id, event, at) in st.log;
      }
    } else {
      RunKeepsInv(st, [run[0]]);
      assert Exec(st, [run[0]]) == Do(st, run[0]);
      match run[0] {
        case AddEvent(r) => InsertMembers(st.events, Entry(r.key, st.nextId, r.event, true));
        case Pass(raise) => IterateKeepsTracked(st, raise, key, id, event);
        case Delay(_) =>
      }
      RaisedByDeadline(Do(st, run[0]), run[1..], key, id, event);
    }
  }

  // ---------------------------------------------------------------- time is conserved

  function Requested(run: seq<Action>): nat {
    if run == [] then 0 else (if run[0].Delay? then run[0].us else 0) + Requested(run[1..])
  }

  /** Clock plus time still to pass grows by what was asked for and by nothing else; the clock never
      goes back. Holds of all runs, disciplined or not. */
  lemma {:induction false} TimeIsConserved(st: State, run: seq<Action>)
    ensures var st' := Exec(st, run);
            && st'.clock + st'.timeForward == st.clock + st.timeForward + Requested(run)
            && st'.clock >= st.clock
    decreases |run|
  {
    if run != [] {
      TimeIsConserved(Do(st, run[0]), run[1..]);
    }
  }

  // ---------------------------------------------------------------- the jitter recorded

  /** The greatest lateness in a log, or 0. */
  ghost predicate IsJitter(max: int, log: seq<Raised>) {
    && max >= 0 && (forall l :: l in log ==> l.at - l.key <= max)
    && (max == 0 || exists l :: l in log && l.at - l.key == max)
  }

  lemma OneMoreJitter(max: int, log: seq<Raised>, l: Raised)
    requires IsJitter(max, log)
    ensures IsJitter(if l.at - l.key > max then l.at - l.key else max, log + [l])
  {
    assert l in log + [l];
    assert forall x :: x in log ==> x in log + [l];
  }

  lemma {:induction false} GroupKeepsJitter(group: seq<Entry>, at: nat, max: int, log: seq<Raised>)
    requires IsJitter(max, log)
    ensures IsJitter(JitterOf(group, at, max), log + LogOf(group, at))
  {
    hide IsJitter;
    if group == [] {
      assert log + [] == log;
    } else {
      var e := group[0];
      if e.live {
        var l := Raised(e.key, e.id, e.event, at);
        OneMoreJitter(max, log, l);
        GroupKeepsJitter(group[1..], at, if at - e.key > max then at - e.key else max, log + [l]);
        Assoc(log, [l], LogOf(group[1..], at));
      } else {
        GroupKeepsJitter(group[1..], at, max, log);
        assert [] + LogOf(group[1..], at) == LogOf(group[1..], at);
      }
    }
  }

  lemma StepKeepsJitter(st: State, a: Action)
    requires IsJitter(st.maxJitter, st.log)
    ensures IsJitter(Do(st, a).maxJitter, Do(st, a).log)
  {
    if a.Pass? {
      hide IsJitter, EraseFront, Collect, SortRequests, InsertAll, Kill, JitterOf, LogOf;
      GroupKeepsJitter(NextGroup(st), st.clock, st.maxJitter, st.log);
    }
  }

  lemma {:induction false} RunKeepsJitter(st: State, run: seq<Action>)
    requires IsJitter(st.maxJitter, st.log)
    ensures IsJitter(Exec(st, run).maxJitter, Exec(st, run).log)
    decreases |run|
  {
    if run != [] {
      StepKeepsJitter(st, run[0]);
      hide IsJitter, Do;
      RunKeepsJitter(Do(st, run[0]), run[1..]);
    }
  }

  /** Over every run, disciplined or not, the jitter recorded is the greatest lateness of all that has been
      raised, or 0. */
  lemma JitterIsGreatest(clock: nat, run: seq<Action>)
    ensures var max, log := Exec(Start(clock), run).maxJitter, Exec(Start(clock), run).log;
            && max >= 0 && (forall l :: l in log ==> l.at - l.key <= max)
            && (max == 0 || exists l :: l in log && l.at - l.key == max)
  {
    RunKeepsJitter(Start(clock), run);
  }

  // ---------------------------------------------------------------- the spin of delay_us ends

  /** A weight for every event: for a line of a script, say, the number of lines left. */
  type Rank = nat -> nat

  /** The weight of the events due. */
  function Load(es: seq<Entry>, clock: nat, rank: Rank): nat {
    if es == [] then 0
    else (if es[0].live && es[0].key <= clock then rank(es[0].event) else 0) + Load(es[1..], clock, rank)
  }

  /** The weight of the events asked for at keys not after the clock. */
  function AtOnce(rs: seq<Request>, clock: nat, rank: Rank): nat {
    if rs == [] then 0 else (if rs[0].key <= clock then rank(rs[0].event) else 0) + AtOnce(rs[1..], clock, rank)
  }

  /** What an event asks for at once weighs less than it does itself. */
  predicate Lighter(o: Outcome, event: nat, clock: nat, before: Rank, after: Rank) {
    (if o.chain.Some? && o.chain.value.key <= clock then after(o.chain.value.event) else 0)
    + (if 0 < o.sched <= clock then after(event) else 0)
    < before(event)
  }

  /** What each event of a group asks for at once weighs less than the event does, and no event comes to
      weigh more. */
  ghost predicate PassIsLighter(group: seq<Entry>, clock: nat, raise: Behaviour, before: Rank, after: Rank) {
    && (forall ev :: after(ev) <= before(ev))
    && forall e :: e in group && e.live ==> Lighter(raise(e), e.event, clock, before, after)
  }

  lemma {:induction false} LoadConcat(xs: seq<Entry>, ys: seq<Entry>, clock: nat, rank: Rank)
    ensures Load(xs + ys, clock, rank) == Load(xs, clock, rank) + Load(ys, clock, rank)
  {
    if xs == [] {
      assert xs + ys == ys;
    } else {
      assert (xs + ys)[1..] == xs[1..] + ys;
      LoadConcat(xs[1..], ys, clock, rank);
    }
  }

  lemma {:induction false} LoadErased(es: seq<Entry>, clock: nat, rank: Rank)
    ensures Load(EraseFront(es), clock, rank) == Load(es, clock, rank)
  {
    if es != [] && !es[0].live { LoadErased(es[1..], clock, rank); }
  }

  lemma {:induction false} LoadKilled(group: seq<Entry>, clock: nat, rank: Rank)
    ensures Load(Kill(group), clock, rank) == 0
  {
    if group != [] {
      assert Kill(group)[1..] == Kill(group[1..]);
      LoadKilled(group[1..], clock, rank);
    }
  }

  lemma {:induction false} LoadMonotone(es: seq<Entry>, clock: nat, before: Rank, after: Rank)
    requires forall ev :: after(ev) <= before(ev)
    ensures Load(es, clock, after) <= Load(es, clock, before)
  {
    if es != [] { LoadMonotone(es[1..], clock, before, after); }
  }

  lemma {:induction false} AtOnceConcat(xs: seq<Request>, ys: seq<Request>, clock: nat, rank: Rank)
    ensures AtOnce(xs + ys, clock, rank) == AtOnce(xs, clock, rank) + AtOnce(ys, clock, rank)
  {
    if xs == [] {
      assert xs + ys == ys;
    } else {
      assert (xs + ys)[1..] == xs[1..] + ys;
      AtOnceConcat(xs[1..], ys, clock, rank);
    }
  }

  lemma {:induction false} AtOnceSorted(rs: seq<Request>, clock: nat, rank: Rank)
    ensures AtOnce(SortRequests(rs), clock, rank) == AtOnce(rs, clock, rank)
  {
    if rs != [] {
      var k := |rs| - 1;
      AtOnceSorted(rs[..k], clock, rank);
      AtOnceInserted(SortRequests(rs[..k]), rs[k], clock, rank);
      AtOnceConcat(rs[..k], [rs[k]], clock, rank);
      assert rs == rs[..k] + [rs[k]];
    }
  }

  lemma {:induction false} AtOnceInserted(rs: seq<Request>, r: Request, clock: nat, rank: Rank)
    ensures AtOnce(InsertRequest(rs, r), clock, rank) == AtOnce(rs, clock, rank) + AtOnce([r], clock, rank)
  {
    if rs == [] || r.key < rs[0].key {
      AtOnceConcat([r], rs, clock, rank);
    } else {
      AtOnceConcat([rs[0]], InsertRequest(rs[1..], r), clock, rank);
      AtOnceInserted(rs[1..], r, clock, rank);
    }
  }

  lemma {:induction false} LoadInsert(es: seq<Entry>, e: Entry, clock: nat, rank: Rank)
    ensures Load(Insert(es, e), clock, rank) == Load(es, clock, rank) + Load([e], clock, rank)
  {
    if es == [] || e.key < es[0].key {
      LoadConcat([e], es, clock, rank);
    } else {
      LoadConcat([es[0]], Insert(es[1..], e), clock, rank);
      LoadInsert(es[1..], e, clock, rank);
    }
  }

  lemma {:induction false} LoadInsertAll(es: seq<Entry>, rs: seq<Request>, id: nat, clock: nat, rank: Rank)
    ensures Load(InsertAll(es, rs, id), clock, rank) == Load(es, clock, rank) + AtOnce(rs, clock, rank)
    decreases |rs|
  {
    if rs != [] {
      var e := Entry(rs[0].key, id, rs[0].event, true);
      LoadInsert(es, e, clock, rank);
      LoadInsertAll(Insert(es, e), rs[1..], id + 1, clock, rank);
    }
  }

  /** The entries raised in the next pass. */
  function NextGroup(st: State): seq<Entry> {
    DueGroup(st.events, st.clock)
  }

  function DueGroup(events: seq<Entry>, clock: nat): seq<Entry> {
    var es := EraseFront(events);
    if es != [] && es[0].key <= clock then es[..GroupLen(es, es[0].key)] else []
  }

  /** The weight due after the raising part of a pass, to the last unit. */
  lemma RaisingBalance(st: State, raise: Behaviour, rank: Rank)
    ensures Load(RaiseDue(st, raise).events, st.clock, rank) + Load(NextGroup(st), st.clock, rank)
            == Load(st.events, st.clock, rank) + AtOnce(Collect(NextGroup(st), raise), st.clock, rank)
  {
    LoadErased(st.events, st.clock, rank);
    var es := EraseFront(st.events);
    if es != [] && es[0].key <= st.clock {
      var g := GroupLen(es, es[0].key);
      var rs := Collect(es[..g], raise);
      hide Load, AtOnce, Collect, SortRequests, EraseFront, GroupLen, Kill, InsertAll, JitterOf, LogOf;
      assert es == es[..g] + es[g..];
      LoadConcat(es[..g], es[g..], st.clock, rank);
      LoadConcat(Kill(es[..g]), es[g..], st.clock, rank);
      LoadKilled(es[..g], st.clock, rank);
      AtOnceSorted(rs, st.clock, rank);
      LoadInsertAll(Kill(es[..g]) + es[g..], SortRequests(rs), st.nextId, st.clock, rank);
    }
  }

  lemma LighterRequests(e: Entry, raise: Behaviour, clock: nat, before: Rank, after: Rank)
    requires e.live && Lighter(raise(e), e.event, clock, before, after)
    ensures AtOnce(Requests(e, raise), clock, after) < before(e.event)
  {
    var o := raise(e);
    var chained := if o.chain.Some? then [o.chain.value] else [];
    AtOnceConcat(chained, if o.sched != 0 then [Request(o.sched, e.event)] else [], clock, after);
  }

  /** What a due group asks for at once weighs less than the group. */
  lemma {:induction false} GroupIsLighter(group: seq<Entry>, raise: Behaviour, clock: nat, before: Rank, after: Rank)
    requires forall e :: e in group ==> e.key <= clock
    requires forall e :: e in group && e.live ==> Lighter(raise(e), e.event, clock, before, after)
    ensures AtOnce(Collect(group, raise), clock, after) <= Load(group, clock, before)
    ensures group != [] && group[0].live
            ==> AtOnce(Collect(group, raise), clock, after) < Load(group, clock, before)
  {
    if group != [] {
      assert group[0] in group;
      GroupIsLighter(group[1..], raise, clock, before, after);
      AtOnceConcat(Requests(group[0], raise), Collect(group[1..], raise), clock, after);
      if group[0].live { LighterRequests(group[0], raise, clock, before, after); }
    }
  }

  /** What the clock makes of a pass: it stands still while anything is due, and spends time otherwise. */
  lemma AdvanceSpendsOrStands(st: State)
    requires st.timeForward > 0
    ensures Advance(st).timeForward < st.timeForward
            || (Advance(st) == st && FirstLive(st.events).Some? && FirstLive(st.events).value <= st.clock)
  {
  }

  /** Progress of every pass while there is time to pass: some of it is spent, or there was something to
      raise. */
  lemma PassMakesProgress(st: State, raise: Behaviour)
    requires st.timeForward > 0
    ensures var st' := Iterate(st, raise);
            || st'.timeForward < st.timeForward
            || (st' == RaiseDue(st, raise) && NextGroup(st) != [] && NextGroup(st)[0].live)
  {
    EraseFrontIsSuffix(st.events);
    var es := EraseFront(st.events);
    AdvanceSpendsOrStands(RaiseDue(st, raise));
    if es == [] || es[0].key > st.clock {
      assert RaiseDue(st, raise).events == es;
    }
  }

  /** If what every event asks for at once weighs less than the event, (time to pass, weight of the
      events due) decreases lexicographically in every pass. The weights may themselves go down while
      events are raised. */
  lemma LighterPassDecreases(st: State, raise: Behaviour, before: Rank, after: Rank)
    requires st.timeForward > 0 && PassIsLighter(NextGroup(st), st.clock, raise, before, after)
    ensures var st' := Iterate(st, raise);
            || st'.timeForward < st.timeForward
            || (st'.timeForward == st.timeForward && st'.clock == st.clock
                && Load(st'.events, st.clock, after) < Load(st.events, st.clock, before))
  {
    PassMakesProgress(st, raise);
    RaisingBalance(st, raise, after);
    var group := NextGroup(st);
    GroupIsPending(st);
    hide Iterate, NextGroup, Lighter;
    if group != [] && group[0].live {
      RestIsMonotone(st, before, after);
      GroupIsLighter(group, raise, st.clock, before, after);
    }
  }

  lemma GroupIsPending(st: State)
    ensures forall e :: e in NextGroup(st) ==> e in st.events && e.key <= st.clock
    ensures RaiseDueKeeps(st)
  {
    EraseFrontIsSuffix(st.events);
  }

  /** Raising moves neither the clock nor the time to pass. */
  ghost predicate RaiseDueKeeps(st: State) {
    forall raise: Behaviour :: RaiseDue(st, raise).clock == st.clock
            && RaiseDue(st, raise).timeForward == st.timeForward
  }

  /** What is not raised weighs no more under the later weights. */
  lemma RestIsMonotone(st: State, before: Rank, after: Rank)
    requires forall ev :: after(ev) <= before(ev)
    ensures Load(st.events, st.clock, after) - Load(NextGroup(st), st.clock, after)
            <= Load(st.events, st.clock, before) - Load(NextGroup(st), st.clock, before)
  {
    var es := EraseFront(st.events);
    var group := NextGroup(st);
    LoadErased(st.events, st.clock, before);
    LoadErased(st.events, st.clock, after);
    assert es == group + es[|group|..];
    hide Load, EraseFront, NextGroup;
    LoadConcat(group, es[|group|..], st.clock, before);
    LoadConcat(group, es[|group|..], st.clock, after);
    LoadMonotone(es[|group|..], st.clock, before, after);
  }

  /** A raise asks only for keys after the clock. */
  ghost predicate Strict(o: Outcome, clock: nat) {
    (o.sched == 0 || o.sched > clock) && (o.chain.Some? ==> o.chain.value.key > clock)
  }

  /** In particular if every raise asks only for keys after the clock: then the number of events due
      goes down. */
  lemma StrictPassDecreases(st: State, raise: Behaviour)
    requires st.timeForward > 0
    requires forall e :: e in st.events && e.live ==> Strict(raise(e), st.clock)
    ensures var st', one := Iterate(st, raise), (ev: nat) => 1;
            || st'.timeForward < st.timeForward
            || (st'.timeForward == st.timeForward && st'.clock == st.clock
                && Load(st'.events, st.clock, one) < Load(st.events, st.clock, one))
  {
    GroupIsPending(st);
    LighterPassDecreases(st, raise, (ev: nat) => 1, (ev: nat) => 1);
  }

  /** The world the events live in, which may change with every raise: how a group raised at some time
      behaves, and what has become of the world afterwards. */
  datatype Surroundings<!E> = Surroundings(behave: (E, seq<Entry>, nat) -> Behaviour, next: (E, seq<Entry>, nat) -> E)

  /** Weights for all states of the world under which every pass is lighter. */
  ghost predicate Wanes<E(!new)>(around: Surroundings<E>, rank: E -> Rank) {
    forall env, group, now ::
      PassIsLighter(group, now, around.behave(env, group, now), rank(env), rank(around.next(env, group, now)))
  }

  /** Injector and world after n passes. */
  function Spin<E>(st: State, env: E, around: Surroundings<E>, n: nat): (State, E) {
    if n == 0 then (st, env)
    else
      var before := Spin(st, env, around, n - 1);
      var group, now := NextGroup(before.0), before.0.clock;
      (Iterate(before.0, around.behave(before.1, group, now)), around.next(before.1, group, now))
  }

  /** In a pass from here every raise asks only for keys that are not before the clock. */
  ghost predicate PassIsPunctual<E>(now: (State, E), around: Surroundings<E>) {
    var group := NextGroup(now.0);
    forall e :: e in group && e.live ==> Punctual(around.behave(now.1, group, now.0.clock)(e), now.0.clock)
  }

  /** The first n passes have not spent all the time there was to pass. */
  ghost predicate StillSpinning<E>(st: State, env: E, around: Surroundings<E>, n: nat) {
    forall i :: 0 <= i < n ==> Spin(st, env, around, i).0.timeForward != 0
  }

  ghost predicate PassesArePunctual<E>(st: State, env: E, around: Surroundings<E>, n: nat) {
    forall i :: 0 <= i < n ==> PassIsPunctual(Spin(st, env, around, i), around)
  }

  lemma {:induction false} SpinKeepsInv<E>(st: State, env: E, around: Surroundings<E>, n: nat)
    ensures Inv(st) && PassesArePunctual(st, env, around, n) ==> Inv(Spin(st, env, around, n).0)
  {
    if n > 0 && Inv(st) && PassesArePunctual(st, env, around, n) {
      var before := Spin(st, env, around, n - 1);
      SpinKeepsInv(st, env, around, n - 1);
      hide Inv, Punctual, Iterate, NextGroup;
      assert PassIsPunctual(before, around);
      IterateKeepsInv(before.0, around.behave(before.1, NextGroup(before.0), before.0.clock));
    }
  }

  /** One more pass: what it makes of the time, and that it does not go on for ever. */
  lemma SpinOnceMore<E(!new)>(st: State, env: E, around: Surroundings<E>, n: nat, rank: E -> Rank)
    requires Wanes(around, rank) && Spin(st, env, around, n).0.timeForward != 0
    ensures var (before, env0), (after, env1) := Spin(st, env, around, n), Spin(st, env, around, n + 1);
            && after.clock + after.timeForward == before.clock + before.timeForward
            && (|| after.timeForward < before.timeForward
                || (after.timeForward == before.timeForward
                    && Load(after.events, after.clock, rank(env1)) < Load(before.events, before.clock, rank(env0))))
  {
    var (before, env0) := Spin(st, env, around, n);
    var group := NextGroup(before);
    var raise, env1 := around.behave(env0, group, before.clock), around.next(env0, group, before.clock);
    hide PassIsLighter, Iterate, NextGroup;
    LighterPassDecreases(before, raise, rank(env0), rank(env1));
    TimeOfPass(before, raise);
  }

  lemma TimeOfPass(st: State, raise: Behaviour)
    ensures Iterate(st, raise).clock + Iterate(st, raise).timeForward == st.clock + st.timeForward
  {
  }

  /** Passes repeated with one behaviour. */
  function Passes(st: State, raise: Behaviour, n: nat): State {
    if n == 0 then st else Iterate(Passes(st, raise, n - 1), raise)
  }

  /** The event is pending and due. */
  ghost predicate IsDue(st: State, me: nat) {
    exists e :: e in st.events && e.live && e.event == me && e.key <= st.clock
  }

  /** While anything is due after the raising part of a pass the clock does not move. */
  lemma DueStopsTheClock(st: State, e: Entry)
    requires Inv(st) && e in st.events && e.live && e.key <= st.clock
    ensures Advance(st) == st
  {
    FirstLiveIsLeast(st.events);
  }

  lemma {:induction false} InsertAllAddsRequests(es: seq<Entry>, rs: seq<Request>, id: nat, r: Request)
    requires r in rs
    ensures exists e :: e in InsertAll(es, rs, id) && e.live && e.event == r.event && e.key == r.key
    decreases |rs|
  {
    var e := Entry(rs[0].key, id, rs[0].event, true);
    var es' := Insert(es, e);
    InsertMembers(es, e);
    if r == rs[0] {
      InsertAllKeepsMembers(es', rs[1..], id + 1);
      assert e in InsertAll(es, rs, id);
    } else {
      InsertAllAddsRequests(es', rs[1..], id + 1, r);
    }
  }

  lemma {:induction false} CollectHolds(group: seq<Entry>, raise: Behaviour, e: Entry, r: Request)
    requires e in group && r in Requests(e, raise)
    ensures r in Collect(group, raise)
  {
    if group[0] != e {
      CollectHolds(group[1..], raise, e, r);
    }
  }

  /** An event that reschedules itself at the clock is still due after its group is raised. */
  lemma StaysDueInGroup(st: State, raise: Behaviour, e: Entry)
    requires e in st.events && e.live && e.key <= st.clock && st.clock > 0 && raise(e).sched == st.clock
    ensures IsDue(RaiseGroup(st, raise), e.event)
  {
    var g := GroupLen(st.events, st.events[0].key);
    var group, rest := st.events[..g], st.events[g..];
    var rs := SortRequests(Collect(group, raise));
    assert st.events == group + rest;
    hide SortRequests, Collect, InsertAll, Kill, GroupLen, JitterOf, LogOf;
    if e in group {
      var r := Request(st.clock, e.event);
      assert r in Requests(e, raise);
      CollectHolds(group, raise, e, r);
      SortRequestsMembers(Collect(group, raise));
      InsertAllAddsRequests(Kill(group) + rest, rs, st.nextId, r);
    } else {
      InsertAllKeepsMembers(Kill(group) + rest, rs, st.nextId);
      assert e in InsertAll(Kill(group) + rest, rs, st.nextId);
    }
  }

  lemma StaysDue(st: State, raise: Behaviour, me: nat)
    requires Sorted(st.events) && IsDue(st, me) && st.clock > 0
    requires forall e: Entry :: e.event == me ==> raise(e).sched == st.clock
    ensures IsDue(RaiseDue(st, raise), me)
  {
    hide RaiseGroup;
    var e :| e in st.events && e.live && e.event == me && e.key <= st.clock;
    EraseFrontIsSuffix(st.events);
    hide EraseFront;
    var st1 := st.(events := EraseFront(st.events));
    var i :| 0 <= i < |st1.events| && st1.events[i] == e;
    assert i > 0 ==> Before(st1.events[0].key, st1.events[0].id, e.key, e.id);
    StaysDueInGroup(st1, raise, e);
  }

  lemma StallingPass(st: State, raise: Behaviour, me: nat)
    requires Inv(st) && IsDue(st, me) && st.clock > 0
    requires forall e :: Punctual(raise(e), st.clock)
    requires forall e: Entry :: e.event == me ==> raise(e).sched == st.clock
    ensures var st' := Iterate(st, raise);
            Inv(st') && IsDue(st', me) && st'.clock == st.clock && st'.timeForward == st.timeForward
  {
    StaysDue(st, raise, me);
    RaiseDueKeepsInv(st, raise);
    var st1 := RaiseDue(st, raise);
    GroupIsPending(st);
    hide Inv, RaiseDue, Advance;
    var e :| e in st1.events && e.live && e.event == me && e.key <= st1.clock;
    DueStopsTheClock(st1, e);
  }

  /** The guarantee does need the condition: one event that reschedules itself at the clock stalls the
      wait, however many passes are made and whatever else is raised. */
  lemma {:induction false} ReschedulingAtTheClockStalls(st: State, raise: Behaviour, me: nat, n: nat)
    requires Inv(st) && IsDue(st, me) && st.clock > 0
    requires forall e :: Punctual(raise(e), st.clock)
    requires forall e: Entry :: e.event == me ==> raise(e).sched == st.clock
    ensures var st' := Passes(st, raise, n);
            Inv(st') && IsDue(st', me) && st'.clock == st.clock && st'.timeForward == st.timeForward
  {
    hide Inv, Iterate, IsDue, Punctual;
    if n > 0 {
      ReschedulingAtTheClockStalls(st, raise, me, n - 1);
      StallingPass(Passes(st, raise, n - 1), raise, me);
    }
  }

  // ---------------------------------------------------------------- the class

  lemma {:induction false} InsertAt(es: seq<Entry>, e: Entry, i: nat)
    requires i <= |es| && forall j :: 0 <= j < i ==> es[j].key <= e.key
    requires i < |es| ==> es[i].key > e.key
    ensures Insert(es, e) == es[..i] + [e] + es[i..]
  {
    if i > 0 {
      InsertAt(es[1..], e, i - 1);
      assert es[1..][..i - 1] == es[1..i] && es[1..][i - 1..] == es[i..];
    }
  }

  lemma {:induction false} InsertRequestAt(rs: seq<Request>, r: Request, i: nat)
    requires i <= |rs| && forall j :: 0 <= j < i ==> rs[j].key <= r.key
    requires i < |rs| ==> rs[i].key > r.key
    ensures InsertRequest(rs, r) == rs[..i] + [r] + rs[i..]
  {
    if i > 0 {
      InsertRequestAt(rs[1..], r, i - 1);
      assert rs[1..][..i - 1] == rs[1..i] && rs[1..][i - 1..] == rs[i..];
    }
  }

  /** The functions over a group, extended by one more entry at its end. */
  lemma {:induction false} CollectSnoc(group: seq<Entry>, e: Entry, raise: Behaviour)
    ensures Collect(group + [e], raise) == Collect(group, raise) + Requests(e, raise)
  {
    hide Requests;
    if group == [] {
      assert group + [e] == [e];
    } else {
      assert (group + [e])[1..] == group[1..] + [e];
      CollectSnoc(group[1..], e, raise);
      Assoc(Requests(group[0], raise), Collect(group[1..], raise), Requests(e, raise));
    }
  }

  lemma {:induction false} LogSnoc(group: seq<Entry>, e: Entry, at: nat)
    ensures LogOf(group + [e], at) == LogOf(group, at) + LogOf([e], at)
  {
    if group == [] {
      assert group + [e] == [e];
    } else {
      var g := group[0];
      assert (group + [e])[1..] == group[1..] + [e];
      LogSnoc(group[1..], e, at);
      Assoc(if g.live then [Raised(g.key, g.id, g.event, at)] else [], LogOf(group[1..], at), LogOf([e], at));
    }
  }

  lemma {:induction false} JitterSnoc(group: seq<Entry>, e: Entry, at: nat, max: int)
    ensures JitterOf(group + [e], at, max) == JitterOf([e], at, JitterOf(group, at, max))
  {
    if group == [] {
      assert group + [e] == [e];
    } else {
      assert (group + [e])[1..] == group[1..] + [e];
      var g := group[0];
      JitterSnoc(group[1..], e, at, if g.live && at - g.key > max then at - g.key else max);
    }
  }

  lemma RaisingNone(st: State, raise: Behaviour)
    ensures Raising(st, 0) == st && SortRequests(Collect(st.events[..0], raise)) == []
  {
    assert st.events[0..] == st.events && st.log + [] == st.log;
  }

  /** What raising the entry at i adds to the stage before it. */
  lemma RaisingOneMore(st: State, i: nat, raise: Behaviour)
    requires i <= |st.events|
    ensures var now := Raising(st, i);
            && |now.events| == |st.events| && now.clock == st.clock && now.nextId == st.nextId
            && now.timeForward == st.timeForward
            && now.events[i..] == st.events[i..]
            && (i < |st.events| ==>
                  && now.events[i] == st.events[i]
                  && Raising(st, i + 1) == now.(events := now.events[i := st.events[i].(live := false)],
                                                maxJitter := JitterOf([st.events[i]], st.clock, now.maxJitter),
                                                log := now.log + LogOf([st.events[i]], st.clock))
                  && Collect(st.events[..i + 1], raise)
                     == Collect(st.events[..i], raise) + Requests(st.events[i], raise))
  {
    if i < |st.events| {
      assert st.events[..i + 1] == st.events[..i] + [st.events[i]];
      CollectSnoc(st.events[..i], st.events[i], raise);
      LogSnoc(st.events[..i], st.events[i], st.clock);
      JitterSnoc(st.events[..i], st.events[i], st.clock, st.maxJitter);
      assert Kill(st.events[..i + 1]) == Kill(st.events[..i]) + [st.events[i].(live := false)];
      hide Kill, LogOf, JitterOf, Collect, Requests;
      var k := Kill(st.events[..i]);
      var dead := st.events[i].(live := false);
      assert |k| == i;
      Reseat(k, st.events[i..], dead);
      assert st.events[i..][1..] == st.events[i + 1..];
    }
  }

  lemma Reseat(xs: seq<Entry>, ys: seq<Entry>, y: Entry)
    requires ys != []
    ensures (xs + ys)[|xs| := y] == xs + [y] + ys[1..]
  {
  }

  lemma {:induction false} GroupLenIs(es: seq<Entry>, key: nat, g: nat)
    requires g <= |es| && (forall j :: 0 <= j < g ==> es[j].key == key) && (g < |es| ==> es[g].key != key)
    ensures GroupLen(es, key) == g
  {
    if g > 0 { GroupLenIs(es[1..], key, g - 1); }
  }

  /** multimap::insert by key, on the requests of a pass. */
  method PutRequest(rs: seq<Request>, r: Request) returns (rs': seq<Request>)
    ensures rs' == InsertRequest(rs, r)
  {
    var i := 0;
    while i < |rs| && rs[i].key <= r.key
      invariant 0 <= i <= |rs| && forall j :: 0 <= j < i ==> rs[j].key <= r.key
    {
      i := i + 1;
    }
    InsertRequestAt(rs, r, i);
    rs' := rs[..i] + [r] + rs[i..];
  }

  class EventInjector {
    var events: seq<Entry>
    var nextId: nat
    var clock: nat
    var timeForward: nat
    var maxJitter: int
    ghost var log: seq<Raised>

    ghost function View(): State
      reads this
    {
      State(events, nextId, clock, timeForward, maxJitter, log)
    }

    constructor (clock: nat)
      ensures View() == Start(clock)
    {
      events, nextId, this.clock, timeForward, maxJitter, log := [], 0, clock, 0, 0, [];
    }

    method Add(r: Request)
      modifies this`events, this`nextId
      ensures View() == Enqueue(old(View()), r)
    {
      var e := Entry(r.key, nextId, r.event, true);
      var i := 0;
      while i < |events| && events[i].key <= e.key
        invariant 0 <= i <= |events| && forall j :: 0 <= j < i ==> events[j].key <= e.key
      {
        i := i + 1;
      }
      InsertAt(events, e, i);
      events := events[..i] + [e] + events[i..];
      nextId := nextId + 1;
    }

    /** Raises the live entry at position i, if it is live, and leaves a null pointer there. */
    method RaiseAt(i: nat, raise: Behaviour, toInsert: seq<Request>, ghost asked: seq<Request>)
        returns (toInsert': seq<Request>)
      requires i < |events| && toInsert == SortRequests(asked)
      modifies this`events, this`maxJitter, this`log
      ensures events == old(events)[i := old(events)[i].(live := false)]
      ensures maxJitter == JitterOf([old(events)[i]], clock, old(maxJitter))
      ensures log == old(log) + LogOf([old(events)[i]], clock)
      ensures toInsert' == SortRequests(asked + Requests(old(events)[i], raise))
    {
      toInsert' := toInsert;
      var e := events[i];
      if e.live {
        var jitter := clock - e.key;
        if jitter > maxJitter {
          maxJitter := jitter;
        }
        log := log + [Raised(e.key, e.id, e.event, clock)];
        var o := raise(e);
        if o.chain.Some? {
          toInsert' := PutRequest(toInsert', o.chain.value);
        }
        if o.sched != 0 {
          toInsert' := PutRequest(toInsert', Request(o.sched, e.event));
        }
        events := events[i := e.(live := false)];
        SortAppended(asked, o, e);
      } else {
        assert asked + [] == asked;
      }
    }

    /** One pass of the loop. */
    method Pass(raise: Behaviour)
      modifies this
      ensures View() == Iterate(old(View()), raise)
    {
      EraseNulls();
      if |events| > 0 && clock >= events[0].key {
        RaiseFirstGroup(raise);
      }
      MoveClock();
    }

    method EraseNulls()
      modifies this`events
      ensures events == EraseFront(old(events))
    {
      while |events| > 0 && !events[0].live
        invariant EraseFront(events) == EraseFront(old(events))
      {
        events := events[1..];
      }
    }

    method RaiseFirstGroup(raise: Behaviour)
      requires events != []
      modifies this
      ensures View() == RaiseGroup(old(View()), raise)
    {
      var toInsert := RaiseEach(raise);
      InsertEach(toInsert);
    }

    method RaiseEach(raise: Behaviour) returns (toInsert: seq<Request>)
      requires events != []
      modifies this
      ensures View() == Emptied(old(View()))
      ensures var st := old(View());
              toInsert == SortRequests(Collect(st.events[..GroupLen(st.events, st.events[0].key)], raise))
    {
      hide SortRequests, Raising, LogOf, JitterOf, Collect;
      ghost var st := View();
      var next := events[0].key;
      toInsert := [];
      var i := 0;
      RaisingNone(st, raise);
      while i < |events| && events[i].key == next
        invariant 0 <= i <= |events| == |st.events| && View() == Raising(st, i)
        invariant events[i..] == st.events[i..]
        invariant forall j :: 0 <= j < i ==> st.events[j].key == next
        invariant toInsert == SortRequests(Collect(st.events[..i], raise))
      {
        RaisingOneMore(st, i, raise);
        toInsert := RaiseAt(i, raise, toInsert, Collect(st.events[..i], raise));
        assert events[i + 1..] == st.events[i..][1..];
        i := i + 1;
      }
      assert i < |st.events| ==> st.events[i..][0] == events[i..][0];
      GroupLenIs(st.events, next, i);
    }

    method InsertEach(toInsert: seq<Request>)
      modifies this`events, this`nextId
      ensures events == InsertAll(old(events), toInsert, old(nextId)) && nextId == old(nextId) + |toInsert|
    {
      var k := 0;
      while k < |toInsert|
        invariant 0 <= k <= |toInsert| && nextId == old(nextId) + k
        invariant InsertAll(events, toInsert[k..], nextId) == InsertAll(old(events), toInsert, old(nextId))
      {
        assert toInsert[k..][1..] == toInsert[k + 1..];
        Add(toInsert[k]);
        k := k + 1;
      }
    }

    method MoveClock()
      modifies this`clock, this`timeForward
      ensures View() == Advance(old(View()))
    {
      if timeForward > 0 {
        var addUs := 10;
        var i := 0;
        while i < |events|
          invariant 0 <= i <= |events| && addUs == 10
          invariant FirstLive(events[i..]) == FirstLive(events)
        {
          if events[i].live {
            if events[i].key <= clock {
              addUs := 0;
            }
            break;
          }
          i := i + 1;
        }
        if addUs > timeForward {
          clock := clock + timeForward;
          timeForward := 0;
        } else {
          clock := clock + addUs;
          timeForward := timeForward - addUs;
        }
      }
    }

    /** The destructor: drops the events and hands the time not yet spent to the clock. */
    method Shut()
      modifies this`events, this`clock, this`timeForward
      ensures View() == Do(old(View()), Stop)
    {
      events := [];
      var us := timeForward;
      timeForward := 0;
      clock := clock + us;
    }

    /** The wait of another thread: asks for time to pass and spins until it has, n passes later. What
        events ask for at once weighs less than they do, whereby weights go down with every raise if an
        event may ask for itself at once again. The wait keeps the invariant if its passes are punctual. */
    method DelayUs<E(!new)>(us: nat, env: E, around: Surroundings<E>, ghost rank: E -> Rank)
        returns (env': E, ghost n: nat)
      requires Wanes(around, rank)
      modifies this
      ensures (View(), env') == Spin(Do(old(View()), Delay(us)), env, around, n)
      ensures StillSpinning(Do(old(View()), Delay(us)), env, around, n)
      ensures timeForward == 0 && clock == old(clock) + old(timeForward) + us
      ensures old(Inv(View())) && PassesArePunctual(Do(old(View()), Delay(us)), env, around, n) ==> Inv(View())
    {
      timeForward := timeForward + us;
      env', n := env, 0;
      ghost var st := View();
      while timeForward != 0
        invariant (View(), env') == Spin(st, env, around, n) && StillSpinning(st, env, around, n)
        invariant clock + timeForward == old(clock) + old(timeForward) + us
        decreases timeForward, Load(events, clock, rank(env'))
      {
        hide Wanes, Iterate, DueGroup, Load;
        SpinOnceMore(st, env, around, n, rank);
        var group, now := DueGroup(events, clock), clock;
        assert group == NextGroup(View());
        Pass(around.behave(env', group, now));
        env' := around.next(env', group, now);
        n := n + 1;
      }
      hide *;
      DelayKeepsInv(old(View()), us);
      SpinKeepsInv(st, env, around, n);
    }
  }

  lemma DelayKeepsInv(st: State, us: nat)
    ensures Inv(st) ==> Inv(Do(st, Delay(us)))
    ensures Do(st, Delay(us)) == st.(timeForward := st.timeForward + us)
  {
  }

  /** Inserting the chained event and then the event itself sorts them in. */
  lemma SortAppended(asked: seq<Request>, o: Outcome, e: Entry)
    ensures var chained := if o.chain.Some? then [o.chain.value] else [];
            var again := if o.sched != 0 then [Request(o.sched, e.event)] else [];
            var rs := SortRequests(asked);
            var rs1 := if o.chain.Some? then InsertRequest(rs, o.chain.value) else rs;
            SortRequests(asked + (chained + again))
            == if o.sched != 0 then InsertRequest(rs1, Request(o.sched, e.event)) else rs1
  {
    var chained := if o.chain.Some? then [o.chain.value] else [];
    var again := if o.sched != 0 then [Request(o.sched, e.event)] else [];
    assert asked + (chained + again) == asked + chained + again;
    assert o.chain.Some? ==> (asked + chained)[..|asked|] == asked;
    assert asked + [] == asked && asked + chained + [] == asked + chained;
    assert o.sched != 0 ==> (asked + chained + again)[..|asked + chained|] == asked + chained;
  }
}
