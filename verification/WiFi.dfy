/** The event queue of the mock WiFi, and the calls that put events into it. */
module WiFi {
  import opened Common

  const TWO32: nat := 0x1_0000_0000

  type Word = x: nat | x < TWO32

  datatype Kind =
    StaStart | StaStop | StaConnected | StaDisconnected | StaGotIp | ApStart | ApStop | ScanDone

  datatype Mode = Off | Sta | Ap | ApSta

  datatype Status = Disconnected | Connected | ConnectFailed | ConnectionLost | NoSsidAvail

  /** The networks that begin() tells apart by name. */
  datatype Network = Joinable | BadPass | Timeout | NoIp | Flappy | Unknown

  /** An event in the queue; its due time is kept in 32 bits. */
  datatype Pending = Pending(kind: Kind, dueAt: Word)

  /** For the record: an event queued at a time with a delay, and one handed out at a time. */
  datatype Queued = Queued(kind: Kind, at: nat, delay: Word)

  datatype Emitted = Emitted(kind: Kind, at: nat)

  /** The addresses are numbers; 0 stands for 0.0.0.0. `handlers` says whether any event handler is
      registered. `queued` and `emitted` are the records of the whole run. */
  datatype State = State(
    status: Status, mode: Mode, localIp: nat, staticIp: bool, apEnabled: bool, flappyCounter: nat,
    staStarted: bool, apStarted: bool, scanning: bool, scanReadyAt: Word, handlers: bool,
    pending: seq<Pending>, queued: seq<Queued>, emitted: seq<Emitted>)

  const FRESH: State :=
    State(Disconnected, Off, 0, false, false, 0, false, false, false, 0, false, [], [], [])

  /** hostIp is the address the host has when begin() looks for it. */
  datatype Call =
    | OnEvent(present: bool)
    | Begin(network: Network, hostIp: nat)
    | Config(ip: nat)
    | Disconnect(off: bool)
    | SoftAp
    | SoftApDisconnect(off: bool)
    | SetMode(mode: Mode)
    | EnableSta(enable: bool)
    | EnableAp(enable: bool)
    | Scan(async: bool, perChannel: Word)
    | ScanComplete
    | ScanDelete
    | MockReset
    | Pass

  /** A call at a time of the 64-bit millisecond clock. */
  datatype Timed = Timed(call: Call, now: nat)

  function Queue(st: State, k: Kind, delay: Word, now: nat): State {
    if !st.handlers then st
    else st.(pending := st.pending + [Pending(k, (now + delay) % TWO32)],
             queued := st.queued + [Queued(k, now, delay)])
  }

  function StartSta(st: State, now: nat): State {
    if st.staStarted then st else Queue(st.(staStarted := true), StaStart, 0, now)
  }

  function StopSta(st: State, now: nat): State {
    if st.staStarted then Queue(st.(staStarted := false), StaStop, 0, now) else st
  }

  function StartAp(st: State, now: nat): State {
    if st.apStarted then st else Queue(st.(apStarted := true), ApStart, 0, now)
  }

  function StopAp(st: State, now: nat): State {
    if st.apStarted then Queue(st.(apStarted := false), ApStop, 0, now) else st
  }

  /** Whether the attempt succeeds; the flappy network lets every other attempt in. */
  function AttemptStatus(network: Network, attempts: nat): Status {
    match network
    case Joinable => Connected
    case BadPass => ConnectFailed
    case Timeout => ConnectionLost
    case NoIp => Connected
    case Flappy => if attempts % 2 == 1 then Connected else ConnectFailed
    case Unknown => NoSsidAvail
  }

  /** The outcome of an attempt to join a network; a static address stays whatever happens. */
  function Attempt(st: State, network: Network, hostIp: nat): State {
    var attempts := if network == Flappy then st.flappyCounter + 1 else st.flappyCounter;
    var status := AttemptStatus(network, attempts);
    st.(status := status, flappyCounter := attempts,
        localIp := if st.staticIp then st.localIp
                   else if status == Connected && network != NoIp then hostIp
                   else 0)
  }

  function Announce(st: State, now: nat): State {
    if st.status == Connected then
      var st := Queue(st, StaConnected, 2, now);
      if st.localIp != 0 then Queue(st, StaGotIp, 4, now) else st
    else Queue(st, StaDisconnected, 2, now)
  }

  function Due(dueAt: Word, now: nat): bool {
    !(now - dueAt < 0)
  }

  function FinishScan(st: State, now: nat): State {
    if st.scanning && Due(st.scanReadyAt, now) then Queue(st.(scanning := false), ScanDone, 0, now) else st
  }

  function EmitHead(st: State, now: nat): State {
    if st.pending == [] || !Due(st.pending[0].dueAt, now) then st
    else st.(pending := st.pending[1..], emitted := st.emitted + [Emitted(st.pending[0].kind, now)])
  }

  function Begun(st: State, network: Network, hostIp: nat, now: nat): State {
    var st := StartSta(st.(mode := if st.apEnabled then ApSta else Sta), now);
    Announce(Attempt(st, network, hostIp), now)
  }

  function Left(st: State, off: bool, now: nat): State {
    var st := (if st.staStarted then Queue(st, StaDisconnected, 0, now) else st).(status := Status.Disconnected);
    if off then StopSta(st.(mode := Off), now) else st
  }

  function ApBegun(st: State, now: nat): State {
    StartAp(st.(apEnabled := true, mode := if st.mode in {Sta, ApSta} then ApSta else Ap), now)
  }

  function ApLeft(st: State, off: bool, now: nat): State {
    var st := StopAp(st.(apEnabled := false), now);
    if off then StopSta(st.(mode := Off, status := Status.Disconnected), now)
    else st.(mode := if st.mode == ApSta then Sta else Off)
  }

  function InMode(st: State, m: Mode, now: nat): State {
    var st := st.(mode := m, status := if m == Off then Status.Disconnected else st.status);
    var st := if m == Off then StopAp(StopSta(st, now), now) else st;
    var st := if m in {Sta, ApSta} then StartSta(st, now) else st;
    if m in {Ap, ApSta} then StartAp(st, now) else st
  }

  /** Everything but the started flags, the handlers and the queue. */
  function Reset(st: State): State {
    State(Status.Disconnected, Off, 0, false, false, 0, st.staStarted, st.apStarted, false, 0, st.handlers,
          st.pending, st.queued, st.emitted)
  }

  function Scanned(st: State, async: bool, perChannel: Word, now: nat): State {
    if st.scanning then st
    else if async then
      st.(scanning := true, scanReadyAt := (now + if perChannel == 0 then 1 else perChannel) % TWO32)
    else st.(scanReadyAt := 0)
  }

  function After(st: State, call: Call, now: nat): State {
    match call
    case OnEvent(present) => st.(handlers := present)
    case Begin(network, hostIp) => Begun(st, network, hostIp, now)
    case Config(ip) => st.(localIp := ip, staticIp := true)
    case Disconnect(off) => Left(st, off, now)
    case SoftAp => ApBegun(st, now)
    case SoftApDisconnect(off) => ApLeft(st, off, now)
    case SetMode(m) => InMode(st, m, now)
    case EnableSta(enable) =>
      st.(mode := if enable then (if st.mode == Ap then ApSta else Sta) else if st.mode == ApSta then Ap else Off)
    case EnableAp(enable) =>
      st.(mode := if enable then (if st.mode == Sta then ApSta else Ap) else if st.mode == ApSta then Sta else Off)
    case Scan(async, perChannel) => Scanned(st, async, perChannel, now)
    case ScanComplete => FinishScan(st, now)
    case ScanDelete => st.(scanning := false, scanReadyAt := 0)
    case MockReset => Reset(st)
    case Pass => EmitHead(FinishScan(st, now), now)
  }

  function Run(ops: seq<Timed>): State {
    if ops == [] then FRESH
    else After(Run(ops[..|ops| - 1]), ops[|ops| - 1].call, ops[|ops| - 1].now)
  }

  // ---------------------------------------------------------------- order and time

  /** Every event handed out or waiting is one that was queued, in the order of queuing, and was not
      handed out before the due time kept for it. */
  ghost predicate InOrder(queued: seq<Queued>, emitted: seq<Emitted>, pending: seq<Pending>) {
    && |queued| == |emitted| + |pending|
    && (forall i :: 0 <= i < |emitted| ==>
          emitted[i].kind == queued[i].kind && emitted[i].at >= (queued[i].at + queued[i].delay) % TWO32)
    && (forall i :: 0 <= i < |pending| ==> pending[i] == Entry(queued[|emitted| + i]))
  }

  ghost predicate Fifo(st: State) {
    InOrder(st.queued, st.emitted, st.pending)
  }

  function Entry(q: Queued): Pending {
    Pending(q.kind, (q.at + q.delay) % TWO32)
  }

  lemma QueueKeepsFifo(st: State, k: Kind, delay: Word, now: nat)
    requires Fifo(st)
    ensures Fifo(Queue(st, k, delay, now))
  {
  }

  lemma EmitKeepsFifo(st: State, now: nat)
    requires Fifo(st)
    ensures Fifo(EmitHead(st, now))
  {
    if st.pending != [] {
      assert st.pending[0] == Entry(st.queued[|st.emitted|]);
    }
  }

  lemma SwitchesKeepFifo(now: nat)
    ensures forall st: State :: Fifo(st) ==> Fifo(StartSta(st, now))
    ensures forall st: State :: Fifo(st) ==> Fifo(StopSta(st, now))
    ensures forall st: State :: Fifo(st) ==> Fifo(StartAp(st, now))
    ensures forall st: State :: Fifo(st) ==> Fifo(StopAp(st, now))
  {
    hide Queue, InOrder;
    forall st: State, k, delay | Fifo(st) ensures Fifo(Queue(st, k, delay, now)) {
      QueueKeepsFifo(st, k, delay, now);
    }
  }

  lemma AnnounceKeepsFifo(st: State, now: nat)
    requires Fifo(st)
    ensures Fifo(Announce(st, now))
  {
    hide InOrder;
    QueueKeepsFifo(st, StaDisconnected, 2, now);
    QueueKeepsFifo(st, StaConnected, 2, now);
    QueueKeepsFifo(Queue(st, StaConnected, 2, now), StaGotIp, 4, now);
  }

  lemma BegunKeepsFifo(st: State, network: Network, hostIp: nat, now: nat)
    requires Fifo(st)
    ensures Fifo(Begun(st, network, hostIp, now))
  {
    SwitchesKeepFifo(now);
    hide Queue, InOrder, Announce, StartSta;
    var st' := StartSta(st.(mode := if st.apEnabled then ApSta else Sta), now);
    AnnounceKeepsFifo(Attempt(st', network, hostIp), now);
  }

  lemma LeavingKeepsFifo(st: State, off: bool, now: nat)
    requires Fifo(st)
    ensures Fifo(Left(st, off, now)) && Fifo(ApLeft(st, off, now))
  {
    SwitchesKeepFifo(now);
    hide Queue, InOrder, StopSta, StopAp;
    QueueKeepsFifo(st, StaDisconnected, 0, now);
  }

  lemma InModeKeepsFifo(st: State, m: Mode, now: nat)
    requires Fifo(st)
    ensures Fifo(InMode(st, m, now))
  {
    SwitchesKeepFifo(now);
    hide InOrder, StartSta, StopSta, StartAp, StopAp;
  }

  lemma FinishScanKeepsFifo(st: State, now: nat)
    requires Fifo(st)
    ensures Fifo(FinishScan(st, now))
  {
    hide Queue, InOrder, Due;
    QueueKeepsFifo(st.(scanning := false), ScanDone, 0, now);
  }

  lemma CallKeepsFifo(st: State, call: Call, now: nat)
    requires Fifo(st)
    ensures Fifo(After(st, call, now))
  {
    hide EmitHead, InOrder, Begun, Left, ApLeft, InMode, StartAp, FinishScan;
    match call {
      case Begin(network, hostIp) => BegunKeepsFifo(st, network, hostIp, now);
      case Disconnect(off) => LeavingKeepsFifo(st, off, now);
      case SoftApDisconnect(off) => LeavingKeepsFifo(st, off, now);
      case SoftAp => SwitchesKeepFifo(now);
      case SetMode(m) => InModeKeepsFifo(st, m, now);
      case ScanComplete => FinishScanKeepsFifo(st, now);
      case Pass =>
        FinishScanKeepsFifo(st, now);
        EmitKeepsFifo(FinishScan(st, now), now);
      case _ =>
    }
  }

  lemma {:induction false} RunIsFifo(ops: seq<Timed>)
    ensures Fifo(Run(ops))
  {
    if ops != [] {
      var front, op := ops[..|ops| - 1], ops[|ops| - 1];
      RunIsFifo(front);
      CallKeepsFifo(Run(front), op.call, op.now);
      hide After, InOrder;
    }
  }

  function QueuedKinds(qs: seq<Queued>): (ks: seq<Kind>)
    ensures |ks| == |qs| && forall i :: 0 <= i < |qs| ==> ks[i] == qs[i].kind
  {
    seq(|qs|, i requires 0 <= i < |qs| => qs[i].kind)
  }

  function EmittedKinds(es: seq<Emitted>): (ks: seq<Kind>)
    ensures |ks| == |es| && forall i :: 0 <= i < |es| ==> ks[i] == es[i].kind
  {
    seq(|es|, i requires 0 <= i < |es| => es[i].kind)
  }

  function PendingKinds(ps: seq<Pending>): (ks: seq<Kind>)
    ensures |ks| == |ps| && forall i :: 0 <= i < |ps| ==> ks[i] == ps[i].kind
  {
    seq(|ps|, i requires 0 <= i < |ps| => ps[i].kind)
  }

  /** No event is lost, doubled or overtaken. */
  lemma NoEventIsLost(ops: seq<Timed>)
    ensures var st := Run(ops);
            EmittedKinds(st.emitted) + PendingKinds(st.pending) == QueuedKinds(st.queued)
  {
    RunIsFifo(ops);
    var st := Run(ops);
    hide Run;
    var all := EmittedKinds(st.emitted) + PendingKinds(st.pending);
    forall i | 0 <= i < |st.queued| ensures all[i] == st.queued[i].kind {
      if i >= |st.emitted| {
        assert st.pending[i - |st.emitted|] == Entry(st.queued[i]);
      }
    }
  }

  /** The due time is respected just when it fits 32 bits; an event whose due time does not fit is
      due at once. */
  lemma DueIff(at: nat, delay: Word, now: nat)
    requires now >= at
    ensures Due((at + delay) % TWO32, now) <==> now >= at + delay || at + delay >= TWO32
  {
    if at + delay >= TWO32 {
      var q := (at + delay) / TWO32;
      assert at + delay == TWO32 * q + (at + delay) % TWO32 && q >= 1;
    }
  }

  /** No event is handed out before its time while the clock is below 2^32 ms. */
  lemma NeverEarly(ops: seq<Timed>, i: nat)
    requires i < |Run(ops).emitted|
    ensures var st := Run(ops);
            |st.emitted| <= |st.queued|
            && (st.queued[i].at + st.queued[i].delay < TWO32
                ==> st.emitted[i].at >= st.queued[i].at + st.queued[i].delay)
  {
    RunIsFifo(ops);
    hide Run;
  }

  function Passes(st: State, n: nat, now: nat): State
    decreases n
  {
    if n == 0 then st else Passes(EmitHead(st, now), n - 1, now)
  }

  /** Nothing gets stuck: once everything waiting is due, each pass hands out one event, and as many
      passes as there are events hand them all out. */
  lemma {:induction false} PassesDrainQueue(st: State, now: nat)
    requires forall i :: 0 <= i < |st.pending| ==> Due(st.pending[i].dueAt, now)
    ensures var st' := Passes(st, |st.pending|, now);
            && st'.pending == [] && st'.queued == st.queued
            && EmittedKinds(st'.emitted) == EmittedKinds(st.emitted) + PendingKinds(st.pending)
    decreases |st.pending|
  {
    if st.pending != [] {
      var next := EmitHead(st, now);
      assert next.queued == st.queued && next.pending == st.pending[1..];
      assert next.emitted == st.emitted + [Emitted(st.pending[0].kind, now)];
      hide EmitHead, Due;
      PassesDrainQueue(next, now);
      var e, k, p := EmittedKinds(st.emitted), [st.pending[0].kind], PendingKinds(next.pending);
      assert PendingKinds(st.pending) == k + p;
      assert EmittedKinds(next.emitted) == e + k;
      Assoc(e, k, p);
    }
  }

  lemma RunSnoc(ops: seq<Timed>, t: Timed)
    ensures Run(ops + [t]) == After(Run(ops), t.call, t.now)
    ensures Run([]) == FRESH
  {
    hide After;
    assert (ops + [t])[..|ops|] == ops;
  }

  lemma RunOfThree(t1: Timed, t2: Timed, t3: Timed)
    ensures Run([t1, t2, t3]) == After(After(After(FRESH, t1.call, t1.now), t2.call, t2.now), t3.call, t3.now)
  {
    hide *;
    RunSnoc([], t1);
    RunSnoc([t1], t2);
    RunSnoc([t1, t2], t3);
    assert [] + [t1] == [t1] && [t1] + [t2] == [t1, t2] && [t1, t2] + [t3] == [t1, t2, t3];
  }

  /** A station that was started at time 0 and announced. */
  const STARTED: State := FRESH.(handlers := true, mode := Sta, staStarted := true,
                                 queued := [Queued(StaStart, 0, 0)], emitted := [Emitted(StaStart, 0)])

  lemma StationStarts()
    ensures Run([Timed(OnEvent(true), 0), Timed(SetMode(Sta), 0), Timed(Pass, 0)]) == STARTED
  {
    RunOfThree(Timed(OnEvent(true), 0), Timed(SetMode(Sta), 0), Timed(Pass, 0));
    hide Run;
    var st := InMode(FRESH.(handlers := true), Sta, 0);
    assert st.pending == [Pending(StaStart, 0)];
    assert FinishScan(st, 0) == st;
  }

  lemma JoinAtWrap()
    ensures var st := After(After(STARTED, Begin(Joinable, 1), TWO32 - 1), Pass, TWO32 - 1);
            && |st.emitted| == 2 && st.emitted[1] == Emitted(StaConnected, TWO32 - 1)
            && |st.queued| == 3 && st.queued[1] == Queued(StaConnected, TWO32 - 1, 2)
  {
    var st := Attempt(STARTED, Joinable, 1);
    var st' := Announce(st, TWO32 - 1);
    assert Begun(STARTED, Joinable, 1, TWO32 - 1) == st';
    hide Begun, Attempt;
    assert st'.pending[0] == Pending(StaConnected, 1) && FinishScan(st', TWO32 - 1) == st';
  }

  /** Beyond that it can be: this run joins a network and is told at once that it is connected. */
  lemma EarlyAfterWrap()
    ensures var st := Run([Timed(OnEvent(true), 0), Timed(SetMode(Sta), 0), Timed(Pass, 0)]
                          + [Timed(Begin(Joinable, 1), TWO32 - 1)] + [Timed(Pass, TWO32 - 1)]);
            && |st.emitted| == 2 && st.emitted[1] == Emitted(StaConnected, TWO32 - 1)
            && |st.queued| == 3 && st.queued[1] == Queued(StaConnected, TWO32 - 1, 2)
  {
    hide *;
    var ops := [Timed(OnEvent(true), 0), Timed(SetMode(Sta), 0), Timed(Pass, 0)];
    StationStarts();
    RunSnoc(ops, Timed(Begin(Joinable, 1), TWO32 - 1));
    RunSnoc(ops + [Timed(Begin(Joinable, 1), TWO32 - 1)], Timed(Pass, TWO32 - 1));
    JoinAtWrap();
  }

  // ---------------------------------------------------------------- what a handler hears

  /** Of the events `start` and `stop`, the last in t is a start. */
  function On(t: seq<Kind>, start: Kind, stop: Kind): bool {
    t != [] && (t[|t| - 1] == start || (t[|t| - 1] != stop && On(t[..|t| - 1], start, stop)))
  }

  function StaOn(t: seq<Kind>): bool {
    On(t, StaStart, StaStop)
  }

  function ApOn(t: seq<Kind>): bool {
    On(t, ApStart, ApStop)
  }

  /** Event k may come after the events t: a start only when stopped; a stop, a connection or a
      disconnection only when started; an address only right behind a connection. */
  predicate MayFollow(t: seq<Kind>, k: Kind) {
    match k
    case StaStart => !StaOn(t)
    case StaStop => StaOn(t)
    case StaConnected => StaOn(t)
    case StaDisconnected => StaOn(t)
    case StaGotIp => t != [] && t[|t| - 1] == StaConnected
    case ApStart => !ApOn(t)
    case ApStop => ApOn(t)
    case ScanDone => true
  }

  ghost predicate Orderly(t: seq<Kind>) {
    forall i :: 0 <= i < |t| ==> MayFollow(t[..i], t[i])
  }

  lemma OrderlySnoc(t: seq<Kind>, k: Kind)
    requires Orderly(t) && MayFollow(t, k)
    ensures Orderly(t + [k])
    ensures StaOn(t + [k]) == (k == StaStart || (k != StaStop && StaOn(t)))
    ensures ApOn(t + [k]) == (k == ApStart || (k != ApStop && ApOn(t)))
  {
    var all := t + [k];
    assert all[..|t|] == t;
    forall i | 0 <= i < |all| ensures MayFollow(all[..i], all[i]) {
      if i < |t| {
        assert all[..i] == t[..i];
      }
    }
  }

  /** The started flags tell what has been queued, and that is orderly. */
  ghost predicate Told(st: State) {
    var t := QueuedKinds(st.queued);
    st.handlers && Orderly(t) && StaOn(t) == st.staStarted && ApOn(t) == st.apStarted
  }

  /** Queuing an event that may follow, with the flags set as the event says. */
  lemma QueueTells(before: State, st: State, k: Kind, delay: Word, now: nat)
    requires Told(before) && st.queued == before.queued && st.handlers
    requires MayFollow(QueuedKinds(before.queued), k)
    requires st.staStarted == (k == StaStart || (k != StaStop && before.staStarted))
    requires st.apStarted == (k == ApStart || (k != ApStop && before.apStarted))
    ensures Told(Queue(st, k, delay, now))
    ensures QueuedKinds(Queue(st, k, delay, now).queued) == QueuedKinds(before.queued) + [k]
  {
    var t := QueuedKinds(before.queued);
    OrderlySnoc(t, k);
    var after := Queue(st, k, delay, now);
    assert after.queued[..|before.queued|] == before.queued;
    assert QueuedKinds(after.queued) == t + [k];
    hide Orderly, StaOn, ApOn, MayFollow, QueuedKinds;
  }

  lemma StartStaTells(st: State, now: nat)
    requires Told(st)
    ensures Told(StartSta(st, now)) && StartSta(st, now).staStarted
  {
    if !st.staStarted { QueueTells(st, st.(staStarted := true), StaStart, 0, now); }
    hide Told;
  }

  lemma StopStaTells(st: State, now: nat)
    requires Told(st)
    ensures Told(StopSta(st, now))
  {
    if st.staStarted { QueueTells(st, st.(staStarted := false), StaStop, 0, now); }
    hide Told;
  }

  lemma StartApTells(st: State, now: nat)
    requires Told(st)
    ensures Told(StartAp(st, now))
  {
    if !st.apStarted { QueueTells(st, st.(apStarted := true), ApStart, 0, now); }
    hide Told;
  }

  lemma StopApTells(st: State, now: nat)
    requires Told(st)
    ensures Told(StopAp(st, now))
  {
    if st.apStarted { QueueTells(st, st.(apStarted := false), ApStop, 0, now); }
    hide Told;
  }

  lemma AnnounceTells(st: State, now: nat)
    requires Told(st) && st.staStarted
    ensures Told(Announce(st, now))
  {
    if st.status == Connected {
      QueueTells(st, st, StaConnected, 2, now);
      var st' := Queue(st, StaConnected, 2, now);
      if st'.localIp != 0 {
        QueueTells(st', st', StaGotIp, 4, now);
      }
    } else {
      QueueTells(st, st, StaDisconnected, 2, now);
    }
    hide Told;
  }

  /** Only the record and the flags matter. */
  lemma SameTold(st: State, st': State)
    requires Told(st) && st'.queued == st.queued && st'.handlers
    requires st'.staStarted == st.staStarted && st'.apStarted == st.apStarted
    ensures Told(st')
  {
  }

  lemma AttemptKeepsRecord(st: State, network: Network, hostIp: nat)
    ensures var st' := Attempt(st, network, hostIp);
            && st'.queued == st.queued && st'.handlers == st.handlers
            && st'.staStarted == st.staStarted && st'.apStarted == st.apStarted
  {
  }

  lemma TellingHasHandlers(st: State)
    requires Told(st)
    ensures st.handlers
  {
  }

  lemma BeginTells(st: State, network: Network, hostIp: nat, now: nat)
    requires Told(st)
    ensures Told(Begun(st, network, hostIp, now))
  {
    hide Told, Announce, Attempt, StartSta;
    var st1 := st.(mode := if st.apEnabled then ApSta else Sta);
    TellingHasHandlers(st);
    SameTold(st, st1);
    StartStaTells(st1, now);
    var st2 := StartSta(st1, now);
    TellingHasHandlers(st2);
    AttemptKeepsRecord(st2, network, hostIp);
    SameTold(st2, Attempt(st2, network, hostIp));
    AnnounceTells(Attempt(st2, network, hostIp), now);
  }

  lemma DisconnectTells(st: State, off: bool, now: nat)
    requires Told(st)
    ensures Told(Left(st, off, now))
  {
    var st1 := if st.staStarted then Queue(st, StaDisconnected, 0, now) else st;
    var st2 := st1.(status := Disconnected);
    assert Told(st1) by {
      if st.staStarted { QueueTells(st, st, StaDisconnected, 0, now); }
    }
    hide Told, StopSta, Queue;
    TellingHasHandlers(st1);
    SameTold(st1, st2);
    SameTold(st2, st2.(mode := Off));
    StopStaTells(st2.(mode := Off), now);
  }

  lemma SoftApDisconnectTells(st: State, off: bool, now: nat)
    requires Told(st)
    ensures Told(ApLeft(st, off, now))
  {
    hide Told, StopSta, StopAp;
    var st1 := st.(apEnabled := false);
    TellingHasHandlers(st);
    SameTold(st, st1);
    StopApTells(st1, now);
    var st2 := StopAp(st1, now);
    TellingHasHandlers(st2);
    SameTold(st2, st2.(mode := Off, status := Disconnected));
    StopStaTells(st2.(mode := Off, status := Disconnected), now);
    SameTold(st2, st2.(mode := if st2.mode == ApSta then Sta else Off));
  }

  lemma SetModeTells(st: State, m: Mode, now: nat)
    requires Told(st)
    ensures Told(InMode(st, m, now))
  {
    hide Told, StopSta, StopAp, StartSta, StartAp;
    var st1 := st.(mode := m, status := if m == Off then Disconnected else st.status);
    TellingHasHandlers(st);
    SameTold(st, st1);
    StopStaTells(st1, now);
    StopApTells(StopSta(st1, now), now);
    StartStaTells(st1, now);
    StartApTells(st1, now);
    StartApTells(StartSta(st1, now), now);
  }

  lemma FinishScanTells(st: State, now: nat)
    requires Told(st)
    ensures Told(FinishScan(st, now))
  {
    var st' := st.(scanning := false);
    if st.scanning && Due(st.scanReadyAt, now) { QueueTells(st, st', ScanDone, 0, now); }
    hide Told;
  }

  lemma EmitHeadTells(st: State, now: nat)
    requires Told(st)
    ensures Told(EmitHead(st, now))
  {
    TellingHasHandlers(st);
    hide Told;
    SameTold(st, EmitHead(st, now));
  }

  /** The calls that neither start nor stop anything nor queue an event. */
  predicate IsQuiet(call: Call) {
    match call
    case OnEvent(present) => present
    case Config(_) => true
    case EnableSta(_) => true
    case EnableAp(_) => true
    case Scan(_, _) => true
    case ScanDelete => true
    case MockReset => true
    case _ => false
  }

  lemma QuietCallKeepsRecord(st: State, call: Call, now: nat)
    requires IsQuiet(call)
    ensures var st' := After(st, call, now);
            && st'.queued == st.queued && (st.handlers ==> st'.handlers)
            && st'.staStarted == st.staStarted && st'.apStarted == st.apStarted
  {
    hide Begun, Left, ApBegun, ApLeft, InMode, FinishScan, EmitHead;
    match call {
      case Scan(async, perChannel) => ScanKeepsRecord(st, async, perChannel, now);
      case MockReset => hide Scanned;
      case _ => hide Scanned, Reset;
    }
  }

  lemma ScanKeepsRecord(st: State, async: bool, perChannel: Word, now: nat)
    ensures var st' := Scanned(st, async, perChannel, now);
            && st'.queued == st.queued && st'.handlers == st.handlers
            && st'.staStarted == st.staStarted && st'.apStarted == st.apStarted
  {
  }

  /** Every call keeps the started flags in agreement with what has been queued, and that orderly. */
  lemma CallTells(st: State, call: Call, now: nat)
    requires Told(st) && call != OnEvent(false)
    ensures Told(After(st, call, now))
  {
    TellingHasHandlers(st);
    hide Told, Begun, Left, ApLeft, InMode, StartAp, EmitHead, FinishScan;
    if IsQuiet(call) {
      QuietCallKeepsRecord(st, call, now);
      hide After;
      SameTold(st, After(st, call, now));
    } else {
      match call {
        case Begin(network, hostIp) => BeginTells(st, network, hostIp, now);
        case Disconnect(off) => DisconnectTells(st, off, now);
        case SoftAp => ApBegunTells(st, now);
        case SoftApDisconnect(off) => SoftApDisconnectTells(st, off, now);
        case SetMode(m) => SetModeTells(st, m, now);
        case ScanComplete => FinishScanTells(st, now);
        case Pass =>
          FinishScanTells(st, now);
          EmitHeadTells(FinishScan(st, now), now);
        case _ =>
      }
    }
  }

  lemma ApBegunTells(st: State, now: nat)
    requires Told(st)
    ensures Told(ApBegun(st, now))
  {
    hide Told, StartAp;
    var st' := st.(apEnabled := true, mode := if st.mode in {Sta, ApSta} then ApSta else Ap);
    TellingHasHandlers(st);
    SameTold(st, st');
    StartApTells(st', now);
  }

  /** A handler is there from the first call on. */
  ghost predicate HeardThroughout(ops: seq<Timed>) {
    |ops| > 0 && ops[0].call == OnEvent(true) && forall i :: 0 <= i < |ops| ==> ops[i].call != OnEvent(false)
  }

  lemma {:induction false} RunTells(ops: seq<Timed>)
    requires HeardThroughout(ops)
    ensures Told(Run(ops))
  {
    var n := |ops| - 1;
    if n == 0 {
      assert ops[..0] == [];
      assert Run(ops[..0]) == FRESH;
      assert Run(ops) == FRESH.(handlers := true);
      assert QueuedKinds([]) == [];
    } else {
      RunTells(ops[..n]);
      CallTells(Run(ops[..n]), ops[n].call, ops[n].now);
      hide Told, After;
    }
  }

  lemma PrefixIsOrderly(t: seq<Kind>, more: seq<Kind>)
    requires Orderly(t + more)
    ensures Orderly(t)
  {
    hide MayFollow;
    forall i | 0 <= i < |t| ensures MayFollow(t[..i], t[i]) {
      assert (t + more)[..i] == t[..i] && (t + more)[i] == t[i];
    }
  }

  /** What a handler hears is orderly, mockReset() or not: starts and stops of the station and of the
      access point alternate, beginning with a start, connections come in between, and an address
      directly after its connection. */
  lemma HandlerHearsOrderly(ops: seq<Timed>)
    requires HeardThroughout(ops)
    ensures Orderly(EmittedKinds(Run(ops).emitted))
    ensures Orderly(QueuedKinds(Run(ops).queued))
  {
    RunTells(ops);
    hide Run;
    var st := Run(ops);
    assert Orderly(QueuedKinds(st.queued));
    hide *;
    NoEventIsLost(ops);
    PrefixIsOrderly(EmittedKinds(st.emitted), PendingKinds(st.pending));
  }

  /** Alternation, spelled out: of two station events with none between them one is a start and the
      other a stop, and the first of all is a start; so too for the access point. */
  lemma Alternates(t: seq<Kind>, start: Kind, stop: Kind, i: int, j: nat)
    requires (start == StaStart && stop == StaStop) || (start == ApStart && stop == ApStop)
    requires Orderly(t) && -1 <= i < j < |t|
    requires t[j] in {start, stop} && (i >= 0 ==> t[i] in {start, stop})
    requires forall k :: i < k < j ==> t[k] !in {start, stop}
    ensures t[j] == if i >= 0 && t[i] == start then stop else start
  {
    Quiet(t, start, stop, i + 1, j);
    assert MayFollow(t[..j], t[j]);
    if i >= 0 {
      assert t[..i + 1][..i] == t[..i];
    }
  }

  lemma {:induction false} Quiet(t: seq<Kind>, start: Kind, stop: Kind, i: nat, j: nat)
    requires i <= j <= |t| && forall k :: i <= k < j ==> t[k] !in {start, stop}
    ensures On(t[..j], start, stop) == On(t[..i], start, stop)
    decreases j
  {
    if i < j {
      Quiet(t, start, stop, i, j - 1);
      assert t[..j][..j - 1] == t[..j - 1];
    }
  }

  /** Without a handler at the start events are dropped, so the first one heard may be a stop. */
  lemma LateHandlerMissesStart()
    ensures var ops := [Timed(SetMode(Sta), 0), Timed(OnEvent(true), 0), Timed(SetMode(Off), 0)];
            QueuedKinds(Run(ops).queued) == [StaStop]
    ensures !Orderly([StaStop])
  {
    RunOfThree(Timed(SetMode(Sta), 0), Timed(OnEvent(true), 0), Timed(SetMode(Off), 0));
    hide Run;
    var st := InMode(FRESH, Sta, 0);
    assert st == FRESH.(mode := Sta, staStarted := true);
    var st' := InMode(st.(handlers := true), Off, 0);
    assert st'.queued == [Queued(StaStop, 0, 0)];
    hide InMode;
    assert st'.queued[..0] == [];
    assert !MayFollow([StaStop][..0], [StaStop][0]);
  }

  /** No handler is registered by these calls. */
  ghost predicate NoneRegistered(ops: seq<Timed>) {
    forall i :: 0 <= i < |ops| ==> ops[i].call != OnEvent(true)
  }

  ghost predicate NoneRemoved(ops: seq<Timed>) {
    forall i :: 0 <= i < |ops| ==> ops[i].call != OnEvent(false)
  }

  /** A state in which nobody listens and nothing has been queued. */
  predicate Silent(st: State) {
    !st.handlers && st.queued == []
  }

  lemma SwitchesStaySilent(st: State, now: nat)
    requires Silent(st)
    ensures Silent(StartSta(st, now)) && Silent(StopSta(st, now)) && Silent(StartAp(st, now)) && Silent(StopAp(st, now))
    ensures Silent(Announce(st, now)) && Silent(FinishScan(st, now)) && Silent(EmitHead(st, now))
  {
  }

  lemma BegunStaysSilent(st: State, network: Network, hostIp: nat, now: nat)
    requires Silent(st)
    ensures Silent(Begun(st, network, hostIp, now))
  {
    hide StartSta, Announce;
    var st1 := StartSta(st.(mode := if st.apEnabled then ApSta else Sta), now);
    SwitchesStaySilent(st.(mode := if st.apEnabled then ApSta else Sta), now);
    SwitchesStaySilent(Attempt(st1, network, hostIp), now);
  }

  lemma InModeStaysSilent(st: State, m: Mode, now: nat)
    requires Silent(st)
    ensures Silent(InMode(st, m, now))
  {
    hide StartSta, StopSta, StartAp, StopAp;
    var st1 := st.(mode := m, status := if m == Off then Disconnected else st.status);
    SwitchesStaySilent(st1, now);
    SwitchesStaySilent(StopSta(st1, now), now);
    SwitchesStaySilent(StartSta(st1, now), now);
  }

  lemma LeavingStaysSilent(st: State, off: bool, now: nat)
    requires Silent(st)
    ensures Silent(Left(st, off, now)) && Silent(ApLeft(st, off, now)) && Silent(ApBegun(st, now))
  {
    hide StopSta, StopAp, StartAp;
    var st1 := st.(status := Status.Disconnected);
    assert Queue(st, StaDisconnected, 0, now) == st;
    SwitchesStaySilent(st1.(mode := Off), now);
    var st2 := st.(apEnabled := false);
    SwitchesStaySilent(st2, now);
    var st3 := StopAp(st2, now);
    SwitchesStaySilent(st3.(mode := Off, status := Status.Disconnected), now);
    SwitchesStaySilent(st.(apEnabled := true, mode := if st.mode in {Sta, ApSta} then ApSta else Ap), now);
  }

  lemma CallStaysSilent(st: State, call: Call, now: nat)
    requires Silent(st) && call != OnEvent(true)
    ensures Silent(After(st, call, now))
  {
    hide Begun, Left, ApLeft, ApBegun, InMode, EmitHead, FinishScan;
    match call {
      case Begin(network, hostIp) => BegunStaysSilent(st, network, hostIp, now);
      case Disconnect(off) => LeavingStaysSilent(st, off, now);
      case SoftAp => LeavingStaysSilent(st, false, now);
      case SoftApDisconnect(off) => LeavingStaysSilent(st, off, now);
      case SetMode(m) => InModeStaysSilent(st, m, now);
      case ScanComplete => SwitchesStaySilent(st, now);
      case Pass =>
        SwitchesStaySilent(st, now);
        SwitchesStaySilent(FinishScan(st, now), now);
      case _ =>
    }
  }

  lemma {:induction false} NobodyListens(ops: seq<Timed>)
    requires NoneRegistered(ops)
    ensures Silent(Run(ops))
  {
    if ops != [] {
      var n := |ops| - 1;
      NobodyListens(ops[..n]);
      CallStaysSilent(Run(ops[..n]), ops[n].call, ops[n].now);
      hide After;
    }
  }

  lemma {:induction false} TellsOn(ops: seq<Timed>, rest: seq<Timed>)
    requires Told(Run(ops)) && NoneRemoved(rest)
    ensures Told(Run(ops + rest))
    decreases |rest|
  {
    hide Told, After, Run;
    if rest == [] {
      assert ops + rest == ops;
    } else {
      var n := |rest| - 1;
      TellsOn(ops, rest[..n]);
      RunSnoc(ops + rest[..n], rest[n]);
      assert ops + rest[..n] + [rest[n]] == ops + rest;
      CallTells(Run(ops + rest[..n]), rest[n].call, rest[n].now);
    }
  }

  /** Whatever is called afterwards, what a handler registered then is told is orderly. */
  ghost predicate SafeToRegister(before: seq<Timed>, now: nat) {
    forall rest: seq<Timed> :: NoneRemoved(rest) ==>
      Orderly(QueuedKinds(Run(before + [Timed(OnEvent(true), now)] + rest).queued))
  }

  /** A first handler is told an orderly sequence, whatever is called afterwards, just when neither the
      station nor the access point is started as it is registered. */
  lemma SafeToRegisterIff(before: seq<Timed>, now: nat)
    requires NoneRegistered(before)
    ensures SafeToRegister(before, now) <==> !Run(before).staStarted && !Run(before).apStarted
  {
    var t := Timed(OnEvent(true), now);
    NobodyListens(before);
    RunSnoc(before, t);
    hide Run;
    var st := Run(before + [t]);
    assert st == Run(before).(handlers := true);
    if !st.staStarted && !st.apStarted {
      NothingToldYet(st);
      forall rest: seq<Timed> | NoneRemoved(rest) ensures Orderly(QueuedKinds(Run(before + [t] + rest).queued)) {
        TellsOn(before + [t], rest);
      }
    } else {
      StopIsToldFirst(st, now);
      RunSnoc(before + [t], Timed(SetMode(Off), now));
      assert NoneRemoved([Timed(SetMode(Off), now)]);
    }
  }

  lemma NothingToldYet(st: State)
    requires st.handlers && st.queued == [] && !st.staStarted && !st.apStarted
    ensures Told(st)
  {
  }

  lemma StopIsToldFirst(st: State, now: nat)
    requires st.handlers && st.queued == [] && (st.staStarted || st.apStarted)
    ensures !Orderly(QueuedKinds(After(st, SetMode(Off), now).queued))
  {
    var st' := InMode(st, Off, now);
    var ks := QueuedKinds(st'.queued);
    assert ks[0] == if st.staStarted then StaStop else ApStop;
    hide InMode;
    assert ks[..0] == [];
    assert !MayFollow(ks[..0], ks[0]);
  }

  // ---------------------------------------------------------------- status and address

  /** Attempts to join the flappy network since the last mockReset(). */
  function FlappyBegins(ops: seq<Timed>): nat {
    if ops == [] then 0
    else
      var n := FlappyBegins(ops[..|ops| - 1]);
      match ops[|ops| - 1].call
      case Begin(Flappy, _) => n + 1
      case MockReset => 0
      case _ => n
  }

  /** The address set by config() and not forgotten by mockReset(). */
  function StaticAddress(ops: seq<Timed>): Option<nat> {
    if ops == [] then None
    else
      match ops[|ops| - 1].call
      case Config(ip) => Some(ip)
      case MockReset => None
      case _ => StaticAddress(ops[..|ops| - 1])
  }

  /** What begin() answers for a network after these calls: by its name, and for the flappy one by turns. */
  function Answer(before: seq<Timed>, network: Network): Status {
    match network
    case Joinable => Connected
    case NoIp => Connected
    case BadPass => ConnectFailed
    case Timeout => ConnectionLost
    case Unknown => NoSsidAvail
    case Flappy => if FlappyBegins(before) % 2 == 0 then Connected else ConnectFailed
  }

  /** The address got from the host: by the last begin(), if it was let in and given one. */
  function Lease(ops: seq<Timed>): nat {
    if ops == [] then 0
    else
      var before := ops[..|ops| - 1];
      match ops[|ops| - 1].call
      case Begin(network, hostIp) => if Answer(before, network) == Connected && network != NoIp then hostIp else 0
      case MockReset => 0
      case _ => Lease(before)
  }

  /** The status after these calls: what the last begin() answered, unless the station was left since. */
  function StatusAfter(ops: seq<Timed>): Status {
    if ops == [] then Status.Disconnected
    else
      var before := ops[..|ops| - 1];
      match ops[|ops| - 1].call
      case Begin(network, _) => Answer(before, network)
      case Disconnect(_) => Status.Disconnected
      case SoftApDisconnect(true) => Status.Disconnected
      case SetMode(Off) => Status.Disconnected
      case MockReset => Status.Disconnected
      case _ => StatusAfter(before)
  }

  /** The fields that say how the station is connected. */
  datatype Link = Link(status: Status, localIp: nat, staticIp: bool, flappyCounter: nat)

  function LinkOf(st: State): Link {
    Link(st.status, st.localIp, st.staticIp, st.flappyCounter)
  }

  /** What a call makes of them. */
  function LinkAfter(l: Link, call: Call): Link {
    match call
    case Begin(network, hostIp) => LinkOf(Attempt(FRESH.(localIp := l.localIp, staticIp := l.staticIp,
                                                        flappyCounter := l.flappyCounter), network, hostIp))
    case Config(ip) => l.(localIp := ip, staticIp := true)
    case Disconnect(_) => l.(status := Status.Disconnected)
    case SoftApDisconnect(off) => if off then l.(status := Status.Disconnected) else l
    case SetMode(m) => if m == Off then l.(status := Status.Disconnected) else l
    case MockReset => Link(Status.Disconnected, 0, false, 0)
    case _ => l
  }

  /** Queuing leaves status and address alone. */
  ghost predicate SameNetwork(st: State, st': State) {
    LinkOf(st') == LinkOf(st)
  }

  lemma SwitchesKeepNetwork(st: State, now: nat)
    ensures SameNetwork(st, StartSta(st, now)) && SameNetwork(st, StopSta(st, now))
    ensures SameNetwork(st, StartAp(st, now)) && SameNetwork(st, StopAp(st, now))
    ensures SameNetwork(st, Announce(st, now)) && SameNetwork(st, FinishScan(st, now))
    ensures SameNetwork(st, EmitHead(st, now)) && SameNetwork(st, Queue(st, StaDisconnected, 0, now))
  {
  }

  lemma AttemptIsLink(st: State, network: Network, hostIp: nat)
    ensures LinkOf(Attempt(st, network, hostIp)) == LinkAfter(LinkOf(st), Begin(network, hostIp))
  {
    hide AttemptStatus;
  }

  lemma BegunIsLink(st: State, network: Network, hostIp: nat, now: nat)
    ensures LinkOf(Begun(st, network, hostIp, now)) == LinkAfter(LinkOf(st), Begin(network, hostIp))
  {
    var st0 := st.(mode := if st.apEnabled then ApSta else Sta);
    SwitchesKeepNetwork(st0, now);
    var st1 := StartSta(st0, now);
    AttemptIsLink(st1, network, hostIp);
    SwitchesKeepNetwork(Attempt(st1, network, hostIp), now);
    hide StartSta, Announce, Attempt, LinkAfter;
  }

  lemma LeavingNetwork(st: State, off: bool, now: nat)
    ensures SameNetwork(st.(status := Status.Disconnected), Left(st, off, now))
    ensures SameNetwork(if off then st.(status := Status.Disconnected) else st, ApLeft(st, off, now))
  {
  }

  lemma InModeNetwork(st: State, m: Mode, now: nat)
    ensures SameNetwork(if m == Off then st.(status := Status.Disconnected) else st, InMode(st, m, now))
  {
  }

  lemma PassNetwork(st: State, now: nat)
    ensures SameNetwork(st, EmitHead(FinishScan(st, now), now))
  {
  }

  /** The calls that switch the station or the access point. */
  lemma SwitchIsLink(st: State, call: Call, now: nat)
    requires call.Disconnect? || call.SoftApDisconnect? || call.SetMode? || call.SoftAp?
    ensures LinkOf(After(st, call, now)) == LinkAfter(LinkOf(st), call)
  {
    hide Left, ApLeft, InMode, StartAp, Attempt;
    match call {
      case Disconnect(off) => LeavingNetwork(st, off, now);
      case SoftApDisconnect(off) => LeavingNetwork(st, off, now);
      case SetMode(m) => InModeNetwork(st, m, now);
      case SoftAp =>
        SwitchesKeepNetwork(st.(apEnabled := true, mode := if st.mode in {Sta, ApSta} then ApSta else Ap), now);
    }
  }

  /** The calls that set fields, or hand out events. */
  lemma OtherIsLink(st: State, call: Call, now: nat)
    requires !(call.Begin? || call.Disconnect? || call.SoftApDisconnect? || call.SetMode? || call.SoftAp?)
    ensures LinkOf(After(st, call, now)) == LinkAfter(LinkOf(st), call)
  {
    hide EmitHead, FinishScan, Begun, Left, ApLeft, InMode, ApBegun, Attempt;
    match call {
      case ScanComplete => SwitchesKeepNetwork(st, now);
      case Pass => PassNetwork(st, now);
      case _ =>
    }
  }

  lemma CallIsLink(st: State, call: Call, now: nat)
    ensures LinkOf(After(st, call, now)) == LinkAfter(LinkOf(st), call)
  {
    if call.Begin? {
      assert After(st, call, now) == Begun(st, call.network, call.hostIp, now);
      hide *;
      BegunIsLink(st, call.network, call.hostIp, now);
    } else {
      hide *;
      if call.Disconnect? || call.SoftApDisconnect? || call.SetMode? || call.SoftAp? {
        SwitchIsLink(st, call, now);
      } else {
        OtherIsLink(st, call, now);
      }
    }
  }

  /** What is to be expected of these fields. */
  function Expected(ops: seq<Timed>): Link {
    Link(StatusAfter(ops), match StaticAddress(ops) case Some(ip) => ip case None => Lease(ops),
         StaticAddress(ops).Some?, FlappyBegins(ops))
  }

  lemma ExpectedNext(ops: seq<Timed>)
    requires ops != []
    ensures Expected(ops) == LinkAfter(Expected(ops[..|ops| - 1]), ops[|ops| - 1].call)
  {
  }

  /** Over every run: begin() answers as the name of the network says, the flappy one by turns; a static
      address is kept whatever happens; otherwise the address is the one got from the host, or none. */
  lemma {:induction false} NetworkIs(ops: seq<Timed>)
    ensures var st := Run(ops);
            && st.status == StatusAfter(ops) && st.flappyCounter == FlappyBegins(ops)
            && (st.staticIp <==> StaticAddress(ops).Some?)
            && st.localIp == match StaticAddress(ops) case Some(ip) => ip case None => Lease(ops)
  {
    assert Expected([]) == LinkOf(FRESH);
    assert Expected(ops) == LinkOf(Run(ops)) by {
      if ops != [] {
        var before, op := ops[..|ops| - 1], ops[|ops| - 1];
        NetworkIs(before);
        hide After, LinkAfter, StatusAfter, StaticAddress, Lease, FlappyBegins;
        CallIsLink(Run(before), op.call, op.now);
        ExpectedNext(ops);
      }
    }
  }

  /** What begin() tells a handler, and when: the start at once, the connection 2 ms later and an address 4 ms
      later, or the disconnection 2 ms later. */
  lemma BeginQueues(before: seq<Timed>, network: Network, hostIp: nat, now: nat)
    requires Run(before).handlers
    ensures var t := Timed(Begin(network, hostIp), now);
            var start := if Run(before).staStarted then [] else [Queued(StaStart, now, 0)];
            var address := match StaticAddress(before)
                           case Some(ip) => ip
                           case None => Lease(before + [t]);
            Run(before + [t]).queued
            == Run(before).queued + start
               + (if Answer(before, network) != Connected then [Queued(StaDisconnected, now, 2)]
                  else if address != 0 then [Queued(StaConnected, now, 2), Queued(StaGotIp, now, 4)]
                  else [Queued(StaConnected, now, 2)])
  {
    var t := Timed(Begin(network, hostIp), now);
    NetworkIs(before);
    NetworkIs(before + [t]);
    RunSnoc(before, t);
    assert (before + [t])[..|before|] == before;
    BegunQueues(Run(before), network, hostIp, now);
    hide Run, Begun, Lease, FlappyBegins;
  }

  lemma BegunQueues(st: State, network: Network, hostIp: nat, now: nat)
    requires st.handlers
    ensures var st' := Begun(st, network, hostIp, now);
            var start := if st.staStarted then [] else [Queued(StaStart, now, 0)];
            st'.queued
            == st.queued + start
               + (if st'.status != Connected then [Queued(StaDisconnected, now, 2)]
                  else if st'.localIp != 0 then [Queued(StaConnected, now, 2), Queued(StaGotIp, now, 4)]
                  else [Queued(StaConnected, now, 2)])
  {
    hide Attempt;
    var st1 := Attempt(StartSta(st.(mode := if st.apEnabled then ApSta else Sta), now), network, hostIp);
    assert st1.queued == st.queued + (if st.staStarted then [] else [Queued(StaStart, now, 0)]) by {
      AttemptQueuesNothing(StartSta(st.(mode := if st.apEnabled then ApSta else Sta), now), network, hostIp);
      assert st.queued + [] == st.queued;
    }
    AttemptQueuesNothing(StartSta(st.(mode := if st.apEnabled then ApSta else Sta), now), network, hostIp);
    hide StartSta;
    assert st1.queued + [Queued(StaConnected, now, 2)] + [Queued(StaGotIp, now, 4)]
           == st1.queued + [Queued(StaConnected, now, 2), Queued(StaGotIp, now, 4)];
  }

  lemma AttemptQueuesNothing(st: State, network: Network, hostIp: nat)
    ensures Attempt(st, network, hostIp).queued == st.queued && Attempt(st, network, hostIp).handlers == st.handlers
  {
  }

  function If(told: bool, k: Kind, now: nat): seq<Queued> {
    if told then [Queued(k, now, 0)] else []
  }

  /** What leaving the station, and starting and leaving the access point, tell a handler, all of it at once. */
  lemma LeavingQueues(st: State, off: bool, now: nat)
    requires st.handlers
    ensures After(st, Disconnect(off), now).queued
            == st.queued + If(st.staStarted, StaDisconnected, now) + If(st.staStarted && off, StaStop, now)
    ensures After(st, SoftAp, now).queued == st.queued + If(!st.apStarted, ApStart, now)
    ensures After(st, SoftApDisconnect(off), now).queued
            == st.queued + If(st.apStarted, ApStop, now) + If(off && st.staStarted, StaStop, now)
  {
    assert forall qs: seq<Queued> :: qs + [] == qs;
  }

  /** What a change of mode tells it: station first, then access point. */
  lemma ModeQueues(st: State, m: Mode, now: nat)
    requires st.handlers
    ensures After(st, SetMode(m), now).queued
            == match m
               case Off => st.queued + If(st.staStarted, StaStop, now) + If(st.apStarted, ApStop, now)
               case Sta => st.queued + If(!st.staStarted, StaStart, now)
               case Ap => st.queued + If(!st.apStarted, ApStart, now)
               case ApSta => st.queued + If(!st.staStarted, StaStart, now) + If(!st.apStarted, ApStart, now)
  {
    assert forall qs: seq<Queued> :: qs + [] == qs;
  }

  /** A scan is announced by the first service that comes no earlier than its time, and not before. */
  lemma ScanIsAnnouncedIff(st: State, perChannel: Word, now: nat, later: nat)
    requires st.handlers && !st.scanning && now + perChannel + 1 < TWO32
    ensures var begun := After(st, Scan(true, perChannel), now);
            var served := After(begun, ScanComplete, later);
            && begun.scanning && begun.queued == st.queued
            && (served.queued == st.queued + [Queued(ScanDone, later, 0)] <==>
                  later >= now + (if perChannel == 0 then 1 else perChannel))
            && (served.scanning <==> served.queued == st.queued)
  {
  }

  predicate HasSta(m: Mode) {
    m == Sta || m == ApSta
  }

  predicate HasAp(m: Mode) {
    m == Ap || m == ApSta
  }

  /** What the other calls make of the two halves of the mode: begin() switches the station on and the access
      point to what softAP() last said; softAP() adds the access point; leaving it drops the station as well
      unless both were on. */
  lemma CallsSetMode(st: State, network: Network, hostIp: nat, off: bool, m: Mode, now: nat)
    ensures var begun := After(st, Begin(network, hostIp), now);
            HasSta(begun.mode) && HasAp(begun.mode) == st.apEnabled == begun.apEnabled
    ensures var up := After(st, SoftAp, now);
            HasAp(up.mode) && HasSta(up.mode) == HasSta(st.mode) && up.apEnabled
    ensures var down := After(st, SoftApDisconnect(off), now);
            && !HasAp(down.mode) && !down.apEnabled
            && (HasSta(down.mode) <==> !off && HasSta(st.mode) && HasAp(st.mode))
    ensures After(st, Disconnect(off), now).mode == if off then Off else st.mode
    ensures After(st, SetMode(m), now).mode == m
  {
    BegunMode(st, network, hostIp, now);
    LeftMode(st, off, now);
    InModeMode(st, m, now);
    hide Begun, Left, ApLeft, InMode, StartAp;
    SwitchesKeepMode(st.(apEnabled := true, mode := if st.mode in {Sta, ApSta} then ApSta else Ap), now);
  }

  ghost predicate SameMode(st: State, st': State) {
    st'.mode == st.mode && st'.apEnabled == st.apEnabled
  }

  lemma SwitchesKeepMode(st: State, now: nat)
    ensures SameMode(st, StartSta(st, now)) && SameMode(st, StopSta(st, now))
    ensures SameMode(st, StartAp(st, now)) && SameMode(st, StopAp(st, now)) && SameMode(st, Announce(st, now))
  {
  }

  lemma BegunMode(st: State, network: Network, hostIp: nat, now: nat)
    ensures SameMode(st.(mode := if st.apEnabled then ApSta else Sta), Begun(st, network, hostIp, now))
  {
    var st0 := st.(mode := if st.apEnabled then ApSta else Sta);
    var st1 := StartSta(st0, now);
    SwitchesKeepMode(st0, now);
    AttemptKeepsMode(st1, network, hostIp);
    SwitchesKeepMode(Attempt(st1, network, hostIp), now);
    hide StartSta, Attempt, Announce;
  }

  lemma LeftMode(st: State, off: bool, now: nat)
    ensures Left(st, off, now).mode == if off then Off else st.mode
    ensures var down := ApLeft(st, off, now);
            !down.apEnabled && down.mode == if !off && st.mode == ApSta then Sta else Off
  {
  }

  lemma InModeMode(st: State, m: Mode, now: nat)
    ensures InMode(st, m, now).mode == m
  {
  }

  lemma AttemptKeepsMode(st: State, network: Network, hostIp: nat)
    ensures var st' := Attempt(st, network, hostIp); st'.mode == st.mode && st'.apEnabled == st.apEnabled
  {
  }

  /** enableSTA() and enableAP() switch their own half of the mode, and leave the other half alone unless it
      is on and their own already is as asked for. */
  lemma EnableKeepsOtherIff(st: State, enable: bool, now: nat)
    ensures var sta, ap := After(st, EnableSta(enable), now).mode, After(st, EnableAp(enable), now).mode;
            && HasSta(sta) == enable && HasAp(ap) == enable
            && (HasAp(sta) == HasAp(st.mode) <==> !(HasAp(st.mode) && HasSta(st.mode) == enable))
            && (HasSta(ap) == HasSta(st.mode) <==> !(HasSta(st.mode) && HasAp(st.mode) == enable))
  {
  }

  // ---------------------------------------------------------------- the object

  class WiFiClass {
    var status: Status
    var mode: Mode
    var localIp: nat
    var staticIp: bool
    var apEnabled: bool
    var flappyCounter: nat
    var staStarted: bool
    var apStarted: bool
    var scanning: bool
    var scanReadyAt: Word
    var handlers: bool
    var pending: seq<Pending>
    ghost var queued: seq<Queued>
    ghost var emitted: seq<Emitted>

    ghost function Value(): State
      reads this
    {
      State(status, mode, localIp, staticIp, apEnabled, flappyCounter, staStarted, apStarted, scanning,
            scanReadyAt, handlers, pending, queued, emitted)
    }

    constructor ()
      ensures Value() == FRESH
    {
      status, mode, localIp, staticIp, apEnabled, flappyCounter := Status.Disconnected, Off, 0, false, false, 0;
      staStarted, apStarted, scanning, scanReadyAt, handlers := false, false, false, 0, false;
      pending, queued, emitted := [], [], [];
    }

    method QueueEvent(k: Kind, delay: Word, now: nat)
      modifies `pending, `queued
      ensures Value() == Queue(old(Value()), k, delay, now)
    {
      if !handlers {
        return;
      }
      pending := pending + [Pending(k, (now + delay) % TWO32)];
      queued := queued + [Queued(k, now, delay)];
    }

    /** Takes at most one event, the oldest. */
    method ServicePendingEvents(now: nat)
      modifies `pending, `emitted
      ensures Value() == EmitHead(old(Value()), now)
    {
      if pending == [] {
        return;
      }
      var head := pending[0];
      if now - head.dueAt < 0 {
        return;
      }
      pending := pending[1..];
      emitted := emitted + [Emitted(head.kind, now)];
    }

    method ServiceAsyncScan(now: nat)
      modifies `scanning, `pending, `queued
      ensures Value() == FinishScan(old(Value()), now)
    {
      if !scanning {
        return;
      }
      if now - scanReadyAt < 0 {
        return;
      }
      scanning := false;
      QueueEvent(ScanDone, 0, now);
    }

    method YieldService(now: nat)
      modifies `scanning, `pending, `queued, `emitted
      ensures Value() == EmitHead(FinishScan(old(Value()), now), now)
    {
      ServiceAsyncScan(now);
      ServicePendingEvents(now);
    }

    /** The part of begin() that decides how the attempt goes. */
    method TryNetwork(network: Network, successIp: nat)
      requires staticIp ==> successIp == localIp
      modifies `status, `localIp, `flappyCounter
      ensures Value() == Attempt(old(Value()), network, successIp)
    {
      match network {
        case Joinable =>
          status, localIp := Connected, successIp;
        case BadPass =>
          status := ConnectFailed;
          if !staticIp { localIp := 0; }
        case Timeout =>
          status := ConnectionLost;
          if !staticIp { localIp := 0; }
        case NoIp =>
          status := Connected;
          if !staticIp { localIp := 0; }
        case Flappy =>
          TryFlappy(successIp);
        case Unknown =>
          status := NoSsidAvail;
          if !staticIp { localIp := 0; }
      }
    }

    method TryFlappy(successIp: nat)
      requires staticIp ==> successIp == localIp
      modifies `status, `localIp, `flappyCounter
      ensures Value() == Attempt(old(Value()), Flappy, successIp)
    {
      flappyCounter := flappyCounter + 1;
      if flappyCounter % 2 == 1 {
        status, localIp := Connected, successIp;
      } else {
        status := ConnectFailed;
        if !staticIp { localIp := 0; }
      }
    }

    /** The part of begin() that tells how the attempt went. */
    method AnnounceOutcome(now: nat)
      modifies `pending, `queued
      ensures Value() == Announce(old(Value()), now)
    {
      hide Queue;
      if status == Connected {
        QueueEvent(StaConnected, 2, now);
        if localIp != 0 {
          QueueEvent(StaGotIp, 4, now);
        }
      } else {
        QueueEvent(StaDisconnected, 2, now);
      }
    }

    /** The steps by which the calls start and stop the station and the access point. */
    method StartStation(now: nat)
      modifies `staStarted, `pending, `queued
      ensures Value() == StartSta(old(Value()), now)
    {
      if !staStarted {
        staStarted := true;
        QueueEvent(StaStart, 0, now);
      }
    }

    method StopStation(now: nat)
      modifies `staStarted, `pending, `queued
      ensures Value() == StopSta(old(Value()), now)
    {
      if staStarted {
        staStarted := false;
        QueueEvent(StaStop, 0, now);
      }
    }

    method StartAccessPoint(now: nat)
      modifies `apStarted, `pending, `queued
      ensures Value() == StartAp(old(Value()), now)
    {
      if !apStarted {
        apStarted := true;
        QueueEvent(ApStart, 0, now);
      }
    }

    method StopAccessPoint(now: nat)
      modifies `apStarted, `pending, `queued
      ensures Value() == StopAp(old(Value()), now)
    {
      if apStarted {
        apStarted := false;
        QueueEvent(ApStop, 0, now);
      }
    }

    method JoinNetwork(network: Network, hostIp: nat, now: nat) returns (s: Status)
      modifies `status, `mode, `localIp, `flappyCounter, `staStarted, `pending, `queued
      ensures Value() == Begun(old(Value()), network, hostIp, now) && s == status
    {
      hide Queue, Attempt, Announce, StartSta;
      mode := if apEnabled then ApSta else Sta;
      StartStation(now);
      var successIp := if staticIp then localIp else hostIp;
      SameAttempt(Value(), network, hostIp, successIp);
      TryNetwork(network, successIp);
      AnnounceOutcome(now);
      s := status;
    }

    lemma SameAttempt(st: State, network: Network, hostIp: nat, successIp: nat)
      requires successIp == if st.staticIp then st.localIp else hostIp
      ensures Attempt(st, network, successIp) == Attempt(st, network, hostIp)
    {
    }

    method Leave(wifiOff: bool, now: nat)
      modifies `status, `mode, `staStarted, `pending, `queued
      ensures Value() == Left(old(Value()), wifiOff, now)
    {
      hide Queue, StopSta;
      if staStarted {
        QueueEvent(StaDisconnected, 0, now);
      }
      status := Status.Disconnected;
      if wifiOff {
        mode := Off;
        StopStation(now);
      }
    }

    method StartSoftAp(now: nat)
      modifies `apEnabled, `mode, `apStarted, `pending, `queued
      ensures Value() == ApBegun(old(Value()), now)
    {
      hide StartAp;
      apEnabled := true;
      mode := if mode == Sta || mode == ApSta then ApSta else Ap;
      StartAccessPoint(now);
    }

    method StopSoftAp(wifiOff: bool, now: nat)
      modifies `apEnabled, `mode, `status, `staStarted, `apStarted, `pending, `queued
      ensures Value() == ApLeft(old(Value()), wifiOff, now)
    {
      hide StopAp, StopSta;
      apEnabled := false;
      StopAccessPoint(now);
      if wifiOff {
        mode := Off;
        status := Status.Disconnected;
        StopStation(now);
      } else {
        mode := if mode == ApSta then Sta else Off;
      }
    }

    method ChangeMode(m: Mode, now: nat)
      modifies `mode, `status, `staStarted, `apStarted, `pending, `queued
      ensures Value() == InMode(old(Value()), m, now)
    {
      hide StartSta, StopSta, StartAp, StopAp;
      mode := m;
      if m == Off {
        status := Status.Disconnected;
        StopStation(now);
        StopAccessPoint(now);
      }
      if m == Sta || m == ApSta {
        StartStation(now);
      }
      if m == Ap || m == ApSta {
        StartAccessPoint(now);
      }
    }

    method ResetMock()
      modifies `status, `mode, `localIp, `staticIp, `apEnabled, `flappyCounter, `scanning, `scanReadyAt
      ensures Value() == Reset(old(Value()))
    {
      ForgetNetwork();
      apEnabled, flappyCounter, scanning, scanReadyAt := false, 0, false, 0;
    }

    /** The part of mockReset() that concerns the station. */
    method ForgetNetwork()
      modifies `status, `mode, `localIp, `staticIp
      ensures Value() == old(Value()).(status := Status.Disconnected, mode := Off, localIp := 0, staticIp := false)
    {
      status, mode, localIp, staticIp := Status.Disconnected, Off, 0, false;
    }
  }
}
