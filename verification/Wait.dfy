/** Waiting in simulated time: slices of at most 1 ms with a service pass between them, polled
    interrupts, and service callbacks that may themselves wait. */
module Wait {
  import opened Common

  const PINS: nat := 32
  const SLOTS: nat := 16
  const SLICE_US: nat := 1000

  datatype Mode = CHANGE | FALLING | RISING | ONLOW | ONHIGH

  /** What user code run by a service pass does: sets an input pin, or waits. */
  datatype Effect = SetPin(pin: nat, val: bool) | Delay(us: nat)

  /** User code, as a function of the number of the pass it runs in. */
  type Callback = nat -> seq<Effect>

  datatype Handler = Handler(enabled: bool, mode: Mode, last: bool, func: Callback)

  /** One look at the pin of a handler: the level seen before, the level now, and whether the handler
      was run. */
  datatype Turn = Turn(pass: nat, before: bool, level: bool, fired: bool)

  /** What happens to an input pin while time passes: (pin, level, clock, duration) to level. */
  type Surroundings = (nat, bool, nat, nat) -> bool

  /** `passes` counts the service passes, `requested` adds up the waits asked for inside them, and
      `turns` lists for each handler what it has seen. */
  datatype Board = Board(pins: seq<bool>, clock: nat, handlers: seq<Handler>, callbacks: seq<Option<Callback>>,
                         passes: nat, requested: nat, turns: seq<seq<Turn>>)
  {
    ghost predicate Valid() {
      |pins| == PINS && |handlers| == PINS && |callbacks| == SLOTS && |turns| == PINS
    }
  }

  predicate Triggers(mode: Mode, before: bool, level: bool) {
    match mode
    case CHANGE => before != level
    case FALLING => before && !level
    case RISING => !before && level
    case ONLOW => !level
    case ONHIGH => level
  }

  // ---------------------------------------------------------------- specification

  function PinsAfter(pins: seq<bool>, clock: nat, us: nat, around: Surroundings): (pins': seq<bool>)
    ensures |pins'| == |pins|
  {
    seq(|pins|, i requires 0 <= i < |pins| => around(i, pins[i], clock, us))
  }

  /** delay_us of one slice. */
  function Elapsed(b: Board, us: nat, around: Surroundings): (b': Board)
    requires b.Valid()
    ensures b'.Valid()
  {
    b.(pins := PinsAfter(b.pins, b.clock, us, around), clock := b.clock + us)
  }

  /** A wait during which no service pass is made. */
  function Slept(b: Board, us: nat, around: Surroundings): (b': Board)
    requires b.Valid()
    ensures b'.Valid()
    decreases us
  {
    if us == 0 then b
    else
      var slice := Slice(us);
      Slept(Elapsed(b, slice, around), us - slice, around)
  }

  function Affected(b: Board, e: Effect, around: Surroundings): (b': Board)
    requires b.Valid()
    ensures b'.Valid()
  {
    match e
    case SetPin(pin, val) => if pin < PINS then b.(pins := b.pins[pin := val]) else b
    case Delay(us) => Slept(b.(requested := b.requested + us), us, around)
  }

  function AffectedBy(b: Board, es: seq<Effect>, around: Surroundings): (b': Board)
    requires b.Valid()
    ensures b'.Valid()
    decreases |es|
  {
    if es == [] then b else AffectedBy(Affected(b, es[0], around), es[1..], around)
  }

  /** The turn of handler i in a pass. */
  function Turned(b: Board, i: nat, around: Surroundings): (b': Board)
    requires b.Valid() && i < PINS
    ensures b'.Valid()
  {
    var h := b.handlers[i];
    if !h.enabled then b
    else
      var level := b.pins[i];
      var fired := Triggers(h.mode, h.last, level);
      var b1 := b.(turns := b.turns[i := b.turns[i] + [Turn(b.passes, h.last, level, fired)]]);
      var b2 := if fired then AffectedBy(b1, h.func(b.passes), around) else b1;
      b2.(handlers := b2.handlers[i := b2.handlers[i].(last := level)])
  }

  /** After the turns of the first n handlers. */
  function CheckedTo(b: Board, n: nat, around: Surroundings): (b': Board)
    requires b.Valid() && n <= PINS
    ensures b'.Valid()
  {
    if n == 0 then b else Turned(CheckedTo(b, n - 1, around), n - 1, around)
  }

  function Serviced(b: Board, j: nat, around: Surroundings): (b': Board)
    requires b.Valid() && j < SLOTS
    ensures b'.Valid()
  {
    if b.callbacks[j].Some? then AffectedBy(b, b.callbacks[j].value(b.passes), around) else b
  }

  /** After the first n callbacks. */
  function ServicedTo(b: Board, n: nat, around: Surroundings): (b': Board)
    requires b.Valid() && n <= SLOTS
    ensures b'.Valid()
  {
    if n == 0 then b else Serviced(ServicedTo(b, n - 1, around), n - 1, around)
  }

  /** One top-level service pass. */
  function Pumped(b: Board, around: Surroundings): (b': Board)
    requires b.Valid()
    ensures b'.Valid()
  {
    ServicedTo(CheckedTo(b.(passes := b.passes + 1), PINS, around), SLOTS, around)
  }

  /** A top-level wait. */
  function Waited(b: Board, us: nat, around: Surroundings): (b': Board)
    requires b.Valid()
    ensures b'.Valid()
    decreases us
  {
    var b1 := Pumped(b, around);
    if us == 0 then b1
    else
      var slice := Slice(us);
      Waited(Elapsed(b1, slice, around), us - slice, around)
  }

  // ---------------------------------------------------------------- the code

  class Device {
    var pins: seq<bool>
    var clock: nat
    var handlers: seq<Handler>
    var callbacks: seq<Option<Callback>>
    var inPump: bool
    const around: Surroundings
    var passes: nat
    ghost var requested: nat
    ghost var turns: seq<seq<Turn>>

    ghost function View(): Board
      reads this
    {
      Board(pins, clock, handlers, callbacks, passes, requested, turns)
    }

    constructor (handlers: seq<Handler>, callbacks: seq<Option<Callback>>, around: Surroundings)
      requires |handlers| == PINS && |callbacks| == SLOTS
      ensures View().Valid() && !inPump && clock == passes == requested == 0
      ensures this.handlers == handlers && this.callbacks == callbacks && this.around == around
    {
      pins := seq(PINS, _ => false);
      clock, inPump := 0, false;
      this.handlers, this.callbacks, this.around := handlers, callbacks, around;
      passes, requested, turns := 0, 0, seq(PINS, _ => []);
    }

    method DelayUs(us: nat)
      requires View().Valid()
      modifies this
      ensures View() == Elapsed(old(View()), us, around) && inPump == old(inPump)
    {
      pins := PinsAfter(pins, clock, us, around);
      clock := clock + us;
    }

    /** waitMicros in simulated time. Called from within a pass it only lets time pass. */
    method WaitMicros(us: nat)
      requires View().Valid()
      modifies this
      ensures View() == (if inPump then Slept(old(View()), us, around) else Waited(old(View()), us, around))
      ensures inPump == old(inPump)
      decreases if inPump then 0 else 1, 3
    {
      ghost var b, top := View(), !inPump;
      var left: nat := us;
      while true
        invariant View().Valid() && inPump == !top
        invariant top ==> Waited(View(), left, around) == Waited(b, us, around)
        invariant !top ==> Slept(View(), left, around) == Slept(b, us, around)
        decreases left
      {
        Pump();
        if left == 0 { break; }
        var slice := if left < SLICE_US then left else SLICE_US;
        DelayUs(slice);
        left := left - slice;
      }
    }

    /** A service pass, unless one is being made. */
    method Pump()
      requires View().Valid()
      modifies this
      ensures View() == (if inPump then old(View()) else Pumped(old(View()), around))
      ensures inPump == old(inPump)
      decreases if inPump then 0 else 1, 2
    {
      if inPump { return; }
      inPump := true;
      passes := passes + 1;
      CheckInterrupts();
      ServiceYieldCallbacks();
      inPump := false;
    }

    method CheckInterrupts()
      requires View().Valid() && inPump
      modifies this
      ensures View() == CheckedTo(old(View()), PINS, around) && inPump
      decreases 0, 6
    {
      ghost var b := View();
      var i := 0;
      while i < PINS
        invariant 0 <= i <= PINS && View().Valid() && inPump
        invariant View() == CheckedTo(b, i, around)
      {
        CheckHandler(i);
        i := i + 1;
      }
    }

    method CheckHandler(i: nat)
      requires View().Valid() && inPump && i < PINS
      modifies this
      ensures View() == Turned(old(View()), i, around) && inPump
      decreases 0, 5
    {
      if !handlers[i].enabled { return; }
      var currentState := pins[i];
      var lastState := handlers[i].last;
      var shouldTrigger := Triggers(handlers[i].mode, lastState, currentState);
      turns := turns[i := turns[i] + [Turn(passes, lastState, currentState, shouldTrigger)]];
      if shouldTrigger {
        RunUserCode(handlers[i].func(passes));
      }
      handlers := handlers[i := handlers[i].(last := currentState)];
    }

    method ServiceYieldCallbacks()
      requires View().Valid() && inPump
      modifies this
      ensures View() == ServicedTo(old(View()), SLOTS, around) && inPump
      decreases 0, 5
    {
      ghost var b := View();
      var j := 0;
      while j < SLOTS
        invariant 0 <= j <= SLOTS && View().Valid() && inPump
        invariant View() == ServicedTo(b, j, around)
      {
        if callbacks[j].Some? {
          RunUserCode(callbacks[j].value(passes));
        }
        j := j + 1;
      }
    }

    method RunUserCode(effects: seq<Effect>)
      requires View().Valid() && inPump
      modifies this
      ensures View() == AffectedBy(old(View()), effects, around) && inPump
      decreases 0, 4
    {
      ghost var b := View();
      var k := 0;
      while k < |effects|
        invariant 0 <= k <= |effects| && View().Valid() && inPump
        invariant AffectedBy(View(), effects[k..], around) == AffectedBy(b, effects, around)
      {
        assert effects[k..][1..] == effects[k + 1..];
        match effects[k] {
          case SetPin(pin, val) =>
            if pin < PINS {
              pins := pins[pin := val];
            }
          case Delay(us) =>
            requested := requested + us;
            WaitMicros(us);
        }
        k := k + 1;
      }
    }
  }

  // ---------------------------------------------------------------- time and passes

  lemma {:induction false} SleptTime(b: Board, us: nat, around: Surroundings)
    requires b.Valid()
    ensures var b' := Slept(b, us, around);
            b'.clock == b.clock + us && b' == b.(pins := b'.pins, clock := b'.clock)
    decreases us
  {
    if us > 0 {
      var slice := Slice(us);
      SleptTime(Elapsed(b, slice, around), us - slice, around);
    }
  }

  /** Between two boards, only what user code may change has changed, and the clock has moved by what
      it asked for. */
  ghost predicate UserCodeOnly(b: Board, b': Board) {
    && b'.clock - b.clock == b'.requested - b.requested
    && b' == b.(pins := b'.pins, clock := b'.clock, requested := b'.requested)
  }

  lemma {:induction false} AffectedTime(b: Board, es: seq<Effect>, around: Surroundings)
    requires b.Valid()
    ensures UserCodeOnly(b, AffectedBy(b, es, around))
    decreases |es|
  {
    if es != [] {
      if es[0].Delay? {
        SleptTime(b.(requested := b.requested + es[0].us), es[0].us, around);
      }
      AffectedTime(Affected(b, es[0], around), es[1..], around);
    }
  }

  /** What a service pass leaves alone, and that it takes only the time its user code asks for. */
  ghost predicate PassOnly(b: Board, b': Board) {
    && b'.clock - b.clock == b'.requested - b.requested
    && b'.passes == b.passes && b'.callbacks == b.callbacks
  }

  lemma TurnedTime(b: Board, i: nat, around: Surroundings)
    requires b.Valid() && i < PINS
    ensures PassOnly(b, Turned(b, i, around))
  {
    var h := b.handlers[i];
    if h.enabled {
      var fired := Triggers(h.mode, h.last, b.pins[i]);
      var b1 := b.(turns := b.turns[i := b.turns[i] + [Turn(b.passes, h.last, b.pins[i], fired)]]);
      AffectedTime(b1, h.func(b.passes), around);
    }
  }

  lemma {:induction false} CheckedTime(b: Board, n: nat, around: Surroundings)
    requires b.Valid() && n <= PINS
    ensures PassOnly(b, CheckedTo(b, n, around))
  {
    if n > 0 {
      CheckedTime(b, n - 1, around);
      TurnedTime(CheckedTo(b, n - 1, around), n - 1, around);
    }
  }

  lemma {:induction false} ServicedTime(b: Board, n: nat, around: Surroundings)
    requires b.Valid() && n <= SLOTS
    ensures UserCodeOnly(b, ServicedTo(b, n, around))
  {
    if n > 0 {
      ServicedTime(b, n - 1, around);
      var b1 := ServicedTo(b, n - 1, around);
      if b1.callbacks[n - 1].Some? {
        AffectedTime(b1, b1.callbacks[n - 1].value(b1.passes), around);
      }
    }
  }

  lemma PumpedTime(b: Board, around: Surroundings)
    requires b.Valid()
    ensures PassOnly(b.(passes := b.passes + 1), Pumped(b, around))
  {
    var b0 := b.(passes := b.passes + 1);
    CheckedTime(b0, PINS, around);
    ServicedTime(CheckedTo(b0, PINS, around), SLOTS, around);
    hide CheckedTo, ServicedTo;
  }

  function CeilDiv(n: nat, d: nat): nat
    requires d > 0
  {
    (n + d - 1) / d
  }

  /** The next slice of a wait. */
  function Slice(us: nat): (slice: nat)
    ensures slice <= us && (us > 0 ==> slice > 0)
  {
    if us < SLICE_US then us else SLICE_US
  }

  lemma OneSliceLess(us: nat)
    requires us > 0
    ensures CeilDiv(us, SLICE_US) == CeilDiv(us - Slice(us), SLICE_US) + 1
  {
  }

  lemma SlicesOf(us: nat)
    ensures CeilDiv(us, SLICE_US) == (us + 999) / 1000
  {
  }

  /** A wait of us microseconds advances the clock by exactly us plus what the code run inside it has
      asked for, and makes ceil(us / 1000) + 1 service passes, however much that code waits itself. */
  lemma {:induction false} WaitIsExact(b: Board, us: nat, around: Surroundings)
    requires b.Valid()
    ensures var b' := Waited(b, us, around);
            && b'.clock == b.clock + us + (b'.requested - b.requested)
            && b'.passes == b.passes + (us + 999) / 1000 + 1
    decreases us
  {
    SlicesOf(us);
    PumpedTime(b, around);
    if us > 0 {
      hide Pumped, CheckedTo, ServicedTo, CeilDiv, Slice;
      var slice := Slice(us);
      WaitIsExact(Elapsed(Pumped(b, around), slice, around), us - slice, around);
      SlicesOf(us - slice);
      OneSliceLess(us);
    }
  }

  // ---------------------------------------------------------------- no edge is missed

  /** The level of pin i when its handler has its turn in the pass that starts at b. */
  function LevelAtTurn(b: Board, i: nat, around: Surroundings): bool
    requires b.Valid() && i < PINS
  {
    CheckedTo(b.(passes := b.passes + 1), i, around).pins[i]
  }

  /** What a pass does to the handler of pin i: one look, after which it remembers that level. */
  ghost predicate LookedOnce(b: Board, b': Board, i: nat, level: bool)
    requires b.Valid() && b'.Valid() && i < PINS
  {
    var h := b.handlers[i];
    && b'.handlers[i] == h.(last := level)
    && b'.turns[i] == b.turns[i] + [Turn(b.passes + 1, h.last, level, Triggers(h.mode, h.last, level))]
  }

  lemma TurnedKeepsOthers(b: Board, k: nat, i: nat, around: Surroundings)
    requires b.Valid() && k < PINS && i < PINS && k != i
    ensures var b' := Turned(b, k, around);
            b'.handlers[i] == b.handlers[i] && b'.turns[i] == b.turns[i] && b'.passes == b.passes
  {
    var h := b.handlers[k];
    var b1 := b.(turns := b.turns[k := b.turns[k]
            + [Turn(b.passes, h.last, b.pins[k], Triggers(h.mode, h.last, b.pins[k]))]]);
    AffectedTime(b1, h.func(b.passes), around);
  }

  lemma TurnedOwn(b: Board, i: nat, around: Surroundings)
    requires b.Valid() && i < PINS && b.handlers[i].enabled
    ensures var b', h, level := Turned(b, i, around), b.handlers[i], b.pins[i];
            && b'.handlers[i] == h.(last := level)
            && b'.turns[i] == b.turns[i] + [Turn(b.passes, h.last, level, Triggers(h.mode, h.last, level))]
  {
    var h := b.handlers[i];
    var b1 := b.(turns := b.turns[i := b.turns[i]
            + [Turn(b.passes, h.last, b.pins[i], Triggers(h.mode, h.last, b.pins[i]))]]);
    AffectedTime(b1, h.func(b.passes), around);
  }

  lemma {:induction false} CheckedLooksOnce(b: Board, n: nat, i: nat, around: Surroundings)
    requires b.Valid() && n <= PINS && i < PINS && b.handlers[i].enabled
    ensures var b' := CheckedTo(b, n, around);
            && b'.passes == b.passes
            && (n <= i ==> b'.handlers[i] == b.handlers[i] && b'.turns[i] == b.turns[i])
            && (n > i ==>
                  var h, level := b.handlers[i], CheckedTo(b, i, around).pins[i];
                  && b'.handlers[i] == h.(last := level)
                  && b'.turns[i] == b.turns[i] + [Turn(b.passes, h.last, level, Triggers(h.mode, h.last, level))])
  {
    if n > 0 {
      CheckedLooksOnce(b, n - 1, i, around);
      var b1 := CheckedTo(b, n - 1, around);
      CheckedTime(b, n, around);
      if n - 1 == i {
        TurnedOwn(b1, i, around);
      } else {
        TurnedKeepsOthers(b1, n - 1, i, around);
      }
    }
  }

  /** In each pass every enabled handler gets exactly one look at its pin. */
  lemma PassLooksOnce(b: Board, i: nat, around: Surroundings)
    requires b.Valid() && i < PINS && b.handlers[i].enabled
    ensures LookedOnce(b, Pumped(b, around), i, LevelAtTurn(b, i, around))
  {
    var b0 := b.(passes := b.passes + 1);
    CheckedLooksOnce(b0, PINS, i, around);
    ServicedTime(CheckedTo(b0, PINS, around), SLOTS, around);
    hide CheckedTo, ServicedTo, Triggers;
  }

  /** The looks of one handler: each starts from the level the one before it saw, it is run just when
      its mode asks for that change, and the handler remembers the last level seen. */
  ghost predicate Chained(turns: seq<Turn>, h: Handler) {
    && (forall k :: 0 <= k < |turns| ==> turns[k].fired == Triggers(h.mode, turns[k].before, turns[k].level))
    && (forall k :: 0 <= k < |turns| - 1 ==> turns[k + 1].before == turns[k].level)
    && (turns != [] ==> turns[|turns| - 1].level == h.last)
  }

  lemma OneMoreLook(turns: seq<Turn>, h: Handler, t: Turn)
    requires Chained(turns, h) && t.before == h.last && t.fired == Triggers(h.mode, t.before, t.level)
    ensures Chained(turns + [t], h.(last := t.level))
  {
  }

  /** The look of handler i in the pass that starts at b. */
  function NextLook(b: Board, i: nat, around: Surroundings): Turn
    requires b.Valid() && i < PINS
  {
    var h, level := b.handlers[i], LevelAtTurn(b, i, around);
    Turn(b.passes + 1, h.last, level, Triggers(h.mode, h.last, level))
  }

  lemma PassAddsLook(b: Board, i: nat, around: Surroundings)
    requires b.Valid() && i < PINS && b.handlers[i].enabled && Chained(b.turns[i], b.handlers[i])
    ensures var b' := Pumped(b, around);
            && b'.turns[i] == b.turns[i] + [NextLook(b, i, around)]
            && b'.handlers[i] == b.handlers[i].(last := LevelAtTurn(b, i, around))
            && Chained(b'.turns[i], b'.handlers[i])
  {
    PassLooksOnce(b, i, around);
    hide Pumped, LevelAtTurn, Triggers, Chained;
    OneMoreLook(b.turns[i], b.handlers[i], NextLook(b, i, around));
  }

  /** Over a whole wait no change between one pass and the next goes unseen and none is seen twice:
      each enabled handler has one look per pass, and the looks are chained. */
  lemma {:induction false} NoEdgeIsMissed(b: Board, us: nat, i: nat, around: Surroundings)
    requires b.Valid() && i < PINS && b.handlers[i].enabled && Chained(b.turns[i], b.handlers[i])
    ensures var b' := Waited(b, us, around);
            && Chained(b'.turns[i], b'.handlers[i]) && b'.handlers[i] == b.handlers[i].(last := b'.handlers[i].last)
            && |b'.turns[i]| == |b.turns[i]| + CeilDiv(us, SLICE_US) + 1
            && b.turns[i] + [NextLook(b, i, around)] <= b'.turns[i]
    decreases us
  {
    hide Pumped, NextLook, LevelAtTurn, Chained, CeilDiv, Slice;
    PassAddsLook(b, i, around);
    if us > 0 {
      var slice := Slice(us);
      OneSliceLess(us);
      var b2 := Elapsed(Pumped(b, around), slice, around);
      NoEdgeIsMissed(b2, us - slice, i, around);
      assert b.turns[i] + [NextLook(b, i, around)] == b2.turns[i] <= b2.turns[i] + [NextLook(b2, i, around)];
    } else {
      assert CeilDiv(0, SLICE_US) == 0 by { NoSliceLeft(); }
    }
  }

  lemma NoSliceLeft()
    ensures CeilDiv(0, SLICE_US) == 0
  {
  }

  // ---------------------------------------------------------------- which change runs which handler

  /** The levels seen in looks, behind the one remembered before them. */
  function Levels(first: bool, looks: seq<Turn>): (levels: seq<bool>)
    ensures |levels| == |looks| + 1
    ensures levels[0] == first && forall k :: 0 <= k < |looks| ==> levels[k + 1] == looks[k].level
  {
    [first] + seq(|looks|, k requires 0 <= k < |looks| => looks[k].level)
  }

  /** The looks of a wait. */
  function NewLooks(b: Board, b': Board, i: nat): seq<Turn>
    requires b.Valid() && b'.Valid() && i < PINS && |b.turns[i]| <= |b'.turns[i]|
  {
    b'.turns[i][|b.turns[i]|..]
  }

  /** In each look at these levels, one after the other, the handler is run just for what its mode says. */
  ghost predicate RunsAtEdges(mode: Mode, levels: seq<bool>, looks: seq<Turn>)
    requires |levels| == |looks| + 1
  {
    forall k :: 0 <= k < |looks| ==>
      var was, level := levels[k], levels[k + 1];
      looks[k].fired <==> match mode
                          case RISING => was == false && level == true
                          case FALLING => was == true && level == false
                          case CHANGE => was != level
                          case ONLOW => level == false
                          case ONHIGH => level == true
  }

  lemma ChainedRuns(turns: seq<Turn>, h: Handler, n: nat, first: bool)
    requires Chained(turns, h) && n < |turns| && turns[n].before == first
    ensures RunsAtEdges(h.mode, Levels(first, turns[n..]), turns[n..])
  {
    var looks := turns[n..];
    var levels := Levels(first, looks);
    forall k | 0 <= k < |looks| ensures looks[k].fired == Triggers(h.mode, levels[k], levels[k + 1]) {
      assert looks[k] == turns[n + k];
      if k > 0 { assert turns[n + k - 1 + 1].before == turns[n + k - 1].level; }
    }
  }

  /** Over a whole wait a RISING handler is run just at the looks where its pin went from low to high, FALLING
      where it went from high to low, CHANGE at both, and ONLOW and ONHIGH where it is low or high. */
  lemma WaitRunsAtEdges(b: Board, us: nat, i: nat, around: Surroundings)
    requires b.Valid() && i < PINS && b.handlers[i].enabled && Chained(b.turns[i], b.handlers[i])
    ensures var b' := Waited(b, us, around);
            && |b'.turns[i]| == |b.turns[i]| + CeilDiv(us, SLICE_US) + 1
            && var looks := NewLooks(b, b', i);
               RunsAtEdges(b.handlers[i].mode, Levels(b.handlers[i].last, looks), looks)
  {
    hide Waited, NextLook, Chained, RunsAtEdges, Levels, CeilDiv;
    NoEdgeIsMissed(b, us, i, around);
    var turns := Waited(b, us, around).turns[i];
    assert turns[|b.turns[i]|] == NextLook(b, i, around);
    NextLookStarts(b, i, around);
    ChainedRuns(turns, Waited(b, us, around).handlers[i], |b.turns[i]|, b.handlers[i].last);
  }

  lemma NextLookStarts(b: Board, i: nat, around: Surroundings)
    requires b.Valid() && i < PINS
    ensures NextLook(b, i, around).before == b.handlers[i].last
  {
  }

  /** How often the level goes over from one to another. */
  function Edges(levels: seq<bool>, was: bool, level: bool): nat {
    if |levels| < 2 then 0
    else Edges(levels[..|levels| - 1], was, level)
         + if levels[|levels| - 2] == was && levels[|levels| - 1] == level then 1 else 0
  }

  /** How often the handler was run. */
  function RunCount(looks: seq<Turn>): nat {
    if looks == [] then 0
    else RunCount(looks[..|looks| - 1]) + if looks[|looks| - 1].fired then 1 else 0
  }

  lemma FrontRuns(mode: Mode, levels: seq<bool>, looks: seq<Turn>)
    requires |levels| == |looks| + 1 && looks != [] && RunsAtEdges(mode, levels, looks)
    ensures RunsAtEdges(mode, levels[..|looks|], looks[..|looks| - 1])
    ensures var was, level, fired := levels[|looks| - 1], levels[|looks|], looks[|looks| - 1].fired;
            && (mode == RISING ==> (fired <==> !was && level)) && (mode == FALLING ==> (fired <==> was && !level))
            && (mode == CHANGE ==> (fired <==> was != level))
  {
  }

  /** RISING runs once for each rise and FALLING once for each fall; the runs of CHANGE are those of both. */
  lemma {:induction false} RunsAreEdges(mode: Mode, levels: seq<bool>, looks: seq<Turn>)
    requires |levels| == |looks| + 1 && RunsAtEdges(mode, levels, looks)
    ensures var runs := RunCount(looks);
            && (mode == RISING ==> runs == Edges(levels, false, true))
            && (mode == FALLING ==> runs == Edges(levels, true, false))
            && (mode == CHANGE ==> runs == Edges(levels, false, true) + Edges(levels, true, false))
    decreases |looks|
  {
    hide RunsAtEdges;
    if looks != [] {
      FrontRuns(mode, levels, looks);
      RunsAreEdges(mode, levels[..|looks|], looks[..|looks| - 1]);
    }
  }

  /** Rises and falls alternate: there is one more of those that the levels end with, or equally many. */
  lemma {:induction false} EdgesBalance(levels: seq<bool>)
    requires levels != []
    ensures Edges(levels, false, true) - Edges(levels, true, false)
            == (if levels[|levels| - 1] then 1 else 0) - (if levels[0] then 1 else 0)
    decreases |levels|
  {
    if |levels| > 1 { EdgesBalance(levels[..|levels| - 1]); }
  }

  lemma {:induction false} AffectedIgnoresTurns(b: Board, es: seq<Effect>, turns: seq<seq<Turn>>, around: Surroundings)
    requires b.Valid() && |turns| == PINS
    ensures AffectedBy(b.(turns := turns), es, around) == AffectedBy(b, es, around).(turns := turns)
    decreases |es|
  {
    if es != [] {
      if es[0].Delay? {
        SleptIgnoresTurns(b.(requested := b.requested + es[0].us), es[0].us, turns, around);
      }
      AffectedIgnoresTurns(Affected(b, es[0], around), es[1..], turns, around);
    }
  }

  lemma {:induction false} SleptIgnoresTurns(b: Board, us: nat, turns: seq<seq<Turn>>, around: Surroundings)
    requires b.Valid() && |turns| == PINS
    ensures Slept(b.(turns := turns), us, around) == Slept(b, us, around).(turns := turns)
    decreases us
  {
    if us > 0 { SleptIgnoresTurns(Elapsed(b, Slice(us), around), us - Slice(us), turns, around); }
  }

  /** What a turn does to pins and time: the effects of the handler's code if the levels are what its mode
      asks for, and nothing otherwise. */
  lemma TurnTakesEffect(b: Board, i: nat, around: Surroundings)
    requires b.Valid() && i < PINS && b.handlers[i].enabled
    ensures var h, level := b.handlers[i], b.pins[i];
            var runs := match h.mode
                        case RISING => h.last == false && level == true
                        case FALLING => h.last == true && level == false
                        case CHANGE => h.last != level
                        case ONLOW => level == false
                        case ONHIGH => level == true;
            var b', ran := Turned(b, i, around), AffectedBy(b, h.func(b.passes), around);
            && b'.pins == (if runs then ran.pins else b.pins) && b'.clock == (if runs then ran.clock else b.clock)
            && b'.requested == if runs then ran.requested else b.requested
  {
    var h := b.handlers[i];
    var t := Turn(b.passes, h.last, b.pins[i], Triggers(h.mode, h.last, b.pins[i]));
    AffectedIgnoresTurns(b, h.func(b.passes), b.turns[i := b.turns[i] + [t]], around);
  }

  /** The effects of the first n callbacks, one after the other. */
  function CallbackEffects(callbacks: seq<Option<Callback>>, pass: nat, n: nat): seq<Effect>
    requires n <= |callbacks|
  {
    if n == 0 then []
    else CallbackEffects(callbacks, pass, n - 1) + match callbacks[n - 1]
                                                   case Some(f) => f(pass)
                                                   case None => []
  }

  lemma {:induction false} AffectedConcat(b: Board, xs: seq<Effect>, ys: seq<Effect>, around: Surroundings)
    requires b.Valid()
    ensures AffectedBy(b, xs + ys, around) == AffectedBy(AffectedBy(b, xs, around), ys, around)
    decreases |xs|
  {
    if xs == [] {
      assert xs + ys == ys;
    } else {
      assert (xs + ys)[1..] == xs[1..] + ys;
      AffectedConcat(Affected(b, xs[0], around), xs[1..], ys, around);
    }
  }

  /** A pass runs each registered callback once, in the order of the slots. */
  lemma {:induction false} CallbacksTakeEffect(b: Board, n: nat, around: Surroundings)
    requires b.Valid() && n <= SLOTS
    ensures ServicedTo(b, n, around) == AffectedBy(b, CallbackEffects(b.callbacks, b.passes, n), around)
  {
    if n > 0 {
      CallbacksTakeEffect(b, n - 1, around);
      var done := CallbackEffects(b.callbacks, b.passes, n - 1);
      AffectedTime(b, done, around);
      AffectedConcat(b, done, match b.callbacks[n - 1] case Some(f) => f(b.passes) case None => [], around);
    }
  }

  /** User code that does not set pin i. */
  predicate Spares(es: seq<Effect>, i: nat) {
    forall k :: 0 <= k < |es| && es[k].SetPin? ==> es[k].pin != i
  }

  /** Left to the surroundings, pin i stays at v between two times. */
  ghost predicate Held(i: nat, v: bool, from: nat, to: nat, around: Surroundings) {
    forall c: nat, us: nat :: from <= c && c + us <= to ==> around(i, v, c, us) == v
  }

  /** Of the handlers below i, those run in the pass that starts at b do not set pin i. */
  ghost predicate LeftAlone(b: Board, i: nat, around: Surroundings)
    requires b.Valid() && i < PINS
  {
    forall j :: 0 <= j < i && b.handlers[j].enabled
                && Triggers(b.handlers[j].mode, b.handlers[j].last, LevelAtTurn(b, j, around))
      ==> Spares(b.handlers[j].func(b.passes + 1), i)
  }

  lemma {:induction false} SleptHolds(b: Board, us: nat, i: nat, v: bool, around: Surroundings)
    requires b.Valid() && i < PINS && b.pins[i] == v && Held(i, v, b.clock, b.clock + us, around)
    ensures Slept(b, us, around).pins[i] == v
    decreases us
  {
    if us > 0 {
      var slice := Slice(us);
      SleptHolds(Elapsed(b, slice, around), us - slice, i, v, around);
    }
  }

  lemma {:induction false} AffectedGrows(b: Board, es: seq<Effect>, around: Surroundings)
    requires b.Valid()
    ensures AffectedBy(b, es, around).clock >= b.clock
    decreases |es|
  {
    if es != [] {
      if es[0].Delay? { SleptTime(b.(requested := b.requested + es[0].us), es[0].us, around); }
      AffectedGrows(Affected(b, es[0], around), es[1..], around);
    }
  }

  lemma {:induction false} AffectedHolds(b: Board, es: seq<Effect>, i: nat, v: bool, around: Surroundings)
    requires b.Valid() && i < PINS && b.pins[i] == v && Spares(es, i)
    requires Held(i, v, b.clock, AffectedBy(b, es, around).clock, around)
    ensures AffectedBy(b, es, around).pins[i] == v
    decreases |es|
  {
    if es != [] {
      var next := Affected(b, es[0], around);
      AffectedGrows(next, es[1..], around);
      if es[0].Delay? {
        var b0 := b.(requested := b.requested + es[0].us);
        SleptTime(b0, es[0].us, around);
        SleptHolds(b0, es[0].us, i, v, around);
      }
      AffectedHolds(next, es[1..], i, v, around);
    }
  }

  lemma {:induction false} CheckedHolds(b: Board, n: nat, i: nat, v: bool, around: Surroundings)
    requires b.Valid() && n <= i < PINS && b.pins[i] == v
    requires forall j :: 0 <= j < n && b.handlers[j].enabled
                         && Triggers(b.handlers[j].mode, b.handlers[j].last, CheckedTo(b, j, around).pins[j])
               ==> Spares(b.handlers[j].func(b.passes), i)
    requires Held(i, v, b.clock, CheckedTo(b, n, around).clock, around)
    ensures CheckedTo(b, n, around).pins[i] == v && CheckedTo(b, n, around).clock >= b.clock
  {
    if n > 0 {
      var j := n - 1;
      var b1, h := CheckedTo(b, j, around), b.handlers[j];
      CheckedTime(b, j, around);
      if h.enabled {
        CheckedLooksOnce(b, j, j, around);
        var b2 := b1.(turns := b1.turns[j := b1.turns[j] + [Turn(b1.passes, h.last, b1.pins[j],
                                                                 Triggers(h.mode, h.last, b1.pins[j]))]]);
        AffectedGrows(b2, h.func(b.passes), around);
        CheckedHolds(b, j, i, v, around);
        if Triggers(h.mode, h.last, b1.pins[j]) {
          AffectedHolds(b2, h.func(b.passes), i, v, around);
        }
      } else {
        DisabledStays(b, j, around);
        CheckedHolds(b, j, i, v, around);
      }
    }
  }

  lemma {:induction false} DisabledStays(b: Board, j: nat, around: Surroundings)
    requires b.Valid() && j < PINS && !b.handlers[j].enabled
    ensures CheckedTo(b, j + 1, around) == CheckedTo(b, j, around)
  {
    HandlersStay(b, j, j, around);
  }

  lemma {:induction false} HandlersStay(b: Board, n: nat, j: nat, around: Surroundings)
    requires b.Valid() && n <= j < PINS
    ensures CheckedTo(b, n, around).handlers[j] == b.handlers[j]
  {
    if n > 0 {
      HandlersStay(b, n - 1, j, around);
      TurnedKeepsOthers(CheckedTo(b, n - 1, around), n - 1, j, around);
    }
  }

  /** A level v that user code leaves on pin i in a pass that is not the last is looked at in the next
      pass, against the level seen in this one, before the wait returns, if the surroundings keep the pin
      at v until then and no handler run before that look sets the pin. */
  lemma EdgeOfCallbackIsSeen(b: Board, us: nat, i: nat, v: bool, around: Surroundings)
    requires b.Valid() && i < PINS && b.handlers[i].enabled && us > 0 && Chained(b.turns[i], b.handlers[i])
    requires var slice := Slice(us);
             var b1 := Pumped(b, around);
             var b2 := Elapsed(b1, slice, around);
             && b1.pins[i] == v && LeftAlone(b2, i, around)
             && Held(i, v, b1.clock, CheckedTo(b2.(passes := b2.passes + 1), i, around).clock, around)
    ensures var seen, h := LevelAtTurn(b, i, around), b.handlers[i];
            Turn(b.passes + 2, seen, v, Triggers(h.mode, seen, v)) in Waited(b, us, around).turns[i]
  {
    hide Pumped, LevelAtTurn, CheckedTo, Triggers, LeftAlone, Held, Chained, Slice, CeilDiv;
    PassAddsLook(b, i, around);
    PumpedTime(b, around);
    var slice := Slice(us);
    var b2 := Elapsed(Pumped(b, around), slice, around);
    NextLevelIs(Pumped(b, around), slice, i, v, around);
    NoEdgeIsMissed(b2, us - slice, i, around);
    var turns := Waited(b2, us - slice, around).turns[i];
    assert turns[|b2.turns[i]|] == NextLook(b2, i, around);
  }

  /** The level at the turn of handler i in the pass after a slice. */
  lemma NextLevelIs(b1: Board, slice: nat, i: nat, v: bool, around: Surroundings)
    requires b1.Valid() && i < PINS && b1.pins[i] == v
    requires var b2 := Elapsed(b1, slice, around);
             && LeftAlone(b2, i, around)
             && Held(i, v, b1.clock, CheckedTo(b2.(passes := b2.passes + 1), i, around).clock, around)
    ensures LevelAtTurn(Elapsed(b1, slice, around), i, around) == v
  {
    var b2 := Elapsed(b1, slice, around);
    var b3 := b2.(passes := b2.passes + 1);
    CheckedTime(b3, i, around);
    CheckedGrows(b3, i, around);
    hide CheckedTo, Triggers, Spares;
    CheckedHolds(b3, i, i, v, around);
  }

  lemma {:induction false} CheckedGrows(b: Board, n: nat, around: Surroundings)
    requires b.Valid() && n <= PINS
    ensures CheckedTo(b, n, around).clock >= b.clock
  {
    if n > 0 {
      CheckedGrows(b, n - 1, around);
      var b1 := CheckedTo(b, n - 1, around);
      var h := b1.handlers[n - 1];
      AffectedGrows(b1.(turns := b1.turns[n - 1 := b1.turns[n - 1] + [Turn(b1.passes, h.last, b1.pins[n - 1],
                                                                           Triggers(h.mode, h.last, b1.pins[n - 1]))]]),
                    h.func(b1.passes), around);
    }
  }
}
