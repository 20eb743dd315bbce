/** Script events: the commands that decide when the next line runs, and the bit stream, which
    reschedules itself to clock out a payload. */
module Script {
  import opened Common
  import opened Injector

  // ---------------------------------------------------------------- script commands

  /** A line: a blank line or comment, one of the commands that bear on time, a pin setting, or a
      registered command, which may fail to be built. Behind `at` and its time the line goes on. */
  datatype Command = Nothing | At(t: nat, rest: Command) | Pin | Wait(d: nat) | Sync(t: nat) | Registered(built: bool)

  /** Raising a script event at `now`: what it asks the injector for. `next` is the event that the
      following script line would become, if there is one. */
  function RaiseCommand(c: Command, now: nat, chained: nat, next: Option<nat>): Outcome {
    var sched := if c.At? then c.t else 0;
    var nextStep := if c.Wait? then c.d + now else if c.Sync? then c.t else 0;
    var delay := if nextStep > 0 then (if now > nextStep then 0 else nextStep - now) else 0;
    var chain :=
      if c.Registered? && c.built then Some(Request(now, chained))
      else if next.Some? then Some(Request(now + delay, next.value))
      else None;
    Outcome(sched, chain)
  }

  /** `wait d` puts the next line d after now, `sync t` at t or now if that is later, any other
      command at now. */
  lemma NextLineTime(c: Command, now: nat, chained: nat, next: nat)
    requires !(c.Registered? && c.built)
    ensures RaiseCommand(c, now, chained, Some(next)).chain
            == Some(Request(match c
                            case Wait(d) => now + d
                            case Sync(t) => if t > now then t else now
                            case _ => now, next))
  {
  }

  /** A script event meets what the injector needs, except an `at` for a time in the past. */
  lemma CommandIsPunctualIff(c: Command, now: nat, chained: nat, next: Option<nat>)
    ensures Punctual(RaiseCommand(c, now, chained, next), now) <==> !(c.At? && 0 < c.t < now)
  {
  }

  /** A raise asks for less than the line itself, however its line and those behind it are weighed, except
      an `at` for a time not after the clock. */
  lemma CommandIsLighterIff(c: Command, now: nat, me: nat, chained: nat, next: Option<nat>, rank: Rank)
    requires rank(me) > 0 && rank(chained) < rank(me) && (next.Some? ==> rank(next.value) < rank(me))
    ensures Lighter(RaiseCommand(c, now, chained, next), me, now, rank, rank) <==> !(c.At? && 0 < c.t <= now)
  {
  }

  /** What is left of a line when it has been raised. */
  function Remaining(c: Command): Command {
    if c.At? then c.rest else Nothing
  }

  /** The event made of one line of a script. */
  class ScriptEvent {
    var command: Command
    var nextStep: nat

    constructor (command: Command)
      ensures this.command == command
    {
      this.command, nextStep := command, 0;
    }

    method Act(now: nat, chained: nat) returns (resched: nat, chain: Option<Request>)
      requires nextStep == 0
      modifies this
      ensures command == Remaining(old(command))
      ensures resched == if old(command).At? then old(command).t else 0
      ensures nextStep == if old(command).Wait? then old(command).d + now
              else if old(command).Sync? then old(command).t else 0
      ensures chain == if old(command) == Registered(true) then Some(Request(now, chained)) else None
    {
      resched, chain := 0, None;
      match command {
        case At(t, _) => resched := t;
        case Wait(d) =>
          nextStep := d;
          nextStep := nextStep + now;
        case Sync(t) => nextStep := t;
        case Registered(built) =>
          if built {
            chain := Some(Request(now, chained));
          }
        case _ =>
      }
      command := Remaining(command);
    }

    /** The line is used up to what stands behind an `at`; what comes next depends on what it was. */
    method Raise(now: nat, chained: nat, next: Option<nat>) returns (o: Outcome)
      modifies this
      ensures o == RaiseCommand(old(command), now, chained, next) && command == Remaining(old(command))
    {
      nextStep := 0;
      var resched, chain := Act(now, chained);
      if chain == None {
        if nextStep > 0 {
          if now > nextStep {
            nextStep := 0;
          } else {
            nextStep := nextStep - now;
          }
        }
        if next.Some? {
          chain := Some(Request(now + nextStep, next.value));
        }
      }
      o := Outcome(resched, chain);
    }
  }

  // ---------------------------------------------------------------- the bit stream

  datatype Bits = Bits(pin: int, period: nat, nextUs: nat, line: string, outOfSync: nat, errors: nat)

  datatype Drive = Drive(at: nat, bit: bool)

  datatype BitRaise = BitRaise(bits: Bits, sched: nat, driven: Option<bool>)

  function FirstChar(s: string): char {
    if s == "" then '\0' else s[0]
  }

  function Rest(s: string): string {
    if s == "" then "" else s[1..]
  }

  function Trim(s: string): string {
    if s != "" && (s[0] == ' ' || s[0] == '\t') then Trim(s[1..]) else s
  }

  /** eatWord of a comment mark, after which the whole line is dropped. */
  function DropComment(s: string, mark: string): string {
    if s == mark || mark + " " <= s then "" else s
  }

  /** What every script event does to the line once its action is done. */
  function Tidy(line: string): string {
    DropComment(DropComment(Trim(line), "//"), "#")
  }

  /** The action of the bit stream: one bit onto the pin, then the time of the next one. */
  function BitAction(b: Bits, now: nat): BitRaise {
    if b.pin == -1 then BitRaise(b, 0, None)
    else
      var next := b.nextUs + b.period;
      var separated := FirstChar(b.line) == '-' || FirstChar(b.line) == ' ';
      var line := if separated then Rest(b.line) else b.line;
      var bit := FirstChar(line);
      var b' := b.(nextUs := next, line := Rest(line));
      if bit == '\0' then BitRaise(b', 0, None)
      else if bit != '0' && bit != '1' then BitRaise(b'.(errors := b.errors + 1), 0, None)
      else if next > now then BitRaise(b', next, Some(bit == '1'))
      else BitRaise(b'.(outOfSync := b.outOfSync + 1), now, Some(bit == '1'))
  }

  function RaiseBits(b: Bits, now: nat): BitRaise {
    var r := BitAction(b, now);
    var line := Tidy(r.bits.line);
    r.(bits := r.bits.(line := line, errors := if line != "" && r.sched == 0 then r.bits.errors + 1 else r.bits.errors))
  }

  class BitStream {
    var pin: int
    var period: nat
    var nextUs: nat
    var line: string
    var outOfSync: nat
    var errors: nat

    ghost function View(): Bits
      reads this
    {
      Bits(pin, period, nextUs, line, outOfSync, errors)
    }

    constructor (pin: int, period: nat, now: nat, line: string)
      ensures View() == Bits(pin, period, now, line, 0, 0)
    {
      this.pin, this.period, nextUs, this.line, outOfSync, errors := pin, period, now, line, 0, 0;
    }

    method GetChar() returns (c: char)
      modifies this`line
      ensures c == FirstChar(old(line)) && line == Rest(old(line))
    {
      c := '\0';
      if |line| > 0 {
        c := line[0];
        line := line[1..];
      }
    }

    method Act(now: nat) returns (sched: nat, driven: Option<bool>)
      modifies this
      ensures BitRaise(View(), sched, driven) == BitAction(old(View()), now)
    {
      if pin == -1 { return 0, None; }
      nextUs := nextUs + period;
      var bit := GetChar();
      if bit == '-' || bit == ' ' {
        bit := GetChar();
      }
      if bit == '\0' { return 0, None; }
      if bit != '0' && bit != '1' {
        errors := errors + 1;
        return 0, None;
      }
      driven := Some(bit == '1');
      if nextUs > now {
        sched := nextUs;
      } else {
        outOfSync := outOfSync + 1;
        sched := now;
      }
    }

    method Raise(now: nat) returns (sched: nat, driven: Option<bool>)
      modifies this
      ensures BitRaise(View(), sched, driven) == RaiseBits(old(View()), now)
    {
      sched, driven := Act(now);
      line := Tidy(line);
      if |line| > 0 && sched == 0 {
        errors := errors + 1;
      }
    }
  }

  // ---------------------------------------------------------------- payloads

  /** A bit, behind blanks and at most one '-'. */
  datatype Item = Item(blanks: string, dash: bool, bit: bool)

  ghost predicate Blank(s: string) {
    forall i :: 0 <= i < |s| ==> s[i] == ' ' || s[i] == '\t'
  }

  ghost predicate WellFormed(items: seq<Item>) {
    forall i :: 0 <= i < |items| ==> Blank(items[i].blanks)
  }

  function BitText(item: Item): string {
    (if item.dash then "-" else "") + (if item.bit then "1" else "0")
  }

  function Render(items: seq<Item>): string {
    if items == [] then "" else items[0].blanks + (BitText(items[0]) + Render(items[1..]))
  }

  /** The line as it stands between raises. */
  function Line(items: seq<Item>): string {
    if items == [] then "" else BitText(items[0]) + Render(items[1..])
  }

  lemma {:induction false} TrimBlanks(blanks: string, s: string)
    requires Blank(blanks) && (s != "" ==> s[0] != ' ' && s[0] != '\t')
    ensures Trim(blanks + s) == s
  {
    if blanks == "" {
      assert blanks + s == s;
    } else {
      assert (blanks + s)[1..] == blanks[1..] + s;
      TrimBlanks(blanks[1..], s);
    }
  }

  lemma LineStart(items: seq<Item>)
    ensures Line(items) == "" || Line(items)[0] in {'-', '0', '1'}
  {
  }

  /** Tidying what follows a bit leaves the line for the next one. */
  lemma TidyRender(items: seq<Item>)
    requires WellFormed(items)
    ensures Tidy(Render(items)) == Line(items)
  {
    LineStart(items);
    if items != [] {
      TrimBlanks(items[0].blanks, Line(items));
    }
    assert Trim(Render(items)) == Line(items);
  }

  /** One raise at most 9 us late puts the first bit on the pin and asks for the next tick. */
  lemma RaiseDrivesBit(b: Bits, now: nat, items: seq<Item>)
    requires items != [] && WellFormed(items) && b.line == Line(items) && b.pin != -1
    requires b.period >= 10 && now <= b.nextUs + 9
    ensures RaiseBits(b, now)
            == BitRaise(b.(line := Line(items[1..]), nextUs := b.nextUs + b.period),
                        b.nextUs + b.period, Some(items[0].bit))
  {
    var t := BitText(items[0]);
    var rest := Render(items[1..]);
    if items[0].dash {
      assert t + rest == ['-'] + (t[1..] + rest);
      assert Rest(b.line) == t[1..] + rest;
    }
    assert Rest(t[|t| - 1..] + rest) == rest;
    TidyRender(items[1..]);
  }

  /** A comment at the end of a line goes with the blanks before it; anything else stays. */
  lemma TidyIs(blanks: string, s: string)
    requires Blank(blanks) && (s != "" ==> s[0] != ' ' && s[0] != '\t')
    ensures Tidy(blanks + s) == if s in {"//", "#"} || "// " <= s || "# " <= s then "" else s
  {
    TrimBlanks(blanks, s);
  }

  /** A character that is no bit ends the stream: nothing is driven, it is an error, and so is what is left of
      the line behind it. */
  lemma RaiseRejects(b: Bits, now: nat)
    requires b.pin != -1 && b.line != "" && b.line[0] !in {'0', '1', '-', ' ', '\0'}
    ensures var r := RaiseBits(b, now);
            && r.driven == None && r.sched == 0 && r.bits.outOfSync == b.outOfSync
            && r.bits.errors == b.errors + if Tidy(b.line[1..]) == "" then 1 else 2
  {
  }

  /** When the payload is used up the stream ends. */
  lemma RaiseEnds(b: Bits, now: nat)
    requires b.line == "" && b.pin != -1
    ensures RaiseBits(b, now) == BitRaise(b.(nextUs := b.nextUs + b.period), 0, None)
  {
  }

  /** Lateness of up to 9 us is always made up just when the period is 10 us or more. */
  lemma InSyncIff(b: Bits, items: seq<Item>)
    requires items != [] && WellFormed(items) && b.line == Line(items) && b.pin != -1
    ensures (forall now :: b.nextUs <= now <= b.nextUs + 9 ==> RaiseBits(b, now).bits.outOfSync == b.outOfSync)
            <==> b.period >= 10
  {
    if b.period >= 10 {
      forall now | b.nextUs <= now <= b.nextUs + 9 ensures RaiseBits(b, now).bits.outOfSync == b.outOfSync {
        RaiseDrivesBit(b, now, items);
      }
    } else {
      var t := BitText(items[0]);
      var rest := Render(items[1..]);
      if items[0].dash {
        assert t + rest == ['-'] + (t[1..] + rest);
        assert Rest(b.line) == t[1..] + rest;
      }
      assert RaiseBits(b, b.nextUs + 9).bits.outOfSync == b.outOfSync + 1;
    }
  }

  // ---------------------------------------------------------------- the stream in the injector

  /** The injector, one bit stream in it (event number `me`), and what it has put onto its pin. */
  datatype World = World(inj: State, bits: Bits, drives: seq<Drive>)

  /** Keys at which event `me` is pending. */
  function Mine(es: seq<Entry>, me: nat): seq<nat> {
    if es == [] then [] else (if es[0].live && es[0].event == me then [es[0].key] else []) + Mine(es[1..], me)
  }

  function MyRequests(rs: seq<Request>, me: nat): seq<nat> {
    if rs == [] then [] else (if rs[0].event == me then [rs[0].key] else []) + MyRequests(rs[1..], me)
  }

  /** The stream asks for its next tick; everything else does as `others` says. */
  function Together(w: World, others: Behaviour, me: nat): Behaviour {
    (e: Entry) =>
      if e.event == me then Outcome(RaiseBits(w.bits, w.inj.clock).sched, others(e).chain) else others(e)
  }

  function PassTogether(w: World, others: Behaviour, me: nat): World {
    var inj := Iterate(w.inj, Together(w, others, me));
    if Mine(NextGroup(w.inj), me) == [] then w.(inj := inj)
    else
      var r := RaiseBits(w.bits, w.inj.clock);
      World(inj, r.bits, if r.driven.Some? then w.drives + [Drive(w.inj.clock, r.driven.value)] else w.drives)
  }

  datatype Step = Elsewhere(a: Action) | PassWith(others: Behaviour)

  function DoStep(w: World, s: Step, me: nat): World {
    match s
    case Elsewhere(a) => w.(inj := Do(w.inj, a))
    case PassWith(others) => PassTogether(w, others, me)
  }

  function Play(w: World, run: seq<Step>, me: nat): World
    decreases |run|
  {
    if run == [] then w else Play(DoStep(w, run[0], me), run[1..], me)
  }

  /** The rest of the world keeps to keys not before the clock, does not touch the stream, and does
      not stop the injector. */
  ghost predicate StepAllowed(w: World, s: Step, me: nat) {
    match s
    case Elsewhere(AddEvent(r)) => r.key >= w.inj.clock && r.event != me
    case Elsewhere(Delay(_)) => true
    case Elsewhere(_) => false
    case PassWith(others) =>
      forall e :: Punctual(others(e), w.inj.clock) && (others(e).chain.Some? ==> others(e).chain.value.event != me)
  }

  ghost predicate RunAllowed(w: World, run: seq<Step>, me: nat)
    decreases |run|
  {
    run == [] || (StepAllowed(w, run[0], me) && RunAllowed(DoStep(w, run[0], me), run[1..], me))
  }

  /** The timetable: bit i is due at start + i * period. */
  function Tick(start: nat, period: nat, i: nat): nat {
    if i == 0 then start else Tick(start, period, i - 1) + period
  }

  lemma {:induction false} TickIsLinear(start: nat, period: nat, i: nat)
    ensures Tick(start, period, i) == start + i * period
  {
    if i > 0 {
      TickIsLinear(start, period, i - 1);
      assert i * period == (i - 1) * period + period;
    }
  }

  /** A newly built stream whose event has been inserted with no delay. */
  ghost predicate Begins(w: World, items: seq<Item>, me: nat) {
    && Inv(w.inj) && Mine(w.inj.events, me) == [w.bits.nextUs] && w.bits.nextUs == w.inj.clock
    && w.bits.line == Line(items) && WellFormed(items) && w.bits.pin != -1
    && w.bits.outOfSync == w.bits.errors == 0 && w.drives == []
  }

  /** The bits put onto the pin so far are the first of the payload, each at its tick or at most 9
      us later. */
  ghost predicate OnTimetable(drives: seq<Drive>, items: seq<Item>, start: nat, period: nat) {
    && |drives| <= |items|
    && forall i :: 0 <= i < |drives| ==>
        drives[i].bit == items[i].bit && Tick(start, period, i) <= drives[i].at <= Tick(start, period, i) + 9
  }

  /** What every step keeps: one event of the stream is pending, for the next tick, until the stream
      has ended. */
  ghost predicate InPlay(w: World, items: seq<Item>, start: nat, period: nat, me: nat) {
    var n := |w.drives|;
    && Inv(w.inj) && WellFormed(items) && period >= 10 && n <= |items|
    && OnTimetable(w.drives, items, start, period)
    && w.bits.pin != -1 && w.bits.period == period && w.bits.outOfSync == w.bits.errors == 0
    && w.bits.line == Line(items[n..])
    && (|| (Mine(w.inj.events, me) == [Tick(start, period, n)] && w.bits.nextUs == Tick(start, period, n))
        || (Mine(w.inj.events, me) == [] && n == |items|))
  }

  lemma {:induction false} MineConcat(xs: seq<Entry>, ys: seq<Entry>, me: nat)
    ensures Mine(xs + ys, me) == Mine(xs, me) + Mine(ys, me)
  {
    if xs == [] {
      assert xs + ys == ys;
    } else {
      assert (xs + ys)[1..] == xs[1..] + ys;
      MineConcat(xs[1..], ys, me);
      Assoc(if xs[0].live && xs[0].event == me then [xs[0].key] else [], Mine(xs[1..], me), Mine(ys, me));
    }
  }

  lemma {:induction false} MineErased(es: seq<Entry>, me: nat)
    ensures Mine(EraseFront(es), me) == Mine(es, me)
  {
    if es != [] && !es[0].live { MineErased(es[1..], me); }
  }

  lemma {:induction false} MineKilled(group: seq<Entry>, me: nat)
    ensures Mine(Kill(group), me) == []
  {
    if group != [] {
      assert Kill(group)[1..] == Kill(group[1..]);
      MineKilled(group[1..], me);
    }
  }

  /** Inserting one more entry adds it, if it is of the stream and the only one. */
  lemma {:induction false} MineInsert(es: seq<Entry>, e: Entry, me: nat)
    requires e.live && (e.event == me ==> Mine(es, me) == [])
    ensures Mine(Insert(es, e), me) == if e.event == me then [e.key] else Mine(es, me)
  {
    if es == [] || e.key < es[0].key {
      MineConcat([e], es, me);
    } else {
      MineConcat([es[0]], Insert(es[1..], e), me);
      MineInsert(es[1..], e, me);
    }
  }

  lemma {:induction false} MineInsertAll(es: seq<Entry>, rs: seq<Request>, id: nat, me: nat)
    requires |Mine(es, me)| + |MyRequests(rs, me)| <= 1
    ensures Mine(InsertAll(es, rs, id), me) == Mine(es, me) + MyRequests(rs, me)
    decreases |rs|
  {
    if rs != [] {
      var e := Entry(rs[0].key, id, rs[0].event, true);
      MineInsert(es, e, me);
      MineInsertAll(Insert(es, e), rs[1..], id + 1, me);
    }
  }

  lemma {:induction false} MyRequestsConcat(xs: seq<Request>, ys: seq<Request>, me: nat)
    ensures MyRequests(xs + ys, me) == MyRequests(xs, me) + MyRequests(ys, me)
  {
    if xs == [] {
      assert xs + ys == ys;
    } else {
      assert (xs + ys)[1..] == xs[1..] + ys;
      MyRequestsConcat(xs[1..], ys, me);
      Assoc(if xs[0].event == me then [xs[0].key] else [], MyRequests(xs[1..], me), MyRequests(ys, me));
    }
  }

  lemma {:induction false} MyRequestInserted(rs: seq<Request>, r: Request, me: nat)
    requires r.event == me ==> MyRequests(rs, me) == []
    ensures MyRequests(InsertRequest(rs, r), me) == if r.event == me then [r.key] else MyRequests(rs, me)
  {
    if rs == [] || r.key < rs[0].key {
      MyRequestsConcat([r], rs, me);
    } else {
      MyRequestsConcat([rs[0]], InsertRequest(rs[1..], r), me);
      MyRequestInserted(rs[1..], r, me);
    }
  }

  lemma {:induction false} MyRequestsSorted(rs: seq<Request>, me: nat)
    requires |MyRequests(rs, me)| <= 1
    ensures MyRequests(SortRequests(rs), me) == MyRequests(rs, me)
  {
    if rs != [] {
      var k := |rs| - 1;
      assert rs == rs[..k] + [rs[k]];
      MyRequestsConcat(rs[..k], [rs[k]], me);
      MyRequestsSorted(rs[..k], me);
      MyRequestInserted(SortRequests(rs[..k]), rs[k], me);
    }
  }

  /** Whatever is raised asks for the event `me` only if it is that event, and then as `asked` says. */
  ghost predicate AsksOnly(raise: Behaviour, me: nat, asked: seq<nat>) {
    forall e: Entry :: e.live ==> MyRequests(Requests(e, raise), me) == if e.event == me then asked else []
  }

  lemma {:induction false} MyRequestsOfGroup(group: seq<Entry>, raise: Behaviour, me: nat, asked: seq<nat>)
    requires |Mine(group, me)| <= 1 && AsksOnly(raise, me, asked)
    ensures MyRequests(Collect(group, raise), me) == if Mine(group, me) == [] then [] else asked
  {
    if group != [] {
      hide Requests;
      MyRequestsOfGroup(group[1..], raise, me, asked);
      MyRequestsConcat(Requests(group[0], raise), Collect(group[1..], raise), me);
      assert !group[0].live ==> Requests(group[0], raise) == [] by { NothingFromTheDead(group[0], raise); }
    }
  }

  /** One event that chains only others. */
  lemma OwnRequests(e: Entry, raise: Behaviour, me: nat)
    requires e.live && (raise(e).chain.Some? ==> raise(e).chain.value.event != me)
    ensures MyRequests(Requests(e, raise), me) == if e.event == me && raise(e).sched != 0 then [raise(e).sched] else []
  {
    var o := raise(e);
    var chained := if o.chain.Some? then [o.chain.value] else [];
    var again := if o.sched != 0 then [Request(o.sched, e.event)] else [];
    MyRequestsConcat(chained, again, me);
  }

  lemma NothingFromTheDead(e: Entry, raise: Behaviour)
    ensures !e.live ==> Requests(e, raise) == []
  {
  }

  lemma OnlyRaisingChangesEvents(st: State, raise: Behaviour)
    ensures Iterate(st, raise).events == RaiseDue(st, raise).events
  {
    hide RaiseDue;
  }

  /** How a pass changes what is pending of the event `me`: what is raised of it goes, what is asked for
      comes. */
  lemma MineAfterAnyPass(st: State, raise: Behaviour, me: nat)
    requires var left := if Mine(NextGroup(st), me) == [] then Mine(st.events, me) else [];
             |Mine(st.events, me)| <= 1 && |left| + |MyRequests(Collect(NextGroup(st), raise), me)| <= 1
    ensures Mine(Iterate(st, raise).events, me)
            == (if Mine(NextGroup(st), me) == [] then Mine(st.events, me) else [])
               + MyRequests(Collect(NextGroup(st), raise), me)
    ensures Mine(NextGroup(st), me) == [] || Mine(NextGroup(st), me) == Mine(st.events, me)
  {
    OnlyRaisingChangesEvents(st, raise);
    NothingCollected(raise, me);
    hide MyRequests, Collect, SortRequests, EraseFront, GroupLen, InsertAll, Kill, JitterOf, LogOf, Iterate;
    MineErased(st.events, me);
    assert Mine([], me) == [];
    hide Mine;
    var es := EraseFront(st.events);
    if es != [] && es[0].key <= st.clock {
      var g := GroupLen(es, es[0].key);
      MineOfGroup(es, g, me);
      MyRequestsSorted(Collect(es[..g], raise), me);
      MineInsertAll(Kill(es[..g]) + es[g..], SortRequests(Collect(es[..g], raise)), st.nextId, me);
    }
  }

  lemma NothingCollected(raise: Behaviour, me: nat)
    ensures Collect([], raise) == [] && MyRequests([], me) == []
  {
  }

  /** In particular when only the event itself asks for itself. */
  lemma MineAfterPass(st: State, raise: Behaviour, me: nat, asked: seq<nat>)
    requires |Mine(st.events, me)| <= 1 && |asked| <= 1 && AsksOnly(raise, me, asked)
    ensures Mine(Iterate(st, raise).events, me)
            == if Mine(NextGroup(st), me) == [] then Mine(st.events, me) else asked
    ensures Mine(NextGroup(st), me) == [] || Mine(NextGroup(st), me) == Mine(st.events, me)
  {
    hide MyRequests, Collect, Iterate, AsksOnly, Mine, NextGroup;
    MineOfNextGroup(st, me);
    MyRequestsOfGroup(NextGroup(st), raise, me, asked);
    MineAfterAnyPass(st, raise, me);
  }

  lemma MineOfNextGroup(st: State, me: nat)
    requires |Mine(st.events, me)| <= 1
    ensures Mine(NextGroup(st), me) == [] || Mine(NextGroup(st), me) == Mine(st.events, me)
  {
    MineErased(st.events, me);
    assert Mine([], me) == [];
    hide Mine, EraseFront, GroupLen;
    var es := EraseFront(st.events);
    if es != [] && es[0].key <= st.clock {
      MineOfGroup(es, GroupLen(es, es[0].key), me);
    }
  }

  /** Splitting off and killing the first group. */
  lemma MineOfGroup(es: seq<Entry>, g: nat, me: nat)
    requires g <= |es| && |Mine(es, me)| <= 1
    ensures Mine(es[..g], me) == [] || Mine(es[..g], me) == Mine(es, me)
    ensures Mine(Kill(es[..g]) + es[g..], me) == if Mine(es[..g], me) == [] then Mine(es, me) else []
  {
    assert es == es[..g] + es[g..];
    MineConcat(es[..g], es[g..], me);
    MineConcat(Kill(es[..g]), es[g..], me);
    MineKilled(es[..g], me);
  }

  lemma {:induction false} MineIsPending(es: seq<Entry>, me: nat, key: nat)
    requires key in Mine(es, me)
    ensures exists e :: e in es && e.live && e.event == me && e.key == key
  {
    if es[0].live && es[0].event == me && es[0].key == key {
      assert es[0] in es;
    } else {
      MineIsPending(es[1..], me, key);
      assert es == [es[0]] + es[1..];
    }
  }

  /** What is raised in the next pass is due and not too late. */
  lemma GroupIsDue(st: State, me: nat, key: nat)
    requires Inv(st) && key in Mine(NextGroup(st), me)
    ensures key <= st.clock <= key + 9
  {
    MineIsPending(NextGroup(st), me, key);
    EraseFrontIsSuffix(st.events);
    var e :| e in NextGroup(st) && e.live && e.event == me && e.key == key;
    assert e in st.events;
  }

  lemma WellFormedRest(items: seq<Item>, n: nat)
    requires n <= |items| && WellFormed(items)
    ensures WellFormed(items[n..])
  {
  }

  /** The stream's own part of a pass in which it is raised. */
  lemma RaiseKeepsTimetable(b: Bits, drives: seq<Drive>, now: nat, items: seq<Item>, start: nat)
    requires OnTimetable(drives, items, start, b.period) && WellFormed(items) && b.period >= 10 && b.pin != -1
    requires b.line == Line(items[|drives|..]) && b.nextUs == Tick(start, b.period, |drives|) <= now <= b.nextUs + 9
    ensures var n, r := |drives|, RaiseBits(b, now);
            && r.bits.pin == b.pin && r.bits.period == b.period
            && r.bits.outOfSync == b.outOfSync && r.bits.errors == b.errors
            && (n == |items| ==> r.driven == None && r.sched == 0 && r.bits.line == "")
            && (n < |items| ==>
                  && r.driven == Some(items[n].bit) && r.bits.line == Line(items[n + 1..])
                  && r.sched == r.bits.nextUs == Tick(start, b.period, n + 1) > now
                  && OnTimetable(drives + [Drive(now, items[n].bit)], items, start, b.period))
  {
    hide RaiseBits, Line, WellFormed;
    var n := |drives|;
    if n < |items| {
      assert items[n..][1..] == items[n + 1..];
      WellFormedRest(items, n);
      RaiseDrivesBit(b, now, items[n..]);
    } else {
      LineOfNothing();
      RaiseEnds(b, now);
    }
  }

  /** The injector's part of a pass. */
  lemma PassFacts(w: World, others: Behaviour, me: nat)
    requires Inv(w.inj) && |Mine(w.inj.events, me)| <= 1 && StepAllowed(w, PassWith(others), me)
    ensures var mine, inj := Mine(NextGroup(w.inj), me), PassTogether(w, others, me).inj;
            var sched := RaiseBits(w.bits, w.inj.clock).sched;
            && Inv(inj)
            && (mine == [] || mine == Mine(w.inj.events, me))
            && Mine(inj.events, me) == if mine == [] then Mine(w.inj.events, me) else if sched == 0 then [] else [sched]
  {
    var raise := Together(w, others, me);
    var sched := RaiseBits(w.bits, w.inj.clock).sched;
    assert Punctual(Outcome(sched, None), w.inj.clock);
    hide RaiseBits;
    assert forall e :: Punctual(raise(e), w.inj.clock);
    forall e: Entry | e.live
      ensures MyRequests(Requests(e, raise), me) == if e.event == me && sched != 0 then [sched] else []
    {
      OwnRequests(e, raise, me);
    }
    IterateKeepsInv(w.inj, raise);
    hide Inv, Punctual, AsksOnly;
    MineAfterPass(w.inj, raise, me, if sched == 0 then [] else [sched]);
  }

  lemma PassKeepsInPlay(w: World, others: Behaviour, items: seq<Item>, start: nat, period: nat, me: nat)
    requires InPlay(w, items, start, period, me) && StepAllowed(w, PassWith(others), me)
    ensures InPlay(PassTogether(w, others, me), items, start, period, me)
  {
    hide Inv, Iterate, NextGroup, Mine, OnTimetable, Tick, RaiseBits, Line, StepAllowed, WellFormed;
    PassFacts(w, others, me);
    if Mine(NextGroup(w.inj), me) != [] {
      GroupIsDue(w.inj, me, w.bits.nextUs);
      RaiseKeepsTimetable(w.bits, w.drives, w.inj.clock, items, start);
      assert |w.drives| == |items| ==> items[|w.drives|..] == [];
      LineOfNothing();
    }
  }

  lemma LineOfNothing()
    ensures Line([]) == ""
  {
  }

  lemma StepKeepsInPlay(w: World, s: Step, items: seq<Item>, start: nat, period: nat, me: nat)
    requires InPlay(w, items, start, period, me) && StepAllowed(w, s, me)
    ensures InPlay(DoStep(w, s, me), items, start, period, me)
  {
    match s {
      case PassWith(others) => PassKeepsInPlay(w, others, items, start, period, me);
      case Elsewhere(AddEvent(r)) =>
        InsertKeepsInv(w.inj, r);
        MineInsert(w.inj.events, Entry(r.key, w.inj.nextId, r.event, true), me);
      case Elsewhere(Delay(_)) =>
    }
  }

  lemma {:induction false} RunKeepsInPlay(w: World, run: seq<Step>, items: seq<Item>, start: nat, period: nat, me: nat)
    requires InPlay(w, items, start, period, me) && RunAllowed(w, run, me)
    ensures InPlay(Play(w, run, me), items, start, period, me)
    decreases |run|
  {
    if run != [] {
      StepKeepsInPlay(w, run[0], items, start, period, me);
      RunKeepsInPlay(DoStep(w, run[0], me), run[1..], items, start, period, me);
    }
  }

  /** In every run the stream keeps its timetable: bit i goes onto the pin no earlier than
      start + i * period and at most 9 us later, when that is past it has been driven, and the stream
      never counts itself out of sync. */
  lemma StreamKeepsTimetable(w: World, run: seq<Step>, items: seq<Item>, me: nat)
    requires Begins(w, items, me) && w.bits.period >= 10 && RunAllowed(w, run, me)
    ensures var w' := Play(w, run, me);
            var start, period := w.bits.nextUs, w.bits.period;
            && |w'.drives| <= |items|
            && (forall i :: 0 <= i < |w'.drives| ==>
                  && w'.drives[i].bit == items[i].bit
                  && start + i * period <= w'.drives[i].at <= start + i * period + 9)
            && (forall i :: 0 <= i < |items| && w'.inj.clock >= start + i * period + 10 ==> i < |w'.drives|)
            && w'.bits.outOfSync == 0 && w'.bits.errors == 0
  {
    var start, period := w.bits.nextUs, w.bits.period;
    var w' := Play(w, run, me);
    var n := |w'.drives|;
    assert items[0..] == items;
    RunKeepsInPlay(w, run, items, start, period, me);
    hide Play, RunAllowed, Inv, Line, WellFormed;
    if n < |items| {
      NotYetDriven(w', items, start, period, me);
    }
    forall i | 0 <= i < |items|
      ensures i < n ==> start + i * period <= w'.drives[i].at <= start + i * period + 9
      ensures w'.inj.clock >= start + i * period + 10 ==> i < n
    {
      TickIsLinear(start, period, i);
      if n <= i {
        TickGrows(start, period, n, i);
      }
    }
  }

  /** No stream of this period ever counts itself out of sync, in whatever run. */
  ghost predicate AlwaysInSync(period: nat) {
    forall w, run, items, me ::
      Begins(w, items, me) && w.bits.period == period && RunAllowed(w, run, me) ==> Play(w, run, me).bits.outOfSync == 0
  }

  /** Streams stay in sync in all runs just when their period is at least 10 us. */
  lemma AlwaysInSyncIff(period: nat)
    ensures AlwaysInSync(period) <==> period >= 10
  {
    if period >= 10 {
      forall w, run, items, me | Begins(w, items, me) && w.bits.period == period && RunAllowed(w, run, me)
        ensures Play(w, run, me).bits.outOfSync == 0
      {
        StreamKeepsTimetable(w, run, items, me);
      }
    } else {
      LateRun(period);
      var w, run, items := LateWorld(period), LateSteps(period), TwoOnes();
      hide Begins, RunAllowed, Play;
      assert Begins(w, items, 0) && w.bits.period == period && RunAllowed(w, run, 0);
    }
  }

  function TwoOnes(): seq<Item> {
    [Item("", false, true), Item("", false, true)]
  }

  const QUIET: Behaviour := (e: Entry) => Outcome(0, None)

  /** Two bits of a stream alone in the injector, from time 100 on. */
  function LateWorld(period: nat): World {
    World(State([Entry(100, 0, 0, true)], 1, 100, 0, 0, []), Bits(5, period, 100, "11", 0, 0), [])
  }

  /** The clock is brought to just before the second tick and then moved by 10 us. */
  function LateSteps(period: nat): seq<Step> {
    if period == 0 then [PassWith(QUIET)]
    else
      [PassWith(QUIET), Elsewhere(Delay(period - 1)), PassWith(QUIET), Elsewhere(Delay(10)), PassWith(QUIET),
       PassWith(QUIET)]
  }

  lemma LateWorldBegins(period: nat)
    ensures Begins(LateWorld(period), TwoOnes(), 0)
  {
    var items := TwoOnes();
    assert items[1..] == [Item("", false, true)] && items[1..][1..] == [];
    assert Render([]) == "" && Render(items[1..]) == "1";
    assert BitText(items[0]) == "1" && Line(items) == "11";
    assert LateWorld(period).inj.events[1..] == [];
  }

  lemma {:induction false} QuietRunAllowed(w: World, run: seq<Step>)
    requires forall i :: 0 <= i < |run| ==> run[i] == PassWith(QUIET) || (run[i].Elsewhere? && run[i].a.Delay?)
    ensures RunAllowed(w, run, 0)
    decreases |run|
  {
    if run != [] { QuietRunAllowed(DoStep(w, run[0], 0), run[1..]); }
  }

  /** The stream alone in the injector, its next bit due at `key` and so many ones left. */
  ghost predicate Alone(w: World, clock: nat, us: nat, key: nat, period: nat, line: string) {
    && w.inj.clock == clock && w.inj.timeForward == us && w.bits == Bits(5, period, key, line, 0, 0)
    && exists id :: EraseFront(w.inj.events) == [Entry(key, id, 0, true)]
  }

  /** A pass before the next bit is due takes the clock up to 10 us further. */
  lemma PassBefore(w: World, clock: nat, us: nat, key: nat, period: nat, line: string)
    requires Alone(w, clock, us, key, period, line) && clock < key
    ensures var add := if us < 10 then us else 10;
            Alone(DoStep(w, PassWith(QUIET), 0), clock + add, us - add, key, period, line)
  {
    var id :| EraseFront(w.inj.events) == [Entry(key, id, 0, true)];
    var es := EraseFront(w.inj.events);
    assert EraseFront(es) == es;
    assert NextGroup(w.inj) == [];
    hide RaiseBits, RaiseGroup;
  }

  /** One event alone, raised and asking for itself again. */
  lemma RaisedAlone(st: State, e: Entry, raise: Behaviour, sched: nat)
    requires EraseFront(st.events) == [e] && e.live && e.key <= st.clock && raise(e) == Outcome(sched, None)
    requires sched >= e.key && sched > 0
    ensures NextGroup(st) == [e]
    ensures EraseFront(RaiseDue(st, raise).events) == [Entry(sched, st.nextId, e.event, true)]
  {
    var r, dead, again := Request(sched, e.event), e.(live := false), Entry(sched, st.nextId, e.event, true);
    assert [e][..1] == [e] && [e][1..] == [] && [r][1..] == [] && [dead][1..] == [] && [r][..0] == [];
    assert GroupLen([e], e.key) == 1;
    assert Collect([e], raise) == [r];
    assert SortRequests([]) == [] && SortRequests([r]) == [r];
    assert Kill([e]) == [dead];
    assert Insert([dead], again) == [dead, again];
    assert InsertAll([dead, again], [], st.nextId + 1) == [dead, again];
    assert InsertAll([dead], [r], st.nextId) == [dead, again];
    assert [dead] + [] == [dead];
    hide Collect, SortRequests, InsertAll, Kill, Insert, GroupLen;
    assert [dead, again][1..] == [again];
    assert EraseFront([again]) == [again] && EraseFront([dead, again]) == [again];
  }

  /** A pass in which the bit is due. */
  lemma PassAt(w: World, clock: nat, key: nat, period: nat, line: string)
    requires Alone(w, clock, 0, key, period, line) && key <= clock
    ensures var w', r := DoStep(w, PassWith(QUIET), 0), RaiseBits(w.bits, clock);
            && (r.sched >= key && r.sched > 0 ==> w'.bits == r.bits)
            && (r.sched == key + period > key && r.bits == w.bits.(nextUs := key + period, line := "1") ==>
                  Alone(w', clock, 0, key + period, period, "1"))
  {
    var id :| EraseFront(w.inj.events) == [Entry(key, id, 0, true)];
    var raise := Together(w, QUIET, 0);
    var r := RaiseBits(w.bits, clock);
    hide RaiseBits, EraseFront, RaiseDue, NextGroup;
    if r.sched >= key && r.sched > 0 {
      RaisedAlone(w.inj, Entry(key, id, 0, true), raise, r.sched);
    }
  }

  /** A one is driven; the next is in time just when the tick after this one is still ahead. */
  lemma RaiseOnes(period: nat, key: nat, line: string, now: nat)
    requires line == "11" || line == "1"
    ensures var r := RaiseBits(Bits(5, period, key, line, 0, 0), now);
            && (key + period > now && line == "11" ==>
                  r.sched == key + period && r.bits == Bits(5, period, key + period, "1", 0, 0))
            && (if key + period > now then r.sched == key + period else r.sched == now)
            && r.bits.outOfSync == if key + period > now then 0 else 1
  {
    assert Rest("11") == "1" && Rest("1") == "" && Tidy("1") == "1" && Tidy("") == "";
  }

  lemma PlayMore(w: World, s: Step, run: seq<Step>)
    ensures Play(w, [s] + run, 0) == Play(DoStep(w, s, 0), run, 0)
  {
    assert ([s] + run)[1..] == run;
  }

  /** The first bit is driven; with a period of 0 it is already out of sync. */
  lemma FirstBitDriven(period: nat)
    ensures var w' := DoStep(LateWorld(period), PassWith(QUIET), 0);
            if period == 0 then w'.bits.outOfSync == 1 else Alone(w', 100, 0, 100 + period, period, "1")
  {
    var w := LateWorld(period);
    assert EraseFront(w.inj.events) == [Entry(100, 0, 0, true)];
    assert Alone(w, 100, 0, 100, period, "11");
    hide EraseFront, RaiseBits, PassTogether;
    PassAt(w, 100, 100, period, "11");
    RaiseOnes(period, 100, "11", 100);
  }

  lemma LateStepsAllowed(period: nat)
    ensures RunAllowed(LateWorld(period), LateSteps(period), 0)
  {
    hide RunAllowed;
    QuietRunAllowed(LateWorld(period), LateSteps(period));
  }

  lemma LateStepsPlayed(period: nat)
    ensures var w' := DoStep(LateWorld(period), PassWith(QUIET), 0);
            Play(LateWorld(period), LateSteps(period), 0)
            == if period == 0 then w' else Play(w', LateSteps(period)[1..], 0)
  {
    hide DoStep;
    assert LateSteps(period) == [PassWith(QUIET)] + LateSteps(period)[1..];
    PlayMore(LateWorld(period), PassWith(QUIET), LateSteps(period)[1..]);
  }

  /** With a period below 10 us the stream then counts itself out of sync. */
  lemma LateRun(period: nat)
    requires period < 10
    ensures Begins(LateWorld(period), TwoOnes(), 0) && RunAllowed(LateWorld(period), LateSteps(period), 0)
    ensures Play(LateWorld(period), LateSteps(period), 0).bits.outOfSync == 1
  {
    hide *;
    LateWorldBegins(period);
    LateStepsAllowed(period);
    FirstBitDriven(period);
    LateStepsPlayed(period);
    if period > 0 {
      SecondTickIsLate(DoStep(LateWorld(period), PassWith(QUIET), 0), period);
    }
  }

  lemma SecondTickIsLate(w: World, period: nat)
    requires 0 < period < 10 && Alone(w, 100, 0, 100 + period, period, "1")
    ensures Play(w, LateSteps(period)[1..], 0).bits.outOfSync == 1
  {
    var pass, near, far := PassWith(QUIET), Elsewhere(Delay(period - 1)), Elsewhere(Delay(10));
    var key := 100 + period;
    hide EraseFront, RaiseBits, PassTogether, Play;
    var w1 := DoStep(w, near, 0);
    assert Alone(w1, 100, period - 1, key, period, "1");
    var w2 := DoStep(w1, pass, 0);
    PassBefore(w1, 100, period - 1, key, period, "1");
    var w3 := DoStep(w2, far, 0);
    assert Alone(w3, key - 1, 10, key, period, "1");
    var w4 := DoStep(w3, pass, 0);
    PassBefore(w3, key - 1, 10, key, period, "1");
    PassAt(w4, key + 9, key, period, "1");
    RaiseOnes(period, key, "1", key + 9);
    hide *;
    PlayFive(w, near, pass, far, pass, pass);
    LateStepsAre(period);
  }

  lemma LateStepsAre(period: nat)
    requires period > 0
    ensures LateSteps(period)[1..]
            == [Elsewhere(Delay(period - 1)), PassWith(QUIET), Elsewhere(Delay(10)), PassWith(QUIET), PassWith(QUIET)]
  {
  }

  lemma PlayFive(w: World, a: Step, b: Step, c: Step, d: Step, e: Step)
    ensures Play(w, [a, b, c, d, e], 0)
            == DoStep(DoStep(DoStep(DoStep(DoStep(w, a, 0), b, 0), c, 0), d, 0), e, 0)
  {
    hide DoStep;
    var w1 := DoStep(w, a, 0);
    var w2 := DoStep(w1, b, 0);
    var w3 := DoStep(w2, c, 0);
    var w4 := DoStep(w3, d, 0);
    var w5 := DoStep(w4, e, 0);
    assert Play(w5, [], 0) == w5;
    hide Play;
    PlayMore(w, a, [b, c, d, e]);
    PlayMore(w1, b, [c, d, e]);
    PlayMore(w2, c, [d, e]);
    PlayMore(w3, d, [e]);
    PlayMore(w4, e, []);
  }

  /** The tick of a bit not yet driven is less than 10 us past. */
  lemma NotYetDriven(w: World, items: seq<Item>, start: nat, period: nat, me: nat)
    requires InPlay(w, items, start, period, me) && |w.drives| < |items|
    ensures w.inj.clock < Tick(start, period, |w.drives|) + 10
  {
    MineIsPending(w.inj.events, me, Tick(start, period, |w.drives|));
  }

  lemma {:induction false} TickGrows(start: nat, period: nat, i: nat, j: nat)
    requires i <= j
    ensures Tick(start, period, i) <= Tick(start, period, j)
  {
    if i < j { TickGrows(start, period, i, j - 1); }
  }
}
