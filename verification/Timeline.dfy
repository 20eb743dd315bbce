/** A whole script in the injector: when its lines are raised, and why a wait under it ends. */
module Timeline {
  import opened Common
  import opened Injector
  import opened Script

  // ---------------------------------------------------------------- a wait under a script ends

  /** A script and the events around it: line k is event base + 2 * k, and the event it may build is the
      one after it. Other events, and what built events do themselves, depend on all that has been raised. */
  datatype Program = Program(lines: seq<Command>, base: nat, others: (Progress, nat, Entry) -> Outcome)

  /** How often each event has been raised, and how many lines have been read. */
  datatype Progress = Progress(raised: nat -> nat, read: nat)

  predicate IsLine(s: Program, event: nat) {
    s.base <= event < s.base + 2 * |s.lines| && (event - s.base) % 2 == 0
  }

  predicate IsBuilt(s: Program, event: nat) {
    s.base <= event < s.base + 2 * |s.lines| && (event - s.base) % 2 == 1
  }

  /** What n raises leave of a line. */
  function Left(c: Command, n: nat): Command {
    if n == 0 then c else Remaining(Left(c, n - 1))
  }

  /** What is left of the line that is this event. */
  function LineLeft(s: Program, pr: Progress, event: nat): Command
    requires IsLine(s, event)
  {
    Left(s.lines[(event - s.base) / 2], pr.raised(event))
  }

  /** The event made of the next line read: a registered command is built at once. */
  function NextLine(s: Program, pr: Progress): Option<nat> {
    if pr.read >= |s.lines| then None
    else Some(s.base + 2 * pr.read + if s.lines[pr.read] == Registered(true) then 1 else 0)
  }

  /** An event of the script that has chained nothing itself chains the next line. */
  function RaiseOne(s: Program, pr: Progress, now: nat, e: Entry): Outcome {
    if IsLine(s, e.event) then RaiseCommand(LineLeft(s, pr, e.event), now, e.event + 1, NextLine(s, pr))
    else
      var o, next := s.others(pr, now, e), NextLine(s, pr);
      if IsBuilt(s, e.event) && o.chain.None? && next.Some? then o.(chain := Some(Request(now, next.value))) else o
  }

  /** Whether a raise of the event reads the next line. */
  predicate Reads(s: Program, pr: Progress, now: nat, e: Entry) {
    if IsLine(s, e.event) then LineLeft(s, pr, e.event) != Registered(true)
    else IsBuilt(s, e.event) && s.others(pr, now, e).chain.None?
  }

  function OneMore(raised: nat -> nat, event: nat, of: nat): nat {
    if of == event then raised(of) + 1 else raised(of)
  }

  function AfterOne(s: Program, pr: Progress, now: nat, e: Entry): Progress {
    Progress((event: nat) => OneMore(pr.raised, e.event, event),
             pr.read + if Reads(s, pr, now, e) && pr.read < |s.lines| then 1 else 0)
  }

  function AfterGroup(s: Program, pr: Progress, group: seq<Entry>, now: nat): Progress
    decreases |group|
  {
    if group == [] then pr
    else AfterGroup(s, if group[0].live then AfterOne(s, pr, now, group[0]) else pr, group[1..], now)
  }

  /** What an entry of the group does when those before it have been raised. */
  function InGroup(s: Program, pr: Progress, group: seq<Entry>, now: nat, e: Entry): Outcome
    decreases |group|
  {
    if group == [] || group[0] == e then RaiseOne(s, pr, now, e)
    else InGroup(s, if group[0].live then AfterOne(s, pr, now, group[0]) else pr, group[1..], now, e)
  }

  function Running(s: Program): Surroundings<Progress> {
    Surroundings((pr: Progress, group: seq<Entry>, now: nat) => (e: Entry) => InGroup(s, pr, group, now, e),
                 (pr: Progress, group: seq<Entry>, now: nat) => AfterGroup(s, pr, group, now))
  }

  /** Events that are not lines ask for themselves at once only in their first raises, `patience` of them,
      and what they chain themselves is for later. */
  ghost predicate Patient(s: Program, patience: nat) {
    forall pr, now, e :: var o := s.others(pr, now, e);
      && (0 < o.sched <= now ==> pr.raised(e.event) < patience)
      && (o.chain.Some? ==> o.chain.value.key > now)
  }

  /** How often what is left of a line may still ask for itself, or for the event it builds, at once. */
  function Depth(c: Command, patience: nat): nat {
    match c
    case At(_, rest) => Depth(rest, patience) + 1
    case Registered(true) => patience + 1
    case _ => 0
  }

  function Most(lines: seq<Command>, patience: nat): nat {
    if lines == [] then patience
    else
      var d, m := Depth(lines[0], patience), Most(lines[1..], patience);
      if d > m then d else m
  }

  /** How often an event may still ask at once. */
  function Budget(s: Program, patience: nat, pr: Progress, event: nat): nat {
    if IsLine(s, event) then Depth(LineLeft(s, pr, event), patience)
    else if pr.raised(event) < patience then patience - pr.raised(event) else 0
  }

  /** The weight of an event that may ask at once d times more while u lines are unread, any of which may ask
      at once `most` times: each raise uses up one of the d, or what is left, and reads one line. */
  function Weight(d: nat, u: nat, most: nat): nat
    decreases u
  {
    if u == 0 then d + 1 else Weight(most, u - 1, most) + 1 + if d == 0 then 0 else Weight(d - 1, u - 1, most)
  }

  function Unread(s: Program, pr: Progress): nat {
    if pr.read < |s.lines| then |s.lines| - pr.read else 0
  }

  function ScriptRank(s: Program, patience: nat): Progress -> Rank {
    (pr: Progress) => (event: nat) => Weight(Budget(s, patience, pr, event), Unread(s, pr), Most(s.lines, patience))
  }

  lemma {:induction false} WeightGrows(d: nat, d': nat, u: nat, most: nat)
    requires d < d'
    ensures 0 < Weight(d, u, most) < Weight(d', u, most)
    decreases u
  {
    if u > 0 {
      WeightGrows(most, most + 1, u - 1, most);
      WeightGrows(d' - 1, d', u - 1, most);
      if d > 0 { WeightGrows(d - 1, d' - 1, u - 1, most); }
    }
  }

  /** An event weighs no more when it may ask less often and fewer lines are unread. */
  lemma {:induction false} WeightMonotone(d: nat, d': nat, u: nat, u': nat, most: nat)
    requires d <= d' <= most && u <= u'
    ensures Weight(d, u, most) <= Weight(d', u', most)
    decreases u'
  {
    if d < d' { WeightGrows(d, d', u, most); }
    if u < u' {
      WeightMonotone(d', most, u, u' - 1, most);
    }
  }

  lemma {:induction false} DepthOfLeft(c: Command, n: nat, patience: nat)
    ensures Depth(Left(c, n), patience) <= Depth(c, patience)
    ensures Depth(Left(c, n + 1), patience) <= Depth(Left(c, n), patience)
  {
    if n > 0 { DepthOfLeft(c, n - 1, patience); }
  }

  lemma {:induction false} MostIsMost(lines: seq<Command>, patience: nat, k: nat)
    requires k <= |lines|
    ensures patience <= Most(lines, patience)
    ensures k < |lines| ==> Depth(lines[k], patience) <= Most(lines, patience)
  {
    if lines != [] {
      MostIsMost(lines[1..], patience, if k > 0 then k - 1 else 0);
    }
  }

  lemma BudgetAtMost(s: Program, patience: nat, pr: Progress, event: nat)
    ensures Budget(s, patience, pr, event) <= Most(s.lines, patience)
  {
    MostIsMost(s.lines, patience, |s.lines|);
    if IsLine(s, event) {
      var k := (event - s.base) / 2;
      MostIsMost(s.lines, patience, k);
      DepthOfLeft(s.lines[k], pr.raised(event), patience);
    }
  }

  /** A raise takes nothing but from the event raised, and never adds. */
  lemma BudgetShrinks(s: Program, patience: nat, pr: Progress, now: nat, e: Entry, event: nat)
    ensures Budget(s, patience, AfterOne(s, pr, now, e), event) <= Budget(s, patience, pr, event)
  {
    if IsLine(s, event) {
      DepthOfLeft(s.lines[(event - s.base) / 2], pr.raised(event), patience);
    }
  }

  lemma RankShrinks(s: Program, patience: nat, pr: Progress, now: nat, e: Entry, event: nat)
    ensures ScriptRank(s, patience)(AfterOne(s, pr, now, e))(event) <= ScriptRank(s, patience)(pr)(event)
  {
    var pr' := AfterOne(s, pr, now, e);
    BudgetShrinks(s, patience, pr, now, e, event);
    BudgetAtMost(s, patience, pr, event);
    hide Budget, Weight;
    WeightMonotone(Budget(s, patience, pr', event), Budget(s, patience, pr, event), Unread(s, pr'), Unread(s, pr),
                   Most(s.lines, patience));
  }

  /** A raise that reads a line: the line read and, if it may ask at once, the event itself weigh less
      together than the event did. */
  lemma ReadingIsLighter(d: nat, d': nat, newest: nat, u: nat, most: nat)
    requires u > 0 && newest <= most
    ensures Weight(newest, u - 1, most) < Weight(d, u, most)
    ensures d' < d ==> Weight(newest, u - 1, most) + Weight(d', u - 1, most) < Weight(d, u, most)
  {
    WeightMonotone(newest, most, u - 1, u - 1, most);
    if d' < d && d' < d - 1 { WeightGrows(d', d - 1, u - 1, most); }
  }

  /** What an event asks for at once, by the budgets before and after its raise: itself, if that costs it,
      and the line read. */
  lemma WeightsAfter(s: Program, patience: nat, pr: Progress, now: nat, e: Entry, before: nat, after: nat)
    requires before == ScriptRank(s, patience)(pr)(e.event)
    requires after == ScriptRank(s, patience)(AfterOne(s, pr, now, e))(e.event)
    ensures var saves := Budget(s, patience, AfterOne(s, pr, now, e), e.event) < Budget(s, patience, pr, e.event);
            && before > 0 && (saves ==> after < before)
            && (Reads(s, pr, now, e) && NextLine(s, pr).Some? ==>
                  var newest := ScriptRank(s, patience)(AfterOne(s, pr, now, e))(NextLine(s, pr).value);
                  newest < before && (saves ==> newest + after < before))
  {
    var pr', next := AfterOne(s, pr, now, e), NextLine(s, pr);
    var most, u, u' := Most(s.lines, patience), Unread(s, pr), Unread(s, pr');
    var d, d' := Budget(s, patience, pr, e.event), Budget(s, patience, pr', e.event);
    BudgetAtMost(s, patience, pr, e.event);
    assert u' <= u;
    hide Budget, Weight, Most;
    WeightGrows(d, d + 1, u, most);
    if d' < d {
      WeightGrows(d', d, u, most);
      WeightMonotone(d', d', u', u, most);
    }
    if Reads(s, pr, now, e) && next.Some? {
      BudgetAtMost(s, patience, pr', next.value);
      ReadingIsLighter(d, d', Budget(s, patience, pr', next.value), u, most);
    }
  }

  /** The event a line builds may ask at once less often than the line, which is charged for it. */
  lemma BuiltIsLighter(s: Program, patience: nat, pr: Progress, now: nat, e: Entry)
    requires IsLine(s, e.event) && LineLeft(s, pr, e.event) == Registered(true)
    ensures ScriptRank(s, patience)(AfterOne(s, pr, now, e))(e.event + 1) < ScriptRank(s, patience)(pr)(e.event)
  {
    var pr' := AfterOne(s, pr, now, e);
    var built := Budget(s, patience, pr', e.event + 1);
    assert built <= patience < Budget(s, patience, pr, e.event);
    hide Budget, Weight;
    WeightGrows(built, Budget(s, patience, pr, e.event), Unread(s, pr), Most(s.lines, patience));
  }

  /** Asking for itself at once costs an event some of its budget. */
  lemma AskingCosts(s: Program, patience: nat, pr: Progress, now: nat, e: Entry)
    requires Patient(s, patience) && 0 < RaiseOne(s, pr, now, e).sched <= now
    ensures Budget(s, patience, AfterOne(s, pr, now, e), e.event) < Budget(s, patience, pr, e.event)
  {
    var _ := s.others(pr, now, e);
  }

  /** What is chained for now is the event that a line builds, or the line read. */
  lemma ChainedAtOnce(s: Program, patience: nat, pr: Progress, now: nat, e: Entry)
    requires Patient(s, patience)
    ensures var o, built := RaiseOne(s, pr, now, e), IsLine(s, e.event) && LineLeft(s, pr, e.event) == Registered(true);
            && (built ==> o == Outcome(0, Some(Request(now, e.event + 1))))
            && (!built && o.chain.Some? && o.chain.value.key <= now ==>
                  Reads(s, pr, now, e) && NextLine(s, pr) == Some(o.chain.value.event))
  {
    var _ := s.others(pr, now, e);
    hide LineLeft, NextLine;
  }

  /** Raised in whatever state of the script, an event asks at once for less than itself. */
  lemma RaiseIsLighter(s: Program, patience: nat, pr: Progress, now: nat, e: Entry)
    requires Patient(s, patience)
    ensures Lighter(RaiseOne(s, pr, now, e), e.event, now, ScriptRank(s, patience)(pr),
                    ScriptRank(s, patience)(AfterOne(s, pr, now, e)))
  {
    hide *;
    var before, after := ScriptRank(s, patience)(pr), ScriptRank(s, patience)(AfterOne(s, pr, now, e));
    WeightsAfter(s, patience, pr, now, e, before(e.event), after(e.event));
    ChainedAtOnce(s, patience, pr, now, e);
    if 0 < RaiseOne(s, pr, now, e).sched <= now { AskingCosts(s, patience, pr, now, e); }
    if IsLine(s, e.event) && LineLeft(s, pr, e.event) == Registered(true) {
      BuiltIsLighter(s, patience, pr, now, e);
    }
    LighterIs(RaiseOne(s, pr, now, e), e.event, now, before, after);
  }

  lemma LighterIs(o: Outcome, event: nat, now: nat, before: Rank, after: Rank)
    ensures Lighter(o, event, now, before, after)
            <==> (if o.chain.Some? && o.chain.value.key <= now then after(o.chain.value.event) else 0)
                 + (if 0 < o.sched <= now then after(event) else 0) < before(event)
  {
  }

  lemma LighterStays(o: Outcome, event: nat, now: nat, before: Rank, before': Rank, after: Rank, after': Rank)
    requires Lighter(o, event, now, before, after)
    requires forall ev :: before(ev) <= before'(ev) && after'(ev) <= after(ev)
    ensures Lighter(o, event, now, before', after')
  {
  }

  /** What a script does in a pass meets what a wait needs. */
  lemma {:induction false} ScriptPassIsLighter(s: Program, patience: nat, pr: Progress, group: seq<Entry>, now: nat)
    requires Patient(s, patience)
    ensures var rank := ScriptRank(s, patience);
            PassIsLighter(group, now, (e: Entry) => InGroup(s, pr, group, now, e), rank(pr),
                          rank(AfterGroup(s, pr, group, now)))
    decreases |group|
  {
    hide Patient, Budget, Weight, Most, RaiseOne, AfterOne, Unread, Lighter;
    var rank, pr' := ScriptRank(s, patience), AfterGroup(s, pr, group, now);
    if group != [] {
      var pr1 := if group[0].live then AfterOne(s, pr, now, group[0]) else pr;
      ScriptPassIsLighter(s, patience, pr1, group[1..], now);
      forall event ensures rank(pr1)(event) <= rank(pr)(event) {
        RankShrinks(s, patience, pr, now, group[0], event);
      }
      forall e | e in group && e.live
        ensures Lighter(InGroup(s, pr, group, now, e), e.event, now, rank(pr), rank(pr'))
      {
        if e == group[0] {
          RaiseIsLighter(s, patience, pr, now, e);
          LighterStays(RaiseOne(s, pr, now, e), e.event, now, rank(pr), rank(pr), rank(pr1), rank(pr'));
        } else {
          assert e in group[1..];
          LighterStays(InGroup(s, pr1, group[1..], now, e), e.event, now, rank(pr1), rank(pr), rank(pr'), rank(pr'));
        }
      }
    }
  }

  /** So scripts of all kinds leave waits their end. */
  lemma ScriptWanes(s: Program, patience: nat)
    requires Patient(s, patience)
    ensures Wanes(Running(s), ScriptRank(s, patience))
  {
    hide Patient, PassIsLighter, ScriptRank, InGroup, AfterGroup;
    forall pr, group, now
      ensures PassIsLighter(group, now, Running(s).behave(pr, group, now), ScriptRank(s, patience)(pr),
                            ScriptRank(s, patience)(Running(s).next(pr, group, now)))
    {
      ScriptPassIsLighter(s, patience, pr, group, now);
    }
  }

  /** No line is an `at`, and other events ask only for times that are not before the clock. */
  ghost predicate NeverLate(s: Program) {
    && (forall k :: 0 <= k < |s.lines| ==> !s.lines[k].At?)
    && forall pr, now, e :: Punctual(s.others(pr, now, e), now)
  }

  lemma {:induction false} LeftOfNoAt(c: Command, n: nat)
    requires !c.At?
    ensures !Left(c, n).At?
  {
    if n > 0 { LeftOfNoAt(c, n - 1); }
  }

  lemma {:induction false} GroupIsPunctual(s: Program, pr: Progress, group: seq<Entry>, now: nat, e: Entry)
    requires NeverLate(s)
    ensures Punctual(InGroup(s, pr, group, now, e), now)
    decreases |group|
  {
    if group == [] || group[0] == e {
      if IsLine(s, e.event) {
        LeftOfNoAt(s.lines[(e.event - s.base) / 2], pr.raised(e.event));
      }
      var _ := s.others(pr, now, e);
    } else {
      hide NeverLate, Punctual, RaiseOne;
      GroupIsPunctual(s, if group[0].live then AfterOne(s, pr, now, group[0]) else pr, group[1..], now, e);
    }
  }

  lemma NeverLateIsPunctual(s: Program, st: State, pr: Progress, n: nat)
    requires NeverLate(s)
    ensures PassesArePunctual(st, pr, Running(s), n)
  {
    hide NeverLate, Punctual, InGroup, Spin, NextGroup;
    forall i | 0 <= i < n ensures PassIsPunctual(Spin(st, pr, Running(s), i), Running(s)) {
      var (now, pr') := Spin(st, pr, Running(s), i);
      forall e ensures Punctual(InGroup(s, pr', NextGroup(now), now.clock, e), now.clock) {
        GroupIsPunctual(s, pr', NextGroup(now), now.clock, e);
      }
    }
  }

  /** delay_us while a script runs, at whatever point of it and whatever times its lines ask for: it
      returns n passes later, and the clock has moved by what was asked for. */
  method WaitUnderScript(inj: EventInjector, us: nat, s: Program, pr: Progress, ghost patience: nat)
      returns (pr': Progress, ghost n: nat)
    requires Patient(s, patience)
    modifies inj
    ensures (inj.View(), pr') == Spin(Do(old(inj.View()), Delay(us)), pr, Running(s), n)
    ensures inj.timeForward == 0 && inj.clock == old(inj.clock) + old(inj.timeForward) + us
    ensures (&& old(Inv(inj.View()))
             && (NeverLate(s) || PassesArePunctual(Do(old(inj.View()), Delay(us)), pr, Running(s), n)))
            ==> Inv(inj.View())
  {
    hide Patient, Wanes, Inv, Spin, PassesArePunctual, StillSpinning, NeverLate;
    ScriptWanes(s, patience);
    ghost var st := Do(inj.View(), Delay(us));
    pr', n := inj.DelayUs(us, pr, Running(s), ScriptRank(s, patience));
    if NeverLate(s) { NeverLateIsPunctual(s, st, pr, n); }
  }


  // ---------------------------------------------------------------- when the lines are raised

  /** Lines that neither fork the script (an `at` goes on with the next line at once, and again when its
      time has come) nor hand it over to another event. */
  predicate Plain(c: Command) {
    !c.At? && c != Registered(true)
  }

  ghost predicate AllPlain(lines: seq<Command>) {
    forall k :: 0 <= k < |lines| ==> Plain(lines[k])
  }

  /** The injector with a script in it, whose current line is event `me`, and when the lines before that
      were raised. */
  datatype Playing = Playing(inj: State, raised: seq<nat>)

  /** When the line behind c becomes due, if c is raised at `now`. */
  function NextKey(c: Command, now: nat): nat {
    match c
    case Wait(d) => now + d
    case Sync(t) => if t > now then t else now
    case _ => now
  }

  function Together(w: Playing, lines: seq<Command>, others: Behaviour, me: nat): Behaviour {
    var n := |w.raised|;
    (e: Entry) =>
      if e.event == me then
        RaiseCommand(if n < |lines| then lines[n] else Nothing, w.inj.clock, me,
                     if n + 1 < |lines| then Some(me) else None)
      else others(e)
  }

  function PassTogether(w: Playing, lines: seq<Command>, others: Behaviour, me: nat): Playing {
    Playing(Iterate(w.inj, Together(w, lines, others, me)),
            if Mine(NextGroup(w.inj), me) == [] then w.raised else w.raised + [w.inj.clock])
  }

  function DoStep(w: Playing, s: Step, lines: seq<Command>, me: nat): Playing {
    match s
    case Elsewhere(a) => w.(inj := Do(w.inj, a))
    case PassWith(others) => PassTogether(w, lines, others, me)
  }

  function Play(w: Playing, run: seq<Step>, lines: seq<Command>, me: nat): Playing
    decreases |run|
  {
    if run == [] then w else Play(DoStep(w, run[0], lines, me), run[1..], lines, me)
  }

  /** The rest of the world keeps to keys not before the clock, does not touch the script, and does not
      stop the injector. */
  ghost predicate StepAllowed(inj: State, s: Step, me: nat) {
    match s
    case Elsewhere(AddEvent(r)) => r.key >= inj.clock && r.event != me
    case Elsewhere(Delay(_)) => true
    case Elsewhere(_) => false
    case PassWith(others) =>
      forall e :: Punctual(others(e), inj.clock) && (others(e).chain.Some? ==> others(e).chain.value.event != me)
  }

  ghost predicate RunAllowed(w: Playing, run: seq<Step>, lines: seq<Command>, me: nat)
    decreases |run|
  {
    run == [] || (StepAllowed(w.inj, run[0], me) && RunAllowed(DoStep(w, run[0], lines, me), run[1..], lines, me))
  }

  /** No line k is raised earlier than this: the waits before it summed up, taken forward by each sync. */
  function Earliest(lines: seq<Command>, start: nat, k: nat): nat
    requires k <= |lines|
  {
    if k == 0 then start else NextKey(lines[k - 1], Earliest(lines, start, k - 1))
  }

  /** Nor later than this: each wait, and each sync that has something to wait for, may be 9 us late; any
      other line is raised at the very time of the one before it. */
  function Latest(lines: seq<Command>, start: nat, k: nat): nat
    requires k <= |lines|
  {
    if k == 0 then start
    else
      var before := Latest(lines, start, k - 1);
      match lines[k - 1]
      case Wait(d) => if d > 0 then before + d + 9 else before
      case Sync(t) => if t > Earliest(lines, start, k - 1) && t + 9 > before then t + 9 else before
      case _ => before
  }

  /** A line raised within its limits makes the next one due within its own, with 9 us to spare unless it
      is due at once. */
  lemma NextKeyInLimits(lines: seq<Command>, start: nat, k: nat, now: nat)
    requires k < |lines| && Earliest(lines, start, k) <= now <= Latest(lines, start, k)
    ensures var key := NextKey(lines[k], now);
            && key >= now && Earliest(lines, start, k + 1) <= key
            && ((key == now && key <= Latest(lines, start, k + 1)) || key + 9 <= Latest(lines, start, k + 1))
  {
  }

  /** A sync that every run reaches before its time makes up for all lateness before it. */
  lemma SyncResetsDrift(lines: seq<Command>, start: nat, k: nat)
    requires k < |lines| && lines[k].Sync? && Latest(lines, start, k) < lines[k].t
    ensures Earliest(lines, start, k + 1) == lines[k].t && Latest(lines, start, k + 1) == lines[k].t + 9
  {
    LimitsInOrder(lines, start, k);
  }

  lemma {:induction false} LimitsInOrder(lines: seq<Command>, start: nat, k: nat)
    requires k <= |lines|
    ensures Earliest(lines, start, k) <= Latest(lines, start, k)
  {
    if k > 0 { LimitsInOrder(lines, start, k - 1); }
  }

  function Waits(lines: seq<Command>, k: nat): nat
    requires k <= |lines|
  {
    if k == 0 then 0 else Waits(lines, k - 1) + if lines[k - 1].Wait? then lines[k - 1].d else 0
  }

  function WaitCount(lines: seq<Command>, k: nat): nat
    requires k <= |lines|
  {
    if k == 0 then 0 else WaitCount(lines, k - 1) + if lines[k - 1].Wait? && lines[k - 1].d > 0 then 1 else 0
  }

  /** Without syncs the limits are the summed waits, and 9 us more for each of them. */
  lemma {:induction false} LimitsWithoutSync(lines: seq<Command>, start: nat, k: nat)
    requires k <= |lines| && forall i :: 0 <= i < k ==> !lines[i].Sync?
    ensures Earliest(lines, start, k) == start + Waits(lines, k)
    ensures Latest(lines, start, k) == start + Waits(lines, k) + 9 * WaitCount(lines, k)
  {
    if k > 0 { LimitsWithoutSync(lines, start, k - 1); }
  }

  lemma {:induction false} LatestGrows(lines: seq<Command>, start: nat, i: nat, j: nat)
    requires i <= j <= |lines|
    ensures Latest(lines, start, i) <= Latest(lines, start, j)
  {
    if i < j { LatestGrows(lines, start, i, j - 1); }
  }

  /** Each line that has been raised was raised within its limits. */
  ghost predicate InLimits(raised: seq<nat>, lines: seq<Command>, start: nat) {
    && |raised| <= |lines|
    && forall k :: 0 <= k < |raised| ==> Earliest(lines, start, k) <= raised[k] <= Latest(lines, start, k)
  }

  /** The current line is due at `key`, which leaves it time within its limits; or it is due now, and then
      the clock does not move before it is raised. */
  ghost predicate DueInTime(key: nat, clock: nat, lines: seq<Command>, start: nat, n: nat)
    requires n < |lines|
  {
    && Earliest(lines, start, n) <= key
    && ((key == clock && key <= Latest(lines, start, n)) || key + 9 <= Latest(lines, start, n))
  }

  /** What every step keeps. */
  ghost predicate OnTime(w: Playing, lines: seq<Command>, start: nat, me: nat) {
    var n, mine := |w.raised|, Mine(w.inj.events, me);
    && Inv(w.inj) && AllPlain(lines) && InLimits(w.raised, lines, start)
    && if n < |lines| then |mine| == 1 && DueInTime(mine[0], w.inj.clock, lines, start, n) else mine == []
  }

  /** What the script's own event asks for when line n is raised. */
  function AskedByLine(lines: seq<Command>, n: nat, now: nat): seq<nat> {
    if n + 1 < |lines| then [NextKey(lines[n], now)] else []
  }

  lemma PlainLineAsks(c: Command, now: nat, me: nat)
    requires Plain(c)
    ensures RaiseCommand(c, now, me, Some(me)) == Outcome(0, Some(Request(NextKey(c, now), me)))
    ensures RaiseCommand(c, now, me, None) == Outcome(0, None)
    ensures NextKey(c, now) >= now
  {
    NextLineTime(c, now, me, me);
  }

  lemma LineAsks(w: Playing, lines: seq<Command>, others: Behaviour, me: nat)
    requires AllPlain(lines) && StepAllowed(w.inj, PassWith(others), me)
    ensures AsksOnly(Together(w, lines, others, me), me, AskedByLine(lines, |w.raised|, w.inj.clock))
    ensures forall e :: Punctual(Together(w, lines, others, me)(e), w.inj.clock)
  {
    var raise, n, now := Together(w, lines, others, me), |w.raised|, w.inj.clock;
    PlainLineAsks(if n < |lines| then lines[n] else Nothing, now, me);
    hide RaiseCommand, NextKey;
    forall e: Entry | e.live
      ensures MyRequests(Requests(e, raise), me) == if e.event == me then AskedByLine(lines, n, now) else []
    {
      if e.event != me {
        OwnRequests(e, raise, me);
      } else if n + 1 < |lines| {
        assert Requests(e, raise) == [Request(NextKey(lines[n], now), me)];
      }
    }
  }

  /** The injector's part of a pass. */
  lemma PassFacts(w: Playing, others: Behaviour, lines: seq<Command>, me: nat)
    requires Inv(w.inj) && |Mine(w.inj.events, me)| <= 1 && AllPlain(lines) && StepAllowed(w.inj, PassWith(others), me)
    ensures var raised, st := Mine(NextGroup(w.inj), me), PassTogether(w, lines, others, me).inj;
            && Inv(st)
            && (raised == [] || raised == Mine(w.inj.events, me))
            && Mine(st.events, me)
               == (if raised == [] then Mine(w.inj.events, me) else AskedByLine(lines, |w.raised|, w.inj.clock))
            && (w.inj.clock in Mine(st.events, me) ==> st.clock == w.inj.clock)
  {
    var raise := Together(w, lines, others, me);
    LineAsks(w, lines, others, me);
    hide Together, AsksOnly, Inv, Punctual, Iterate, AllPlain, StepAllowed, Mine, NextGroup, AskedByLine;
    IterateKeepsInv(w.inj, raise);
    MineAfterPass(w.inj, raise, me, AskedByLine(lines, |w.raised|, w.inj.clock));
    if w.inj.clock in Mine(Iterate(w.inj, raise).events, me) {
      ClockWaitsFor(w.inj, raise, me, w.inj.clock);
    }
  }

  lemma InLimitsLength(raised: seq<nat>, lines: seq<Command>, start: nat)
    requires InLimits(raised, lines, start)
    ensures |raised| <= |lines|
  {
  }

  lemma OneMoreInLimits(raised: seq<nat>, now: nat, lines: seq<Command>, start: nat)
    requires InLimits(raised, lines, start) && |raised| < |lines|
    requires Earliest(lines, start, |raised|) <= now <= Latest(lines, start, |raised|)
    ensures InLimits(raised + [now], lines, start)
  {
    hide Earliest, Latest;
  }

  lemma PassKeepsOnTime(w: Playing, others: Behaviour, lines: seq<Command>, start: nat, me: nat)
    requires OnTime(w, lines, start, me) && StepAllowed(w.inj, PassWith(others), me)
    ensures OnTime(PassTogether(w, lines, others, me), lines, start, me)
  {
    var n, now, mine := |w.raised|, w.inj.clock, Mine(w.inj.events, me);
    PassFacts(w, others, lines, me);
    hide Inv, Iterate, NextGroup, Mine, StepAllowed, AllPlain, Together, Earliest, Latest, NextKey, InLimits;
    if Mine(NextGroup(w.inj), me) != [] {
      Script.GroupIsDue(w.inj, me, mine[0]);
      InLimitsLength(w.raised, lines, start);
      NextKeyInLimits(lines, start, n, now);
      OneMoreInLimits(w.raised, now, lines, start);
    }
  }

  /** The clock does not move in a pass that leaves an entry of `me` pending for now. */
  lemma ClockWaitsFor(st: State, raise: Behaviour, me: nat, key: nat)
    requires Inv(st) && forall e :: Punctual(raise(e), st.clock)
    requires key == st.clock && key in Mine(Iterate(st, raise).events, me)
    ensures Iterate(st, raise).clock == st.clock
  {
    RaiseDueKeepsInv(st, raise);
    GroupIsPending(st);
    OnlyRaisingChangesEvents(st, raise);
    var st1 := RaiseDue(st, raise);
    MineIsPending(st1.events, me, key);
    var e :| e in st1.events && e.live && e.event == me && e.key == key;
    hide Inv, RaiseDue, Advance;
    DueStopsTheClock(st1, e);
  }

  lemma StepKeepsOnTime(w: Playing, s: Step, lines: seq<Command>, start: nat, me: nat)
    requires OnTime(w, lines, start, me) && StepAllowed(w.inj, s, me)
    ensures OnTime(DoStep(w, s, lines, me), lines, start, me)
  {
    match s {
      case PassWith(others) => PassKeepsOnTime(w, others, lines, start, me);
      case Elsewhere(AddEvent(r)) =>
        InsertKeepsInv(w.inj, r);
        MineInsert(w.inj.events, Entry(r.key, w.inj.nextId, r.event, true), me);
      case Elsewhere(Delay(_)) =>
    }
  }

  lemma {:induction false} RunKeepsOnTime(w: Playing, run: seq<Step>, lines: seq<Command>, start: nat, me: nat)
    requires OnTime(w, lines, start, me) && RunAllowed(w, run, lines, me)
    ensures OnTime(Play(w, run, lines, me), lines, start, me)
    decreases |run|
  {
    if run != [] {
      StepKeepsOnTime(w, run[0], lines, start, me);
      RunKeepsOnTime(DoStep(w, run[0], lines, me), run[1..], lines, start, me);
    }
  }

  /** A script whose first line has been inserted without delay. */
  ghost predicate Begins(w: Playing, lines: seq<Command>, me: nat) {
    Inv(w.inj) && AllPlain(lines) && lines != [] && w.raised == [] && Mine(w.inj.events, me) == [w.inj.clock]
  }

  /** In every run the lines of a script are raised in order, each within its limits, and when the latest
      time of a line is past it has been raised. */
  lemma ScriptKeepsItsTimes(w: Playing, run: seq<Step>, lines: seq<Command>, me: nat)
    requires Begins(w, lines, me) && RunAllowed(w, run, lines, me)
    ensures var w', start := Play(w, run, lines, me), w.inj.clock;
            && |w'.raised| <= |lines|
            && (forall k :: 0 <= k < |w'.raised| ==>
                  Earliest(lines, start, k) <= w'.raised[k] <= Latest(lines, start, k))
            && (forall k :: 0 <= k < |lines| && w'.inj.clock > Latest(lines, start, k) ==> k < |w'.raised|)
  {
    var w', start := Play(w, run, lines, me), w.inj.clock;
    RunKeepsOnTime(w, run, lines, start, me);
    hide Play, RunAllowed, AllPlain, Inv, Mine;
    var n := |w'.raised|;
    forall k | 0 <= k < |lines| && w'.inj.clock > Latest(lines, start, k) ensures k < n {
      if n <= k {
        NotYetLate(w', lines, start, me);
        LatestGrows(lines, start, n, k);
      }
    }
  }

  lemma NotYetLate(w: Playing, lines: seq<Command>, start: nat, me: nat)
    requires OnTime(w, lines, start, me) && |w.raised| < |lines|
    ensures w.inj.clock <= Latest(lines, start, |w.raised|)
  {
    MineIsPending(w.inj.events, me, Mine(w.inj.events, me)[0]);
  }
}
