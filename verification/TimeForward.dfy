/** The time that waits hand to the injector, one access of the shared atomics at a time: the injector's
    part of a pass that moves the clock, and the waits of any number of threads. */
module TimeForward {

  /** Where the injector is in that part of its pass. GiveAll holds what it has read of the time to pass,
      Clear what it has added to the clock before it stores zero. */
  datatype Place =
    | Idle
    | Compare(add: nat)
    | ReadAll
    | GiveAll(all: nat)
    | Clear(all: nat)
    | GiveSome(add: nat)
    | Take(add: nat)

  /** `waiting` says of each thread whether it is inside a wait; `requested` adds up what was asked for. */
  datatype State = State(clock: nat, timeForward: nat, place: Place, waiting: seq<bool>, requested: nat)

  /** One access by the injector, which moves by 10 us or not at all; a thread adding to the time to pass;
      a thread looking whether it is used up. */
  datatype Step = InjectorStep(due: bool) | Ask(thread: nat, us: nat) | Look(thread: nat)

  function DoInjector(s: State, due: bool): State {
    match s.place
    case Idle => if s.timeForward != 0 then s.(place := Compare(if due then 0 else 10)) else s
    case Compare(add) => s.(place := if add > s.timeForward then ReadAll else GiveSome(add))
    case ReadAll => s.(place := GiveAll(s.timeForward))
    case GiveAll(all) => s.(clock := s.clock + all, place := Clear(all))
    case Clear(_) => s.(timeForward := 0, place := Idle)
    case GiveSome(add) => s.(clock := s.clock + add, place := Take(add))
    case Take(add) => s.(timeForward := if add <= s.timeForward then s.timeForward - add else 0, place := Idle)
  }

  function Do(s: State, step: Step): State {
    match step
    case InjectorStep(due) => DoInjector(s, due)
    case Ask(i, us) =>
      if i < |s.waiting| && !s.waiting[i] then
        s.(timeForward := s.timeForward + us, requested := s.requested + us, waiting := s.waiting[i := true])
      else s
    case Look(i) =>
      if i < |s.waiting| && s.timeForward == 0 then s.(waiting := s.waiting[i := false]) else s
  }

  function Exec(s: State, run: seq<Step>): State
    decreases |run|
  {
    if run == [] then s else Exec(Do(s, run[0]), run[1..])
  }

  function Start(clock: nat, threads: nat): State {
    State(clock, 0, Idle, seq(threads, _ => false), 0)
  }

  /** Clock and time to pass, less what is on the way from the one to the other. */
  function Balance(s: State): int {
    s.clock + s.timeForward - (if s.place.Clear? then s.place.all else if s.place.Take? then s.place.add else 0)
  }

  /** What the injector has read is not more than what is there: waits only add to it. */
  ghost predicate Sound(s: State) {
    && (s.place.GiveAll? || s.place.Clear? ==> s.place.all <= s.timeForward)
    && (s.place.GiveSome? || s.place.Take? ==> s.place.add <= s.timeForward)
  }

  /** No thread is outside its wait while there is time to pass. */
  ghost predicate AllWait(s: State) {
    && (s.timeForward > 0 ==> forall i :: 0 <= i < |s.waiting| ==> s.waiting[i])
    && (s.place.Idle? || s.timeForward > 0)
    && (s.place.GiveAll? || s.place.Clear? ==> s.place.all == s.timeForward)
  }

  lemma {:induction false} RunIsSound(s: State, run: seq<Step>)
    requires Sound(s)
    ensures var s' := Exec(s, run);
            Sound(s') && Balance(s') - s'.requested <= Balance(s) - s.requested
    decreases |run|
  {
    if run != [] { RunIsSound(Do(s, run[0]), run[1..]); }
  }

  lemma {:induction false} OneThreadIsExact(s: State, run: seq<Step>)
    requires Sound(s) && AllWait(s) && |s.waiting| <= 1
    ensures var s' := Exec(s, run);
            AllWait(s') && Balance(s') - s'.requested == Balance(s) - s.requested
    decreases |run|
  {
    if run != [] { OneThreadIsExact(Do(s, run[0]), run[1..]); }
  }

  /** However many threads wait, no time is made up. */
  lemma NoTimeIsInvented(clock: nat, threads: nat, run: seq<Step>)
    ensures var s := Exec(Start(clock, threads), run);
            s.place.Idle? ==> s.clock + s.timeForward <= clock + s.requested
  {
    RunIsSound(Start(clock, threads), run);
  }

  /** Between its passes the injector has accounted for all the time asked for. */
  ghost predicate Accounted(clock: nat, threads: nat, run: seq<Step>) {
    var s := Exec(Start(clock, threads), run);
    s.place.Idle? ==> s.clock + s.timeForward == clock + s.requested
  }

  function LosingRun(): seq<Step> {
    [Ask(0, 5), InjectorStep(false), InjectorStep(false), InjectorStep(false), InjectorStep(false),
     Ask(1, 7), InjectorStep(false)]
  }

  /** A second wait that begins between the injector's last addition and its store of zero is lost: both
      waits return, and the clock has moved for the first only. */
  lemma SecondWaitIsLost(clock: nat, threads: nat)
    requires threads >= 2
    ensures var s := Exec(Start(clock, threads), LosingRun());
            s.place == Idle && s.timeForward == 0 && s.clock == clock + 5 && s.requested == 12
  {
  }

  /** All time asked for is accounted for, in every interleaving, just when at most one thread waits. */
  lemma AccountedIff(threads: nat)
    ensures (forall clock: nat, run :: Accounted(clock, threads, run)) <==> threads <= 1
  {
    if threads <= 1 {
      forall clock: nat, run ensures Accounted(clock, threads, run) {
        OneThreadIsExact(Start(clock, threads), run);
      }
    } else {
      SecondWaitIsLost(0, threads);
      hide Exec;
      assert !Accounted(0, threads, LosingRun());
    }
  }
}
