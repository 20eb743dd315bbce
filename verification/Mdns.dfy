/** One asynchronous mDNS search: the collector of resolved services, the count of outstanding
    resolvers, and the notifier that runs when the search is complete. */
module Mdns {
  datatype Key = Key(instance: string, host: string, port: nat)

  /** A resolved service. The address 0 stands for 0.0.0.0, which is no usable address. */
  datatype Service = Service(key: Key, ip: nat, txt: map<string, string>)

  // ---------------------------------------------------------------- what a search reports

  /** The keys of the arrivals, each once, in order of first arrival. */
  function FirstKeys(a: seq<Service>): (ks: seq<Key>)
    ensures forall k :: k in ks <==> exists i :: 0 <= i < |a| && a[i].key == k
    ensures forall i, j :: 0 <= i < j < |ks| ==> ks[i] != ks[j]
  {
    if a == [] then []
    else
      var last := a[|a| - 1];
      var ks := FirstKeys(a[..|a| - 1]);
      if last.key in ks then ks else ks + [last.key]
  }

  /** The first usable address that arrived for k, or 0. */
  function FirstAddress(k: Key, a: seq<Service>): nat {
    if a == [] then 0
    else if a[0].key == k && a[0].ip != 0 then a[0].ip
    else FirstAddress(k, a[1..])
  }

  /** All TXT records that arrived for k; of two with the same name the earlier. */
  function FirstTxt(k: Key, a: seq<Service>): map<string, string> {
    if a == [] then map[]
    else if a[0].key == k then FirstTxt(k, a[1..]) + a[0].txt
    else FirstTxt(k, a[1..])
  }

  /** No arrival before position p has the key k. */
  ghost predicate NotBefore(k: Key, a: seq<Service>, p: nat) {
    forall j :: 0 <= j < p && j < |a| ==> a[j].key != k
  }

  lemma {:induction false} KeysInOrderOfArrival(a: seq<Service>, i: nat, j: nat)
    requires i < j < |FirstKeys(a)|
    ensures exists p :: 0 <= p < |a| && a[p].key == FirstKeys(a)[i] && NotBefore(FirstKeys(a)[j], a, p + 1)
  {
    var n := |a| - 1;
    var front := a[..n];
    var ks, all := FirstKeys(front), FirstKeys(a);
    assert ks <= all;
    hide FirstKeys;
    if j < |ks| {
      KeysInOrderOfArrival(front, i, j);
      var p :| 0 <= p < |front| && front[p].key == ks[i] && NotBefore(ks[j], front, p + 1);
      assert a[p].key == all[i] && NotBefore(all[j], a, p + 1);
    } else {
      assert ks[i] in ks;
      var p :| 0 <= p < |front| && front[p].key == ks[i];
      assert all[j] !in ks;
      assert a[p].key == all[i] && NotBefore(all[j], a, p + 1);
    }
  }

  predicate BringsAddress(k: Key, s: Service) {
    s.key == k && s.ip != 0
  }

  lemma {:induction false} FirstAddressIsFirst(k: Key, a: seq<Service>)
    ensures FirstAddress(k, a) == 0 <==> forall i :: 0 <= i < |a| ==> !BringsAddress(k, a[i])
    ensures forall i :: 0 <= i < |a| && BringsAddress(k, a[i]) && (forall j :: 0 <= j < i ==> !BringsAddress(k, a[j]))
              ==> FirstAddress(k, a) == a[i].ip
  {
    if a != [] {
      FirstAddressIsFirst(k, a[1..]);
      assert forall i :: 1 <= i < |a| ==> a[i] == a[1..][i - 1];
      assert forall i :: 0 <= i < |a| - 1 ==> a[1..][i] == a[i + 1];
    }
  }

  predicate BringsTxt(k: Key, name: string, s: Service) {
    s.key == k && name in s.txt
  }

  lemma {:induction false} FirstTxtIsFirst(k: Key, name: string, a: seq<Service>)
    ensures name in FirstTxt(k, a) <==> exists i :: 0 <= i < |a| && BringsTxt(k, name, a[i])
    ensures forall i :: 0 <= i < |a| && BringsTxt(k, name, a[i])
              && (forall j :: 0 <= j < i ==> !BringsTxt(k, name, a[j]))
              ==> name in FirstTxt(k, a) && FirstTxt(k, a)[name] == a[i].txt[name]
  {
    if a != [] {
      FirstTxtIsFirst(k, name, a[1..]);
      assert forall i :: 1 <= i < |a| ==> a[i] == a[1..][i - 1];
      assert forall i :: 0 <= i < |a| - 1 ==> a[1..][i] == a[i + 1];
    }
  }

  function Entry(k: Key, a: seq<Service>): Service {
    Service(k, FirstAddress(k, a), FirstTxt(k, a))
  }

  function Entries(ks: seq<Key>, a: seq<Service>): (es: seq<Service>)
    ensures |es| == |ks| && forall i :: 0 <= i < |ks| ==> es[i] == Entry(ks[i], a)
  {
    seq(|ks|, i requires 0 <= i < |ks| => Entry(ks[i], a))
  }

  function Reported(a: seq<Service>, max: nat): seq<Key> {
    var ks := FirstKeys(a);
    if max > 0 && |ks| > max then ks[..max] else ks
  }

  /** What a search that accepts `max` results (0 for any number) reports after these arrivals. */
  function Summary(a: seq<Service>, max: nat): (es: seq<Service>)
    ensures max > 0 ==> |es| <= max
  {
    Entries(Reported(a, max), a)
  }

  // ---------------------------------------------------------------- the collector

  function IndexOf(k: Key, rs: seq<Service>): (i: nat)
    ensures i <= |rs| && (i < |rs| ==> rs[i].key == k)
    ensures forall j :: 0 <= j < i ==> rs[j].key != k
  {
    if rs == [] || rs[0].key == k then 0 else 1 + IndexOf(k, rs[1..])
  }

  function Merge(e: Service, s: Service): Service {
    Service(e.key, if e.ip == 0 then s.ip else e.ip, s.txt + e.txt)
  }

  function Added(rs: seq<Service>, s: Service, max: nat): seq<Service> {
    var i := IndexOf(s.key, rs);
    if i < |rs| then rs[i := Merge(rs[i], s)]
    else if max > 0 && |rs| >= max then rs
    else rs + [s]
  }

  lemma {:induction false} AddressSnoc(k: Key, a: seq<Service>, s: Service)
    ensures FirstAddress(k, a + [s])
            == if FirstAddress(k, a) == 0 && s.key == k then s.ip else FirstAddress(k, a)
  {
    if a != [] {
      AddressSnoc(k, a[1..], s);
      assert (a + [s])[1..] == a[1..] + [s];
    } else {
      assert (a + [s])[1..] == [];
    }
  }

  lemma {:induction false} TxtSnoc(k: Key, a: seq<Service>, s: Service)
    ensures FirstTxt(k, a + [s]) == if s.key == k then s.txt + FirstTxt(k, a) else FirstTxt(k, a)
  {
    if a != [] {
      TxtSnoc(k, a[1..], s);
      assert (a + [s])[1..] == a[1..] + [s];
      if a[0].key == k && s.key == k {
        var t := FirstTxt(k, a[1..]);
        assert (s.txt + t) + a[0].txt == s.txt + (t + a[0].txt);
      }
    } else {
      assert (a + [s])[1..] == [];
    }
  }

  lemma EntrySnoc(k: Key, a: seq<Service>, s: Service)
    ensures Entry(k, a + [s]) == if s.key == k then Merge(Entry(k, a), s) else Entry(k, a)
  {
    AddressSnoc(k, a, s);
    TxtSnoc(k, a, s);
  }

  /** A key that never arrived has an empty entry. */
  lemma {:induction false} NothingFor(k: Key, a: seq<Service>)
    requires forall i :: 0 <= i < |a| ==> a[i].key != k
    ensures Entry(k, a) == Service(k, 0, map[])
  {
    if a != [] { NothingFor(k, a[1..]); }
  }

  lemma KeysSnoc(a: seq<Service>, s: Service)
    ensures FirstKeys(a + [s]) == if s.key in FirstKeys(a) then FirstKeys(a) else FirstKeys(a) + [s.key]
  {
    assert (a + [s])[..|a|] == a;
  }

  /** One more arrival turns the report into the report that counts it. */
  lemma AddedIsSummary(a: seq<Service>, s: Service, max: nat)
    ensures Added(Summary(a, max), s, max) == Summary(a + [s], max)
  {
    hide FirstKeys, FirstAddress, FirstTxt, IndexOf;
    var before, after := Summary(a, max), Summary(a + [s], max);
    var ks, ks' := Reported(a, max), Reported(a + [s], max);
    var i := IndexOf(s.key, before);
    KeysSnoc(a, s);
    forall j | 0 <= j < |ks|
      ensures Entry(ks[j], a + [s]) == if ks[j] == s.key then Merge(before[j], s) else before[j]
    {
      EntrySnoc(ks[j], a, s);
    }
    if i < |before| {
      assert ks[i] == s.key && s.key in FirstKeys(a);
      assert ks' == ks;
      hide Entry;
      assert after == before[i := Merge(before[i], s)];
    } else {
      assert s.key !in ks by {
        assert forall j :: 0 <= j < |ks| ==> before[j].key == ks[j];
      }
      if max > 0 && |before| >= max {
        assert ks' == ks;
        assert after == before;
      } else {
        assert s.key !in FirstKeys(a);
        assert ks' == ks + [s.key];
        EntrySnoc(s.key, a, s);
        NothingFor(s.key, a);
        assert s.txt + map[] == s.txt;
        assert after == before + [s];
      }
    }
  }

  // ---------------------------------------------------------------- the search

  const TWO32: nat := 0x1_0000_0000

  type Word = x: nat | x < TWO32

  /** What happens to a search. A pass is one look at it, by serviceAsyncQueries or by
      getAsyncQueryResults; whatever the notifier itself does comes as further events, for the
      search is marked before the notifier is called. */
  datatype Event =
    | New(resolving: bool)
    | AllForNow
    | Failure
    | Ignored
    | Found(service: Service)
    | NotFound
    | Pass(now: Word)

  datatype State = State(
    results: seq<Service>, allForNow: bool, outstanding: nat, failed: bool, notified: bool, calls: nat)

  datatype Query = Query(start: Word, timeout: Word, max: nat)

  const FRESH: State := State([], false, 0, false, false, 0)

  predicate Complete(q: Query, st: State, now: Word) {
    || (st.allForNow && st.outstanding == 0)
    || (q.max > 0 && |st.results| >= q.max && st.outstanding == 0)
    || (q.timeout > 0 && (now - q.start) % TWO32 >= q.timeout)
  }

  function Resolved(st: State): State {
    if st.outstanding > 0 then st.(outstanding := st.outstanding - 1) else st
  }

  function After(q: Query, st: State, e: Event): State {
    match e
    case New(resolving) => if resolving then st.(outstanding := st.outstanding + 1) else st
    case AllForNow => st.(allForNow := true)
    case Failure => st.(failed := true, allForNow := true)
    case Ignored => st
    case Found(s) => Resolved(st.(results := Added(st.results, s, q.max)))
    case NotFound => Resolved(st)
    case Pass(now) =>
      if !st.notified && Complete(q, st, now) then st.(notified := true, calls := st.calls + 1) else st
  }

  function Run(q: Query, es: seq<Event>): State {
    if es == [] then FRESH else After(q, Run(q, es[..|es| - 1]), es[|es| - 1])
  }

  function Arrivals(es: seq<Event>): seq<Service> {
    if es == [] then []
    else
      var a := Arrivals(es[..|es| - 1]);
      match es[|es| - 1]
      case Found(s) => a + [s]
      case _ => a
  }

  /** Resolvers started that have not answered. */
  function Waiting(es: seq<Event>): int {
    if es == [] then 0
    else
      Waiting(es[..|es| - 1]) + match es[|es| - 1]
                                case New(resolving) => if resolving then 1 else 0
                                case Found(_) => -1
                                case NotFound => -1
                                case _ => 0
  }

  /** A resolver answers at most once, because its callback frees it. */
  ghost predicate AnswersFollowResolvers(es: seq<Event>) {
    forall n :: 0 <= n <= |es| ==> Waiting(es[..n]) >= 0
  }

  lemma OnlyFoundAdds(q: Query, st: State, e: Event)
    ensures After(q, st, e).results == if e.Found? then Added(st.results, e.service, q.max) else st.results
  {
    hide Added;
  }

  lemma EmptySummary(max: nat)
    ensures Summary([], max) == []
  {
  }

  lemma {:induction false} RunReportsSummary(q: Query, es: seq<Event>)
    ensures Run(q, es).results == Summary(Arrivals(es), q.max)
  {
    EmptySummary(q.max);
    if es != [] {
      hide Summary, Added, After;
      var front, e := es[..|es| - 1], es[|es| - 1];
      RunReportsSummary(q, front);
      OnlyFoundAdds(q, Run(q, front), e);
      if e.Found? {
        AddedIsSummary(Arrivals(front), e.service, q.max);
      }
    }
  }

  lemma {:induction false} OutstandingIsWaiting(q: Query, es: seq<Event>)
    requires AnswersFollowResolvers(es)
    ensures Run(q, es).outstanding == Waiting(es)
  {
    if es != [] {
      var front := es[..|es| - 1];
      forall n | 0 <= n <= |front| ensures Waiting(front[..n]) >= 0 {
        assert front[..n] == es[..n];
      }
      OutstandingIsWaiting(q, front);
      assert es[..|es|] == es;
      hide Added;
    }
  }

  ghost predicate FoundComplete(q: Query, es: seq<Event>, i: nat)
    requires i < |es|
  {
    es[i].Pass? && Complete(q, Run(q, es[..i]), es[i].now)
  }

  lemma OnlyPassesNotify(q: Query, st: State, e: Event)
    ensures var st', notifies := After(q, st, e), e.Pass? && !st.notified && Complete(q, st, e.now);
            st'.calls == (if notifies then st.calls + 1 else st.calls) && st'.notified == (st.notified || notifies)
  {
    hide Complete, Added;
  }

  /** The notifier runs once, at the first pass that finds the search complete, and never before or
      again. */
  lemma {:induction false} NotifiedExactlyOnce(q: Query, es: seq<Event>)
    ensures var st := Run(q, es);
            st.calls == (if exists i :: 0 <= i < |es| && FoundComplete(q, es, i) then 1 else 0)
            && (st.notified <==> st.calls == 1)
  {
    if es != [] {
      var last := |es| - 1;
      var front := es[..last];
      hide After, Complete, Added;
      NotifiedExactlyOnce(q, front);
      OnlyPassesNotify(q, Run(q, front), es[last]);
      forall i | 0 <= i < last ensures FoundComplete(q, front, i) <==> FoundComplete(q, es, i) {
        assert front[..i] == es[..i];
      }
      if i :| 0 <= i < |front| && FoundComplete(q, front, i) {
        assert FoundComplete(q, es, i);
      } else if FoundComplete(q, es, last) {
        assert Run(q, es).calls == 1;
      }
    }
  }

  /** The browser has reported that it has nothing more for now, or that it failed. */
  ghost predicate BrowserDone(es: seq<Event>) {
    exists i :: 0 <= i < |es| && (es[i].AllForNow? || es[i].Failure?)
  }

  lemma {:induction false} DoneIsKept(q: Query, es: seq<Event>)
    ensures Run(q, es).allForNow <==> BrowserDone(es)
  {
    if es != [] {
      var last := |es| - 1;
      var front := es[..last];
      DoneIsKept(q, front);
      hide Added, Complete;
      if i :| 0 <= i < |front| && (front[i].AllForNow? || front[i].Failure?) {
        assert es[i] == front[i];
      }
      assert BrowserDone(es) ==> BrowserDone(front) || es[last].AllForNow? || es[last].Failure? by {
        if i :| 0 <= i < |es| && (es[i].AllForNow? || es[i].Failure?) {
          assert i < last ==> front[i] == es[i];
        }
      }
    }
  }

  lemma ReportIsFull(a: seq<Service>, max: nat)
    requires max > 0
    ensures |Summary(a, max)| >= max <==> |FirstKeys(a)| >= max
  {
    hide FirstKeys;
  }

  /** A search is complete just when every resolver has answered and either the browser is done or as many
      services as were asked for have been found, or when its timeout is over; told from what has happened
      to it, `elapsed` ms after its start. */
  lemma CompleteIff(q: Query, es: seq<Event>, elapsed: nat)
    requires AnswersFollowResolvers(es) && elapsed < TWO32
    ensures Complete(q, Run(q, es), (q.start + elapsed) % TWO32)
            <==> || (Waiting(es) == 0 && (BrowserDone(es) || 0 < q.max <= |FirstKeys(Arrivals(es))|))
                 || 0 < q.timeout <= elapsed
  {
    OutstandingIsWaiting(q, es);
    DoneIsKept(q, es);
    RunReportsSummary(q, es);
    if q.max > 0 { ReportIsFull(Arrivals(es), q.max); }
    ElapsedIs(q.start, elapsed);
    hide Run, Summary, FirstKeys, BrowserDone;
  }

  lemma ElapsedIs(start: Word, elapsed: nat)
    requires elapsed < TWO32
    ensures ((start + elapsed) % TWO32 - start) % TWO32 == elapsed
  {
    var now := (start + elapsed) % TWO32;
    assert now == start + elapsed || now == start + elapsed - TWO32;
  }

  /** So a look at a search that has all its answers and its results, or whose browser is done, or that is
      out of time, leaves the notifier called, once. */
  lemma LookNotifies(q: Query, es: seq<Event>, elapsed: nat)
    requires AnswersFollowResolvers(es) && elapsed < TWO32
    requires || (Waiting(es) == 0 && (BrowserDone(es) || 0 < q.max <= |FirstKeys(Arrivals(es))|))
             || 0 < q.timeout <= elapsed
    ensures Run(q, es + [Pass((q.start + elapsed) % TWO32)]).calls == 1
  {
    var all := es + [Pass((q.start + elapsed) % TWO32)];
    CompleteIff(q, es, elapsed);
    NotifiedExactlyOnce(q, all);
    hide Run, Complete;
    assert all[..|es|] == es;
    assert FoundComplete(q, all, |es|);
  }

  /** A search that ends because everything has been reported has heard from every resolver. */
  lemma NaturalEndHeardAll(q: Query, es: seq<Event>, now: Word)
    requires AnswersFollowResolvers(es) && q.timeout == 0 && Complete(q, Run(q, es), now)
    ensures Waiting(es) == 0
    ensures Run(q, es).allForNow || |Run(q, es).results| == q.max
  {
    OutstandingIsWaiting(q, es);
    RunReportsSummary(q, es);
  }

  /** Completion can lapse: only by a resolver started after it, and not once the timeout is over. */
  lemma CompletionLapsesIff(q: Query, st: State, e: Event, now: Word)
    requires Complete(q, st, now)
    ensures !Complete(q, After(q, st, e), now)
            <==> e == New(true) && !(q.timeout > 0 && (now - q.start) % TWO32 >= q.timeout)
  {
  }

  /** So a search may be incomplete again after its notifier has run: everything is reported, the notifier
      runs, and then one more resolver is started. */
  lemma LapsesAfterNotice(q: Query, now: Word)
    requires q.timeout == 0
    ensures var st := Run(q, [AllForNow, Pass(now), New(true)]);
            st.calls == 1 && st.notified && !Complete(q, st, now)
  {
    var es := [AllForNow, Pass(now), New(true)];
    assert es[..2] == [AllForNow, Pass(now)] && es[..2][..1] == [AllForNow] && [AllForNow][..0] == [];
    assert Run(q, [AllForNow]) == FRESH.(allForNow := true);
    assert Run(q, es[..2]) == FRESH.(allForNow := true, notified := true, calls := 1);
  }

  /** The timeout is met across a wrap of the millisecond clock, as long as the search is looked at
      within 2^32 ms of its start. */
  lemma TimeoutSurvivesWrap(q: Query, st: State, elapsed: nat)
    requires 0 < q.timeout && elapsed < TWO32
    requires !st.allForNow && (q.max == 0 || |st.results| < q.max)
    ensures Complete(q, st, (q.start + elapsed) % TWO32) <==> elapsed >= q.timeout
  {
    ElapsedIs(q.start, elapsed);
  }

  lemma MergeOne(existing: map<string, string>, arrived: map<string, string>, todo: set<string>, name: string)
    requires todo <= arrived.Keys && name in todo
    ensures var merged := (arrived - todo) + existing;
            (arrived - (todo - {name})) + existing
            == if name in merged then merged else merged[name := arrived[name]]
  {
    assert name in (arrived - todo) + existing <==> name in existing;
  }

  class AsyncSearch {
    var results: seq<Service>
    var allForNow: bool
    var outstanding: int
    var failed: bool
    var notified: bool
    const query: Query
    /** How often the notifier was called. */
    ghost var calls: nat

    ghost predicate Valid()
      reads this
    {
      outstanding >= 0
    }

    ghost function Value(): State
      reads this
      requires Valid()
    {
      State(results, allForNow, outstanding, failed, notified, calls)
    }

    constructor (start: Word, timeout: Word, max: nat)
      ensures Valid() && query == Query(start, timeout, max) && Value() == FRESH
    {
      results, allForNow, outstanding, failed, notified, calls := [], false, 0, false, false, 0;
      query := Query(start, timeout, max);
    }

    /** The TXT records of an entry after those of another arrival: none is overwritten. */
    method MergeTxt(existing: map<string, string>, arrived: map<string, string>)
      returns (merged: map<string, string>)
      ensures merged == arrived + existing
    {
      merged := existing;
      var todo := arrived.Keys;
      assert (arrived - todo) + existing == existing;
      while todo != {}
        invariant todo <= arrived.Keys && merged == (arrived - todo) + existing
        decreases todo
      {
        var name :| name in todo;
        MergeOne(existing, arrived, todo, name);
        if name !in merged {
          merged := merged[name := arrived[name]];
        }
        todo := todo - {name};
      }
      assert arrived - {} == arrived;
    }

    method AddResult(s: Service)
      requires Valid()
      modifies `results
      ensures Valid() && results == Added(old(results), s, query.max)
    {
      var i := 0;
      while i < |results|
        invariant i <= |results| && results == old(results)
        invariant forall j :: 0 <= j < i ==> results[j].key != s.key
      {
        var existing := results[i];
        if existing.key == s.key {
          if existing.ip == 0 {
            existing := existing.(ip := s.ip);
          }
          var txt := MergeTxt(existing.txt, s.txt);
          results := results[i := existing.(txt := txt)];
          return;
        }
        i := i + 1;
      }
      if query.max > 0 && |results| >= query.max {
        return;
      }
      results := results + [s];
    }

    method OnResolve(found: bool, s: Service)
      requires Valid()
      modifies `results, `outstanding
      ensures Valid() && Value() == After(query, old(Value()), if found then Found(s) else NotFound)
    {
      if found {
        AddResult(s);
      }
      if outstanding > 0 {
        outstanding := outstanding - 1;
      }
    }

    method OnBrowse(e: Event)
      requires Valid() && (e.New? || e.AllForNow? || e.Failure? || e.Ignored?)
      modifies this
      ensures Valid() && Value() == After(query, old(Value()), e)
    {
      match e {
        case New(resolving) =>
          if resolving { outstanding := outstanding + 1; }
        case AllForNow =>
          allForNow := true;
        case Failure =>
          failed := true;
          allForNow := true;
        case Ignored =>
      }
    }

    method IsSearchComplete(now: Word) returns (complete: bool)
      requires Valid()
      ensures complete <==> Complete(query, Value(), now)
    {
      if allForNow && outstanding <= 0 {
        return true;
      }
      if query.max > 0 && |results| >= query.max && outstanding <= 0 {
        return true;
      }
      if query.timeout > 0 && (now - query.start) % TWO32 >= query.timeout {
        return true;
      }
      return false;
    }

    /** One look at the search; the mark is set before the notifier is called. */
    method LookAt(now: Word) returns (call: bool)
      requires Valid()
      modifies `notified, `calls
      ensures Valid() && Value() == After(query, old(Value()), Pass(now))
      ensures call <==> calls == old(calls) + 1
    {
      if notified {
        return false;
      }
      call := IsSearchComplete(now);
      if call {
        notified := true;
        calls := calls + 1;
      }
    }
  }
}
