/** Folding a stream of interleaved test events into a report: what each failed test printed,
    how long the run took, and which tests took longest. */
module TestReport {
  import opened Wrappers

  datatype Action = Output | Pass | Fail | Skip | Other

  /** `time` is None where the event carries no time, `test` empty where it is its package's. */
  datatype Event = Event(time: Option<int>, action: Action, pkg: string, test: string, elapsed: real, output: string)

  datatype Key = Key(pkg: string, test: string)

  datatype Timing = Timing(name: string, pkg: string, seconds: real)

  datatype Failure = Failure(name: string, pkg: string, output: string)

  datatype Report = Report(wall: int, slowest: seq<Timing>, failures: seq<Failure>)

  function KeyOf(e: Event): Key {
    Key(e.pkg, e.test)
  }

  predicate IsResult(e: Event) {
    e.test != "" && (e.action.Pass? || e.action.Fail? || e.action.Skip?)
  }

  predicate IsOutput(e: Event) {
    e.test != "" && e.action.Output?
  }

  // ------------------------------------------------ what the stream says, without buffers

  /** What one test printed since its last result, in order. */
  function Since(events: seq<Event>, k: Key): string {
    if events == [] then ""
    else
      var front, last := events[..|events| - 1], events[|events| - 1];
      if KeyOf(last) == k && IsResult(last) then ""
      else if KeyOf(last) == k && IsOutput(last) then Since(front, k) + last.output
      else Since(front, k)
  }

  function Timings(events: seq<Event>): seq<Timing> {
    if events == [] then []
    else
      var front, last := events[..|events| - 1], events[|events| - 1];
      Timings(front) + TimingOf(last)
  }

  function TimingOf(e: Event): seq<Timing> {
    if IsResult(e) then [Timing(e.test, e.pkg, e.elapsed)] else []
  }

  function FailureOf(e: Event, output: string): seq<Failure> {
    if IsResult(e) && e.action.Fail? then [Failure(e.test, e.pkg, output)] else []
  }

  /** Every failed test, with what it had printed by then. */
  function Failures(events: seq<Event>): seq<Failure> {
    if events == [] then []
    else
      var front, last := events[..|events| - 1], events[|events| - 1];
      Failures(front) + FailureOf(last, Since(front, KeyOf(last)))
  }

  function FirstTime(events: seq<Event>): Option<int> {
    if events == [] then None
    else if events[0].time.Some? then events[0].time else FirstTime(events[1..])
  }

  function LastTime(events: seq<Event>): Option<int> {
    if events == [] then None
    else if events[|events| - 1].time.Some? then events[|events| - 1].time else LastTime(events[..|events| - 1])
  }

  function Wall(events: seq<Event>): int {
    if FirstTime(events).Some? && LastTime(events).Some? then LastTime(events).value - FirstTime(events).value else 0
  }

  // ----------------------------------------------------------------- the slowest tests

  /** Into a descending list, after every timing at least as long. */
  function Insert(s: seq<Timing>, t: Timing): (r: seq<Timing>)
    ensures |r| == |s| + 1
    ensures r[|r| - 1] == if s == [] || s[|s| - 1].seconds >= t.seconds then t else s[|s| - 1]
  {
    if s == [] || s[|s| - 1].seconds >= t.seconds then s + [t]
    else Insert(s[..|s| - 1], t) + [s[|s| - 1]]
  }

  /** The stable descending order. */
  function Slowest(ts: seq<Timing>): (r: seq<Timing>)
    ensures |r| == |ts|
  {
    if ts == [] then [] else Insert(Slowest(ts[..|ts| - 1]), ts[|ts| - 1])
  }

  function Top(ts: seq<Timing>, keep: nat): seq<Timing> {
    if |ts| > keep then Slowest(ts)[..keep] else Slowest(ts)
  }

  predicate Descending(s: seq<Timing>) {
    forall i, j :: 0 <= i < j < |s| ==> s[i].seconds >= s[j].seconds
  }

  /** The timings of one length, in order. */
  function Lasting(s: seq<Timing>, seconds: real): seq<Timing> {
    if s == [] then []
    else Lasting(s[..|s| - 1], seconds) + if s[|s| - 1].seconds == seconds then [s[|s| - 1]] else []
  }

  // --------------------------------------------------------------------------- the fold

  class EventFold {
    var slowest: seq<Timing>
    var failures: seq<Failure>
    var outputs: map<Key, string>
    var first: int
    var last: int
    var haveFirst: bool
    ghost var seen: seq<Event>

    function Buffered(k: Key): string
      reads `outputs
    {
      if k in outputs then outputs[k] else ""
    }

    /** The buffers hold what each test printed since its last result, and what has been
        gathered is what the events seen say. */
    ghost predicate Valid()
      reads this
    {
      && slowest == Timings(seen)
      && failures == Failures(seen)
      && BuffersSay(seen)
      && ClockSays(seen)
    }

    ghost predicate BuffersSay(events: seq<Event>)
      reads `outputs
    {
      forall k: Key :: Buffered(k) == Since(events, k)
    }

    ghost predicate ClockSays(events: seq<Event>)
      reads `first, `last, `haveFirst
    {
      && FirstTime(events) == (if haveFirst then Some(first) else None)
      && LastTime(events) == (if haveFirst then Some(last) else None)
    }

    constructor ()
      ensures Valid() && seen == []
    {
      slowest, failures, outputs := [], [], map[];
      first, last, haveFirst := 0, 0, false;
      seen := [];
    }

    method Clock(e: Event, ghost before: seq<Event>)
      requires ClockSays(before)
      modifies `first, `last, `haveFirst
      ensures ClockSays(before + [e])
    {
      ClockAfter(before, e);
      if e.time.Some? {
        if !haveFirst {
          first, haveFirst := e.time.value, true;
        }
        last := e.time.value;
      }
    }

    /** One event of a test into its buffer. */
    method Buffer(e: Event, ghost before: seq<Event>)
      requires e.test != "" && BuffersSay(before)
      modifies `outputs
      ensures BuffersSay(before + [e])
    {
      var key := Key(e.pkg, e.test);
      forall k: Key ensures Since(before + [e], k) == SinceAfter(before, e, k) {
        OneMore(before, e, k);
      }
      if e.action.Output? {
        outputs := outputs[key := (if key in outputs then outputs[key] else "") + e.output];
      } else if IsResult(e) {
        outputs := outputs - {key};
      }
    }

    /** One result into the lists, with what its test has printed. */
    method Gather(e: Event)
      requires e.test != ""
      modifies `slowest, `failures
      ensures slowest == old(slowest) + TimingOf(e)
      ensures failures == old(failures) + FailureOf(e, Buffered(KeyOf(e)))
    {
      if e.action.Pass? || e.action.Fail? || e.action.Skip? {
        slowest := slowest + [Timing(e.test, e.pkg, e.elapsed)];
        if e.action.Fail? {
          var key := Key(e.pkg, e.test);
          var output := if key in outputs then outputs[key] else "";
          failures := failures + [Failure(e.test, e.pkg, output)];
        }
      }
    }

    method Observe(e: Event)
      requires Valid()
      modifies this
      ensures Valid() && seen == old(seen) + [e]
    {
      ListsAfter(seen, e);
      Clock(e, seen);
      if e.test != "" {
        Gather(e);
        Buffer(e, seen);
      } else {
        PackageEvent(seen, e);
      }
      seen := seen + [e];
    }

    method Done(keep: nat) returns (report: Report)
      requires Valid()
      modifies `slowest
      ensures report == Report(Wall(seen), Top(Timings(seen), keep), Failures(seen))
    {
      var wall := 0;
      if haveFirst {
        wall := last - first;
      }
      slowest := Slowest(slowest);
      if |slowest| > keep {
        slowest := slowest[..keep];
      }
      return Report(wall, slowest, failures);
    }
  }

  /** Nothing in the stream fails to decode. */
  predicate Readable(stream: seq<Result<Event>>) {
    forall i :: 0 <= i < |stream| ==> stream[i].Ok?
  }

  function EventsOf(stream: seq<Result<Event>>): seq<Event>
    requires Readable(stream)
  {
    seq(|stream|, i requires 0 <= i < |stream| => stream[i].value)
  }

  /** A stream with anything unreadable in it gives no report at all. */
  method ParseEvents(stream: seq<Result<Event>>, keep: nat) returns (r: Result<Report>)
    ensures r.Ok? <==> Readable(stream)
    ensures r.Ok? ==>
              var events := EventsOf(stream);
              r.value == Report(Wall(events), Top(Timings(events), keep), Failures(events))
  {
    hide Timings, Failures, Since, Top, Wall;
    var fold := new EventFold();
    for i := 0 to |stream|
      invariant Readable(stream[..i]) && fold.Valid() && fold.seen == EventsOf(stream[..i])
      invariant fresh(fold)
    {
      if stream[i].Refused? {
        return Refused;
      }
      fold.Observe(stream[i].value);
    }
    assert stream[..|stream|] == stream;
    var report := fold.Done(keep);
    return Ok(report);
  }

  // ------------------------------------------------------------------ one event at a time

  function SinceAfter(before: seq<Event>, e: Event, k: Key): string {
    if KeyOf(e) == k && IsResult(e) then ""
    else if KeyOf(e) == k && IsOutput(e) then Since(before, k) + e.output
    else Since(before, k)
  }

  lemma OneMore(before: seq<Event>, e: Event, k: Key)
    ensures Since(before + [e], k) == SinceAfter(before, e, k)
  {
    assert (before + [e])[..|before|] == before;
  }

  lemma PackageEvent(before: seq<Event>, e: Event)
    requires e.test == ""
    ensures forall k :: Since(before + [e], k) == Since(before, k)
  {
    assert (before + [e])[..|before|] == before;
  }

  lemma ListsAfter(before: seq<Event>, e: Event)
    ensures Timings(before + [e]) == Timings(before) + TimingOf(e)
    ensures Failures(before + [e]) == Failures(before) + FailureOf(e, Since(before, KeyOf(e)))
  {
    assert (before + [e])[..|before|] == before;
  }

  lemma {:induction false} ClockAfter(before: seq<Event>, e: Event)
    ensures FirstTime(before + [e]) == if FirstTime(before).Some? then FirstTime(before) else e.time
    ensures LastTime(before + [e]) == if e.time.Some? then e.time else LastTime(before)
  {
    assert (before + [e])[..|before|] == before;
    if before == [] {
      assert [e][1..] == [];
    } else {
      ClockAfter(before[1..], e);
      assert (before + [e])[1..] == before[1..] + [e];
    }
  }

  /** A test prints into its own report: what it outputs is added, its result ends it, and nothing
      else touches it. */
  lemma PrintedBy(before: seq<Event>, e: Event, k: Key)
    ensures var own := e.pkg == k.pkg && e.test == k.test && k.test != "";
            && (own && e.action == Output ==> Since(before + [e], k) == Since(before, k) + e.output)
            && (own && e.action in [Pass, Fail, Skip] ==> Since(before + [e], k) == "")
            && (!own || e.action == Other ==> Since(before + [e], k) == Since(before, k))
    ensures Since([], k) == ""
  {
    OneMore(before, e, k);
  }

  // -------------------------------------------------------- what is in the report, and why

  /** Event `n` is the failing of a test, reported as `f`: with what it had printed by then. */
  predicate FailsAs(events: seq<Event>, n: int, f: Failure) {
    && 0 <= n < |events| && events[n].action == Fail && events[n].test != ""
    && f.name == events[n].test && f.pkg == events[n].pkg
    && f.output == Since(events[..n], Key(f.pkg, f.name))
  }

  /** Event `n` is a test's result, timed as `t`. */
  predicate TimedAs(events: seq<Event>, n: int, t: Timing) {
    && 0 <= n < |events| && events[n].action in [Pass, Fail, Skip] && events[n].test != ""
    && t == Timing(events[n].test, events[n].pkg, events[n].elapsed)
  }

  /** The failures are the failing events, each with what its test had printed since its last
      result, and nothing else. */
  lemma {:induction false} FailuresExactly(events: seq<Event>, f: Failure)
    ensures f in Failures(events) <==> exists n :: FailsAs(events, n, f)
  {
    if events != [] {
      var front, last := events[..|events| - 1], events[|events| - 1];
      FailuresExactly(front, f);
      forall n | FailsAs(front, n, f)
        ensures FailsAs(events, n, f)
      {
        assert front[..n] == events[..n];
      }
      forall n | FailsAs(events, n, f) && n < |front|
        ensures FailsAs(front, n, f)
      {
        assert front[..n] == events[..n];
      }
      assert f in FailureOf(last, Since(front, KeyOf(last))) <==> FailsAs(events, |front|, f);
    }
  }

  lemma {:induction false} TimingsExactly(events: seq<Event>, t: Timing)
    ensures t in Timings(events) <==> exists n :: TimedAs(events, n, t)
  {
    if events != [] {
      var front, last := events[..|events| - 1], events[|events| - 1];
      TimingsExactly(front, t);
      forall n | TimedAs(front, n, t)
        ensures TimedAs(events, n, t)
      {
      }
      forall n | TimedAs(events, n, t) && n < |front|
        ensures TimedAs(front, n, t)
      {
      }
      assert t in TimingOf(last) <==> TimedAs(events, |front|, t);
    }
  }

  /** How many events of tests are one of these. */
  function CountOf(events: seq<Event>, actions: seq<Action>): nat {
    if events == [] then 0
    else
      var last := events[|events| - 1];
      CountOf(events[..|events| - 1], actions) + if last.test != "" && last.action in actions then 1 else 0
  }

  /** Every failing and every result is there once, in the order they came. */
  lemma {:induction false} EachCountsOnce(events: seq<Event>)
    ensures |Failures(events)| == CountOf(events, [Fail])
    ensures |Timings(events)| == CountOf(events, [Pass, Fail, Skip])
  {
    if events != [] {
      EachCountsOnce(events[..|events| - 1]);
    }
  }

  lemma {:induction false} InTheOrderTheyCame(events: seq<Event>, n: nat)
    requires n <= |events|
    ensures Failures(events[..n]) <= Failures(events) && Timings(events[..n]) <= Timings(events)
    decreases |events|
  {
    if n < |events| {
      InTheOrderTheyCame(events[..|events| - 1], n);
      assert events[..|events| - 1][..n] == events[..n];
    } else {
      assert events[..n] == events;
    }
  }

  lemma {:induction false} FirstTimeIs(events: seq<Event>, i: nat)
    requires i < |events| && events[i].time.Some? && forall j :: 0 <= j < i ==> events[j].time.None?
    ensures FirstTime(events) == events[i].time
  {
    if i > 0 {
      FirstTimeIs(events[1..], i - 1);
    }
  }

  lemma {:induction false} LastTimeIs(events: seq<Event>, i: nat)
    requires i < |events| && events[i].time.Some? && forall j :: i < j < |events| ==> events[j].time.None?
    ensures LastTime(events) == events[i].time
    decreases |events|
  {
    if i < |events| - 1 {
      LastTimeIs(events[..|events| - 1], i);
    }
  }

  lemma {:induction false} NoTimeIs(events: seq<Event>)
    requires forall e <- events :: e.time.None?
    ensures FirstTime(events).None?
  {
    if events != [] {
      assert events[0] in events;
      NoTimeIs(events[1..]);
    }
  }

  /** The run lasted from the first event that carries a time to the last that does; none does, and
      it lasted no time. */
  lemma WallIs(events: seq<Event>, i: nat, j: nat)
    requires i <= j < |events| && events[i].time.Some? && events[j].time.Some?
    requires forall n :: 0 <= n < i || j < n < |events| ==> events[n].time.None?
    ensures Wall(events) == events[j].time.value - events[i].time.value
  {
    FirstTimeIs(events, i);
    LastTimeIs(events, j);
  }

  lemma NoWall(events: seq<Event>)
    requires forall e <- events :: e.time.None?
    ensures Wall(events) == 0
  {
    NoTimeIs(events);
  }

  // ------------------------------------------------------- interleaving does not matter

  function Only(events: seq<Event>, k: Key): seq<Event> {
    if events == [] then []
    else
      var front, last := events[..|events| - 1], events[|events| - 1];
      Only(front, k) + if KeyOf(last) == k then [last] else []
  }

  /** What a test printed is its own, however the others' events fall between: only its own
      events say it. */
  lemma {:induction false} OthersDoNotMatter(events: seq<Event>, k: Key)
    ensures Since(events, k) == Since(Only(events, k), k)
  {
    if events != [] {
      var front, last := events[..|events| - 1], events[|events| - 1];
      OthersDoNotMatter(front, k);
      if KeyOf(last) == k {
        OneMore(Only(front, k), last, k);
      } else {
        assert Only(front, k) + [] == Only(front, k);
      }
    }
  }

  function OutputText(events: seq<Event>, k: Key): string {
    if events == [] then ""
    else
      var front, last := events[..|events| - 1], events[|events| - 1];
      OutputText(front, k) + if KeyOf(last) == k && IsOutput(last) then last.output else ""
  }

  predicate NoResultOf(events: seq<Event>, k: Key) {
    forall e <- events :: !(KeyOf(e) == k && IsResult(e))
  }

  /** Until a test's first result everything it printed is kept, in order. */
  lemma {:induction false} FirstResultHasAll(events: seq<Event>, k: Key)
    requires NoResultOf(events, k)
    ensures Since(events, k) == OutputText(events, k)
  {
    if events != [] {
      var front, last := events[..|events| - 1], events[|events| - 1];
      assert last in events;
      FirstResultHasAll(front, k);
      assert OutputText(front, k) + "" == OutputText(front, k);
    }
  }

  /** Between two results of a test everything it printed is kept, in order, and a result
      starts it afresh. */
  lemma {:induction false} ResultStartsAfresh(before: seq<Event>, result: Event, between: seq<Event>)
    requires IsResult(result) && NoResultOf(between, KeyOf(result))
    ensures Since(before + [result] + between, KeyOf(result)) == OutputText(between, KeyOf(result))
  {
    var k := KeyOf(result);
    if between == [] {
      assert before + [result] + between == before + [result];
      OneMore(before, result, k);
    } else {
      var front, last := between[..|between| - 1], between[|between| - 1];
      ResultStartsAfresh(before, result, front);
      assert before + [result] + between == (before + [result] + front) + [last];
      OneMore(before + [result] + front, last, k);
      assert OutputText(front, k) + "" == OutputText(front, k);
    }
  }

  // ---------------------------------------------------------- the order is the one promised

  lemma {:induction false} InsertIsTheOrder(s: seq<Timing>, t: Timing)
    requires Descending(s)
    ensures Descending(Insert(s, t))
  {
    if s != [] && s[|s| - 1].seconds < t.seconds {
      var front := s[..|s| - 1];
      InsertIsTheOrder(front, t);
      assert front != [] ==> front[|front| - 1] == s[|front| - 1];
      DescendingAppend(Insert(front, t), s[|s| - 1]);
    } else {
      DescendingAppend(s, t);
    }
  }

  lemma DescendingAppend(s: seq<Timing>, t: Timing)
    requires Descending(s) && (s != [] ==> s[|s| - 1].seconds >= t.seconds)
    ensures Descending(s + [t])
  {}

  lemma {:induction false} InsertAddsOne(s: seq<Timing>, t: Timing)
    ensures multiset(Insert(s, t)) == multiset(s) + multiset{t}
  {
    if s != [] && s[|s| - 1].seconds < t.seconds {
      var front := s[..|s| - 1];
      InsertAddsOne(front, t);
      assert s == front + [s[|s| - 1]];
    }
  }

  lemma {:induction false} InsertIsStable(s: seq<Timing>, t: Timing, v: real)
    requires Descending(s)
    ensures Lasting(Insert(s, t), v) == Lasting(s, v) + if t.seconds == v then [t] else []
  {
    if s == [] || s[|s| - 1].seconds >= t.seconds {
      assert (s + [t])[..|s|] == s;
    } else {
      var front, last := s[..|s| - 1], s[|s| - 1];
      InsertIsStable(front, t, v);
      assert (Insert(front, t) + [last])[..|Insert(front, t)|] == Insert(front, t);
      if last.seconds == v {
        assert t.seconds != v;
        assert Lasting(front, v) + [] == Lasting(front, v);
      }
    }
  }

  lemma {:induction false} SlowestIsTheOrder(ts: seq<Timing>)
    ensures Descending(Slowest(ts)) && multiset(Slowest(ts)) == multiset(ts)
  {
    if ts != [] {
      var front, last := ts[..|ts| - 1], ts[|ts| - 1];
      SlowestIsTheOrder(front);
      InsertIsTheOrder(Slowest(front), last);
      InsertAddsOne(Slowest(front), last);
      assert ts == front + [last];
    }
  }

  /** Tests that took equally long keep the order they ended in. */
  lemma {:induction false} SlowestIsStable(ts: seq<Timing>, v: real)
    ensures Lasting(Slowest(ts), v) == Lasting(ts, v)
  {
    if ts != [] {
      var front, last := ts[..|ts| - 1], ts[|ts| - 1];
      SlowestIsTheOrder(front);
      SlowestIsStable(front, v);
      InsertIsStable(Slowest(front), last, v);
    }
  }

  /** The list kept is as long as asked or as there were tests, slowest first, and no test left
      out took longer than one kept. */
  lemma TopKeepsTheSlowest(ts: seq<Timing>, keep: nat)
    ensures var top := Top(ts, keep);
            && |top| == (if |ts| > keep then keep else |ts|)
            && Descending(top)
            && exists dropped: seq<Timing> ::
                 && multiset(ts) == multiset(top) + multiset(dropped)
                 && forall t, d | t in top && d in dropped :: t.seconds >= d.seconds
  {
    SlowestIsTheOrder(ts);
    var all := Slowest(ts);
    var n := |Top(ts, keep)|;
    var dropped := all[n..];
    assert all == all[..n] + dropped && Top(ts, keep) == all[..n];
    assert multiset(ts) == multiset(Top(ts, keep)) + multiset(dropped);
  }
}
