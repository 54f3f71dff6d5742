/** A passphrase handed over once: a server on a private socket gives it to the first collector
    to connect, or to nobody when its time runs out, then closes the listener and removes the
    socket. Server, acceptor and any number of collectors take their steps in any order. */
module Handoff {
  import opened Wrappers

  type Collector = nat

  /** What the server has still to do, and for whom. */
  datatype Server =
    | Selecting
    | Writing(to: Collector)
    | Closing(to: Collector)
    | Cleaning
    | Unlinking
    | Gone

  /** The goroutine that accepts once, and whether the server took what it accepted. */
  datatype Acceptor = Accepting | Holding(of: Collector) | Refused | Taken(of: Collector)

  /** What was written to a connection, and whether the server's end of it is closed. */
  datatype Conn = Conn(data: string, closed: bool)

  datatype Fetch = Idle | Reading | Got(passphrase: string) | Failed

  /** `backlog` holds the connections not yet accepted, `dialled` every one ever made. */
  datatype State = State(server: Server, acceptor: Acceptor, listening: bool, socket: bool,
                         backlog: seq<Collector>, dialled: seq<Collector>,
                         conns: map<Collector, Conn>, fetches: map<Collector, Fetch>)

  /** `Drop` is the system closing a connection the server never took. */
  datatype Action =
    | Dial(i: Collector)
    | GiveUp(i: Collector)
    | ReadAll(i: Collector)
    | Drop(i: Collector)
    | Accept
    | AcceptFails
    | Take
    | TimeOut
    | Write(works: bool)
    | CloseConn
    | CloseListener(unlinks: bool)
    | RemoveSocket

  const START := State(Selecting, Accepting, true, true, [], [], map[], map[])

  function FetchOf(s: State, i: Collector): Fetch {
    if i in s.fetches then s.fetches[i] else Idle
  }

  predicate Enabled(s: State, a: Action) {
    match a
    case Dial(i) => FetchOf(s, i).Idle?
    case GiveUp(i) => FetchOf(s, i).Idle? || FetchOf(s, i).Reading?
    case ReadAll(i) => FetchOf(s, i).Reading? && i in s.conns && s.conns[i].closed
    case Drop(i) =>
      && i in s.conns
      && ((i in s.backlog && !s.listening) || (s.acceptor == Holding(i) && !s.server.Selecting?))
    case Accept => s.acceptor.Accepting? && s.listening && s.backlog != []
    case AcceptFails => s.acceptor.Accepting?
    case Take => s.server.Selecting? && (s.acceptor.Holding? || s.acceptor.Refused?)
    case TimeOut => s.server.Selecting?
    case Write(_) => s.server.Writing? && s.server.to in s.conns
    case CloseConn => s.server.Closing? && s.server.to in s.conns
    case CloseListener(_) => s.server.Cleaning?
    case RemoveSocket => s.server.Unlinking?
  }

  function Turn(s: State, i: Collector, f: Fetch): State {
    s.(fetches := s.fetches[i := f])
  }

  function Next(s: State, a: Action, passphrase: string): State
    requires Enabled(s, a)
  {
    match a
    case Dial(i) =>
      if s.listening && s.socket then
        Turn(s, i, Reading).(backlog := s.backlog + [i], dialled := s.dialled + [i], conns := s.conns[i := Conn("", false)])
      else Turn(s, i, Failed)
    case GiveUp(i) => Turn(s, i, Failed)
    case ReadAll(i) => Turn(s, i, if s.conns[i].data == "" then Failed else Got(s.conns[i].data))
    case Drop(i) => s.(conns := s.conns[i := s.conns[i].(closed := true)])
    case Accept => s.(acceptor := Holding(s.backlog[0]), backlog := s.backlog[1..])
    case AcceptFails => s.(acceptor := Acceptor.Refused)
    case Take =>
      if s.acceptor.Refused? then s.(server := Cleaning)
      else s.(server := Writing(s.acceptor.of), acceptor := Taken(s.acceptor.of))
    case TimeOut => s.(server := Cleaning)
    case Write(works) =>
      var to := s.server.to;
      s.(server := Closing(to),
         conns := if works then s.conns[to := s.conns[to].(data := s.conns[to].data + passphrase)] else s.conns)
    case CloseConn =>
      var to := s.server.to;
      s.(server := Cleaning, conns := s.conns[to := s.conns[to].(closed := true)])
    case CloseListener(unlinks) => s.(server := Unlinking, listening := false, socket := s.socket && !unlinks)
    case RemoveSocket => s.(server := Gone, socket := false)
  }

  predicate Possible(s: State, run: seq<Action>, passphrase: string)
    decreases |run|
  {
    run == [] || (Enabled(s, run[0]) && Possible(Next(s, run[0], passphrase), run[1..], passphrase))
  }

  function After(s: State, run: seq<Action>, passphrase: string): State
    requires Possible(s, run, passphrase)
    decreases |run|
  {
    if run == [] then s else After(Next(s, run[0], passphrase), run[1..], passphrase)
  }

  // ----------------------------------------------------------------- what every step keeps

  /** Only the connection the server took carries anything, and that is the passphrase. */
  predicate OnlyTaken(s: State, passphrase: string) {
    && (forall i <- s.conns :: s.conns[i].data != "" ==> s.acceptor == Taken(i) && s.conns[i].data == passphrase)
    && (forall i <- s.fetches :: s.fetches[i].Got? ==>
          s.acceptor == Taken(i) && s.fetches[i].passphrase == passphrase && passphrase != "")
  }

  /** A collector has a connection from the moment it dialled. */
  predicate Connected(s: State) {
    forall i <- s.conns :: !FetchOf(s, i).Idle?
  }

  predicate ServerInStep(s: State) {
    && (s.server.Writing? ==> s.acceptor == Taken(s.server.to) && s.server.to in s.conns
                              && s.conns[s.server.to].data == "")
    && (s.server.Closing? ==> s.acceptor == Taken(s.server.to) && s.server.to in s.conns)
    && (s.server.Selecting? ==> !s.acceptor.Taken?)
    && (s.listening <==> !s.server.Unlinking? && !s.server.Gone?)
    && (s.server.Gone? ==> !s.socket)
  }

  /** Connections are accepted in the order they were made, and only the first of them. */
  predicate InOrder(s: State) {
    && (s.acceptor.Holding? || s.acceptor.Taken? ==> s.dialled == [s.acceptor.of] + s.backlog)
    && (s.acceptor.Accepting? || s.acceptor.Refused? ==> s.dialled == s.backlog)
    && (forall i <- s.dialled :: i in s.conns)
  }

  predicate Inv(s: State, passphrase: string) {
    OnlyTaken(s, passphrase) && Connected(s) && ServerInStep(s) && InOrder(s)
  }

  lemma DialKeepsInv(s: State, i: Collector, passphrase: string)
    requires Inv(s, passphrase) && Enabled(s, Dial(i))
    ensures Inv(Next(s, Dial(i), passphrase), passphrase)
  {}

  lemma FetchKeepsInv(s: State, a: Action, passphrase: string)
    requires Inv(s, passphrase) && Enabled(s, a) && (a.GiveUp? || a.ReadAll? || a.Drop?)
    ensures Inv(Next(s, a, passphrase), passphrase)
  {}

  lemma ServerKeepsInv(s: State, a: Action, passphrase: string)
    requires Inv(s, passphrase) && Enabled(s, a) && !a.Dial? && !a.GiveUp? && !a.ReadAll? && !a.Drop?
    ensures Inv(Next(s, a, passphrase), passphrase)
  {
    if a.Write? {
      assert "" + passphrase == passphrase;
    }
  }

  lemma StepKeepsInv(s: State, a: Action, passphrase: string)
    requires Inv(s, passphrase) && Enabled(s, a)
    ensures Inv(Next(s, a, passphrase), passphrase)
  {
    if a.Dial? {
      DialKeepsInv(s, a.i, passphrase);
    } else if a.GiveUp? || a.ReadAll? || a.Drop? {
      FetchKeepsInv(s, a, passphrase);
    } else {
      ServerKeepsInv(s, a, passphrase);
    }
  }

  lemma {:induction false} RunKeepsInv(s: State, run: seq<Action>, passphrase: string)
    requires Inv(s, passphrase) && Possible(s, run, passphrase)
    ensures Inv(After(s, run, passphrase), passphrase)
    decreases |run|
  {
    if run != [] {
      StepKeepsInv(s, run[0], passphrase);
      RunKeepsInv(Next(s, run[0], passphrase), run[1..], passphrase);
    }
  }

  // ------------------------------------------------------------------------ the promises

  /** However the steps fall: whoever comes away with something is the first that ever connected
      and has the passphrase, which is not empty; so at most one does, and the rest, accepted
      and served nothing included, are told that they failed or are still waiting. */
  lemma HandedOverOnce(run: seq<Action>, passphrase: string)
    requires Possible(START, run, passphrase)
    ensures var s := After(START, run, passphrase);
            && (forall i :: FetchOf(s, i).Got? ==>
                  s.dialled != [] && s.dialled[0] == i && FetchOf(s, i) == Got(passphrase) && passphrase != "")
            && (forall i, j :: FetchOf(s, i).Got? && FetchOf(s, j).Got? ==> i == j)
  {
    RunKeepsInv(START, run, passphrase);
  }

  /** The time ran out, or the accept failed, before the server took anyone. */
  predicate TooLate(s: State) {
    !s.server.Selecting? && !s.acceptor.Taken?
  }

  lemma {:induction false} TooLateStays(s: State, run: seq<Action>, passphrase: string)
    requires TooLate(s) && Possible(s, run, passphrase)
    ensures TooLate(After(s, run, passphrase))
    decreases |run|
  {
    if run != [] {
      TooLateStays(Next(s, run[0], passphrase), run[1..], passphrase);
    }
  }

  /** Once it is too late nobody ever gets the passphrase, whoever had connected by then. */
  lemma TooLateForEveryone(before: seq<Action>, after: seq<Action>, passphrase: string)
    requires Possible(START, before, passphrase) && TooLate(After(START, before, passphrase))
    requires Possible(After(START, before, passphrase), after, passphrase)
    ensures forall i :: !FetchOf(After(After(START, before, passphrase), after, passphrase), i).Got?
  {
    var s := After(START, before, passphrase);
    RunKeepsInv(START, before, passphrase);
    TooLateStays(s, after, passphrase);
    RunKeepsInv(s, after, passphrase);
  }

  predicate ByServer(a: Action) {
    a.Take? || a.TimeOut? || a.Write? || a.CloseConn? || a.CloseListener? || a.RemoveSocket?
  }

  function Rank(s: State): nat {
    match s.server
    case Selecting => 5
    case Writing(_) => 4
    case Closing(_) => 3
    case Cleaning => 2
    case Unlinking => 1
    case Gone => 0
  }

  function ServerSteps(run: seq<Action>): nat {
    if run == [] then 0 else (if ByServer(run[0]) then 1 else 0) + ServerSteps(run[1..])
  }

  lemma {:induction false} StepsLowerRank(s: State, run: seq<Action>, passphrase: string)
    requires Possible(s, run, passphrase)
    ensures ServerSteps(run) + Rank(After(s, run, passphrase)) <= Rank(s)
    decreases |run|
  {
    if run != [] {
      StepsLowerRank(Next(s, run[0], passphrase), run[1..], passphrase);
    }
  }

  /** Never left dangling: the server takes at most five steps, whatever the collectors do
      between them; while the socket may still be there it has one it can take; and when it has
      none the socket is gone and no collector can connect any more. */
  lemma ServerFinishes(run: seq<Action>, passphrase: string)
    requires Possible(START, run, passphrase)
    ensures var s := After(START, run, passphrase);
            && ServerSteps(run) <= 5
            && (s.server.Gone? <==> forall a | ByServer(a) :: !Enabled(s, a))
            && (s.server.Gone? ==> !s.socket && !s.listening)
            && (s.server.Gone? ==> forall i | Enabled(s, Dial(i)) :: FetchOf(Next(s, Dial(i), passphrase), i).Failed?)
  {
    hide Enabled, Next, Inv, ByServer;
    var s := After(START, run, passphrase);
    StepsLowerRank(START, run, passphrase);
    RunKeepsInv(START, run, passphrase);
    ServerCanMove(s, passphrase);
  }

  lemma ServerCanMove(s: State, passphrase: string)
    requires Inv(s, passphrase)
    ensures s.server.Gone? <==> forall a | ByServer(a) :: !Enabled(s, a)
    ensures s.server.Gone? ==> !s.socket && !s.listening
    ensures s.server.Gone? ==> forall i | Enabled(s, Dial(i)) :: FetchOf(Next(s, Dial(i), passphrase), i).Failed?
  {
    assert Enabled(s, TimeOut) || Enabled(s, Write(true)) || Enabled(s, CloseConn)
           || Enabled(s, CloseListener(true)) || Enabled(s, RemoveSocket) || s.server.Gone?;
  }

  /** A collector the server serves does come away with the passphrase. */
  lemma SomebodyCanCollect(i: Collector, passphrase: string)
    requires passphrase != ""
    ensures var run := [Dial(i), Accept, Take, Write(true), CloseConn, ReadAll(i)];
            && Possible(START, run, passphrase)
            && FetchOf(After(START, run, passphrase), i) == Got(passphrase)
  {
    var s1 := Next(START, Dial(i), passphrase);
    var s2 := Next(s1, Accept, passphrase);
    var s3 := Next(s2, Take, passphrase);
    var s4 := Next(s3, Write(true), passphrase);
    var s5 := Next(s4, CloseConn, passphrase);
    assert "" + passphrase == passphrase;
    var s6 := Next(s5, ReadAll(i), passphrase);
    assert Possible(s6, [], passphrase);
    RunStep(s5, ReadAll(i), [], passphrase);
    RunStep(s4, CloseConn, [ReadAll(i)], passphrase);
    RunStep(s3, Write(true), [CloseConn, ReadAll(i)], passphrase);
    RunStep(s2, Take, [Write(true), CloseConn, ReadAll(i)], passphrase);
    RunStep(s1, Accept, [Take, Write(true), CloseConn, ReadAll(i)], passphrase);
    RunStep(START, Dial(i), [Accept, Take, Write(true), CloseConn, ReadAll(i)], passphrase);
  }

  lemma RunStep(s: State, a: Action, rest: seq<Action>, passphrase: string)
    requires Enabled(s, a) && Possible(Next(s, a, passphrase), rest, passphrase)
    ensures Possible(s, [a] + rest, passphrase)
    ensures After(s, [a] + rest, passphrase) == After(Next(s, a, passphrase), rest, passphrase)
  {
    assert ([a] + rest)[1..] == rest;
  }

  // ------------------------------------------------------------ what a whole run comes to

  /** A run is its front and one more step. */
  lemma {:induction false} RunFront(s: State, run: seq<Action>, passphrase: string)
    requires run != [] && Possible(s, run, passphrase)
    ensures var front, last := run[..|run| - 1], run[|run| - 1];
            && Possible(s, front, passphrase) && Enabled(After(s, front, passphrase), last)
            && After(s, run, passphrase) == Next(After(s, front, passphrase), last, passphrase)
    decreases |run|
  {
    var front, last := run[..|run| - 1], run[|run| - 1];
    if |run| == 1 {
      assert front == [] && run[1..] == [];
    } else {
      RunFront(Next(s, run[0], passphrase), run[1..], passphrase);
      assert run[1..][..|run| - 2] == front[1..] && front[0] == run[0] && run[1..][|run| - 2] == last;
    }
  }

  /** What has happened in a run, in whatever order; `callers` are those who called before the
      listener was closed, in order. */
  datatype History = History(closed: bool, gone: bool, accepted: bool, failed: bool, took: bool,
                             timedOut: bool, wrote: bool, callers: seq<Collector>)

  function Callers(run: seq<Action>): seq<Collector> {
    if run == [] then []
    else
      var front, last := run[..|run| - 1], run[|run| - 1];
      if last.Dial? && CloseListener(true) !in front && CloseListener(false) !in front then Callers(front) + [last.i]
      else Callers(front)
  }

  function HistoryOf(run: seq<Action>): History {
    History(CloseListener(true) in run || CloseListener(false) in run, CloseListener(true) in run || RemoveSocket in run,
            Accept in run, AcceptFails in run, Take in run, TimeOut in run, Write(true) in run, Callers(run))
  }

  function Then(h: History, a: Action): History {
    match a
    case Dial(i) => if h.closed then h else h.(callers := h.callers + [i])
    case Accept => h.(accepted := true)
    case AcceptFails => h.(failed := true)
    case Take => h.(took := true)
    case TimeOut => h.(timedOut := true)
    case Write(works) => if works then h.(wrote := true) else h
    case CloseListener(unlinks) => if unlinks then h.(closed := true, gone := true) else h.(closed := true)
    case RemoveSocket => h.(gone := true)
    case _ => h
  }

  function Flagged(h: History, a: Action, callers: seq<Collector>): History {
    History(h.closed || a.CloseListener?, h.gone || a == CloseListener(true) || a.RemoveSocket?,
            h.accepted || a.Accept?, h.failed || a.AcceptFails?, h.took || a.Take?, h.timedOut || a.TimeOut?,
            h.wrote || a == Write(true), callers)
  }

  lemma FlaggedIs(front: seq<Action>, last: Action)
    ensures HistoryOf(front + [last]) == Flagged(HistoryOf(front), last, Callers(front + [last]))
  {
    hide Callers;
    assert forall a :: a in front + [last] <==> a in front || a == last;
  }

  lemma ThenIs(h: History, a: Action)
    ensures Then(h, a) == Flagged(h, a, if a.Dial? && !h.closed then h.callers + [a.i] else h.callers)
  {
  }

  lemma HistoryGrows(run: seq<Action>)
    requires run != []
    ensures HistoryOf(run) == Then(HistoryOf(run[..|run| - 1]), run[|run| - 1])
  {
    hide Then, Flagged;
    var front, last := run[..|run| - 1], run[|run| - 1];
    assert run == front + [last];
    FlaggedIs(front, last);
    ThenIs(HistoryOf(front), last);
  }

  /** The listener and its socket: open until closed, there until taken away. */
  predicate ListenerStands(h: History, s: State) {
    (s.listening <==> !h.closed) && (s.socket <==> !h.gone) && (h.gone ==> h.closed)
  }

  /** Who is served is the first to call, once accepted and taken by the server. */
  predicate AcceptorStands(h: History, s: State) {
    && s.dialled == h.callers
    && (s.acceptor.Accepting? <==> !h.accepted && !h.failed)
    && (s.acceptor.Refused? <==> h.failed)
    && (s.acceptor.Taken? <==> h.accepted && h.took)
    && (s.acceptor.Holding? || s.acceptor.Taken? ==> s.dialled != [] && s.acceptor.of == s.dialled[0])
    && (s.server.Selecting? <==> !h.took && !h.timedOut)
    && (h.took ==> h.accepted || h.failed) && !(h.took && h.timedOut) && !(h.accepted && h.failed)
  }

  /** What the server wrote is on the connection it took, and nothing is on any other; a connection
      that is closed is that one, served, or one that will never be taken. */
  predicate ConnsStand(h: History, s: State, passphrase: string) {
    && (forall i <- s.conns :: s.conns[i].data == if s.acceptor == Taken(i) && h.wrote then passphrase else "")
    && (forall i <- s.conns :: s.conns[i].closed ==>
          !s.server.Selecting? && (s.acceptor == Taken(i) ==> !s.server.Writing?))
    && (h.wrote ==> s.acceptor.Taken? && !s.server.Writing?)
  }

  ghost predicate Stands(h: History, s: State, passphrase: string) {
    ListenerStands(h, s) && AcceptorStands(h, s) && ConnsStand(h, s, passphrase)
  }

  lemma ListenerStep(h: History, s: State, a: Action, passphrase: string)
    requires Inv(s, passphrase) && Enabled(s, a) && ListenerStands(h, s)
    ensures ListenerStands(Then(h, a), Next(s, a, passphrase))
  {
    hide OnlyTaken, Connected, InOrder;
  }

  lemma AcceptorStep(h: History, s: State, a: Action, passphrase: string)
    requires Inv(s, passphrase) && Enabled(s, a) && ListenerStands(h, s) && AcceptorStands(h, s)
    ensures AcceptorStands(Then(h, a), Next(s, a, passphrase))
  {
    hide OnlyTaken, Connected;
  }

  lemma ConnsStep(h: History, s: State, a: Action, passphrase: string)
    requires Inv(s, passphrase) && Enabled(s, a) && ConnsStand(h, s, passphrase)
    ensures ConnsStand(Then(h, a), Next(s, a, passphrase), passphrase)
  {
    hide OnlyTaken;
    assert "" + passphrase == passphrase;
  }

  lemma StandsStep(h: History, s: State, a: Action, passphrase: string)
    requires Inv(s, passphrase) && Enabled(s, a) && Stands(h, s, passphrase)
    ensures Stands(Then(h, a), Next(s, a, passphrase), passphrase)
  {
    hide ListenerStands, AcceptorStands, ConnsStand, Inv, Next, Enabled;
    ListenerStep(h, s, a, passphrase);
    AcceptorStep(h, s, a, passphrase);
    ConnsStep(h, s, a, passphrase);
  }

  /** How listener, acceptor and connections stand after any run, told from what happened in it. */
  lemma {:induction false} StandsByHistory(run: seq<Action>, passphrase: string)
    requires Possible(START, run, passphrase)
    ensures Stands(HistoryOf(run), After(START, run, passphrase), passphrase)
    decreases |run|
  {
    hide Next, Enabled, Then;
    if run != [] {
      hide HistoryOf, Stands;
      var front, last := run[..|run| - 1], run[|run| - 1];
      RunFront(START, run, passphrase);
      StandsByHistory(front, passphrase);
      RunKeepsInv(START, front, passphrase);
      HistoryGrows(run);
      StandsStep(HistoryOf(front), After(START, front, passphrase), last, passphrase);
    }
  }

  /** A connection is closed exactly when the server closed it after serving it, or the system did,
      the server never having taken it. */
  ghost predicate ClosedFor(run: seq<Action>, s: State) {
    && (forall i <- s.conns :: s.conns[i].closed <==> Drop(i) in run || (s.acceptor == Taken(i) && CloseConn in run))
    && (CloseConn in run ==> s.acceptor.Taken? && !s.server.Selecting? && !s.server.Writing?)
    && (forall i :: Drop(i) in run ==> i in s.conns)
  }

  lemma ClosedStep(front: seq<Action>, s: State, a: Action, passphrase: string)
    requires Inv(s, passphrase) && Enabled(s, a) && ClosedFor(front, s)
    ensures ClosedFor(front + [a], Next(s, a, passphrase))
  {
    hide OnlyTaken;
    assert forall b :: b in front + [a] <==> b in front || b == a;
  }

  lemma {:induction false} ClosedExactly(run: seq<Action>, passphrase: string)
    requires Possible(START, run, passphrase)
    ensures ClosedFor(run, After(START, run, passphrase))
    decreases |run|
  {
    hide Next, Enabled;
    if run != [] {
      hide ClosedFor;
      var front, last := run[..|run| - 1], run[|run| - 1];
      RunFront(START, run, passphrase);
      ClosedExactly(front, passphrase);
      RunKeepsInv(START, front, passphrase);
      ClosedStep(front, After(START, front, passphrase), last, passphrase);
      assert front + [last] == run;
    }
  }

  function LastOfServer(run: seq<Action>): Option<Action> {
    if run == [] then None
    else if ByServer(run[|run| - 1]) then Some(run[|run| - 1])
    else LastOfServer(run[..|run| - 1])
  }

  /** Where the server's own last step leaves it. */
  predicate ServerLeft(last: Option<Action>, s: State) {
    match last
    case None => s.server == Selecting
    case Some(a) =>
      match a
      case Take => if s.acceptor.Taken? then s.server == Writing(s.acceptor.of) else s.server == Cleaning
      case TimeOut => s.server == Cleaning
      case Write(_) => s.acceptor.Taken? && s.server == Closing(s.acceptor.of)
      case CloseConn => s.server == Cleaning
      case CloseListener(_) => s.server == Unlinking
      case RemoveSocket => s.server == Gone
      case _ => false
  }

  lemma ServerStep(s: State, last: Option<Action>, a: Action, passphrase: string)
    requires Inv(s, passphrase) && Enabled(s, a) && ServerLeft(last, s)
    ensures ServerLeft(if ByServer(a) then Some(a) else last, Next(s, a, passphrase))
  {
    hide OnlyTaken, Connected, InOrder;
  }

  lemma {:induction false} ServerStandsByLastStep(run: seq<Action>, passphrase: string)
    requires Possible(START, run, passphrase)
    ensures ServerLeft(LastOfServer(run), After(START, run, passphrase))
    decreases |run|
  {
    hide Next, Enabled;
    if run != [] {
      var front, last := run[..|run| - 1], run[|run| - 1];
      RunFront(START, run, passphrase);
      ServerStandsByLastStep(front, passphrase);
      RunKeepsInv(START, front, passphrase);
      ServerStep(After(START, front, passphrase), LastOfServer(front), last, passphrase);
    }
  }

  predicate ByCollector(a: Action, i: Collector) {
    a == Dial(i) || a == GiveUp(i) || a == ReadAll(i)
  }

  function LastOf(run: seq<Action>, i: Collector): Option<Action> {
    if run == [] then None
    else if ByCollector(run[|run| - 1], i) then Some(run[|run| - 1])
    else LastOf(run[..|run| - 1], i)
  }

  /** Where a collector's own last step leaves it: one that calls waits if the listener was open and
      fails at once if not; one that gives up fails; one that reads gets the passphrase if it is the
      one that was served and it was written, and fails if not. */
  predicate FetchLeft(last: Option<Action>, h: History, s: State, i: Collector, passphrase: string) {
    match last
    case None => FetchOf(s, i) == Idle && i !in h.callers
    case Some(a) =>
      match a
      case Dial(_) => FetchOf(s, i) == if i in h.callers then Reading else Failed
      case GiveUp(_) => FetchOf(s, i) == Failed
      case ReadAll(_) =>
        && !s.server.Selecting? && (s.acceptor == Taken(i) ==> !s.server.Writing?)
        && FetchOf(s, i) ==
        if s.acceptor == Taken(i) && h.wrote && passphrase != "" then Got(passphrase) else Failed
      case _ => false
  }

  lemma FetchStep(h: History, s: State, last: Option<Action>, a: Action, i: Collector, passphrase: string)
    requires Inv(s, passphrase) && Enabled(s, a) && Stands(h, s, passphrase) && FetchLeft(last, h, s, i, passphrase)
    ensures FetchLeft(if ByCollector(a, i) then Some(a) else last, Then(h, a), Next(s, a, passphrase), i, passphrase)
  {
    hide OnlyTaken, Connected, InOrder;
  }

  /** What every collector comes away with after any run, told from its own last step. */
  lemma {:induction false} CollectorStandsByLastStep(run: seq<Action>, i: Collector, passphrase: string)
    requires Possible(START, run, passphrase)
    ensures FetchLeft(LastOf(run, i), HistoryOf(run), After(START, run, passphrase), i, passphrase)
    decreases |run|
  {
    hide Next, Enabled, Then;
    if run != [] {
      hide HistoryOf, FetchLeft, Stands;
      var front, last := run[..|run| - 1], run[|run| - 1];
      RunFront(START, run, passphrase);
      CollectorStandsByLastStep(front, i, passphrase);
      StandsByHistory(front, passphrase);
      RunKeepsInv(START, front, passphrase);
      HistoryGrows(run);
      FetchStep(HistoryOf(front), After(START, front, passphrase), LastOf(front, i), last, i, passphrase);
    }
  }
}
