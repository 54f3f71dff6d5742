/** Any number of logins driving one fixed socket to a healthy agent, interleaved step by
    step. Each login probes, takes the lock, probes again, reaps, surveys, and then either
    clears the path and starts an agent or swaps a symlink to one it adopts. */
module AgentLogins {
  import opened Wrappers

  type Login = nat
  type Path = string

  /** What is at the fixed path: a socket with or without an agent behind it, a symlink to
      another agent's socket, some other file, or nothing. */
  datatype Node = Absent | Plain | Socket(alive: bool) | Link(target: Path)

  datatype Ending = Attached | Started | Adopted | Failed

  /** Where one login stands. `Waiting`: its first probe found silence. `Entered`: it has
      the lock, or has stopped waiting for it. `Reaping` on: its second probe found silence
      too. `Condemned`: it found the process of the fixed socket dead and is about to unlink
      the socket. */
  datatype Phase =
    | Fresh
    | Waiting
    | Entered
    | Reaping
    | Condemned
    | Clearing
    | Starting
    | Unlinking
    | Binding
    | Adopting(target: Path)
    | Done(ending: Ending)

  /** `live` holds the other sockets an agent answers on. `mutations` lists the logins that
      started or adopted, and `disturbed` records whether any step took an answering fixed
      path away. */
  datatype State = State(node: Node, live: set<Path>, lock: Option<Login>,
                         phases: map<Login, Phase>, mutations: seq<Login>, disturbed: bool)

  /** One atomic step, of login `i` or, for the last three, of the world outside. */
  datatype Action =
    | Probe(i: Login)
    | Lock(i: Login)
    | Expire(i: Login)
    | Reprobe(i: Login)
    | ReapProbe(i: Login)
    | ReapUnlink(i: Login)
    | Survey(i: Login, found: seq<Path>)
    | Clear(i: Login, works: bool)
    | StartProbe(i: Login)
    | StartUnlink(i: Login, works: bool)
    | Bind(i: Login, works: bool, recorded: bool)
    | Adopt(i: Login, works: bool)
    | Stop(i: Login)
    | AgentsAppear(i: Login, live: set<Path>)
    | AgentDies(i: Login, path: Path)
    | FixedAgentDies(i: Login)

  predicate Answers(s: State) {
    match s.node
    case Socket(alive) => alive
    case Link(target) => target in s.live
    case _ => false
  }

  function PhaseOf(s: State, i: Login): Phase {
    if i in s.phases then s.phases[i] else Fresh
  }

  /** Between getting past the lock and returning. */
  predicate InSection(p: Phase) {
    !p.Fresh? && !p.Waiting? && !p.Done?
  }

  /** Between the second probe and the step that starts or adopts. */
  predicate PastReprobe(p: Phase) {
    InSection(p) && !p.Entered?
  }

  /** The steps of the world outside: other agents may come and go, but nobody else brings
      the silent fixed path to life. */
  predicate Outside(a: Action) {
    a.AgentsAppear? || a.AgentDies? || a.FixedAgentDies?
  }

  predicate Enabled(s: State, a: Action) {
    var p := PhaseOf(s, a.i);
    match a
    case Probe(_) => p.Fresh?
    case Lock(_) => p.Waiting? && s.lock.None?
    case Expire(_) => p.Waiting? && s.lock.Some?
    case Reprobe(_) => p.Entered?
    case ReapProbe(_) => p.Reaping?
    case ReapUnlink(_) => p.Condemned?
    case Survey(_, found) => p.Reaping? && forall k :: 0 <= k < |found| ==> found[k] in s.live
    case Clear(_, _) => p.Clearing?
    case StartProbe(_) => p.Starting?
    case StartUnlink(_, _) => p.Unlinking?
    case Bind(_, works, _) => p.Binding? && (works ==> s.node.Absent?)
    case Adopt(_, _) => p.Adopting?
    case Stop(_) => !p.Done?
    case AgentsAppear(_, live) =>
      s.live <= live && (s.node.Link? && s.node.target !in s.live ==> s.node.target !in live)
    case AgentDies(_, _) => true
    case FixedAgentDies(_) => s.node.Socket?
  }

  function Move(s: State, i: Login, p: Phase): State {
    s.(phases := s.phases[i := p])
  }

  /** Returning: the deferred unlock runs, for a login that has the lock. */
  function Return(s: State, i: Login, ending: Ending): State {
    Move(s.(lock := if s.lock == Some(i) then None else s.lock), i, Done(ending))
  }

  /** Putting something else at the fixed path, noting whether it answered until now. */
  function Replace(s: State, node: Node): State {
    s.(node := node, disturbed := s.disturbed || Answers(s))
  }

  function Next(s: State, a: Action): State {
    var p := PhaseOf(s, a.i);
    match a
    case Probe(i) => if Answers(s) then Return(s, i, Attached) else Move(s, i, Waiting)
    case Lock(i) => Move(s.(lock := Some(i)), i, Entered)
    case Expire(i) => Move(s, i, Entered)
    case Reprobe(i) => if Answers(s) then Return(s, i, Attached) else Move(s, i, Reaping)
    case ReapProbe(i) => if Answers(s) then s else Move(s, i, Condemned)
    case ReapUnlink(i) =>
      Move(if s.node.Socket? then Replace(s, Absent) else s, i, Reaping)
    case Survey(i, found) =>
      Move(s, i, if found == [] then Clearing else Adopting(found[0]))
    case Clear(i, works) =>
      Move(if works && (s.node.Socket? || s.node.Link?) then Replace(s, Absent) else s, i, Starting)
    case StartProbe(i) => Move(s, i, if Answers(s) then Binding else Unlinking)
    case StartUnlink(i, works) =>
      Move(if works && s.node.Socket? then Replace(s, Absent) else s, i, Binding)
    case Bind(i, works, recorded) =>
      if works then
        Return(Replace(s, Socket(true)).(mutations := s.mutations + [i]), i,
               if recorded then Started else Failed)
      else Return(s, i, Failed)
    case Adopt(i, works) =>
      if works && p.Adopting? then
        Return(Replace(s, Link(p.target)).(mutations := s.mutations + [i]), i, Adopted)
      else Return(s, i, Failed)
    case Stop(i) => Return(s, i, Failed)
    case AgentsAppear(_, live) => s.(live := live)
    case AgentDies(_, path) => s.(live := s.live - {path})
    case FixedAgentDies(_) => s.(node := Socket(false))
  }

  function Run(s: State, actions: seq<Action>): Option<State>
    decreases |actions|
  {
    if actions == [] then Some(s)
    else if !Enabled(s, actions[0]) then None
    else Run(Next(s, actions[0]), actions[1..])
  }

  function Initial(node: Node, live: set<Path>): State {
    State(node, live, None, map[], [], false)
  }

  predicate Calm(a: Action) {
    !a.Expire? && !a.AgentDies? && !a.FixedAgentDies?
  }

  /** No wait for the lock runs out and no live agent dies. */
  predicate AllCalm(actions: seq<Action>) {
    forall k :: 0 <= k < |actions| ==> Calm(actions[k])
  }

  // ------------------------------------------------------------- the invariant

  ghost predicate Exclusive(s: State) {
    forall i: Login :: InSection(PhaseOf(s, i)) <==> s.lock == Some(i)
  }

  /** From a login's second probe until its own start or adoption the fixed path is silent,
      and what it means to adopt is alive. */
  ghost predicate Quiet(s: State) {
    forall i: Login :: PastReprobe(PhaseOf(s, i)) ==>
      !Answers(s) && (PhaseOf(s, i).Adopting? ==> PhaseOf(s, i).target in s.live)
  }

  predicate Succeeded(p: Phase) {
    p.Done? && !p.ending.Failed?
  }

  ghost predicate Settled(s: State) {
    && !s.disturbed
    && |s.mutations| <= 1
    && (s.mutations != [] ==> Answers(s))
    && (forall i: Login :: Succeeded(PhaseOf(s, i)) ==> Answers(s))
  }

  ghost predicate Inv(s: State) {
    Exclusive(s) && Quiet(s) && Settled(s)
  }

  lemma OthersStand(s: State, a: Action, i: Login)
    requires i != a.i || Outside(a)
    ensures PhaseOf(Next(s, a), i) == PhaseOf(s, i)
  {
  }

  lemma KeepsExclusive(s: State, a: Action)
    requires Exclusive(s) && Enabled(s, a) && !a.Expire?
    ensures Exclusive(Next(s, a))
  {
    var next := Next(s, a);
    forall i: Login
      ensures InSection(PhaseOf(next, i)) <==> next.lock == Some(i)
    {
      assert InSection(PhaseOf(s, i)) <==> s.lock == Some(i);
      assert InSection(PhaseOf(s, a.i)) <==> s.lock == Some(a.i);
      if i != a.i || Outside(a) {
        OthersStand(s, a, i);
      }
    }
  }

  /** A calm step never silences the fixed path, and only a start or an adoption by a login
      in its section makes it answer. */
  lemma AnswersOnlyGrows(s: State, a: Action)
    requires Inv(s) && Enabled(s, a) && Calm(a)
    ensures Answers(s) ==> Answers(Next(s, a))
    ensures !Answers(s) && Answers(Next(s, a)) ==>
              (a.Bind? || a.Adopt?) && a.works && PastReprobe(PhaseOf(s, a.i))
    ensures s.live <= Next(s, a).live
    ensures !Next(s, a).disturbed
  {
    assert PastReprobe(PhaseOf(s, a.i)) ==> !Answers(s);
  }

  lemma KeepsQuiet(s: State, a: Action)
    requires Inv(s) && Enabled(s, a) && Calm(a)
    ensures Quiet(Next(s, a))
  {
    var next := Next(s, a);
    AnswersOnlyGrows(s, a);
    forall i: Login | PastReprobe(PhaseOf(next, i))
      ensures !Answers(next) && (PhaseOf(next, i).Adopting? ==> PhaseOf(next, i).target in next.live)
    {
      assert InSection(PhaseOf(s, i)) <==> s.lock == Some(i);
      assert InSection(PhaseOf(s, a.i)) <==> s.lock == Some(a.i);
      assert PastReprobe(PhaseOf(s, i)) ==> !Answers(s);
      if i != a.i || Outside(a) {
        OthersStand(s, a, i);
      }
    }
  }

  lemma KeepsSettled(s: State, a: Action)
    requires Inv(s) && Enabled(s, a) && Calm(a)
    ensures Settled(Next(s, a))
  {
    var next := Next(s, a);
    AnswersOnlyGrows(s, a);
    assert PastReprobe(PhaseOf(s, a.i)) ==>
             !Answers(s) && (PhaseOf(s, a.i).Adopting? ==> PhaseOf(s, a.i).target in s.live);
    forall i: Login | Succeeded(PhaseOf(next, i))
      ensures Answers(next)
    {
      assert Succeeded(PhaseOf(s, i)) ==> Answers(s);
      if i != a.i || Outside(a) {
        OthersStand(s, a, i);
      }
    }
  }

  lemma {:induction false} RunKeepsInv(s: State, actions: seq<Action>)
    requires Inv(s) && AllCalm(actions) && Run(s, actions).Some?
    ensures Inv(Run(s, actions).value)
    decreases |actions|
  {
    if actions != [] {
      assert Calm(actions[0]);
      KeepsExclusive(s, actions[0]);
      KeepsQuiet(s, actions[0]);
      KeepsSettled(s, actions[0]);
      RunKeepsInv(Next(s, actions[0]), actions[1..]);
    }
  }

  // ------------------------------------------------------------- main results

  /** However many logins run and however they interleave: at most one starts or adopts,
      no step takes an answering path away, and every login that succeeded leaves the fixed
      path answering. */
  lemma LoginsAreSafe(node: Node, live: set<Path>, actions: seq<Action>)
    requires AllCalm(actions) && Run(Initial(node, live), actions).Some?
    ensures var s := Run(Initial(node, live), actions).value;
            && |s.mutations| <= 1
            && !s.disturbed
            && (forall i: Login :: Succeeded(PhaseOf(s, i)) ==> Answers(s))
            && (forall i: Login :: PastReprobe(PhaseOf(s, i)) ==> !Answers(s))
  {
    RunKeepsInv(Initial(node, live), actions);
  }

  /** No wait for the lock runs out; agents may die as they like. */
  predicate NoneExpires(actions: seq<Action>) {
    forall k :: 0 <= k < |actions| ==> !actions[k].Expire?
  }

  ghost predicate Silent(s: State) {
    forall i: Login :: PastReprobe(PhaseOf(s, i)) ==> !Answers(s)
  }

  lemma KeepsSilent(s: State, a: Action)
    requires Exclusive(s) && Silent(s) && !s.disturbed && Enabled(s, a) && !a.Expire?
    ensures Silent(Next(s, a)) && !Next(s, a).disturbed
  {
    var next := Next(s, a);
    assert InSection(PhaseOf(s, a.i)) <==> s.lock == Some(a.i);
    assert PastReprobe(PhaseOf(s, a.i)) ==> !Answers(s);
    forall i: Login | PastReprobe(PhaseOf(next, i))
      ensures !Answers(next)
    {
      assert InSection(PhaseOf(s, i)) <==> s.lock == Some(i);
      assert PastReprobe(PhaseOf(s, i)) ==> !Answers(s);
      if i != a.i || Outside(a) {
        OthersStand(s, a, i);
      }
    }
  }

  lemma {:induction false} RunKeepsSilent(s: State, actions: seq<Action>)
    requires Exclusive(s) && Silent(s) && !s.disturbed && NoneExpires(actions) && Run(s, actions).Some?
    ensures var end := Run(s, actions).value;
            Exclusive(end) && Silent(end) && !end.disturbed
    decreases |actions|
  {
    if actions != [] {
      KeepsExclusive(s, actions[0]);
      KeepsSilent(s, actions[0]);
      RunKeepsSilent(Next(s, actions[0]), actions[1..]);
    }
  }

  /** Whichever agents die, as long as no wait runs out: one login at a time is past the lock, it
      finds the fixed path silent from its second probe until it acts, and nobody ever takes an
      answering path away. */
  lemma UndisturbedWhoeverDies(node: Node, live: set<Path>, actions: seq<Action>)
    requires NoneExpires(actions) && Run(Initial(node, live), actions).Some?
    ensures var s := Run(Initial(node, live), actions).value;
            && !s.disturbed
            && (forall i: Login :: InSection(PhaseOf(s, i)) <==> s.lock == Some(i))
            && (forall i: Login :: PastReprobe(PhaseOf(s, i)) ==> !Answers(s))
  {
    RunKeepsSilent(Initial(node, live), actions);
  }

  lemma {:induction false} AnsweringIsLeftAlone(s: State, actions: seq<Action>)
    requires Inv(s) && Answers(s) && AllCalm(actions) && Run(s, actions).Some?
    ensures var end := Run(s, actions).value;
            end.node == s.node && end.mutations == s.mutations && Answers(end)
    decreases |actions|
  {
    if actions != [] {
      var a := actions[0];
      assert Calm(a);
      assert PastReprobe(PhaseOf(s, a.i)) ==> !Answers(s);
      AnswersOnlyGrows(s, a);
      KeepsExclusive(s, a);
      KeepsQuiet(s, a);
      KeepsSettled(s, a);
      AnsweringIsLeftAlone(Next(s, a), actions[1..]);
    }
  }

  /** On a fixed path silent at first, it answers exactly once somebody started or adopted:
      a login that succeeds owes it to the one that did. */
  lemma {:induction false} AnswersOnceMutated(s: State, actions: seq<Action>)
    requires Inv(s) && AllCalm(actions) && Run(s, actions).Some?
    requires Answers(s) <==> s.mutations != []
    ensures var end := Run(s, actions).value;
            Answers(end) <==> end.mutations != []
    decreases |actions|
  {
    if actions != [] {
      var a := actions[0];
      assert Calm(a);
      AnswersOnlyGrows(s, a);
      KeepsExclusive(s, a);
      KeepsQuiet(s, a);
      KeepsSettled(s, a);
      AnswersOnceMutated(Next(s, a), actions[1..]);
    }
  }

  lemma OneStep(s: State, actions: seq<Action>)
    requires actions != [] && Enabled(s, actions[0])
    ensures Run(s, actions) == Run(Next(s, actions[0]), actions[1..])
  {
  }

  lemma {:induction false} RunConcat(s: State, a: seq<Action>, b: seq<Action>)
    requires Run(s, a).Some?
    ensures Run(s, a + b) == Run(Run(s, a).value, b)
    decreases |a|
  {
    if a == [] {
      assert a + b == b;
    } else {
      assert (a + b)[0] == a[0] && (a + b)[1..] == a[1..] + b;
      RunConcat(Next(s, a[0]), a[1..], b);
    }
  }

  // ---------------------------------------------------- what a whole run comes to

  /** A run is its front and one more step. */
  lemma RunFront(s: State, actions: seq<Action>)
    requires actions != [] && Run(s, actions).Some?
    ensures var front, last := actions[..|actions| - 1], actions[|actions| - 1];
            && Run(s, front).Some? && Enabled(Run(s, front).value, last)
            && Run(s, actions) == Some(Next(Run(s, front).value, last))
  {
    var front, last := actions[..|actions| - 1], actions[|actions| - 1];
    RunPrefix(s, actions, |actions| - 1);
    assert actions[|actions| - 1..] == [last];
    OneStepRun(Run(s, front).value, last);
  }

  lemma OneStepRun(s: State, a: Action)
    ensures Run(s, [a]) == if Enabled(s, a) then Some(Next(s, a)) else None
  {
    assert [a][1..] == [];
  }

  lemma {:induction false} RunPrefix(s: State, actions: seq<Action>, n: nat)
    requires n <= |actions| && Run(s, actions).Some?
    ensures Run(s, actions[..n]).Some? && Run(Run(s, actions[..n]).value, actions[n..]) == Run(s, actions)
    decreases n
  {
    if n > 0 {
      RunPrefix(Next(s, actions[0]), actions[1..], n - 1);
      assert actions[..n][0] == actions[0] && actions[..n][1..] == actions[1..][..n - 1];
      assert actions[1..][n - 1..] == actions[n..];
    } else {
      assert actions[0..] == actions;
    }
  }

  /** A login's own last step. */
  function LastOf(actions: seq<Action>, i: Login): Option<Action> {
    if actions == [] then None
    else
      var last := actions[|actions| - 1];
      if last.i == i && !Outside(last) then Some(last) else LastOf(actions[..|actions| - 1], i)
  }

  /** Where a step leaves the login that takes it. Only the two probes may find it done. */
  ghost predicate LeftBy(last: Option<Action>, p: Phase) {
    match last
    case None => p.Fresh?
    case Some(a) =>
      match a
      case Probe(_) => p.Waiting? || p == Done(Attached)
      case Lock(_) => p.Entered?
      case Expire(_) => p.Entered?
      case Reprobe(_) => p.Reaping? || p == Done(Attached)
      case ReapProbe(_) => p.Condemned?
      case ReapUnlink(_) => p.Reaping?
      case Survey(_, found) => p == if found == [] then Clearing else Adopting(found[0])
      case Clear(_, _) => p.Starting?
      case StartProbe(_) => p.Unlinking?
      case StartUnlink(_, _) => p.Binding?
      case Bind(_, works, recorded) => p == Done(if works && recorded then Started else Failed)
      case Adopt(_, works) => p == Done(if works then Adopted else Failed)
      case _ => p == Done(Failed)
  }

  /** Where every login stands in a calm run, told from its own last step alone. */
  lemma {:induction false} StandsByLastStep(node: Node, live: set<Path>, actions: seq<Action>, i: Login)
    requires AllCalm(actions) && Run(Initial(node, live), actions).Some?
    ensures LeftBy(LastOf(actions, i), PhaseOf(Run(Initial(node, live), actions).value, i))
    decreases |actions|
  {
    if actions != [] {
      var front, last := actions[..|actions| - 1], actions[|actions| - 1];
      RunFront(Initial(node, live), actions);
      var s := Run(Initial(node, live), front).value;
      StandsByLastStep(node, live, front, i);
      RunKeepsInv(Initial(node, live), front);
      assert PastReprobe(PhaseOf(s, last.i)) ==> !Answers(s);
      if last.i != i || Outside(last) {
        OthersStand(s, last, i);
      } else {
        StepLeaves(s, last);
      }
    }
  }

  lemma StepLeaves(s: State, a: Action)
    requires Enabled(s, a) && Calm(a) && !Outside(a) && (PastReprobe(PhaseOf(s, a.i)) ==> !Answers(s))
    ensures LeftBy(Some(a), PhaseOf(Next(s, a), a.i))
  {
  }

  /** A probe, the first or the one under the lock, that finds the path answering ends its login
      attached with nothing changed; one that finds it silent does not end it. Of every run. */
  lemma AttachesExactly(s: State, a: Action)
    requires Enabled(s, a) && (a.Probe? || a.Reprobe?)
    ensures PhaseOf(Next(s, a), a.i) == Done(Attached) <==> Answers(s)
    ensures !Answers(s) ==> PhaseOf(Next(s, a), a.i) == if a.Probe? then Waiting else Reaping
    ensures var next := Next(s, a); next.node == s.node && next.live == s.live && next.mutations == s.mutations
  {
  }

  lemma {:induction false} DoneStays(s: State, actions: seq<Action>, i: Login)
    requires PhaseOf(s, i).Done? && Run(s, actions).Some?
    ensures PhaseOf(Run(s, actions).value, i) == PhaseOf(s, i)
    decreases |actions|
  {
    if actions != [] {
      var a := actions[0];
      if a.i != i || Outside(a) {
        OthersStand(s, a, i);
      }
      DoneStays(Next(s, a), actions[1..], i);
    }
  }

  /** What a login is to adopt is the first agent of the one survey it made. */
  lemma {:induction false} TargetIsSurveyed(node: Node, live: set<Path>, actions: seq<Action>, i: Login)
    requires Run(Initial(node, live), actions).Some?
    ensures var p := PhaseOf(Run(Initial(node, live), actions).value, i);
            && (p.Fresh? || p.Waiting? || p.Entered? || p.Reaping? || p.Condemned? ==>
                 forall a <- actions :: !(a.Survey? && a.i == i))
            && (p.Adopting? ==>
                 && (forall a <- actions :: a.Survey? && a.i == i ==> a.found != [] && a.found[0] == p.target)
                 && exists a :: a in actions && a.Survey? && a.i == i)
    decreases |actions|
  {
    if actions != [] {
      var front, last := actions[..|actions| - 1], actions[|actions| - 1];
      RunFront(Initial(node, live), actions);
      TargetIsSurveyed(node, live, front, i);
      var s := Run(Initial(node, live), front).value;
      assert actions == front + [last];
      assert forall a <- front :: a in actions;
      assert last in actions;
      if last.i != i || Outside(last) {
        OthersStand(s, last, i);
      }
    }
  }

  /** A calm run in which a login's adoption or start takes hold at step `k`: nobody had changed
      the path before, and what it put there is there to the end. */
  lemma ChangeHolds(node: Node, live: set<Path>, actions: seq<Action>, k: nat)
    requires AllCalm(actions) && Run(Initial(node, live), actions).Some?
    requires k < |actions| && (actions[k].Adopt? || actions[k].Bind?) && actions[k].works
    ensures Run(Initial(node, live), actions[..k]).Some?
    ensures var before := Run(Initial(node, live), actions[..k]).value;
            var end, a := Run(Initial(node, live), actions).value, actions[k];
            && Answers(end) && end.mutations == [a.i]
            && PhaseOf(end, a.i).Done?
            && PhaseOf(end, a.i).ending == (if a.Adopt? then Adopted else if a.recorded then Started else Failed)
            && (a.Adopt? ==> PhaseOf(before, a.i).Adopting? && end.node == Link(PhaseOf(before, a.i).target))
            && (a.Bind? ==> end.node == Socket(true))
  {
    hide Next, Enabled, Inv;
    var start, a := Initial(node, live), actions[k];
    RunPrefix(start, actions, k);
    var s := Run(start, actions[..k]).value;
    RunKeepsInv(start, actions[..k]);
    assert Calm(a) && actions[k..][0] == a && actions[k..][1..] == actions[k + 1..];
    ChangeStep(s, a);
    assert AllCalm(actions[k + 1..]);
    AnsweringIsLeftAlone(Next(s, a), actions[k + 1..]);
    DoneStays(Next(s, a), actions[k + 1..], a.i);
  }

  lemma ChangeStep(s: State, a: Action)
    requires Inv(s) && Enabled(s, a) && (a.Adopt? || a.Bind?) && a.works
    ensures var next, p := Next(s, a), PhaseOf(s, a.i);
            && Inv(next) && Answers(next) && next.mutations == [a.i]
            && PhaseOf(next, a.i) == Done(if a.Adopt? then Adopted else if a.recorded then Started else Failed)
            && (a.Adopt? ==> p.Adopting? && next.node == Link(p.target))
            && (a.Bind? ==> next.node == Socket(true))
  {
    assert PastReprobe(PhaseOf(s, a.i)) ==>
             !Answers(s) && (PhaseOf(s, a.i).Adopting? ==> PhaseOf(s, a.i).target in s.live);
    KeepsExclusive(s, a);
    KeepsQuiet(s, a);
    KeepsSettled(s, a);
  }

  /** An adoption that works is kept: its login ends adopted and alone in having changed anything,
      the path answers, and it is a link to the first agent of that login's survey. */
  lemma AdoptionHolds(node: Node, live: set<Path>, actions: seq<Action>, i: Login)
    requires AllCalm(actions) && Run(Initial(node, live), actions).Some? && Adopt(i, true) in actions
    ensures var end := Run(Initial(node, live), actions).value;
            && PhaseOf(end, i) == Done(Adopted) && end.mutations == [i] && Answers(end)
            && (exists a :: a in actions && a.Survey? && a.i == i)
            && (forall a <- actions :: a.Survey? && a.i == i ==> a.found != [] && end.node == Link(a.found[0]))
  {
    var k :| 0 <= k < |actions| && actions[k] == Adopt(i, true);
    ChangeHolds(node, live, actions, k);
    TargetIsSurveyed(node, live, actions[..k], i);
    var s := Run(Initial(node, live), actions[..k]).value;
    RunPrefix(Initial(node, live), actions, k);
    var rest := actions[k..];
    assert rest[0] == actions[k];
    NoSurveyOnceAdopting(s, rest, i);
    assert actions == actions[..k] + rest;
  }

  lemma {:induction false} NoSurveyOnceAdopting(s: State, actions: seq<Action>, i: Login)
    requires Run(s, actions).Some? && (PhaseOf(s, i).Adopting? || PhaseOf(s, i).Done?)
    ensures forall a <- actions :: !(a.Survey? && a.i == i)
    decreases |actions|
  {
    if actions != [] {
      var a := actions[0];
      if a.i != i || Outside(a) {
        OthersStand(s, a, i);
      }
      NoSurveyOnceAdopting(Next(s, a), actions[1..], i);
      assert actions == [a] + actions[1..];
    }
  }

  /** A start that works is kept: the path is a live socket, and its login ends started if its
      state was recorded too, and failed, with the agent running all the same, if not. */
  lemma StartHolds(node: Node, live: set<Path>, actions: seq<Action>, i: Login, recorded: bool)
    requires AllCalm(actions) && Run(Initial(node, live), actions).Some? && Bind(i, true, recorded) in actions
    ensures var end := Run(Initial(node, live), actions).value;
            && PhaseOf(end, i) == Done(if recorded then Started else Failed)
            && end.mutations == [i] && end.node == Socket(true) && Answers(end)
  {
    var k :| 0 <= k < |actions| && actions[k] == Bind(i, true, recorded);
    ChangeHolds(node, live, actions, k);
  }

  /** Some step that takes a dead socket away, or a dead link. */
  predicate Clears(a: Action, node: Node) {
    match node
    case Socket(_) => a.ReapUnlink? || ((a.Clear? || a.StartUnlink?) && a.works)
    case Link(_) => a.Clear? && a.works
    case _ => false
  }

  predicate Changes(a: Action) {
    (a.Adopt? || a.Bind?) && a.works
  }

  /** Until somebody starts or adopts, the fixed path holds what was there, or nothing once a
      login has cleared it; other files are never taken away. The live agents are those there
      were and those that appeared. */
  lemma {:induction false} UntilSomebodyActs(node: Node, live: set<Path>, actions: seq<Action>)
    requires AllCalm(actions) && Run(Initial(node, live), actions).Some?
    requires forall a <- actions :: !Changes(a)
    ensures var end := Run(Initial(node, live), actions).value;
            && end.mutations == []
            && end.node == (if exists a :: a in actions && Clears(a, node) then Absent else node)
    decreases |actions|
  {
    hide Next, Enabled;
    if actions != [] {
      var front, last := actions[..|actions| - 1], actions[|actions| - 1];
      RunFront(Initial(node, live), actions);
      assert actions == front + [last];
      assert forall a <- front :: a in actions;
      UntilSomebodyActs(node, live, front);
      assert last in actions;
      assert (exists a :: a in actions && Clears(a, node)) <==> (exists a :: a in front && Clears(a, node)) || Clears(last, node);
      StepClears(Run(Initial(node, live), front).value, last);
    }
  }

  lemma StepClears(s: State, a: Action)
    requires Enabled(s, a) && Calm(a) && !Changes(a)
    ensures Next(s, a).mutations == s.mutations
    ensures Next(s, a).node == if Clears(a, s.node) then Absent else s.node
  {
  }

  lemma {:induction false} LiveAreThose(node: Node, live: set<Path>, actions: seq<Action>)
    requires AllCalm(actions) && Run(Initial(node, live), actions).Some?
    ensures forall p :: p in Run(Initial(node, live), actions).value.live <==>
                          p in live || exists a :: a in actions && a.AgentsAppear? && p in a.live
    decreases |actions|
  {
    if actions != [] {
      var front, last := actions[..|actions| - 1], actions[|actions| - 1];
      RunFront(Initial(node, live), actions);
      assert actions == front + [last];
      LiveAreThose(node, live, front);
      var s := Run(Initial(node, live), front).value;
      forall p
        ensures p in Next(s, last).live <==> p in live || exists a :: a in actions && a.AgentsAppear? && p in a.live
      {
        assert forall a :: a in actions <==> a in front || a == last;
      }
    }
  }

  /** What a death does: the path it stood behind answers no more. */
  lemma DeathsSilence(s: State, a: Action)
    requires Enabled(s, a)
    ensures a.FixedAgentDies? ==> !Answers(Next(s, a))
    ensures a.AgentDies? && s.node == Link(a.path) ==> !Answers(Next(s, a))
  {
  }

  /** A login running through to the point where it would clear the path: with the lock, or
      after its wait for it ran out. */
  function UpToClearing(i: Login, expired: bool): seq<Action> {
    [Probe(i), if expired then Expire(i) else Lock(i), Reprobe(i), Survey(i, [])]
  }

  function StartSteps(i: Login): seq<Action> {
    [Clear(i, true), StartProbe(i), StartUnlink(i, true), Bind(i, true, true)]
  }

  lemma ReachesClearing(s: State, i: Login, expired: bool)
    requires PhaseOf(s, i).Fresh? && s.node.Absent? && (if expired then s.lock.Some? else s.lock.None?)
    ensures Run(s, UpToClearing(i, expired))
         == Some(Move(if expired then s else s.(lock := Some(i)), i, Clearing))
  {
    var actions := UpToClearing(i, expired);
    var s1 := Next(s, actions[0]);
    var s2 := Next(s1, actions[1]);
    var s3 := Next(s2, actions[2]);
    var s4 := Next(s3, actions[3]);
    OneStep(s, actions);
    OneStep(s1, actions[1..]);
    OneStep(s2, actions[2..]);
    OneStep(s3, actions[3..]);
    assert actions[3..][1..] == [];
    assert s4 == Move(if expired then s else s.(lock := Some(i)), i, Clearing);
  }

  lemma Starts(s: State, i: Login)
    requires PhaseOf(s, i).Clearing? && (s.node.Absent? || s.node.Socket?)
    ensures var end := Run(s, StartSteps(i));
            && end.Some?
            && end.value.node == Socket(true)
            && end.value.mutations == s.mutations + [i]
            && end.value.disturbed == (s.disturbed || Answers(s))
            && PhaseOf(end.value, i) == Done(Started)
            && (forall j: Login :: j != i ==> PhaseOf(end.value, j) == PhaseOf(s, j))
  {
    hide Next, Run;
    var actions := StartSteps(i);
    ClearsThePath(s, i);
    var s1 := Next(s, actions[0]);
    var s2 := Next(s1, actions[1]);
    BindsThePath(s2, i);
    var s3 := Next(s2, actions[2]);
    OneStep(s, actions);
    OneStep(s1, actions[1..]);
    OneStep(s2, actions[2..]);
    OneStep(s3, actions[3..]);
    OneStepRun(s3, actions[3]);
    assert actions[3..] == [actions[3]];
  }

  lemma ClearsThePath(s: State, i: Login)
    requires PhaseOf(s, i).Clearing? && (s.node.Absent? || s.node.Socket?)
    ensures var s1 := Next(s, Clear(i, true));
            var s2 := Next(s1, StartProbe(i));
            && PhaseOf(s1, i).Starting? && PhaseOf(s2, i).Unlinking? && s2.node.Absent?
            && s2.mutations == s.mutations && s2.disturbed == (s.disturbed || Answers(s))
            && (forall j: Login :: j != i ==> PhaseOf(s2, j) == PhaseOf(s, j))
  {
    assert Next(s, Clear(i, true)).node.Absent?;
  }

  lemma BindsThePath(s: State, i: Login)
    requires PhaseOf(s, i).Unlinking? && s.node.Absent?
    ensures var s1 := Next(s, StartUnlink(i, true));
            var s2 := Next(s1, Bind(i, true, true));
            && PhaseOf(s1, i).Binding? && s1.node.Absent? && s2.node == Socket(true)
            && s2.mutations == s.mutations + [i] && s2.disturbed == s.disturbed && PhaseOf(s2, i) == Done(Started)
            && (forall j: Login :: j != i ==> PhaseOf(s2, j) == PhaseOf(s, j))
  {
  }

  function Entering(i: Login): seq<Action> {
    [Probe(i), Lock(i), Reprobe(i)]
  }

  function ReapSteps(i: Login): seq<Action> {
    [ReapProbe(i), ReapUnlink(i)]
  }

  function AdoptSteps(i: Login, found: seq<Path>): seq<Action> {
    [Survey(i, found), Adopt(i, true)]
  }

  lemma Enters(s: State, i: Login)
    requires PhaseOf(s, i).Fresh? && s.lock.None? && !Answers(s)
    ensures Run(s, Entering(i)) == Some(Move(s.(lock := Some(i)), i, Reaping))
  {
    var actions := Entering(i);
    var s1 := Next(s, actions[0]);
    var s2 := Next(s1, actions[1]);
    var s3 := Next(s2, actions[2]);
    OneStep(s, actions);
    OneStep(s1, actions[1..]);
    OneStep(s2, actions[2..]);
    assert actions[2..][1..] == [];
    assert s3 == Move(s.(lock := Some(i)), i, Reaping);
  }

  /** Reaping takes a dead socket away, and nothing else. */
  lemma Reaps(s: State, i: Login)
    requires PhaseOf(s, i).Reaping? && !Answers(s)
    ensures Run(s, ReapSteps(i)) ==
            Some(Move(s.(node := if s.node.Socket? then Absent else s.node), i, Reaping))
  {
    var actions := ReapSteps(i);
    var s1 := Move(s, i, Condemned);
    OneStep(s, actions);
    OneStep(s1, actions[1..]);
    assert actions[1..][1..] == [];
    Unlinks(s, i);
  }

  lemma Unlinks(s: State, i: Login)
    requires !Answers(s)
    ensures Next(Move(s, i, Condemned), ReapUnlink(i)) ==
            Move(s.(node := if s.node.Socket? then Absent else s.node), i, Reaping)
  {
    assert s.phases[i := Condemned][i := Reaping] == s.phases[i := Reaping];
  }

  lemma Adopts(s: State, i: Login, found: seq<Path>)
    requires PhaseOf(s, i).Reaping? && s.lock == Some(i) && !Answers(s)
    requires found != [] && forall p <- found :: p in s.live
    ensures var end := Run(s, AdoptSteps(i, found));
            && end.Some? && end.value.node == Link(found[0]) && PhaseOf(end.value, i) == Done(Adopted)
            && end.value.lock.None? && end.value.mutations == s.mutations + [i] && end.value.disturbed == s.disturbed
  {
    var actions := AdoptSteps(i, found);
    var s1 := Next(s, actions[0]);
    OneStep(s, actions);
    OneStep(s1, actions[1..]);
    assert actions[1..][1..] == [];
    AdoptingStep(s1, i);
  }

  /** A login with nobody in its way adopts the first agent it finds, from any state with the path
      silent and the lock free. */
  lemma AloneItAdopts(s: State, i: Login, found: seq<Path>)
    requires PhaseOf(s, i).Fresh? && s.lock.None? && !Answers(s)
    requires found != [] && forall p <- found :: p in s.live
    ensures var end := Run(s, Entering(i) + ReapSteps(i) + AdoptSteps(i, found));
            && end.Some? && end.value.node == Link(found[0]) && PhaseOf(end.value, i) == Done(Adopted)
            && end.value.lock.None? && end.value.mutations == s.mutations + [i] && end.value.disturbed == s.disturbed
  {
    hide Next, Run, Enabled;
    Enters(s, i);
    var s1 := Run(s, Entering(i)).value;
    Reaps(s1, i);
    RunConcat(s, Entering(i), ReapSteps(i));
    Adopts(Run(s1, ReapSteps(i)).value, i, found);
    RunConcat(s, Entering(i) + ReapSteps(i), AdoptSteps(i, found));
  }

  lemma AdoptingStep(s: State, i: Login)
    requires PhaseOf(s, i).Adopting?
    ensures var end := Next(s, Adopt(i, true));
            && end.node == Link(PhaseOf(s, i).target) && PhaseOf(end, i) == Done(Adopted)
            && end.lock == (if s.lock == Some(i) then None else s.lock)
            && end.mutations == s.mutations + [i] && end.disturbed == (s.disturbed || Answers(s))
  {
  }

  /** Two logins of which the second stops waiting for the lock: both reach the point of
      clearing the path, the first starts its agent, and the second then unlinks that live
      socket and starts another. */
  function ExpiredTrace(): seq<Action> {
    UpToClearing(0, false) + UpToClearing(1, true) + StartSteps(0) + StartSteps(1)
  }

  /** One expired wait is enough to lose all of it, on an empty landscape. */
  lemma ExpiredWaitBreaksIt(live: set<Path>)
    ensures var end := Run(Initial(Absent, live), ExpiredTrace());
            && end.Some?
            && end.value.mutations == [0, 1]
            && end.value.disturbed
            && PhaseOf(end.value, 0) == PhaseOf(end.value, 1) == Done(Started)
  {
    hide Next, UpToClearing, StartSteps;
    var s := Initial(Absent, live);
    var first, second := UpToClearing(0, false), UpToClearing(1, true);
    ReachesClearing(s, 0, false);
    var s1 := Run(s, first).value;
    ReachesClearing(s1, 1, true);
    RunConcat(s, first, second);
    var s2 := Run(s1, second).value;
    Starts(s2, 0);
    RunConcat(s, first + second, StartSteps(0));
    var s3 := Run(s2, StartSteps(0)).value;
    Starts(s3, 1);
    RunConcat(s, first + second + StartSteps(0), StartSteps(1));
  }
}
