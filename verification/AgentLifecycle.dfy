/** One login driving the fixed socket to a healthy agent with nobody in its way: reaping
    what is dead, then starting an agent or adopting one. The process table, what answers,
    and what the system refuses to do are arbitrary. */
module AgentLifecycle {
  import opened Wrappers
  import opened LockQueue

  type Path = string

  /** What a path holds: a socket, a symlink, or a file or directory of another kind. */
  datatype Node = SocketFile | SymLink(target: Path) | Other

  /** One ssh-agent process as the process table shows it; an unreadable owner is -1, an
      agent without a socket of its own has the empty path. */
  datatype Proc = Proc(pid: int, uid: int, socket: Path)

  /** The paths, and those of them an agent is listening behind. */
  datatype Scene = Scene(disk: map<Path, Node>, listening: set<Path>)

  /** Everything the run asks the system for: the lock, the process table at the reap and at
      the survey, which signals and removals succeed, the pid a started agent announces,
      whether its state is recorded and whether the symlink swap works. */
  datatype World = World(tries: nat -> Try, patience: nat, first: Option<seq<Proc>>,
                         second: Option<seq<Proc>>, killable: set<int>, removable: set<Path>,
                         spawned: Option<int>, recorded: bool, swaps: bool)

  datatype Situation = Healthy | Clean | Zombie | Foreign | Disaster

  datatype Report = Report(situation: Situation, started: Option<int>, adopted: Option<Proc>,
                           terminated: seq<int>, removed: seq<Path>)

  predicate Listens(scene: Scene, p: Path) {
    p in scene.disk && scene.disk[p].SocketFile? && p in scene.listening
  }

  /** How many symlinks the system follows before it refuses a path. */
  const MAX_LINKS: nat := 40

  /** A usable agent answers at `p`, through at most `links` symlinks. */
  predicate Reaches(scene: Scene, p: Path, links: nat)
    decreases links
  {
    || Listens(scene, p)
    || (links > 0 && p in scene.disk && scene.disk[p].SymLink? && Reaches(scene, scene.disk[p].target, links - 1))
  }

  predicate Reachable(scene: Scene, p: Path) {
    Reaches(scene, p, MAX_LINKS)
  }

  predicate Ours(p: Proc, uid: int) {
    p.uid == uid
  }

  /** A process to reap: ours, bound to a socket, and not answering there. */
  predicate Condemned(scene: Scene, uid: int, p: Proc) {
    p.socket != "" && !Reachable(scene, p.socket) && Ours(p, uid)
  }

  /** A process that could be adopted: ours, answering, and not on the fixed socket. */
  predicate Adoptable(scene: Scene, uid: int, fixed: Path, p: Proc) {
    p.socket != "" && p.socket != fixed && Ours(p, uid) && Reachable(scene, p.socket)
  }

  function AdoptableOf(scene: Scene, uid: int, fixed: Path, procs: seq<Proc>): seq<Proc> {
    if procs == [] then []
    else
      var before := AdoptableOf(scene, uid, fixed, procs[..|procs| - 1]);
      var last := procs[|procs| - 1];
      if Adoptable(scene, uid, fixed, last) then before + [last] else before
  }

  predicate IsStale(scene: Scene, p: Path) {
    p in scene.disk && !scene.disk[p].Other?
  }

  function Remove(scene: Scene, p: Path): Scene {
    scene.(disk := scene.disk - {p})
  }

  /** What reaping has done so far. */
  datatype Reaping = Reaping(scene: Scene, terminated: seq<int>, removed: seq<Path>)

  /** removeSocket finds something to unlink and may. */
  predicate Unlinks(scene: Scene, world: World, p: Path) {
    p in scene.disk && scene.disk[p].SocketFile? && p in world.removable
  }

  function ReapOne(r: Reaping, world: World, uid: int, p: Proc): Reaping {
    if !Condemned(r.scene, uid, p) then r
    else
      var signalled := if p.pid in world.killable then r.(terminated := r.terminated + [p.pid]) else r;
      if Unlinks(r.scene, world, p.socket) then
        signalled.(scene := Remove(r.scene, p.socket), removed := r.removed + [p.socket])
      else signalled
  }

  function ReapAll(r: Reaping, world: World, uid: int, procs: seq<Proc>): Reaping {
    if procs == [] then r
    else ReapOne(ReapAll(r, world, uid, procs[..|procs| - 1]), world, uid, procs[|procs| - 1])
  }

  lemma {:induction false} MoreLinksReachMore(scene: Scene, p: Path, few: nat, many: nat)
    requires few <= many && Reaches(scene, p, few)
    ensures Reaches(scene, p, many)
    decreases few
  {
    if !Listens(scene, p) {
      MoreLinksReachMore(scene, scene.disk[p].target, few - 1, many - 1);
    }
  }

  /** What answers does so without a path that does not, and so whatever that path holds. */
  lemma {:induction false} SilenceIsOnNoWay(scene: Scene, other: Scene, p: Path, q: Path, links: nat)
    requires links <= MAX_LINKS && !Reachable(scene, p)
    requires other.disk - {p} == scene.disk - {p} && scene.listening <= other.listening
    requires Reaches(scene, q, links)
    ensures Reaches(other, q, links)
    decreases links
  {
    if q == p {
      MoreLinksReachMore(scene, p, links, MAX_LINKS);
    } else {
      assert q in (scene.disk - {p}) && (scene.disk - {p})[q] == scene.disk[q];
      assert q in (other.disk - {p}) && (other.disk - {p})[q] == other.disk[q];
      if !Listens(scene, q) {
        SilenceIsOnNoWay(scene, other, p, scene.disk[q].target, links - 1);
      }
    }
  }

  /** Taking a path away that does not answer changes what answers nowhere. */
  lemma RemovingSilence(scene: Scene, p: Path)
    requires !Reachable(scene, p)
    ensures forall q :: Reachable(Remove(scene, p), q) <==> Reachable(scene, q)
  {
    var without := Remove(scene, p);
    assert without.disk - {p} == scene.disk - {p};
    assert !Listens(without, p) && !Reachable(without, p);
    forall q
      ensures Reachable(without, q) <==> Reachable(scene, q)
    {
      if Reachable(scene, q) {
        SilenceIsOnNoWay(scene, without, p, q, MAX_LINKS);
      }
      if Reachable(without, q) {
        SilenceIsOnNoWay(without, scene, p, q, MAX_LINKS);
      }
    }
  }

  /** Pointing a silent path at another makes it answer exactly when the other does with a
      symlink to spare. */
  lemma LinkAnswers(scene: Scene, p: Path, target: Path)
    requires !Reachable(scene, p)
    ensures var linked := scene.(disk := scene.disk[p := SymLink(target)]);
            Reachable(linked, p) <==> Reaches(linked, target, MAX_LINKS - 1)
    ensures var linked := scene.(disk := scene.disk[p := SymLink(target)]);
            Reaches(scene, target, MAX_LINKS - 1) ==> Reaches(linked, target, MAX_LINKS - 1)
  {
    var linked := scene.(disk := scene.disk[p := SymLink(target)]);
    assert linked.disk - {p} == scene.disk - {p};
    if Reaches(scene, target, MAX_LINKS - 1) {
      SilenceIsOnNoWay(scene, linked, p, target, MAX_LINKS - 1);
    }
  }

  /** What a reap comes to: it signals exactly the condemned it may, unlinks exactly the
      sockets of the condemned it may, and changes nothing else. */
  lemma {:induction false} ReapIsExact(scene: Scene, world: World, uid: int, procs: seq<Proc>)
    ensures var r := ReapAll(Reaping(scene, [], []), world, uid, procs);
            && (forall q :: Reachable(r.scene, q) <==> Reachable(scene, q))
            && r.scene.listening == scene.listening
            && (forall q :: q in r.removed <==>
                 exists p :: p in procs && p.socket == q && Condemned(scene, uid, p) && Unlinks(scene, world, q))
            && r.scene.disk == scene.disk - (set q | q in r.removed)
            && (forall pid :: pid in r.terminated <==>
                 exists p :: p in procs && p.pid == pid && Condemned(scene, uid, p) && pid in world.killable)
    decreases |procs|
  {
    if procs != [] {
      var before := procs[..|procs| - 1];
      var last := procs[|procs| - 1];
      assert procs == before + [last];
      ReapIsExact(scene, world, uid, before);
      var r := ReapAll(Reaping(scene, [], []), world, uid, before);
      if Condemned(r.scene, uid, last) && Unlinks(r.scene, world, last.socket) {
        RemovingSilence(r.scene, last.socket);
      }
      ReapStep(scene, r, world, uid, before, last);
    }
  }

  /** The same, of one process and in plain terms. */
  lemma ReapedAre(scene: Scene, world: World, uid: int, procs: seq<Proc>, p: Proc)
    requires p in procs && p.uid == uid && p.socket != "" && !Reachable(scene, p.socket)
    ensures var r := ReapAll(Reaping(scene, [], []), world, uid, procs);
            && (p.pid in world.killable ==> p.pid in r.terminated)
            && (p.socket in scene.disk && scene.disk[p.socket] == SocketFile && p.socket in world.removable ==>
                 p.socket in r.removed && p.socket !in r.scene.disk)
  {
    ReapIsExact(scene, world, uid, procs);
    assert Condemned(scene, uid, p);
  }

  /** Every path but the fixed one and those taken away is as it was. */
  ghost predicate SameElsewhere(before: Scene, after: Scene, fixed: Path, gone: seq<Path>) {
    forall q :: q != fixed && q !in gone ==>
      && (q in after.disk <==> q in before.disk)
      && (q in after.disk ==> after.disk[q] == before.disk[q])
  }

  lemma ReapedElsewhere(before: Scene, after: Scene, fixed: Path, removed: seq<Path>, gone: seq<Path>)
    requires after.disk == before.disk - (set q | q in removed)
    requires forall q :: q in removed ==> q in gone
    ensures SameElsewhere(before, after, fixed, gone)
  {
  }

  lemma ThenElsewhere(start: Scene, before: Scene, after: Scene, fixed: Path, gone: seq<Path>, more: seq<Path>)
    requires SameElsewhere(start, before, fixed, gone)
    requires forall q :: q in gone ==> q in more
    requires forall q :: q != fixed ==> (q in after.disk <==> q in before.disk)
    requires forall q :: q != fixed && q in after.disk ==> after.disk[q] == before.disk[q]
    ensures SameElsewhere(start, after, fixed, more)
  {
  }

  lemma ReapStep(scene: Scene, r: Reaping, world: World, uid: int, before: seq<Proc>, last: Proc)
    requires forall q :: Reachable(r.scene, q) <==> Reachable(scene, q)
    requires forall q :: q in r.removed <==>
               exists p :: p in before && p.socket == q && Condemned(scene, uid, p) && Unlinks(scene, world, q)
    requires r.scene.disk == scene.disk - (set q | q in r.removed)
    requires forall pid :: pid in r.terminated <==>
               exists p :: p in before && p.pid == pid && Condemned(scene, uid, p) && pid in world.killable
    ensures var next := ReapOne(r, world, uid, last);
            && (forall q :: q in next.removed <==>
                 exists p :: p in before + [last] && p.socket == q && Condemned(scene, uid, p) && Unlinks(scene, world, q))
            && next.scene.disk == scene.disk - (set q | q in next.removed)
            && (forall pid :: pid in next.terminated <==>
                 exists p :: p in before + [last] && p.pid == pid && Condemned(scene, uid, p) && pid in world.killable)
  {
  }

  lemma {:induction false} AdoptablesAre(scene: Scene, uid: int, fixed: Path, procs: seq<Proc>)
    ensures forall p :: p in AdoptableOf(scene, uid, fixed, procs) <==>
              p in procs && p.uid == uid && p.socket != "" && p.socket != fixed && Reachable(scene, p.socket)
    decreases |procs|
  {
    if procs != [] {
      AdoptablesAre(scene, uid, fixed, procs[..|procs| - 1]);
      assert procs == procs[..|procs| - 1] + [procs[|procs| - 1]];
    }
  }

  predicate BothAdoptable(scene: Scene, uid: int, fixed: Path, procs: seq<Proc>, i: int, j: int) {
    0 <= i < j < |procs| && Adoptable(scene, uid, fixed, procs[i]) && Adoptable(scene, uid, fixed, procs[j])
  }

  /** There is none to adopt, or more than one, exactly as the process table shows it. */
  lemma {:induction false} AdoptablesCounted(scene: Scene, uid: int, fixed: Path, procs: seq<Proc>)
    ensures AdoptableOf(scene, uid, fixed, procs) == [] <==> forall p <- procs :: !Adoptable(scene, uid, fixed, p)
    ensures |AdoptableOf(scene, uid, fixed, procs)| > 1 <==>
              exists i, j :: BothAdoptable(scene, uid, fixed, procs, i, j)
    decreases |procs|
  {
    hide Adoptable;
    if procs != [] {
      var n := |procs| - 1;
      var front, last := procs[..n], procs[n];
      AdoptablesCounted(scene, uid, fixed, front);
      assert procs == front + [last];
      OneMoreAdoptable(scene, uid, fixed, front, last);
    }
  }

  lemma OneMoreAdoptable(scene: Scene, uid: int, fixed: Path, front: seq<Proc>, last: Proc)
    ensures (exists i, j :: BothAdoptable(scene, uid, fixed, front + [last], i, j)) <==>
              || (exists i, j :: BothAdoptable(scene, uid, fixed, front, i, j))
              || (Adoptable(scene, uid, fixed, last) && exists p :: p in front && Adoptable(scene, uid, fixed, p))
  {
    hide Adoptable;
    var procs := front + [last];
    forall i, j | BothAdoptable(scene, uid, fixed, front, i, j)
      ensures BothAdoptable(scene, uid, fixed, procs, i, j)
    {
    }
    forall i, j | BothAdoptable(scene, uid, fixed, procs, i, j)
      ensures BothAdoptable(scene, uid, fixed, front, i, j) || (procs[j] == last && procs[i] in front)
    {
    }
    forall p | p in front && Adoptable(scene, uid, fixed, p) && Adoptable(scene, uid, fixed, last)
      ensures exists i, j :: BothAdoptable(scene, uid, fixed, procs, i, j)
    {
      var i :| 0 <= i < |front| && front[i] == p;
      assert BothAdoptable(scene, uid, fixed, procs, i, |front|);
    }
  }

  lemma {:induction false} SameAdoptables(a: Scene, b: Scene, uid: int, fixed: Path, procs: seq<Proc>)
    requires forall q :: Reachable(a, q) <==> Reachable(b, q)
    ensures AdoptableOf(a, uid, fixed, procs) == AdoptableOf(b, uid, fixed, procs)
    ensures forall p :: Adoptable(a, uid, fixed, p) <==> Adoptable(b, uid, fixed, p)
    decreases |procs|
  {
    if procs != [] {
      SameAdoptables(a, b, uid, fixed, procs[..|procs| - 1]);
    }
  }

  /** Whatever is put at a path that did not answer, everything that answered still does. */
  lemma NothingIsLost(scene: Scene, other: Scene, p: Path)
    requires !Reachable(scene, p)
    requires other.disk - {p} == scene.disk - {p} && scene.listening <= other.listening
    ensures forall q :: Reachable(scene, q) ==> Reachable(other, q)
  {
    forall q | Reachable(scene, q)
      ensures Reachable(other, q)
    {
      SilenceIsOnNoWay(scene, other, p, q, MAX_LINKS);
    }
  }

  predicate SomeSignalled(scene: Scene, world: World, uid: int, procs: seq<Proc>) {
    exists p :: p in procs && Condemned(scene, uid, p) && p.pid in world.killable
  }

  predicate SomeUnlinked(scene: Scene, world: World, uid: int, procs: seq<Proc>) {
    exists p :: p in procs && Condemned(scene, uid, p) && Unlinks(scene, world, p.socket)
  }

  /** Whether the reap achieved anything, told from the landscape it found. */
  lemma ReapedExactly(scene: Scene, world: World, uid: int, procs: seq<Proc>)
    ensures var r := ReapAll(Reaping(scene, [], []), world, uid, procs);
            && (r.terminated == [] <==> !SomeSignalled(scene, world, uid, procs))
            && (r.removed == [] <==> !SomeUnlinked(scene, world, uid, procs))
            && (r.removed == [] ==> r.scene.disk == scene.disk)
  {
    var r := ReapAll(Reaping(scene, [], []), world, uid, procs);
    ReapIsExact(scene, world, uid, procs);
    if r.terminated != [] {
      assert r.terminated[0] in r.terminated;
    }
    if r.removed != [] {
      assert r.removed[0] in r.removed;
    } else {
      assert (set q | q in r.removed) == {};
    }
  }

  /** The situation a login ends in, from the landscape it found and nothing else. */
  function Verdict(scene: Scene, world: World, uid: int, fixed: Path): Situation
    requires world.first.Some? && world.second.Some?
  {
    var reaped := SomeSignalled(scene, world, uid, world.first.value)
               || SomeUnlinked(scene, world, uid, world.first.value);
    var stale := IsStale(scene, fixed);
    var others := |AdoptableOf(scene, uid, fixed, world.second.value)|;
    if Reachable(scene, fixed) then Healthy
    else if others == 0 then
      if reaped || (stale && fixed in world.removable) then Zombie else Clean
    else if others == 1 && !reaped && !stale then Foreign
    else Disaster
  }

  /** What each situation says of the landscape the login found. */
  lemma VerdictsAre(scene: Scene, world: World, uid: int, fixed: Path)
    requires world.first.Some? && world.second.Some? && !Reachable(scene, fixed)
    ensures var procs, verdict := world.second.value, Verdict(scene, world, uid, fixed);
            var some := exists p :: p in procs && Adoptable(scene, uid, fixed, p);
            var several := exists i, j :: BothAdoptable(scene, uid, fixed, procs, i, j);
            var left := fixed in scene.disk && scene.disk[fixed] != Other;
            var reaped := exists p :: p in world.first.value && Achieved(scene, world, uid, p);
            && (verdict == Clean <==> !some && !reaped && !(left && fixed in world.removable))
            && (verdict == Zombie <==> !some && (reaped || (left && fixed in world.removable)))
            && (verdict == Foreign <==> some && !several && !reaped && !left)
            && (verdict == Disaster <==> some && (several || reaped || left))
  {
    AdoptablesCounted(scene, uid, fixed, world.second.value);
    var procs := world.first.value;
    forall p | p in procs
      ensures Achieved(scene, world, uid, p) <==>
                Condemned(scene, uid, p) && (p.pid in world.killable || Unlinks(scene, world, p.socket))
    {
    }
  }

  /** Reaping this process comes to something: a signal sent, or its socket taken away. */
  predicate Achieved(scene: Scene, world: World, uid: int, p: Proc) {
    && p.uid == uid && p.socket != "" && !Reachable(scene, p.socket)
    && (p.pid in world.killable
        || (p.socket in world.removable && p.socket in scene.disk && scene.disk[p.socket] == SocketFile))
  }

  /** An agent comes up where the path is free or can be freed. */
  predicate CanStart(scene: Scene, world: World, fixed: Path) {
    world.spawned.Some? && (fixed !in scene.disk || (IsStale(scene, fixed) && fixed in world.removable))
  }

  /** When a login beside nobody succeeds. */
  predicate Succeeds(scene: Scene, world: World, uid: int, fixed: Path) {
    || Reachable(scene, fixed)
    || (&& !Wait(world.tries, world.patience, 0).Broken?
        && world.first.Some? && world.second.Some?
        && if exists p :: p in world.second.value && Adoptable(scene, uid, fixed, p) then world.swaps
           else CanStart(scene, world, fixed) && world.recorded)
  }

  /** The pids reported as signalled: exactly the condemned that could be. */
  ghost predicate ReportsSignals(scene: Scene, world: World, uid: int, terminated: seq<int>) {
    && world.first.Some?
    && forall pid :: pid in terminated <==>
         exists p :: p in world.first.value && p.pid == pid && Condemned(scene, uid, p) && pid in world.killable
  }

  ghost predicate Reaped(scene: Scene, world: World, uid: int, q: Path)
    requires world.first.Some?
  {
    exists p :: p in world.first.value && p.socket == q && Condemned(scene, uid, p) && Unlinks(scene, world, q)
  }

  /** The paths reported as removed: exactly the condemned's sockets that could be unlinked, and a
      stale fixed path, which a start clears where it can and an adoption replaces in any case. */
  ghost predicate ReportsRemovals(scene: Scene, world: World, uid: int, fixed: Path, report: Report) {
    && world.first.Some?
    && forall q :: q in report.removed <==>
         || Reaped(scene, world, uid, q)
         || (q == fixed && IsStale(scene, fixed) && (report.adopted.Some? || fixed in world.removable))
  }

  /** What a report built on a reap says is true of the landscape the reap found. */
  lemma ReportIsTrue(scene: Scene, world: World, uid: int, fixed: Path, report: Report)
    requires world.first.Some?
    requires var r := ReapAll(Reaping(scene, [], []), world, uid, world.first.value);
             && report.terminated == r.terminated
             && report.removed ==
                if IsStale(r.scene, fixed) && (report.adopted.Some? || fixed in world.removable)
                then r.removed + [fixed] else r.removed
    ensures ReportsSignals(scene, world, uid, report.terminated)
    ensures ReportsRemovals(scene, world, uid, fixed, report)
  {
    hide ReapAll;
    ReapIsExact(scene, world, uid, world.first.value);
    var r := ReapAll(Reaping(scene, [], []), world, uid, world.first.value);
    assert forall q :: q in r.removed <==> Reaped(scene, world, uid, q);
    assert IsStale(r.scene, fixed) <==> IsStale(scene, fixed) && fixed !in r.removed;
  }

  /** Reaping leaves what can be started as it was: a fixed socket it took away was one that
      could be taken away. */
  lemma ReapKeepsStart(scene: Scene, world: World, uid: int, procs: seq<Proc>, fixed: Path)
    ensures CanStart(ReapAll(Reaping(scene, [], []), world, uid, procs).scene, world, fixed)
       <==> CanStart(scene, world, fixed)
  {
    ReapIsExact(scene, world, uid, procs);
  }

  predicate SortedByPid(procs: seq<Proc>) {
    forall i, j :: 0 <= i < j < |procs| ==> procs[i].pid <= procs[j].pid
  }

  /** `p` put into a sorted table before the first of a higher pid. */
  method Insert(procs: seq<Proc>, p: Proc) returns (r: seq<Proc>)
    requires SortedByPid(procs)
    ensures SortedByPid(r) && multiset(r) == multiset(procs) + multiset{p}
  {
    var i := 0;
    while i < |procs| && procs[i].pid <= p.pid
      invariant 0 <= i <= |procs|
      invariant forall k :: 0 <= k < i ==> procs[k].pid <= p.pid
    {
      i := i + 1;
    }
    r := procs[..i] + [p] + procs[i..];
    assert procs == procs[..i] + procs[i..];
  }

  lemma SameElements(a: seq<Proc>, b: seq<Proc>)
    requires multiset(a) == multiset(b)
    ensures |a| == |b| && forall q :: q in a <==> q in b
  {
    assert |multiset(a)| == |a| && |multiset(b)| == |b|;
    assert forall q :: q in a <==> q in multiset(a);
    assert forall q :: q in b <==> q in multiset(b);
  }

  method SortByPid(procs: seq<Proc>) returns (r: seq<Proc>)
    ensures SortedByPid(r) && multiset(r) == multiset(procs)
  {
    r := [];
    for i := 0 to |procs|
      invariant SortedByPid(r) && multiset(r) == multiset(procs[..i])
    {
      assert procs[..i + 1] == procs[..i] + [procs[i]];
      r := Insert(r, procs[i]);
    }
    assert procs[..|procs|] == procs;
  }

  /** The machine as one login finds it and changes it. `signalled` is every pid a signal was
      sent to, `unlinked` every path removed. */
  class Landscape {
    var scene: Scene
    var signalled: seq<int>
    var unlinked: seq<Path>
    const fixed: Path
    const uid: int

    constructor (scene: Scene, fixed: Path, uid: int)
      ensures this.scene == scene && this.fixed == fixed && this.uid == uid
      ensures signalled == [] && unlinked == []
    {
      this.scene, this.fixed, this.uid := scene, fixed, uid;
      signalled, unlinked := [], [];
    }

    /** The paths this run may touch: those of our own processes that do not answer. */
    ghost predicate MayReap(start: Scene, procs: seq<Proc>, q: Path) {
      exists p :: p in procs && p.socket == q && Condemned(start, uid, p)
    }

    ghost predicate MaySignal(start: Scene, procs: seq<Proc>, pid: int) {
      exists p :: p in procs && p.pid == pid && Condemned(start, uid, p)
    }

    method Reap(world: World, procs: seq<Proc>) returns (terminated: seq<int>, removed: seq<Path>)
      modifies this
      ensures Reaping(scene, terminated, removed) == ReapAll(Reaping(old(scene), [], []), world, uid, procs)
      ensures unlinked == old(unlinked) + removed
      ensures forall pid :: pid in signalled ==>
                pid in old(signalled) || MaySignal(old(scene), procs, pid)
      ensures forall pid :: pid in terminated ==> pid in signalled
    {
      terminated, removed := [], [];
      for i := 0 to |procs|
        invariant Reaping(scene, terminated, removed)
               == ReapAll(Reaping(old(scene), [], []), world, uid, procs[..i])
        invariant unlinked == old(unlinked) + removed
        invariant forall pid :: pid in signalled ==>
                    pid in old(signalled) || MaySignal(old(scene), procs, pid)
        invariant forall pid :: pid in terminated ==> pid in signalled
      {
        var p := procs[i];
        assert procs[..i + 1][..i] == procs[..i] && procs[..i + 1][i] == p;
        ReapIsExact(old(scene), world, uid, procs[..i]);
        if p.socket == "" || Reachable(scene, p.socket) || !Ours(p, uid) {
          continue;
        }
        assert p in procs && Condemned(old(scene), uid, p);
        signalled := signalled + [p.pid];
        if p.pid in world.killable {
          terminated := terminated + [p.pid];
        }
        var gone := RemoveSocket(world, p.socket);
        if gone {
          removed := removed + [p.socket];
        }
      }
      assert procs[..|procs|] == procs;
    }

    /** Unlinks `p` when it is a socket and the system lets it. */
    method RemoveSocket(world: World, p: Path) returns (gone: bool)
      modifies this`scene, this`unlinked
      ensures gone <==> p in old(scene).disk && old(scene).disk[p] == SocketFile && p in world.removable
      ensures scene == (if gone then Remove(old(scene), p) else old(scene))
      ensures unlinked == (if gone then old(unlinked) + [p] else old(unlinked))
    {
      gone := Unlinks(scene, world, p);
      if gone {
        scene := Remove(scene, p);
        unlinked := unlinked + [p];
      }
    }

    method ClearStalePath(world: World) returns (gone: bool)
      modifies this`scene, this`unlinked
      ensures gone <==>
                && fixed in old(scene).disk && fixed in world.removable
                && (old(scene).disk[fixed] == SocketFile || old(scene).disk[fixed].SymLink?)
      ensures scene == (if gone then Remove(old(scene), fixed) else old(scene))
      ensures unlinked == (if gone then old(unlinked) + [fixed] else old(unlinked))
    {
      gone := IsStale(scene, fixed) && fixed in world.removable;
      if gone {
        scene := Remove(scene, fixed);
        unlinked := unlinked + [fixed];
      }
    }

    /** Starts an agent on the fixed socket. It comes up only on a path with nothing on it,
        and may come up without its state being recorded, which is an error all the same. */
    method Start(world: World) returns (pid: Option<int>)
      requires !Reachable(scene, fixed)
      modifies this`scene, this`unlinked
      ensures pid.Some? <==> world.spawned.Some? && world.recorded
                             && (fixed !in old(scene).disk || Unlinks(old(scene), world, fixed))
      ensures pid.Some? ==> pid == world.spawned && Listens(scene, fixed)
      ensures forall q :: q != fixed ==> (q in scene.disk <==> q in old(scene).disk)
      ensures forall q :: q != fixed && q in scene.disk ==> scene.disk[q] == old(scene).disk[q]
      ensures old(scene).listening <= scene.listening <= old(scene).listening + {fixed}
      ensures unlinked == old(unlinked) || unlinked == old(unlinked) + [fixed]
    {
      var _ := RemoveSocket(world, fixed);
      if world.spawned.None? || fixed in scene.disk {
        return None;
      }
      scene := Scene(scene.disk[fixed := SocketFile], scene.listening + {fixed});
      pid := if world.recorded then world.spawned else None;
    }

    method HealthyForeign(procs: seq<Proc>) returns (foreign: seq<Proc>)
      ensures SortedByPid(foreign)
      ensures multiset(foreign) == multiset(AdoptableOf(scene, uid, fixed, procs))
      ensures forall p :: p in foreign <==> p in procs && Adoptable(scene, uid, fixed, p)
    {
      var found: seq<Proc> := [];
      for i := 0 to |procs|
        invariant found == AdoptableOf(scene, uid, fixed, procs[..i])
      {
        var p := procs[i];
        assert procs[..i + 1][..i] == procs[..i] && procs[..i + 1][i] == p;
        if p.socket == "" || p.socket == fixed || !Ours(p, uid) {
          continue;
        }
        if Reachable(scene, p.socket) {
          found := found + [p];
        }
      }
      assert procs[..|procs|] == procs;
      AdoptablesAre(scene, uid, fixed, procs);
      foreign := SortByPid(found);
      SameElements(foreign, found);
    }

    method StartOurOwn(world: World, terminated: seq<int>, reaped: seq<Path>) returns (r: Result<Report>)
      requires !Reachable(scene, fixed)
      modifies this`scene, this`unlinked
      ensures r.Ok? <==> CanStart(old(scene), world, fixed) && world.recorded
      ensures r.Ok? ==> Listens(scene, fixed) && Reachable(scene, fixed)
      ensures r.Ok? ==>
                var cleared := IsStale(old(scene), fixed) && fixed in world.removable;
                && r.value.started == world.spawned && world.spawned.Some? && r.value.adopted.None?
                && r.value.terminated == terminated
                && r.value.removed == (if cleared then reaped + [fixed] else reaped)
                && r.value.situation == (if terminated == [] && reaped == [] && !cleared then Clean else Zombie)
      ensures forall q :: q != fixed ==> (q in scene.disk <==> q in old(scene).disk)
      ensures forall q :: q != fixed && q in scene.disk ==> scene.disk[q] == old(scene).disk[q]
      ensures old(scene).listening <= scene.listening <= old(scene).listening + {fixed}
      ensures forall q :: q in unlinked ==> q in old(unlinked) || q == fixed
      ensures forall q :: q in old(unlinked) ==> q in unlinked
      ensures r.Ok? ==> forall q :: q in r.value.removed && q !in reaped ==> q in unlinked
    {
      var cleared := ClearStalePath(world);
      var removed := if cleared then reaped + [fixed] else reaped;
      var pid := Start(world);
      if pid.None? {
        return Refused;
      }
      var situation := if terminated == [] && removed == [] then Clean else Zombie;
      r := Ok(Report(situation, pid, None, terminated, removed));
    }

    method AdoptOne(world: World, foreign: seq<Proc>, terminated: seq<int>, reaped: seq<Path>)
      returns (r: Result<Report>)
      requires !Reachable(scene, fixed) && foreign != []
      modifies this`scene
      ensures r.Ok? == world.swaps
      ensures scene == (if r.Ok? then old(scene).(disk := old(scene).disk[fixed := SymLink(foreign[0].socket)])
                        else old(scene))
      ensures r.Ok? ==>
                var stale := IsStale(old(scene), fixed);
                && r.value.adopted == Some(foreign[0]) && r.value.started.None?
                && r.value.terminated == terminated
                && r.value.removed == (if stale then reaped + [fixed] else reaped)
                && r.value.situation == (if |foreign| == 1 && terminated == [] && reaped == [] && !stale
                                         then Foreign else Disaster)
    {
      var stale := IsStale(scene, fixed);
      var removed := if stale then reaped + [fixed] else reaped;
      if !world.swaps {
        return Refused;
      }
      scene := scene.(disk := scene.disk[fixed := SymLink(foreign[0].socket)]);
      var messy := |foreign| > 1 || terminated != [] || removed != [];
      r := Ok(Report(if messy then Disaster else Foreign, None, Some(foreign[0]), terminated, removed));
    }

    /** One whole run. On success the fixed path answers, through an agent of this account;
        whatever comes of it, only silent processes of this account are signalled, only their
        sockets and the silent fixed path are unlinked, and nothing that answered is lost. */
    method EnsureAgent(world: World) returns (r: Result<Report>)
      modifies this
      ensures r.Ok? <==> Succeeds(old(scene), world, uid, fixed)
      ensures old(Reachable(scene, fixed)) && r.Ok? ==>
                r.value == Report(Healthy, None, None, [], [])
      ensures old(Reachable(scene, fixed)) ==>
                r.Ok? && scene == old(scene) && signalled == old(signalled) && unlinked == old(unlinked)
      ensures forall pid :: pid in signalled ==>
                pid in old(signalled) || (world.first.Some? && MaySignal(old(scene), world.first.value, pid))
      ensures r.Ok? ==> forall pid :: pid in r.value.terminated ==> pid in signalled
      ensures r.Ok? && r.value.adopted.None? ==> forall q :: q in r.value.removed ==> q in unlinked
      ensures forall q :: q in unlinked ==>
                q in old(unlinked) || q == fixed
                || (world.first.Some? && MayReap(old(scene), world.first.value, q))
      ensures forall q :: old(Reachable(scene, q)) ==> Reachable(scene, q)
      ensures r.Ok? && r.value.adopted.None? ==> Reachable(scene, fixed)
      ensures r.Ok? && !old(Reachable(scene, fixed)) && r.value.adopted.None? ==>
                Listens(scene, fixed) && r.value.started.Some? && r.value.started == world.spawned
      ensures r.Ok? && r.value.adopted.Some? ==> r.value.started.None?
      ensures SameElsewhere(old(scene), scene, fixed, unlinked)
      ensures r.Ok? && r.value.adopted.Some? ==>
                (Reachable(scene, fixed) <==> Reaches(scene, r.value.adopted.value.socket, MAX_LINKS - 1))
      ensures r.Ok? && !old(Reachable(scene, fixed)) ==>
                && world.first.Some? && world.second.Some?
                && r.value.situation == Verdict(old(scene), world, uid, fixed)
                && ReportsSignals(old(scene), world, uid, r.value.terminated)
                && ReportsRemovals(old(scene), world, uid, fixed, r.value)
                && (r.value.adopted.Some? <==>
                     exists p :: p in world.second.value && Adoptable(old(scene), uid, fixed, p))
                && (r.value.adopted.Some? ==>
                     var chosen := r.value.adopted.value;
                     && chosen in world.second.value && Adoptable(old(scene), uid, fixed, chosen)
                     && fixed in scene.disk && scene.disk[fixed] == SymLink(chosen.socket)
                     && forall p :: p in world.second.value && Adoptable(old(scene), uid, fixed, p) ==>
                          chosen.pid <= p.pid)
    {
      hide ReapAll, CanStart, ReportsSignals, ReportsRemovals, Condemned, Unlinks, SomeSignalled, SomeUnlinked, SameElsewhere,
           Reaches, Listens, Adoptable, AdoptableOf;
      ReapedElsewhere(scene, scene, fixed, [], unlinked);
      if Reachable(scene, fixed) {
        return Ok(Report(Healthy, None, None, [], []));
      }
      var lock := Queue(world.tries, world.patience);
      if lock.Broken? {
        return Refused;
      }
      if Reachable(scene, fixed) {
        return Ok(Report(Healthy, None, None, [], []));
      }
      if world.first.None? {
        return Refused;
      }
      var terminated, removed := Reap(world, world.first.value);
      ReapIsExact(old(scene), world, uid, world.first.value);
      ReapedExactly(old(scene), world, uid, world.first.value);
      ReapKeepsStart(old(scene), world, uid, world.first.value, fixed);
      ghost var reaped, gone := scene, unlinked;
      ReapedElsewhere(old(scene), scene, fixed, removed, unlinked);
      if world.second.None? {
        return Refused;
      }
      var foreign := HealthyForeign(world.second.value);
      SameElements(foreign, AdoptableOf(scene, uid, fixed, world.second.value));
      SameAdoptables(old(scene), scene, uid, fixed, world.second.value);
      assert forall p :: p in foreign <==>
               p in world.second.value && Adoptable(old(scene), uid, fixed, p);
      assert foreign != [] ==> foreign[0] in foreign;
      if foreign == [] {
        r := StartOurOwn(world, terminated, removed);
      } else {
        r := AdoptOne(world, foreign, terminated, removed);
        LinkAnswers(reaped, fixed, foreign[0].socket);
      }
      NothingIsLost(reaped, scene, fixed);
      ThenElsewhere(old(scene), reaped, scene, fixed, gone, unlinked);
      if r.Ok? {
        ReportIsTrue(old(scene), world, uid, fixed, r.value);
      }
    }
  }
}
