/** Moving the keys into another directory: which files are keys, the plan, carrying it out
    with every rename free to fail, putting back what was moved, and the rollback after a
    configuration that would not be written. */
module KeyMove {
  import opened Wrappers

  /** A file by its directory and its name. */
  datatype Path = Path(dir: string, name: string)

  type Content = string

  datatype Kind = PrivateKey | PublicKey

  datatype Move = Move(from: Path, to: Path, kind: Kind)

  // ---------------------------------------------------------------- which files are keys

  const PUBLIC_SUFFIX := ".pub"
  const AUTHORIZED_KEYS := "authorized_keys"
  const NOT_KEYS := ["config", "known_hosts", "known_hosts.old", "authorized_keys", "authorized_keys2",
                     "environment", "rc"]

  datatype Entry = Entry(name: string, regular: bool)

  predicate IsPublicName(name: string) {
    |name| >= |PUBLIC_SUFFIX| && name[|name| - |PUBLIC_SUFFIX|..] == PUBLIC_SUFFIX
  }

  /** `matches` says whether one of the configured patterns accepts a name. */
  predicate IsKeyName(matches: string -> bool, name: string) {
    !IsPublicName(name) && name !in NOT_KEYS && matches(name)
  }

  method Keys(dir: string, entries: seq<Entry>, matches: string -> bool) returns (keys: seq<Path>)
    requires forall i, j :: 0 <= i < j < |entries| ==> entries[i].name != entries[j].name
    ensures forall k :: k in keys <==>
              && k.dir == dir && Entry(k.name, true) in entries && matches(k.name) && k.name !in NOT_KEYS
              && !(|k.name| >= 4 && k.name[|k.name| - 4..] == ".pub")
    ensures forall i, j :: 0 <= i < j < |keys| ==> keys[i] != keys[j]
  {
    keys := [];
    for i := 0 to |entries|
      invariant forall k :: k in keys <==>
                  k.dir == dir && IsKeyName(matches, k.name) && Entry(k.name, true) in entries[..i]
      invariant forall i, j :: 0 <= i < j < |keys| ==> keys[i] != keys[j]
    {
      var e := entries[i];
      assert entries[..i + 1] == entries[..i] + [e];
      if IsKeyName(matches, e.name) && e.regular {
        assert e == Entry(e.name, true);
        keys := keys + [Path(dir, e.name)];
      }
    }
    assert entries[..|entries|] == entries;
  }

  // ------------------------------------------------------------------------- the plan

  /** Whether a path is there. */
  function On(files: map<Path, Content>): Path -> bool {
    p => p in files
  }

  function PublicHalf(key: Path): Path {
    key.(name := key.name + PUBLIC_SUFFIX)
  }

  function MovesOf(dir: string, key: Path, there: Path -> bool): seq<Move> {
    if key.name == AUTHORIZED_KEYS then []
    else
      [Move(key, Path(dir, key.name), PrivateKey)]
      + (if there(PublicHalf(key)) then [Move(PublicHalf(key), Path(dir, PublicHalf(key).name), PublicKey)] else [])
  }

  /** Each key and then its public half, where one is beside it. */
  function PlanFor(dir: string, keys: seq<Path>, there: Path -> bool): seq<Move> {
    if keys == [] then []
    else PlanFor(dir, keys[..|keys| - 1], there) + MovesOf(dir, keys[|keys| - 1], there)
  }

  method Plan(dir: string, keys: seq<Path>, there: Path -> bool) returns (moves: seq<Move>)
    ensures moves == PlanFor(dir, keys, there)
  {
    moves := [];
    for i := 0 to |keys|
      invariant moves == PlanFor(dir, keys[..i], there)
    {
      var key := keys[i];
      assert keys[..i + 1][..i] == keys[..i] && keys[..i + 1][i] == key;
      if key.name == AUTHORIZED_KEYS {
        continue;
      }
      moves := moves + [Move(key, Path(dir, key.name), PrivateKey)];
      var public := PublicHalf(key);
      if there(public) {
        moves := moves + [Move(public, Path(dir, public.name), PublicKey)];
      }
    }
    assert keys[..|keys|] == keys;
  }

  method Blocked(moves: seq<Move>, there: Path -> bool) returns (taken: seq<Path>)
    ensures taken == [] <==> forall i :: 0 <= i < |moves| ==> !there(moves[i].to)
    ensures forall p :: p in taken <==> exists i :: 0 <= i < |moves| && moves[i].to == p && there(p)
  {
    taken := [];
    for i := 0 to |moves|
      invariant taken == [] <==> forall j :: 0 <= j < i ==> !there(moves[j].to)
      invariant forall p :: p in taken <==> exists j :: 0 <= j < i && moves[j].to == p && there(p)
    {
      if there(moves[i].to) {
        taken := taken + [moves[i].to];
      }
    }
  }

  /** No two moves share a source or a destination, and no destination is a source. */
  predicate Sound(moves: seq<Move>) {
    && (forall i, j :: 0 <= i < j < |moves| ==> moves[i].from != moves[j].from && moves[i].to != moves[j].to)
    && (forall i, j :: 0 <= i < |moves| && 0 <= j < |moves| ==> moves[i].to != moves[j].from)
  }

  predicate AreKeys(keys: seq<Path>, home: string) {
    && (forall i :: 0 <= i < |keys| ==> keys[i].dir == home && !IsPublicName(keys[i].name))
    && (forall i, j :: 0 <= i < j < |keys| ==> keys[i] != keys[j])
  }

  /** Which key a planned move belongs to. */
  lemma {:induction false} PlannedFrom(dir: string, keys: seq<Path>, there: Path -> bool, i: nat)
    requires i < |PlanFor(dir, keys, there)|
    ensures exists k :: k in keys && PlanFor(dir, keys, there)[i] in MovesOf(dir, k, there)
    decreases |keys|
  {
    var n := |keys| - 1;
    var before := PlanFor(dir, keys[..n], there);
    if i < |before| {
      PlannedFrom(dir, keys[..n], there, i);
      var k :| k in keys[..n] && before[i] in MovesOf(dir, k, there);
      assert k in keys;
    } else {
      assert PlanFor(dir, keys, there)[i] == MovesOf(dir, keys[n], there)[i - |before|];
    }
  }

  lemma {:induction false} PlanHolds(dir: string, keys: seq<Path>, there: Path -> bool, k: Path, m: Move)
    requires k in keys && m in MovesOf(dir, k, there)
    ensures m in PlanFor(dir, keys, there)
    decreases |keys|
  {
    var n := |keys| - 1;
    if k == keys[n] {
      assert m in MovesOf(dir, keys[n], there);
    } else {
      assert k in keys[..n];
      PlanHolds(dir, keys[..n], there, k, m);
    }
  }

  /** Takes a key to its own name in the new directory. */
  predicate TakesKey(dir: string, k: Path, m: Move) {
    k.name != "authorized_keys" && m == Move(k, Path(dir, k.name), PrivateKey)
  }

  /** Takes a key's public half, which is there, to its own name in the new directory. */
  predicate TakesPublicHalf(dir: string, k: Path, there: Path -> bool, m: Move) {
    var public := Path(k.dir, k.name + ".pub");
    k.name != "authorized_keys" && there(public) && m == Move(public, Path(dir, public.name), PublicKey)
  }

  /** The plan takes each listed key, and each public half there is of one, to its own name in the
      new directory, and nothing else. */
  lemma PlanHoldsExactly(dir: string, keys: seq<Path>, there: Path -> bool, m: Move)
    ensures m in PlanFor(dir, keys, there) <==>
              exists k :: k in keys && (TakesKey(dir, k, m) || TakesPublicHalf(dir, k, there, m))
  {
    if m in PlanFor(dir, keys, there) {
      var i :| 0 <= i < |PlanFor(dir, keys, there)| && PlanFor(dir, keys, there)[i] == m;
      PlannedFrom(dir, keys, there, i);
      var k :| k in keys && m in MovesOf(dir, k, there);
      assert TakesKey(dir, k, m) || TakesPublicHalf(dir, k, there, m);
    }
    forall k | k in keys && (TakesKey(dir, k, m) || TakesPublicHalf(dir, k, there, m))
      ensures m in PlanFor(dir, keys, there)
    {
      assert m in MovesOf(dir, k, there);
      PlanHolds(dir, keys, there, k, m);
    }
  }

  /** The public half of the move before it. */
  predicate FollowsItsKey(moves: seq<Move>, i: nat)
    requires i < |moves|
  {
    moves[i].kind.PublicKey? ==>
      && i > 0 && moves[i - 1].kind.PrivateKey?
      && moves[i].from == Path(moves[i - 1].from.dir, moves[i - 1].from.name + ".pub")
  }

  predicate EachFollowsItsKey(moves: seq<Move>) {
    forall i :: 0 <= i < |moves| ==> FollowsItsKey(moves, i)
  }

  /** Each public half goes directly after its key, so a run stopped between two moves has split
      one key at most. */
  lemma {:induction false} PublicHalfFollowsItsKey(dir: string, keys: seq<Path>, there: Path -> bool)
    ensures EachFollowsItsKey(PlanFor(dir, keys, there))
    decreases |keys|
  {
    if keys != [] {
      var n := |keys| - 1;
      var before, last := PlanFor(dir, keys[..n], there), MovesOf(dir, keys[n], there);
      PublicHalfFollowsItsKey(dir, keys[..n], there);
      forall i | 0 <= i < |before + last|
        ensures FollowsItsKey(before + last, i)
      {
        assert i < |before| ==> FollowsItsKey(before, i);
      }
    }
  }

  lemma PublicNamesArePublic(name: string)
    ensures IsPublicName(name + PUBLIC_SUFFIX)
  {
  }

  /** Moves of two different keys never meet, because no key is named like a public half. */
  lemma MovesApart(dir: string, a: Path, b: Path, there: Path -> bool, m: Move, n: Move)
    requires !IsPublicName(a.name) && !IsPublicName(b.name) && a.dir == b.dir && a != b
    requires m in MovesOf(dir, a, there) && n in MovesOf(dir, b, there)
    ensures m.from != n.from && m.to != n.to
  {
    PublicNamesArePublic(a.name);
    PublicNamesArePublic(b.name);
    assert a.name != b.name;
    assert (a.name + PUBLIC_SUFFIX)[..|a.name|] == a.name;
    assert (b.name + PUBLIC_SUFFIX)[..|b.name|] == b.name;
  }

  predicate Between(moves: seq<Move>, home: string, dir: string) {
    forall i :: 0 <= i < |moves| ==> moves[i].from.dir == home && moves[i].to.dir == dir
  }

  predicate Apart(a: seq<Move>, b: seq<Move>) {
    forall i, j :: 0 <= i < |a| && 0 <= j < |b| ==> a[i].from != b[j].from && a[i].to != b[j].to
  }

  lemma MovesOfOne(dir: string, key: Path, there: Path -> bool)
    requires key.dir != dir
    ensures Sound(MovesOf(dir, key, there)) && Between(MovesOf(dir, key, there), key.dir, dir)
  {
  }

  lemma SoundTogether(a: seq<Move>, b: seq<Move>, home: string, dir: string)
    requires Sound(a) && Sound(b) && Apart(a, b) && home != dir && Between(a, home, dir) && Between(b, home, dir)
    ensures Sound(a + b) && Between(a + b, home, dir)
  {
  }

  /** The plan for the keys of one directory into another has distinct sources and distinct
      destinations, and nothing is moved onto a file still to be moved. */
  lemma {:induction false} PlanIsSound(dir: string, home: string, keys: seq<Path>, there: Path -> bool)
    requires AreKeys(keys, home) && dir != home
    ensures Sound(PlanFor(dir, keys, there)) && Between(PlanFor(dir, keys, there), home, dir)
    decreases |keys|
  {
    hide Sound, Apart, MovesOf;
    if keys == [] {
      NothingIsSound();
    } else {
      var n := |keys| - 1;
      FewerKeys(keys, home);
      PlanIsSound(dir, home, keys[..n], there);
      MovesOfOne(dir, keys[n], there);
      LastApart(dir, home, keys, there);
      SoundTogether(PlanFor(dir, keys[..n], there), MovesOf(dir, keys[n], there), home, dir);
    }
  }

  lemma FewerKeys(keys: seq<Path>, home: string)
    requires AreKeys(keys, home) && keys != []
    ensures AreKeys(keys[..|keys| - 1], home) && keys[|keys| - 1].dir == home
  {
  }

  lemma LastApart(dir: string, home: string, keys: seq<Path>, there: Path -> bool)
    requires AreKeys(keys, home) && dir != home && keys != []
    ensures var n := |keys| - 1;
            Apart(PlanFor(dir, keys[..n], there), MovesOf(dir, keys[n], there))
  {
    hide MovesOf;
    var n := |keys| - 1;
    var before, last := PlanFor(dir, keys[..n], there), MovesOf(dir, keys[n], there);
    forall i, j | 0 <= i < |before| && 0 <= j < |last|
      ensures before[i].from != last[j].from && before[i].to != last[j].to
    {
      PlannedFrom(dir, keys[..n], there, i);
      var k :| k in keys[..n] && before[i] in MovesOf(dir, k, there);
      var m :| 0 <= m < n && keys[..n][m] == k;
      assert keys[m] == k;
      MovesApart(dir, k, keys[n], there, before[i], last[j]);
    }
  }

  lemma NothingIsSound()
    ensures Sound([])
  {
  }

  // -------------------------------------------------------------------- carrying it out

  /** The files as `moved` says they stand, `start` being how they stood before: a moved
      file is at its destination only, an unmoved one at its source only, the rest as was. */
  ghost predicate Tracks(files: map<Path, Content>, start: map<Path, Content>, moves: seq<Move>, moved: seq<bool>)
    requires |moved| == |moves|
  {
    && (forall i {:trigger moved[i]} :: 0 <= i < |moves| ==> Stands(files, start, moves[i], moved[i]))
    && (forall p :: !Planned(moves, p) ==> Same(files, start, p))
  }

  predicate Planned(moves: seq<Move>, p: Path) {
    exists i :: 0 <= i < |moves| && (p == moves[i].from || p == moves[i].to)
  }

  predicate Same(files: map<Path, Content>, start: map<Path, Content>, p: Path) {
    (p in files <==> p in start) && (p in start ==> files[p] == start[p])
  }

  /** One planned file, in exactly one place with the content it had. */
  predicate Stands(files: map<Path, Content>, start: map<Path, Content>, m: Move, moved: bool) {
    if moved then m.from in start && m.to in files && files[m.to] == start[m.from] && m.from !in files
    else Same(files, start, m.from) && m.to !in files
  }

  predicate FreeDestinations(files: map<Path, Content>, moves: seq<Move>) {
    forall i :: 0 <= i < |moves| ==> moves[i].to !in files
  }

  function Prefix(n: nat, total: nat): seq<bool> {
    seq(total, i => i < n)
  }

  datatype Outcome = Outcome(ok: bool, moved: seq<Path>, stranded: seq<Path>)

  function Destinations(moves: seq<Move>): seq<Path> {
    seq(|moves|, i requires 0 <= i < |moves| => moves[i].to)
  }

  /** The permitting step of a run that only puts files back. */
  predicate Always(i: nat) {
    true
  }

  /** One machine's files. Rename number `n` is made to fail where `fails(n)` says so, and
      `overwrote` records a rename onto a file that was there. */
  class Disk {
    var files: map<Path, Content>
    var renames: nat
    var overwrote: bool
    const fails: nat -> bool

    constructor (files: map<Path, Content>, fails: nat -> bool)
      ensures this.files == files && this.fails == fails && renames == 0 && !overwrote
    {
      this.files, this.fails := files, fails;
      renames, overwrote := 0, false;
    }

    method Rename(from: Path, to: Path) returns (ok: bool)
      modifies this
      ensures ok == (from in old(files) && !fails(old(renames)))
      ensures files == (if ok then (old(files) - {from})[to := old(files)[from]] else old(files))
      ensures renames == old(renames) + 1
      ensures overwrote == (old(overwrote) || (ok && to in old(files) && to != from))
    {
      ok := from in files && !fails(renames);
      renames := renames + 1;
      if ok {
        overwrote := overwrote || (to in files && to != from);
        files := (files - {from})[to := files[from]];
      }
    }

    /** Putting `n` files back from rename `first` on, the i-th of them will not go. */
    predicate Sticks(first: nat, n: nat, i: nat) {
      i < n && fails(first + n - 1 - i)
    }

    /** Returns what was moved, last first, and names what would not go back. */
    method PutBack(done: seq<Move>, ghost moves: seq<Move>, ghost start: map<Path, Content>)
      returns (stranded: seq<Path>, ghost moved: seq<bool>)
      requires done <= moves && Sound(moves) && FreeDestinations(start, moves)
      requires Tracks(files, start, moves, Prefix(|done|, |moves|))
      modifies this
      ensures |moved| == |moves| && Tracks(files, start, moves, moved)
      ensures forall i :: 0 <= i < |moves| ==> (moved[i] <==> moves[i].to in stranded)
      ensures forall p :: p in stranded ==> exists i :: 0 <= i < |done| && done[i].to == p
      ensures forall i :: 0 <= i < |moves| ==> (moved[i] <==> Sticks(old(renames), |done|, i))
      ensures overwrote == old(overwrote)
    {
      stranded := [];
      moved := Prefix(|done|, |moves|);
      var n := |done|;
      while n > 0
        invariant 0 <= n <= |done| && |moved| == |moves| && Tracks(files, start, moves, moved)
        invariant forall i :: 0 <= i < n ==> moved[i]
        invariant forall i :: n <= i < |moves| ==> (moved[i] <==> moves[i].to in stranded)
        invariant forall p :: p in stranded ==> exists i :: n <= i < |done| && done[i].to == p
        invariant renames == old(renames) + |done| - n && overwrote == old(overwrote)
        invariant forall i :: n <= i < |moves| ==> (moved[i] <==> Sticks(old(renames), |done|, i))
      {
        n := n - 1;
        var m := done[n];
        ghost var before := files;
        var ok := Rename(m.to, m.from);
        if ok {
          BackOne(before, start, moves, moved, n);
          moved := moved[n := false];
        } else {
          stranded := stranded + [m.to];
        }
      }
    }

    /** The i-th move of a plan started at rename `first` has a source and meets no failure. */
    predicate Goes(start: map<Path, Content>, first: nat, moves: seq<Move>, permits: nat -> bool, i: nat)
      requires i < |moves|
    {
      moves[i].from in start && Works(first, i) && permits(i)
    }

    /** The i-th rename after the first `first` is not made to fail. */
    predicate Works(first: nat, i: nat) {
      !fails(first + i)
    }

    /** None of the next `n` renames is made to fail. */
    predicate AllWork(first: nat, n: nat) {
      forall i :: 0 <= i < n ==> Works(first, i)
    }

    /** A plan stopped at move `stop`, the first that did not go, after which exactly the moves
        whose way back failed are still carried out. */
    ghost predicate StoppedAt(start: map<Path, Content>, first: nat, moves: seq<Move>, permits: nat -> bool,
                              moved: seq<bool>, stop: nat)
      requires |moved| == |moves|
    {
      && stop < |moves| && !Goes(start, first, moves, permits, stop)
      && (forall i :: 0 <= i < stop ==> Goes(start, first, moves, permits, i))
      && var gone := if moves[stop].from in start && Works(first, stop) then stop + 1 else stop;
         forall i :: 0 <= i < |moves| ==> (moved[i] <==> Sticks(first + stop + 1, gone, i))
    }

    /** Moves every file of the plan, permitting each as it arrives (`permits(i)` says whether
        that works for the i-th). On the first failure everything moved goes back. */
    method Apply(moves: seq<Move>, permits: nat -> bool) returns (r: Outcome, ghost moved: seq<bool>, ghost stop: nat)
      requires Sound(moves) && FreeDestinations(files, moves)
      modifies this
      ensures |moved| == |moves| && Tracks(files, old(files), moves, moved)
      ensures r.ok <==> forall i :: 0 <= i < |moves| ==> Goes(old(files), old(renames), moves, permits, i)
      ensures r.ok ==> r.moved == Destinations(moves) && r.stranded == [] && moved == Prefix(|moves|, |moves|)
      ensures !r.ok ==> forall i :: 0 <= i < |moves| ==> (moved[i] <==> moves[i].to in r.stranded)
      ensures r.ok ==> renames == old(renames) + |moves|
      ensures !r.ok ==> StoppedAt(old(files), old(renames), moves, permits, moved, stop)
      ensures !r.ok ==> r.moved == if moves[stop].from in old(files) && !fails(old(renames) + stop) then []
                                   else Destinations(moves)[..stop]
      ensures forall p :: p in r.stranded ==> exists i :: 0 <= i < |moves| && moves[i].to == p
      ensures overwrote == old(overwrote)
    {
      hide Sound, Sticks;
      var done: seq<Move> := [];
      var gone: seq<Path> := [];
      moved, stop := Prefix(0, |moves|), 0;
      for i := 0 to |moves|
        invariant done == moves[..i] && gone == Destinations(moves)[..i]
        invariant renames == old(renames) + i && overwrote == old(overwrote)
        invariant moved == Prefix(i, |moves|) && Tracks(files, old(files), moves, moved)
        invariant forall j :: 0 <= j < i ==> Goes(old(files), old(renames), moves, permits, j)
      {
        var m := moves[i];
        ghost var before := files;
        assert Stands(before, old(files), m, moved[i]);
        var ok := Rename(m.from, m.to);
        assert ok <==> m.from in old(files) && !fails(old(renames) + i);
        if !ok {
          assert !Goes(old(files), old(renames), moves, permits, i);
          var stranded;
          stranded, moved := PutBack(done, moves, old(files));
          return Outcome(false, gone, stranded), moved, i;
        }
        ForthOne(before, old(files), moves, moved, i);
        assert moved[i := true] == Prefix(i + 1, |moves|);
        moved := moved[i := true];
        done := done + [m];
        gone := gone + [m.to];
        if !permits(i) {
          assert !Goes(old(files), old(renames), moves, permits, i);
          var stranded;
          stranded, moved := PutBack(done, moves, old(files));
          return Outcome(false, [], stranded), moved, i;
        }
      }
      r := Outcome(true, gone, []);
    }

    /** Everything went and the configuration would not be written: the moves turned round,
        through the same `Apply`. `moved` says which files are in the new directory still. */
    method RollBack(moves: seq<Move>, ghost start: map<Path, Content>)
      returns (stranded: seq<Path>, ghost moved: seq<bool>, ghost stop: nat)
      requires Sound(moves) && FreeDestinations(start, moves)
      requires Tracks(files, start, moves, Prefix(|moves|, |moves|))
      modifies this
      ensures |moved| == |moves| && Tracks(files, start, moves, moved)
      ensures AllWork(old(renames), |moves|) ==>
                moved == Prefix(0, |moves|) && stranded == []
      ensures !AllWork(old(renames), |moves|) ==>
                && stop < |moves| && AllWork(old(renames), stop) && !Works(old(renames), stop)
                && (forall i :: 0 <= i < |moves| ==> (moved[i] <==> !Sticks(old(renames) + stop + 1, stop, i)))
                && (forall i :: 0 <= i < |moves| ==> (moved[i] <==> moves[i].from !in stranded))
                && (forall p :: p in stranded ==> exists i :: 0 <= i < |moves| && moves[i].from == p)
      ensures overwrote == old(overwrote)
    {
      hide Tracks, Sound;
      ghost var gone := files;
      var back := Reversed(moves);
      ReversedIsSound(files, start, moves);
      var r;
      ghost var returned;
      r, returned, stop := Apply(back, Always);
      stranded := r.stranded;
      moved := seq(|moves|, i requires 0 <= i < |moves| => !returned[i]);
      ReturnTracks(files, gone, start, moves, returned, moved);
      GoesBack(gone, old(renames), moves);
      if r.ok {
        assert moved == Prefix(0, |moves|);
      } else {
        StoppedOnTheWayBack(gone, old(renames), moves, returned, stop);
      }
    }

    /** Turned round, a move that went goes back exactly when its rename works. */
    lemma GoesBack(gone: map<Path, Content>, first: nat, moves: seq<Move>)
      requires forall i :: 0 <= i < |moves| ==> moves[i].to in gone
      ensures forall i :: 0 <= i < |moves| ==>
                (Goes(gone, first, Reversed(moves), Always, i) <==> Works(first, i))
      ensures forall i :: 0 <= i < |moves| ==> Reversed(moves)[i].to == moves[i].from
    {
    }

    lemma StoppedOnTheWayBack(gone: map<Path, Content>, first: nat, moves: seq<Move>, returned: seq<bool>, stop: nat)
      requires |returned| == |moves| && (forall i :: 0 <= i < |moves| ==> moves[i].to in gone)
      requires StoppedAt(gone, first, Reversed(moves), Always, returned, stop)
      ensures stop < |moves| && AllWork(first, stop) && !Works(first, stop)
      ensures forall i :: 0 <= i < |moves| ==> (returned[i] <==> Sticks(first + stop + 1, stop, i))
    {
      GoesBack(gone, first, moves);
      assert forall i :: 0 <= i < stop ==> Goes(gone, first, Reversed(moves), Always, i) && Works(first, i);
    }

    /** Every move of the plan goes through. */
    predicate AllGo(start: map<Path, Content>, first: nat, moves: seq<Move>, permits: nat -> bool) {
      forall i :: 0 <= i < |moves| ==> Goes(start, first, moves, permits, i)
    }

    /** The whole command on files already listed: refused without touching anything, stopped by
        the first move that will not go, rolled back when the configuration cannot be written, or
        carried through. A run stopped on the way names exactly the files still in the new
        directory; one rolled back does so exactly when everything went back, and otherwise names
        exactly the others. `refused` gathers the refusals that do not depend on the plan,
        `prepared` and `configured` whether the directory and the configuration could be made and
        written. */
    method MoveKeys(home: string, dir: string, keys: seq<Path>, refused: bool, prepared: bool,
                    permits: nat -> bool, configured: bool)
      returns (end: Ended, ghost moves: seq<Move>, ghost moved: seq<bool>)
      requires AreKeys(keys, home)
      modifies this
      ensures |moved| == |moves| && Tracks(files, old(files), moves, moved) && overwrote == old(overwrote)
      ensures end.Unchanged? <==> keys == [] || dir == home || refused || !prepared
                                  || !FreeDestinations(old(files), PlanFor(dir, keys, On(old(files))))
      ensures end.Unchanged? ==> files == old(files)
      ensures !end.Unchanged? ==> moves == PlanFor(dir, keys, On(old(files)))
      ensures !end.Unchanged? ==> (end.Stopped? <==> !AllGo(old(files), old(renames), moves, permits))
      ensures !end.Unchanged? && !end.Stopped? ==> (end.MovedAll? <==> configured)
      ensures end.MovedAll? ==> end.paths == Destinations(moves) && moved == Prefix(|moves|, |moves|)
      ensures end.MovedAll? ==> forall k <- keys :: k.name != "authorized_keys" ==>
                Carried(files, old(files), k, Path(dir, k.name))
      ensures end.MovedAll? ==> forall k <- keys ::
                k.name != "authorized_keys" && Path(home, k.name + ".pub") in old(files) ==>
                  Carried(files, old(files), Path(home, k.name + ".pub"), Path(dir, k.name + ".pub"))
      ensures end.Stopped? ==> Truthful(moves, moved, end.stranded)
      ensures end.RolledBack? ==> RolledBackAs(moves, moved, end.stranded, old(renames) + |moves|)
    {
      moves, moved := [], [];
      if keys == [] || dir == home || refused {
        return Unchanged, [], [];
      }
      var plan := Plan(dir, keys, On(files));
      PlanIsSound(dir, home, keys, On(files));
      var taken := Blocked(plan, On(files));
      if taken != [] || !prepared {
        return Unchanged, [], [];
      }
      moves := plan;
      end, moved := CarryOut(plan, permits, configured);
      if end.MovedAll? {
        AllCarried(files, old(files), dir, home, keys);
      }
    }

    /** How a rollback ended whose renames started at `first`, and whether its report is true. */
    ghost predicate RolledBackAs(moves: seq<Move>, moved: seq<bool>, stranded: seq<Path>, first: nat)
      requires |moved| == |moves|
    {
      && (Truthful(moves, moved, stranded) <==> AllWork(first, |moves|))
      && (AllWork(first, |moves|) ==> moved == Prefix(0, |moves|))
      && (!AllWork(first, |moves|) ==>
           forall i :: 0 <= i < |moves| ==> (moved[i] <==> moves[i].from !in stranded))
    }

    method CarryOut(moves: seq<Move>, permits: nat -> bool, configured: bool)
      returns (end: Ended, ghost moved: seq<bool>)
      requires Sound(moves) && FreeDestinations(files, moves)
      modifies this
      ensures |moved| == |moves| && Tracks(files, old(files), moves, moved) && overwrote == old(overwrote)
      ensures !end.Unchanged?
      ensures end.Stopped? <==> !AllGo(old(files), old(renames), moves, permits)
      ensures !end.Stopped? ==> (end.MovedAll? <==> configured)
      ensures end.MovedAll? ==> end.paths == Destinations(moves) && moved == Prefix(|moves|, |moves|)
      ensures end.Stopped? ==> Truthful(moves, moved, end.stranded)
      ensures end.RolledBack? ==> RolledBackAs(moves, moved, end.stranded, old(renames) + |moves|)
    {
      var r;
      ghost var stop;
      r, moved, stop := Apply(moves, permits);
      if !r.ok {
        return Stopped(r.stranded), moved;
      }
      if configured {
        return MovedAll(r.moved), moved;
      }
      var stranded;
      stranded, moved, stop := RollBack(moves, old(files));
      if AllWork(old(renames) + |moves|, |moves|) {
        assert Truthful(moves, moved, stranded);
      } else {
        assert moved[stop];
        UntruthfulReport(moves, moved, stranded);
      }
      end := RolledBack(stranded);
    }
  }

  /** Gone from where it was, and in its new place with the content it had. */
  predicate Carried(files: map<Path, Content>, start: map<Path, Content>, from: Path, to: Path) {
    from in start && from !in files && to in files && files[to] == start[from]
  }

  lemma AllCarried(files: map<Path, Content>, start: map<Path, Content>, dir: string, home: string, keys: seq<Path>)
    requires AreKeys(keys, home)
    requires var moves := PlanFor(dir, keys, On(start)); Tracks(files, start, moves, Prefix(|moves|, |moves|))
    ensures forall k <- keys :: k.name != "authorized_keys" ==> Carried(files, start, k, Path(dir, k.name))
    ensures forall k <- keys ::
              k.name != "authorized_keys" && Path(home, k.name + ".pub") in start ==>
                Carried(files, start, Path(home, k.name + ".pub"), Path(dir, k.name + ".pub"))
  {
    hide PlanFor;
    var moves := PlanFor(dir, keys, On(start));
    forall m | m in moves
      ensures Carried(files, start, m.from, m.to)
    {
      var i :| 0 <= i < |moves| && moves[i] == m;
      assert Stands(files, start, m, Prefix(|moves|, |moves|)[i]);
    }
    forall k | k in keys && k.name != "authorized_keys"
      ensures Carried(files, start, k, Path(dir, k.name))
      ensures Path(home, k.name + ".pub") in start ==>
                Carried(files, start, Path(home, k.name + ".pub"), Path(dir, k.name + ".pub"))
    {
      var one := Move(k, Path(dir, k.name), PrivateKey);
      var half := Path(home, k.name + ".pub");
      var two := Move(half, Path(dir, half.name), PublicKey);
      PlanHoldsExactly(dir, keys, On(start), one);
      PlanHoldsExactly(dir, keys, On(start), two);
      assert TakesKey(dir, k, one);
      assert half in start ==> TakesPublicHalf(dir, k, On(start), two);
    }
  }

  lemma UntruthfulReport(moves: seq<Move>, moved: seq<bool>, stranded: seq<Path>)
    requires Sound(moves) && |moved| == |moves|
    requires exists i :: 0 <= i < |moves| && moved[i]
    requires forall p :: p in stranded ==> exists i :: 0 <= i < |moves| && moves[i].from == p
    ensures !Truthful(moves, moved, stranded)
  {
    var i :| 0 <= i < |moves| && moved[i];
    assert moves[i].to !in stranded;
  }

  lemma SomeIsIn(paths: seq<Path>)
    ensures paths == [] || exists p :: p in paths
  {
    assert paths == [] || paths[0] in paths;
  }

  /** Two keys, a configuration that will not be written, and one reverse rename failing: the
      key that had come back is carried into the new directory again, both keys are there,
      and nothing is named as stranded. */
  method BothKeysLeftUnnamed(disk: Disk, moves: seq<Move>) returns (end: Ended, ghost moved: seq<bool>)
    requires |moves| == 2 && Sound(moves) && FreeDestinations(disk.files, moves)
    requires moves[0].from in disk.files && moves[1].from in disk.files
    requires forall n: nat :: disk.fails(n) <==> n == disk.renames + 3
    modifies disk
    ensures end == RolledBack([]) && moved == [true, true]
    ensures Tracks(disk.files, old(disk.files), moves, moved)
  {
    ghost var first := disk.renames;
    var r;
    ghost var stop;
    r, moved, stop := disk.Apply(moves, Always);
    assert forall i :: 0 <= i < 2 ==> disk.Works(first, i);
    assert r.ok;
    var stranded;
    stranded, moved, stop := disk.RollBack(moves, old(disk.files));
    assert disk.Works(first + 2, 0) && !disk.Works(first + 2, 1);
    assert stop == 1;
    assert !disk.Sticks(first + 4, 1, 0) && !disk.Sticks(first + 4, 1, 1);
    SomeIsIn(stranded);
    end := RolledBack(stranded);
  }

  datatype Ended = Unchanged | MovedAll(paths: seq<Path>) | Stopped(stranded: seq<Path>) | RolledBack(stranded: seq<Path>)

  /** What the user is told holds: the files named as stranded, and no others, are in the new
      directory still. */
  predicate Truthful(moves: seq<Move>, moved: seq<bool>, stranded: seq<Path>)
    requires |moved| == |moves|
  {
    forall i :: 0 <= i < |moves| ==> (moved[i] <==> moves[i].to in stranded)
  }

  function Reversed(moves: seq<Move>): seq<Move> {
    seq(|moves|, i requires 0 <= i < |moves| => Move(moves[i].to, moves[i].from, moves[i].kind))
  }

  lemma ReversedIsSound(files: map<Path, Content>, start: map<Path, Content>, moves: seq<Move>)
    requires Sound(moves) && Tracks(files, start, moves, Prefix(|moves|, |moves|))
    ensures Sound(Reversed(moves)) && FreeDestinations(files, Reversed(moves))
    ensures forall i :: 0 <= i < |moves| ==> moves[i].to in files
  {
    forall i | 0 <= i < |moves|
      ensures moves[i].to in files && moves[i].from !in files
    {
      assert Stands(files, start, moves[i], Prefix(|moves|, |moves|)[i]);
    }
  }

  /** Moves half turned round stand, seen from the beginning, as the ones not turned round. */
  lemma ReturnTracks(files: map<Path, Content>, gone: map<Path, Content>, start: map<Path, Content>,
                     moves: seq<Move>, returned: seq<bool>, moved: seq<bool>)
    requires |returned| == |moved| == |moves| && FreeDestinations(start, moves)
    requires Tracks(gone, start, moves, Prefix(|moves|, |moves|))
    requires Tracks(files, gone, Reversed(moves), returned)
    requires forall i :: 0 <= i < |moves| ==> moved[i] == !returned[i]
    ensures Tracks(files, start, moves, moved)
  {
    forall i | 0 <= i < |moves|
      ensures Stands(files, start, moves[i], moved[i])
    {
      assert Stands(gone, start, moves[i], Prefix(|moves|, |moves|)[i]);
      assert Stands(files, gone, Reversed(moves)[i], returned[i]);
    }
    forall p | !Planned(moves, p)
      ensures Same(files, start, p)
    {
      assert !Planned(Reversed(moves), p);
    }
  }

  lemma ForthOne(files: map<Path, Content>, start: map<Path, Content>, moves: seq<Move>, moved: seq<bool>, n: nat)
    requires |moved| == |moves| && n < |moves| && !moved[n]
    requires Sound(moves) && Tracks(files, start, moves, moved) && moves[n].from in files
    ensures Tracks((files - {moves[n].from})[moves[n].to := files[moves[n].from]], start, moves, moved[n := true])
  {
    var next := (files - {moves[n].from})[moves[n].to := files[moves[n].from]];
    assert Stands(files, start, moves[n], moved[n]);
    forall i | 0 <= i < |moves|
      ensures Stands(next, start, moves[i], moved[n := true][i])
    {
      assert Stands(files, start, moves[i], moved[i]);
    }
    assert Planned(moves, moves[n].from) && Planned(moves, moves[n].to);
  }

  lemma BackOne(files: map<Path, Content>, start: map<Path, Content>, moves: seq<Move>, moved: seq<bool>, n: nat)
    requires |moved| == |moves| && n < |moves| && moved[n]
    requires Sound(moves) && FreeDestinations(start, moves)
    requires Tracks(files, start, moves, moved) && moves[n].to in files
    ensures Tracks((files - {moves[n].to})[moves[n].from := files[moves[n].to]], start, moves, moved[n := false])
  {
    var next := (files - {moves[n].to})[moves[n].from := files[moves[n].to]];
    assert Stands(files, start, moves[n], moved[n]);
    forall i | 0 <= i < |moves|
      ensures Stands(next, start, moves[i], moved[n := false][i])
    {
      assert Stands(files, start, moves[i], moved[i]);
    }
    assert Planned(moves, moves[n].from) && Planned(moves, moves[n].to);
  }
}
