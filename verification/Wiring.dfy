/** Installing and uninstalling the shell hook: which startup files are candidates, where
    the wiring goes beside each of them, writing it, and sweeping it out again. The disk is
    a value; `Installed` and `Uninstalled` say what one run makes of it, and the methods of
    `Machine` are the runs. A path is the sequence of its components. */
module Wiring {
  import opened Wrappers
  import opened Text
  import opened StartupBlock

  type Path = seq<string>

  datatype Disk = Disk(files: map<Path, string>, dirs: set<Path>)

  /** Where a hook goes: a file of our own, or a block inside somebody else's file. */
  datatype Placement = Placement(path: Path, dropIn: bool)

  datatype Scope = User | EveryAccount
  datatype Hosts = AllHosts | CurrentHost

  /** The profiles a PowerShell names; an empty path is one it did not name. */
  datatype Host = Host(default: Path, userAll: Path, userCurrent: Path, allAll: Path,
                       allCurrent: Path, policy: string, language: string)

  /** What a system offers for wiring every account of a Bourne shell. */
  datatype MachineWiring = Directory(dir: Path) | StartupFile(file: Path) | NotKnown

  datatype Shell = Bourne(home: Path, machine: MachineWiring) | PowerShell(host: Host)

  /** `profile` is the file named outright, empty when none was; `rendered` is the hook's
      text and `line` the source line that runs it. */
  datatype Request = Request(shell: Shell, scope: Scope, hosts: Hosts, profile: Path,
                             hookDir: Path, rendered: string, line: string)

  /** Everything worked out before anything is written. `makeDir` is a drop-in directory
      this install has to make itself, empty for none. */
  datatype Plan = Plan(placement: Placement, sweep: seq<Placement>, makeDir: Path)

  /** The disk after a run, and whether the run finished. */
  datatype Outcome = Outcome(disk: Disk, ok: bool)

  // ------------------------------------------------------------------- names

  function Parent(p: Path): Path
    requires p != []
  {
    p[..|p| - 1]
  }

  function Base(p: Path): string
    requires p != []
  {
    p[|p| - 1]
  }

  function DropInDir(shell: Shell, file: Path): Path
    requires file != []
  {
    if shell.Bourne? then Parent(file) + [Base(file) + ".d"] else Parent(file) + ["Profile.d"]
  }

  function DropInName(shell: Shell): string {
    if shell.Bourne? then "50-sshakku-init.sh" else "50-sshakku-init.ps1"
  }

  function DropInPath(shell: Shell, file: Path): Path
    requires file != []
  {
    DropInDir(shell, file) + [DropInName(shell)]
  }

  function HookFile(req: Request): Path {
    req.hookDir + [if req.shell.Bourne? then "shell-hook.sh" else "shell-hook.ps1"]
  }

  const DROP_IN_NOTE := "# sshakku shell hook." + " Regenerate by re-running" + " the sshakku install."

  function DropInFile(shell: Shell, line: string): string {
    var text := DROP_IN_NOTE + "\n" + line + "\n";
    if shell.Bourne? then "#!/bin/bash" + "\n" + text else text
  }

  predicate HeldAt(s: string, word: string, i: nat) {
    i + |word| <= |s| && s[i..i + |word|] == word
  }

  /** strings.Contains. */
  predicate Mentions(s: string, word: string) {
    exists i: nat | i <= |s| :: HeldAt(s, word, i)
  }

  function Content(files: map<Path, string>, p: Path): string {
    if p in files then files[p] else ""
  }

  predicate Exists(disk: Disk, p: Path) {
    p in disk.files || p in disk.dirs
  }

  // --------------------------------------------------------------- candidates

  function LoginFiles(home: Path): seq<Path> {
    [home + [".bash_profile"], home + [".bash_login"], home + [".profile"]]
  }

  /** The first of the candidates that exists, or the first of all where none does. */
  function FirstExisting(disk: Disk, candidates: seq<Path>, i: nat): Path
    requires candidates != [] && i <= |candidates|
    decreases |candidates| - i
  {
    if i == |candidates| then candidates[0]
    else if Exists(disk, candidates[i]) then candidates[i]
    else FirstExisting(disk, candidates, i + 1)
  }

  function Named(host: Host): seq<Path> {
    [host.default, host.userAll, host.userCurrent, host.allAll, host.allCurrent]
  }

  /** The non-empty names, each once, in the order of their first mention. */
  function Distinct(names: seq<Path>): seq<Path> {
    if names == [] then []
    else
      var rest := Distinct(names[..|names| - 1]);
      var last := names[|names| - 1];
      if last != [] && last !in rest then rest + [last] else rest
  }

  function ProfileFor(host: Host, scope: Scope, hosts: Hosts): Path {
    match (scope, hosts)
    case (User, AllHosts) => host.userAll
    case (User, CurrentHost) => host.userCurrent
    case (EveryAccount, AllHosts) => host.allAll
    case (EveryAccount, CurrentHost) => host.allCurrent
  }

  predicate RunsItsProfile(host: Host) {
    host.policy != "Restricted" && host.policy != "AllSigned"
    && (host.language == "" || host.language == "FullLanguage")
  }

  /** The startup files one request is about, and the one it would wire. */
  function Candidates(disk: Disk, req: Request): Result<(seq<Path>, Path)> {
    match req.shell
    case PowerShell(host) =>
      if !RunsItsProfile(host) then Refused
      else if req.profile != [] then Ok(([req.profile], req.profile))
      else
        var target := ProfileFor(host, req.scope, req.hosts);
        if target == [] then Refused else Ok((Distinct(Named(host)), target))
    case Bourne(home, _) =>
      if req.profile != [] then Ok(([req.profile], req.profile))
      else Ok((LoginFiles(home), FirstExisting(disk, LoginFiles(home), 0)))
  }

  // ---------------------------------------------------------------- placement

  /** A file where `dir` would be, or on the way to it. */
  predicate Obstructed(files: map<Path, string>, dir: Path) {
    exists i :: 0 <= i <= |dir| && dir[..i] in files
  }

  /** Beside one startup file: its drop-in directory where one is there and is read, the
      file itself otherwise. PowerShell reads one only when the profile mentions it. */
  function Place(disk: Disk, shell: Shell, file: Path): Result<Placement> {
    if file == [] then Refused
    else
      var dir := DropInDir(shell, file);
      if Obstructed(disk.files, dir) then Refused
      else if dir !in disk.dirs then Ok(Placement(file, false))
      else if shell.Bourne? then Ok(Placement(DropInPath(shell, file), true))
      else if file in disk.dirs then Refused
      else if Mentions(Stripped(Content(disk.files, file)), "Profile.d") then
        Ok(Placement(DropInPath(shell, file), true))
      else Ok(Placement(file, false))
  }

  function PlaceAll(disk: Disk, shell: Shell, files: seq<Path>): Result<seq<Placement>> {
    if files == [] then Ok([])
    else
      match PlaceAll(disk, shell, files[..|files| - 1])
      case Refused => Refused
      case Ok(before) =>
        match Place(disk, shell, files[|files| - 1])
        case Refused => Refused
        case Ok(place) => Ok(before + [place])
  }

  function Resolve(disk: Disk, req: Request): Result<Plan> {
    if req.shell.Bourne? && req.profile == [] && req.scope.EveryAccount? then
      match req.shell.machine
      case Directory(dir) =>
        var place := Placement(dir + [DropInName(req.shell)], true);
        Ok(Plan(place, [place], dir))
      case StartupFile(file) =>
        var place := Placement(file, false);
        Ok(Plan(place, [place], []))
      case NotKnown => Refused
    else
      match Candidates(disk, req)
      case Refused => Refused
      case Ok((files, target)) =>
        match (PlaceAll(disk, req.shell, files), Place(disk, req.shell, target))
        case (Ok(sweep), Ok(place)) => Ok(Plan(place, sweep, []))
        case _ => Refused
  }

  // -------------------------------------------------------- writing and undoing

  function Prefixes(dir: Path): set<Path> {
    set i | 0 <= i <= |dir| :: dir[..i]
  }

  /** mkdir -p: refused when something on the way is a file. */
  function MakeDirs(disk: Disk, dir: Path): Outcome {
    if Obstructed(disk.files, dir) then Outcome(disk, false)
    else Outcome(disk.(dirs := disk.dirs + Prefixes(dir)), true)
  }

  function Put(disk: Disk, path: Path, content: string): Outcome {
    if path in disk.dirs then Outcome(disk, false)
    else Outcome(disk.(files := disk.files[path := content]), true)
  }

  function PutUnder(disk: Disk, dir: Path, path: Path, content: string): Outcome {
    var made := MakeDirs(disk, dir);
    if made.ok then Put(made.disk, path, content) else made
  }

  function Wire(disk: Disk, req: Request, plan: Plan): Outcome {
    var path := plan.placement.path;
    if plan.placement.dropIn then
      var wrapper := DropInFile(req.shell, req.line);
      if plan.makeDir == [] then Put(disk, path, wrapper) else PutUnder(disk, plan.makeDir, path, wrapper)
    else if path == [] || path in disk.dirs then Outcome(disk, false)
    else PutUnder(disk, Parent(path), path, Upserted(Content(disk.files, path), req.line))
  }

  function Installed(disk: Disk, req: Request): Outcome {
    match Resolve(disk, req)
    case Refused => Outcome(disk, false)
    case Ok(plan) =>
      var hooked := PutUnder(disk, req.hookDir, HookFile(req), req.rendered);
      if hooked.ok then Wire(hooked.disk, req, plan) else hooked
  }

  /** One place taken back out: a file of ours removed, a block stripped from another's
      file, which is removed when nothing but white space is left of it. */
  function Unwire(disk: Disk, place: Placement): Outcome {
    var p := place.path;
    if p in disk.dirs then Outcome(disk, false)
    else if p !in disk.files then Outcome(disk, true)
    else if place.dropIn || Blank(Stripped(disk.files[p])) then
      Outcome(disk.(files := disk.files - {p}), true)
    else Outcome(disk.(files := disk.files[p := Stripped(disk.files[p])]), true)
  }

  function UnwireAll(disk: Disk, sweep: seq<Placement>): Outcome
    decreases |sweep|
  {
    if sweep == [] then Outcome(disk, true)
    else
      var first := Unwire(disk, sweep[0]);
      if first.ok then UnwireAll(first.disk, sweep[1..]) else first
  }

  /** The hook file goes, and its directory when that leaves nothing in it. */
  function RemoveHook(disk: Disk, req: Request): Outcome {
    var hook := HookFile(req);
    if hook in disk.dirs then Outcome(disk, false)
    else
      var files := disk.files - {hook};
      var holds := (exists p :: p in files && req.hookDir < p)
                || (exists p :: p in disk.dirs && req.hookDir < p);
      Outcome(Disk(files, if holds then disk.dirs else disk.dirs - {req.hookDir}), true)
  }

  function Uninstalled(disk: Disk, req: Request): Outcome {
    match Resolve(disk, req)
    case Refused => Outcome(disk, false)
    case Ok(plan) =>
      var swept := UnwireAll(disk, plan.sweep);
      if swept.ok then RemoveHook(swept.disk, req) else swept
  }

  // ------------------------------------------------------------- the sweep, path by path

  function Lookup(files: map<Path, string>, p: Path): Option<string> {
    if p in files then Some(files[p]) else None
  }

  /** What stripping a block makes of a file that may not be there. */
  function StripAt(found: Option<string>): Option<string> {
    if found.None? || Blank(Stripped(found.value)) then None else Some(Stripped(found.value))
  }

  predicate SweptAway(sweep: seq<Placement>, p: Path) {
    Placement(p, true) in sweep
  }

  predicate SweptOver(sweep: seq<Placement>, p: Path) {
    Placement(p, false) in sweep
  }

  function AfterSweep(files: map<Path, string>, sweep: seq<Placement>, p: Path): Option<string> {
    if SweptAway(sweep, p) then None
    else if SweptOver(sweep, p) then StripAt(Lookup(files, p))
    else Lookup(files, p)
  }

  lemma StripAtIdempotent(found: Option<string>)
    ensures StripAt(StripAt(found)) == StripAt(found)
  {
    if found.Some? {
      StripIdempotent(found.value);
    }
  }

  lemma UnwireAt(disk: Disk, place: Placement, p: Path)
    requires Unwire(disk, place).ok
    ensures Unwire(disk, place).disk.dirs == disk.dirs
    ensures Lookup(Unwire(disk, place).disk.files, p)
         == (if p != place.path then Lookup(disk.files, p)
             else if place.dropIn then None else StripAt(Lookup(disk.files, p)))
  {
  }

  /** A finished sweep takes our own files away, strips the block from the others, and
      touches nothing it was not about, whatever the order and the repetitions. */
  lemma {:induction false} SweepAt(disk: Disk, sweep: seq<Placement>, p: Path)
    requires UnwireAll(disk, sweep).ok
    ensures UnwireAll(disk, sweep).disk.dirs == disk.dirs
    ensures Lookup(UnwireAll(disk, sweep).disk.files, p) == AfterSweep(disk.files, sweep, p)
    decreases |sweep|
  {
    if sweep != [] {
      var next := Unwire(disk, sweep[0]).disk;
      UnwireAt(disk, sweep[0], p);
      SweepAt(next, sweep[1..], p);
      StripAtIdempotent(Lookup(disk.files, p));
      assert sweep == [sweep[0]] + sweep[1..];
    }
  }

  /** Exactly what a sweep may meet and still put everything back: no file already at a
      place of ours, and no candidate that is blank or not as stripping leaves it. */
  predicate SweepIsHarmless(files: map<Path, string>, sweep: seq<Placement>) {
    forall place :: place in sweep && place.path in files ==>
      !place.dropIn
      && Stripped(files[place.path]) == files[place.path]
      && !Blank(files[place.path])
  }

  lemma HarmlessExactly(files: map<Path, string>, sweep: seq<Placement>)
    ensures SweepIsHarmless(files, sweep)
       <==> forall p :: p in files ==> AfterSweep(files, sweep, p) == Lookup(files, p)
  {
    if SweepIsHarmless(files, sweep) {
      forall p | p in files
        ensures AfterSweep(files, sweep, p) == Lookup(files, p)
      {
        assert Placement(p, true) in sweep ==> !Placement(p, true).dropIn;
        assert Placement(p, false) in sweep ==> Placement(p, false).path in files;
      }
    } else {
      var place :| place in sweep && place.path in files
        && !(!place.dropIn && Stripped(files[place.path]) == files[place.path]
             && !Blank(files[place.path]));
      var p := place.path;
      assert place == Placement(p, place.dropIn);
      assert AfterSweep(files, sweep, p) != Lookup(files, p);
    }
  }

  lemma PutAt(disk: Disk, dir: Path, path: Path, content: string)
    requires PutUnder(disk, dir, path, content).ok
    ensures var after := PutUnder(disk, dir, path, content).disk;
            after.files == disk.files[path := content] && after.dirs == disk.dirs + Prefixes(dir)
  {
  }

  function Hooked(files: map<Path, string>, req: Request): map<Path, string> {
    files[HookFile(req) := req.rendered]
  }

  lemma HookedIs(files: map<Path, string>, req: Request)
    ensures Hooked(files, req) == files[HookFile(req) := req.rendered]
  {
  }

  /** What is written at the place the wiring goes. */
  function WiringText(files: map<Path, string>, req: Request, place: Placement): string {
    if place.dropIn then DropInFile(req.shell, req.line)
    else Upserted(Content(files, place.path), req.line)
  }

  /** What a finished install leaves on the disk: the hook, the one wiring, and the
      directories on the way to them. */
  lemma InstalledIs(disk: Disk, req: Request, plan: Plan)
    requires Resolve(disk, req) == Ok(plan) && Installed(disk, req).ok
    ensures var after := Installed(disk, req).disk;
            var place := plan.placement;
            var made := if place.dropIn then plan.makeDir else Parent(place.path);
            && (place.dropIn || place.path != [])
            && after.files == Hooked(disk.files, req)[place.path :=
                                WiringText(Hooked(disk.files, req), req, place)]
            && disk.dirs <= after.dirs <= disk.dirs + Prefixes(req.hookDir) + Prefixes(made)
  {
    PutAt(disk, req.hookDir, HookFile(req), req.rendered);
    var hooked := PutUnder(disk, req.hookDir, HookFile(req), req.rendered).disk;
    var place := plan.placement;
    if place.dropIn && plan.makeDir != [] {
      PutAt(hooked, plan.makeDir, place.path, DropInFile(req.shell, req.line));
    } else if !place.dropIn {
      PutAt(hooked, Parent(place.path), place.path,
            Upserted(Content(hooked.files, place.path), req.line));
    }
  }

  /** Sweeping after an install gives what sweeping the untouched disk would have given:
      the wiring that was written is gone, however it was written. */
  lemma SweepAfterInstall(disk: Disk, req: Request, plan: Plan, sweep: seq<Placement>, p: Path)
    requires Resolve(disk, req) == Ok(plan) && Installed(disk, req).ok
    requires plan.placement in sweep && p != HookFile(req) && plan.placement.path != HookFile(req)
    requires !HoldsEndMarker(req.line)
    ensures AfterSweep(Installed(disk, req).disk.files, sweep, p) == AfterSweep(disk.files, sweep, p)
  {
    InstalledIs(disk, req, plan);
    var place := plan.placement;
    if p == place.path {
      assert place == Placement(p, place.dropIn);
      if !place.dropIn {
        NoEndMarkerNoEscape(req.line);
        StripUndoesUpsert(Content(disk.files, p), req.line);
        if p !in disk.files {
          assert Stripped("") == "";
        }
      }
    }
  }

  /** One round trip, with the sweep the uninstall worked out for itself. */
  lemma SweepRestores(disk: Disk, req: Request, plan: Plan, back: Request, swept: Plan)
    requires Resolve(disk, req) == Ok(plan) && Installed(disk, req).ok
    requires var wired := Installed(disk, req).disk;
             Resolve(wired, back) == Ok(swept) && Uninstalled(wired, back).ok
    requires HookFile(back) == HookFile(req) && !HoldsEndMarker(req.line)
    requires plan.placement in swept.sweep
    requires forall place :: place in swept.sweep ==> place.path != HookFile(req)
    ensures Uninstalled(Installed(disk, req).disk, back).disk.files == disk.files - {HookFile(req)}
       <==> SweepIsHarmless(disk.files, swept.sweep)
  {
    var hook := HookFile(req);
    var sweep := swept.sweep;
    var wired := Installed(disk, req).disk;
    var after := UnwireAll(wired, sweep).disk;
    var final := Uninstalled(wired, back).disk;
    assert final.files == after.files - {hook};
    forall p | p != hook
      ensures Lookup(final.files, p) == AfterSweep(disk.files, sweep, p)
    {
      SweepAt(wired, sweep, p);
      SweepAfterInstall(disk, req, plan, sweep, p);
    }
    HarmlessExactly(disk.files, sweep);
    assert AfterSweep(disk.files, sweep, hook) == Lookup(disk.files, hook) by {
      assert !SweptAway(sweep, hook) && !SweptOver(sweep, hook);
    }
    SameOutside(final.files, disk.files, hook, sweep);
  }

  lemma SameFiles(a: map<Path, string>, b: map<Path, string>)
    ensures a == b <==> forall p :: Lookup(a, p) == Lookup(b, p)
  {
    if forall p :: Lookup(a, p) == Lookup(b, p) {
      assert forall p :: p in a <==> Lookup(a, p).Some?;
      assert forall p :: p in b <==> Lookup(b, p).Some?;
      assert forall p | p in a :: a[p] == Lookup(a, p).value;
    }
  }

  lemma SameOutside(final: map<Path, string>, files: map<Path, string>, hook: Path, sweep: seq<Placement>)
    requires forall p :: p != hook ==> Lookup(final, p) == AfterSweep(files, sweep, p)
    requires hook !in final && AfterSweep(files, sweep, hook) == Lookup(files, hook)
    ensures final == files - {hook}
       <==> forall p :: p in files ==> AfterSweep(files, sweep, p) == Lookup(files, p)
  {
    SameFiles(final, files - {hook});
    assert forall p :: Lookup(files - {hook}, p) == if p == hook then None else Lookup(files, p);
    assert forall p :: p !in files ==> AfterSweep(files, sweep, p) == None;
  }

  // -------------------------------------------------------- placement is stable

  /** Startup files, and a hook, that do not lie on each other's way: no candidate is
      another's drop-in directory or wrapper, and none of these directories lies on the
      path to a file the install writes. */
  predicate Apart(shell: Shell, files: seq<Path>, hookDir: Path, hook: Path) {
    && (forall c :: c in files ==>
          c != [] && hook != c && hook != DropInDir(shell, c) && hook != DropInPath(shell, c)
          && !(DropInDir(shell, c) <= hookDir) && !(c <= hookDir) && !(hook <= Parent(c)))
    && (forall c, d :: c in files && d in files ==>
          c != DropInDir(shell, d) && c != DropInPath(shell, d)
          && !(DropInDir(shell, c) <= Parent(d)) && !(c <= Parent(d)))
  }

  lemma WrapperIsNoDirectory(shell: Shell, c: Path, d: Path)
    requires c != [] && d != []
    ensures DropInPath(shell, c) != DropInDir(shell, d)
  {
    var name := DropInName(shell);
    var dir := DropInDir(shell, d);
    assert Base(DropInPath(shell, c)) == name;
    assert Base(dir) == if shell.Bourne? then Base(d) + ".d" else "Profile.d";
    assert Base(dir)[|Base(dir)| - 1] == 'd';
    assert name[|name| - 1] != 'd';
  }

  /** Where the wiring goes beside a file depends on nothing an install changes. */
  lemma PlaceStable(disk: Disk, after: Disk, shell: Shell, file: Path)
    requires file != []
    requires var dir := DropInDir(shell, file);
             (Obstructed(disk.files, dir) <==> Obstructed(after.files, dir)) && (dir in disk.dirs <==> dir in after.dirs)
    requires file in disk.dirs <==> file in after.dirs
    requires Stripped(Content(disk.files, file)) == Stripped(Content(after.files, file))
    ensures Place(after, shell, file) == Place(disk, shell, file)
  {
  }

  lemma {:induction false} PlaceAllStable(disk: Disk, after: Disk, shell: Shell, files: seq<Path>)
    requires forall f :: f in files ==> Place(after, shell, f) == Place(disk, shell, f)
    ensures PlaceAll(after, shell, files) == PlaceAll(disk, shell, files)
    decreases |files|
  {
    if files != [] {
      var last := files[|files| - 1];
      assert last in files;
      PlaceAllStable(disk, after, shell, files[..|files| - 1]);
    }
  }

  lemma {:induction false} PlacesAre(disk: Disk, shell: Shell, files: seq<Path>)
    requires PlaceAll(disk, shell, files).Ok?
    ensures forall f :: f in files ==>
              Place(disk, shell, f).Ok? && Place(disk, shell, f).value in PlaceAll(disk, shell, files).value
    ensures forall place :: place in PlaceAll(disk, shell, files).value ==> IsPlaceOf(disk, shell, files, place)
    decreases |files|
  {
    hide Place;
    if files != [] {
      var front, last := files[..|files| - 1], files[|files| - 1];
      PlacesAre(disk, shell, front);
      assert files == front + [last];
      NoPlaceForNothing(disk, shell);
      forall place | place in PlaceAll(disk, shell, files).value
        ensures IsPlaceOf(disk, shell, files, place)
      {
        if place in PlaceAll(disk, shell, front).value {
          var f :| f in front && f != [] && Place(disk, shell, f) == Ok(place);
          assert f in files;
        } else {
          assert Place(disk, shell, last) == Ok(place);
        }
      }
    }
  }

  predicate IsPlaceOf(disk: Disk, shell: Shell, files: seq<Path>, place: Placement) {
    exists f :: f in files && f != [] && Place(disk, shell, f) == Ok(place)
  }

  lemma NoPlaceForNothing(disk: Disk, shell: Shell)
    ensures Place(disk, shell, []).Refused?
  {
  }

  lemma NotUnder(p: Path, dir: Path)
    requires !(p <= dir)
    ensures p !in Prefixes(dir)
  {
  }

  /** The one target an install of `req` wires is `target`, beside or inside it. */
  predicate Wires(disk: Disk, req: Request, plan: Plan, files: seq<Path>, target: Path) {
    && Resolve(disk, req) == Ok(plan) && Installed(disk, req).ok && plan.makeDir == []
    && Apart(req.shell, files, req.hookDir, HookFile(req)) && target in files
    && Place(disk, req.shell, target) == Ok(plan.placement)
  }

  lemma WiredPath(disk: Disk, req: Request, plan: Plan, files: seq<Path>, target: Path)
    requires Wires(disk, req, plan, files, target)
    ensures plan.placement.path == if plan.placement.dropIn then DropInPath(req.shell, target) else target
    ensures var after := Installed(disk, req).disk;
            disk.dirs <= after.dirs <= disk.dirs + Prefixes(req.hookDir) + Prefixes(Parent(target)) + {[]}
  {
    InstalledIs(disk, req, plan);
    assert Prefixes([]) == {[]};
  }

  lemma CandidateDirs(disk: Disk, req: Request, plan: Plan, files: seq<Path>, target: Path, f: Path)
    requires Wires(disk, req, plan, files, target) && f in files
    ensures var after := Installed(disk, req).disk;
            var dir := DropInDir(req.shell, f);
            (dir in disk.dirs <==> dir in after.dirs) && (f in disk.dirs <==> f in after.dirs)
  {
    var dir := DropInDir(req.shell, f);
    WiredPath(disk, req, plan, files, target);
    NotUnder(dir, req.hookDir);
    NotUnder(f, req.hookDir);
    NotUnder(dir, Parent(target));
    NotUnder(f, Parent(target));
  }

  lemma WayStays(files: map<Path, string>, hook: Path, rendered: string, p: Path, text: string, dir: Path)
    requires dir != [] && hook != dir && !(hook <= Parent(dir)) && p != dir && !(p <= Parent(dir))
    ensures Obstructed(files, dir) <==> Obstructed(files[hook := rendered][p := text], dir)
  {
    forall i | 0 <= i <= |dir|
      ensures dir[..i] != hook && dir[..i] != p
    {
      if i < |dir| {
        assert dir[..i] == Parent(dir)[..i];
      } else {
        assert dir[..i] == dir;
      }
    }
  }

  /** An install puts no file in the way of another candidate's drop-in directory. */
  lemma CandidateWay(disk: Disk, req: Request, plan: Plan, files: seq<Path>, target: Path, f: Path)
    requires Wires(disk, req, plan, files, target) && f in files
    ensures var dir := DropInDir(req.shell, f);
            Obstructed(disk.files, dir) <==> Obstructed(Installed(disk, req).disk.files, dir)
  {
    InstalledIs(disk, req, plan);
    WrittenApart(disk, req, plan, files, target, f);
    hide *;
    HookedIs(disk.files, req);
    WayStays(disk.files, HookFile(req), req.rendered, plan.placement.path,
             WiringText(Hooked(disk.files, req), req, plan.placement), DropInDir(req.shell, f));
  }

  lemma WrittenApart(disk: Disk, req: Request, plan: Plan, files: seq<Path>, target: Path, f: Path)
    requires Wires(disk, req, plan, files, target) && f in files
    ensures var dir, hook := DropInDir(req.shell, f), HookFile(req);
            && dir != [] && hook != dir && !(hook <= Parent(dir))
            && plan.placement.path != dir && !(plan.placement.path <= Parent(dir))
  {
    hide Installed, Resolve, Place;
    WiredPath(disk, req, plan, files, target);
    WrapperIsNoDirectory(req.shell, target, f);
    DropInIsNotMade(req.shell, target, Parent(f));
    assert Parent(DropInDir(req.shell, f)) == Parent(f);
  }

  lemma CandidateText(disk: Disk, req: Request, plan: Plan, files: seq<Path>, target: Path, f: Path)
    requires Wires(disk, req, plan, files, target) && f in files
    requires !HoldsEndMarker(req.line)
    ensures Stripped(Content(disk.files, f)) == Stripped(Content(Installed(disk, req).disk.files, f))
  {
    hide Installed, Resolve, Place, Stripped, Upserted;
    InstalledIs(disk, req, plan);
    WiredPath(disk, req, plan, files, target);
    NoEndMarkerNoEscape(req.line);
    StripUndoesUpsert(Content(disk.files, f), req.line);
  }

  /** One candidate's placement, across an install that wired another or the same one. */
  lemma CandidateStable(disk: Disk, req: Request, plan: Plan, files: seq<Path>, target: Path, f: Path)
    requires Wires(disk, req, plan, files, target) && f in files
    requires !HoldsEndMarker(req.line)
    ensures Place(Installed(disk, req).disk, req.shell, f) == Place(disk, req.shell, f)
  {
    CandidateDirs(disk, req, plan, files, target, f);
    CandidateText(disk, req, plan, files, target, f);
    CandidateWay(disk, req, plan, files, target, f);
    hide Installed, Stripped, Obstructed, Mentions;
    PlaceStable(disk, Installed(disk, req).disk, req.shell, f);
  }

  /** A wiring for every account of a Bourne shell, which no candidate is searched for. */
  predicate MachineWide(req: Request) {
    req.shell.Bourne? && req.profile == [] && req.scope.EveryAccount?
  }

  /** What a caller can see before installing: the startup files and the hook lie apart,
      and the source line does not itself close the block. */
  predicate WellPlaced(disk: Disk, req: Request) {
    && !HoldsEndMarker(req.line)
    && match Candidates(disk, req)
       case Refused => true
       case Ok((files, target)) =>
         MachineWide(req) || Apart(req.shell, files, req.hookDir, HookFile(req))
  }

  lemma PlaceIs(disk: Disk, shell: Shell, file: Path)
    requires Place(disk, shell, file).Ok?
    ensures var place := Place(disk, shell, file).value;
            file != [] && place.path == if place.dropIn then DropInPath(shell, file) else file
  {
  }

  lemma ResolvedFrom(disk: Disk, req: Request, plan: Plan)
    requires Resolve(disk, req) == Ok(plan) && !MachineWide(req)
    ensures Candidates(disk, req).Ok? && plan.makeDir == []
    ensures PlaceAll(disk, req.shell, Candidates(disk, req).value.0) == Ok(plan.sweep)
    ensures Place(disk, req.shell, Candidates(disk, req).value.1) == Ok(plan.placement)
  {
  }

  lemma ApartFromHook(shell: Shell, files: seq<Path>, hookDir: Path, hook: Path, f: Path)
    requires Apart(shell, files, hookDir, hook) && f in files
    ensures f != [] && hook != f && hook != DropInPath(shell, f)
  {
  }

  /** The hook is not itself one of the places swept. */
  lemma HookIsNoPlace(disk: Disk, req: Request, plan: Plan, place: Placement)
    requires Resolve(disk, req) == Ok(plan) && WellPlaced(disk, req) && place in plan.sweep
    requires MachineWide(req) ==> plan.placement.path != HookFile(req)
    ensures place.path != HookFile(req)
  {
    if !MachineWide(req) {
      ResolvedFrom(disk, req, plan);
      var files := Candidates(disk, req).value.0;
      PlacesAre(disk, req.shell, files);
      var f :| f in files && f != [] && Place(disk, req.shell, f) == Ok(place);
      PlaceIs(disk, req.shell, f);
      ApartFromHook(req.shell, files, req.hookDir, HookFile(req), f);
    }
  }

  lemma {:induction false} DistinctHolds(names: seq<Path>)
    ensures forall p :: p in Distinct(names) <==> p in names && p != []
    ensures forall i, j :: 0 <= i < j < |Distinct(names)| ==> Distinct(names)[i] != Distinct(names)[j]
    decreases |names|
  {
    if names != [] {
      DistinctHolds(names[..|names| - 1]);
      assert names == names[..|names| - 1] + [names[|names| - 1]];
    }
  }

  lemma {:induction false} FirstExistingIsCandidate(disk: Disk, candidates: seq<Path>, i: nat)
    requires candidates != [] && i <= |candidates|
    ensures FirstExisting(disk, candidates, i) in candidates
    decreases |candidates| - i
  {
    if i < |candidates| {
      FirstExistingIsCandidate(disk, candidates, i + 1);
    }
  }

  lemma TargetIsCandidate(disk: Disk, req: Request)
    requires Candidates(disk, req).Ok?
    ensures Candidates(disk, req).value.1 in Candidates(disk, req).value.0
  {
    match req.shell {
      case PowerShell(host) =>
        DistinctHolds(Named(host));
        assert host.userAll == Named(host)[1] && host.userCurrent == Named(host)[2];
        assert host.allAll == Named(host)[3] && host.allCurrent == Named(host)[4];
      case Bourne(home, _) =>
        FirstExistingIsCandidate(disk, LoginFiles(home), 0);
    }
  }

  lemma PlanIsWired(disk: Disk, req: Request, plan: Plan)
    requires Resolve(disk, req) == Ok(plan) && Installed(disk, req).ok
    requires WellPlaced(disk, req)
    ensures plan.placement in plan.sweep
    ensures !MachineWide(req) ==>
              var (files, target) := Candidates(disk, req).value;
              Wires(disk, req, plan, files, target) && PlaceAll(disk, req.shell, files) == Ok(plan.sweep)
  {
    if !MachineWide(req) {
      TargetIsCandidate(disk, req);
      PlacesAre(disk, req.shell, Candidates(disk, req).value.0);
    }
  }

  /** Whether an uninstall with other hosts is about any file at all: a PowerShell may name no
      profile for them. */
  predicate NamesTarget(req: Request, hosts: Hosts) {
    match req.shell
    case PowerShell(host) => req.profile != [] || ProfileFor(host, req.scope, hosts) != []
    case Bourne(_, _) => true
  }

  lemma SameCandidates(disk: Disk, after: Disk, req: Request, hosts: Hosts)
    requires Candidates(disk, req).Ok?
    ensures Candidates(after, req.(hosts := hosts)).Ok? <==> NamesTarget(req, hosts)
    ensures NamesTarget(req, hosts) ==>
              Candidates(after, req.(hosts := hosts)).value.0 == Candidates(disk, req).value.0
  {
  }

  lemma ResolvedBy(disk: Disk, req: Request, sweep: seq<Placement>)
    requires !MachineWide(req) && Candidates(disk, req).Ok?
    requires PlaceAll(disk, req.shell, Candidates(disk, req).value.0) == Ok(sweep)
    ensures Resolve(disk, req).Ok? && Resolve(disk, req).value.sweep == sweep
  {
    TargetIsCandidate(disk, req);
    PlacesAre(disk, req.shell, Candidates(disk, req).value.0);
  }

  /** An install moves the placement of no candidate, its own target included. */
  lemma PlacesStand(disk: Disk, req: Request)
    requires Installed(disk, req).ok && WellPlaced(disk, req) && Candidates(disk, req).Ok?
    ensures !MachineWide(req) ==>
              forall f <- Candidates(disk, req).value.0 ::
                Place(Installed(disk, req).disk, req.shell, f) == Place(disk, req.shell, f)
  {
    if !MachineWide(req) {
      var plan := Resolve(disk, req).value;
      PlanIsWired(disk, req, plan);
      var (files, target) := Candidates(disk, req).value;
      forall f <- files
        ensures Place(Installed(disk, req).disk, req.shell, f) == Place(disk, req.shell, f)
      {
        CandidateStable(disk, req, plan, files, target, f);
      }
    }
  }

  lemma PlacesStable(disk: Disk, req: Request, plan: Plan)
    requires Resolve(disk, req) == Ok(plan) && Installed(disk, req).ok && WellPlaced(disk, req) && !MachineWide(req)
    ensures PlaceAll(Installed(disk, req).disk, req.shell, Candidates(disk, req).value.0) == Ok(plan.sweep)
  {
    var after := Installed(disk, req).disk;
    PlanIsWired(disk, req, plan);
    PlacesStand(disk, req);
    PlaceAllStable(disk, after, req.shell, Candidates(disk, req).value.0);
  }

  /** An uninstall on the wired disk works out a sweep exactly when its `--hosts` name a file,
      and whatever they are it is the one the install would have worked out before it wrote
      anything. */
  lemma SweepStable(disk: Disk, req: Request, hosts: Hosts)
    requires Installed(disk, req).ok && WellPlaced(disk, req)
    ensures var swept := Resolve(Installed(disk, req).disk, req.(hosts := hosts));
            && (swept.Ok? <==> NamesTarget(req, hosts))
            && (swept.Ok? ==> swept.value.sweep == Resolve(disk, req).value.sweep)
  {
    var plan := Resolve(disk, req).value;
    var back := req.(hosts := hosts);
    var after := Installed(disk, req).disk;
    if MachineWide(req) {
      assert Resolve(after, back) == Resolve(disk, req);
    } else {
      ResolvedFrom(disk, req, plan);
      SameCandidates(disk, after, req, hosts);
      PlacesStable(disk, req, plan);
      if NamesTarget(req, hosts) {
        ResolvedBy(after, back, plan.sweep);
      } else {
        assert Candidates(after, back).Refused?;
      }
    }
  }

  // ------------------------------------------------------ when an uninstall finishes

  lemma {:induction false} UnwireAllFinishes(disk: Disk, sweep: seq<Placement>)
    ensures UnwireAll(disk, sweep).ok <==> forall place <- sweep :: place.path !in disk.dirs
    decreases |sweep|
  {
    if sweep != [] {
      assert sweep == [sweep[0]] + sweep[1..];
      UnwireAllFinishes(Unwire(disk, sweep[0]).disk, sweep[1..]);
    }
  }

  /** Finished or not, a sweep leaves alone what it is not about. */
  lemma {:induction false} UnwireAllKeeps(disk: Disk, sweep: seq<Placement>, p: Path)
    requires forall place <- sweep :: place.path != p
    ensures p in disk.files ==> p in UnwireAll(disk, sweep).disk.files
    ensures UnwireAll(disk, sweep).disk.dirs == disk.dirs
    decreases |sweep|
  {
    if sweep != [] {
      assert sweep[0] in sweep;
      UnwireAllKeeps(Unwire(disk, sweep[0]).disk, sweep[1..], p);
    }
  }

  lemma MadeOnTheWay(disk: Disk, dir: Path, path: Path, content: string, other: Path)
    requires PutUnder(disk, dir, path, content).ok
    ensures path !in PutUnder(disk, dir, path, content).disk.dirs
    ensures other in disk.files ==> other !in Prefixes(dir)
  {
  }

  /** What an install wrote is a file: no directory stands where the hook or the wiring is. */
  lemma WrittenIsNoDirectory(disk: Disk, req: Request, plan: Plan)
    requires Resolve(disk, req) == Ok(plan) && Installed(disk, req).ok
    ensures HookFile(req) !in Installed(disk, req).disk.dirs
    ensures plan.placement.path !in Installed(disk, req).disk.dirs
  {
    var hook, place := HookFile(req), plan.placement;
    var hooked := PutUnder(disk, req.hookDir, hook, req.rendered).disk;
    MadeOnTheWay(disk, req.hookDir, hook, req.rendered, hook);
    if place.dropIn && plan.makeDir != [] {
      MadeOnTheWay(hooked, plan.makeDir, place.path, DropInFile(req.shell, req.line), hook);
    } else if !place.dropIn {
      MadeOnTheWay(hooked, Parent(place.path), place.path, Upserted(Content(hooked.files, place.path), req.line), hook);
    }
  }

  lemma DropInIsNotMade(shell: Shell, f: Path, dir: Path)
    requires f != [] && !(DropInDir(shell, f) <= dir)
    ensures !(DropInPath(shell, f) <= dir)
  {
    var path := DropInPath(shell, f);
    assert path[..|path| - 1] == DropInDir(shell, f);
  }

  lemma CandidatePathDirs(disk: Disk, req: Request, plan: Plan, files: seq<Path>, target: Path, f: Path)
    requires Wires(disk, req, plan, files, target) && f in files && f != []
    ensures var after := Installed(disk, req).disk;
            var path := DropInPath(req.shell, f);
            path in after.dirs <==> path in disk.dirs
  {
    hide Installed, Resolve, Place;
    var path := DropInPath(req.shell, f);
    WiredPath(disk, req, plan, files, target);
    DropInIsNotMade(req.shell, f, req.hookDir);
    DropInIsNotMade(req.shell, f, Parent(target));
    NotUnder(path, req.hookDir);
    NotUnder(path, Parent(target));
  }

  /** An install makes no directory where the sweep will look for a file. */
  lemma SweptDirsStable(disk: Disk, req: Request, plan: Plan, place: Placement)
    requires Resolve(disk, req) == Ok(plan) && Installed(disk, req).ok && WellPlaced(disk, req)
    requires place in plan.sweep
    ensures place.path in Installed(disk, req).disk.dirs <==> place.path in disk.dirs
  {
    hide Installed, Apart, DropInPath, DropInDir;
    if MachineWide(req) {
      InstalledIs(disk, req, plan);
      WrittenIsNoDirectory(disk, req, plan);
    } else {
      hide Resolve, Place, Candidates;
      PlanIsWired(disk, req, plan);
      var (files, target) := Candidates(disk, req).value;
      PlacesAre(disk, req.shell, files);
      var f :| f in files && f != [] && Place(disk, req.shell, f) == Ok(place);
      PlaceIs(disk, req.shell, f);
      CandidateDirs(disk, req, plan, files, target, f);
      CandidatePathDirs(disk, req, plan, files, target, f);
    }
  }

  /** What can be seen before the install: the hosts name a file, and no directory stands where
      a startup file or a drop-in of ours would be. */
  predicate Finishes(disk: Disk, req: Request, hosts: Hosts)
    requires Resolve(disk, req).Ok?
  {
    NamesTarget(req, hosts) && forall place <- Resolve(disk, req).value.sweep :: place.path !in disk.dirs
  }

  /** After an install, exactly when an uninstall gets to its end. One that does not leaves the
      hook where it is. */
  lemma UninstallFinishesExactly(disk: Disk, req: Request, hosts: Hosts)
    requires Installed(disk, req).ok && WellPlaced(disk, req)
    requires MachineWide(req) ==> Resolve(disk, req).value.placement.path != HookFile(req)
    ensures var end := Uninstalled(Installed(disk, req).disk, req.(hosts := hosts));
            && (end.ok <==> Finishes(disk, req, hosts))
            && (!end.ok ==> HookFile(req) in end.disk.files)
  {
    hide Candidates, PlaceAll, Apart;
    var plan := Resolve(disk, req).value;
    var wired, back, hook := Installed(disk, req).disk, req.(hosts := hosts), HookFile(req);
    SweepStable(disk, req, hosts);
    InstalledIs(disk, req, plan);
    WrittenIsNoDirectory(disk, req, plan);
    UnwireAllFinishes(wired, plan.sweep);
    forall place <- plan.sweep
      ensures place.path in wired.dirs <==> place.path in disk.dirs
      ensures place.path != hook
    {
      SweptDirsStable(disk, req, plan, place);
      HookIsNoPlace(disk, req, plan, place);
    }
    UnwireAllKeeps(wired, plan.sweep, hook);
    assert HookFile(back) == hook;
  }

  // ------------------------------------------------------------- main results

  /** Install then uninstall gives back every file byte for byte, a file the install had
      to create included, exactly when the uninstall gets to its end and its sweep meets nothing
      it would change by itself: no blank or unnormalised candidate, no earlier file at a place
      of ours. Both can be seen before the install. */
  lemma RoundTrip(disk: Disk, req: Request, hosts: Hosts)
    requires Installed(disk, req).ok && WellPlaced(disk, req)
    requires MachineWide(req) ==> Resolve(disk, req).value.placement.path != HookFile(req)
    ensures Uninstalled(Installed(disk, req).disk, req.(hosts := hosts)).disk.files
            == disk.files - {HookFile(req)}
       <==> Finishes(disk, req, hosts) && SweepIsHarmless(disk.files, Resolve(disk, req).value.sweep)
  {
    InstallResolves(disk, req);
    hide Candidates, PlaceAll, Apart, Unwire, UnwireAll, SweepIsHarmless, Installed, RemoveHook;
    var plan := Resolve(disk, req).value;
    var back := req.(hosts := hosts);
    UninstallFinishesExactly(disk, req, hosts);
    if Finishes(disk, req, hosts) {
      SweepStable(disk, req, hosts);
      PlanIsWired(disk, req, plan);
      forall place | place in plan.sweep
        ensures place.path != HookFile(req)
      {
        HookIsNoPlace(disk, req, plan, place);
      }
      SweepRestores(disk, req, plan, back, Resolve(Installed(disk, req).disk, back).value);
    }
  }

  lemma InstallResolves(disk: Disk, req: Request)
    requires Installed(disk, req).ok
    ensures Resolve(disk, req).Ok?
  {
  }

  lemma {:induction false} FirstExistingStable(disk: Disk, after: Disk, candidates: seq<Path>, i: nat)
    requires candidates != [] && i <= |candidates|
    requires forall c :: c in candidates && Exists(disk, c) ==> Exists(after, c)
    requires forall c :: c in candidates && Exists(after, c) ==>
               Exists(disk, c) || c == FirstExisting(disk, candidates, i)
    ensures FirstExisting(after, candidates, i) == FirstExisting(disk, candidates, i)
    decreases |candidates| - i
  {
    if i < |candidates| && !Exists(disk, candidates[i]) && !Exists(after, candidates[i]) {
      FirstExistingStable(disk, after, candidates, i + 1);
    }
  }

  /** The login file chosen before an install is the one chosen after it. */
  lemma TargetStable(disk: Disk, req: Request, plan: Plan)
    requires Resolve(disk, req) == Ok(plan) && Installed(disk, req).ok && WellPlaced(disk, req)
    requires !MachineWide(req)
    ensures Candidates(Installed(disk, req).disk, req) == Candidates(disk, req)
  {
    PlanIsWired(disk, req, plan);
    var (files, target) := Candidates(disk, req).value;
    if req.shell.Bourne? && req.profile == [] {
      var after := Installed(disk, req).disk;
      InstalledIs(disk, req, plan);
      WiredPath(disk, req, plan, files, target);
      forall c | c in files && Exists(after, c)
        ensures Exists(disk, c) || c == target
      {
        CandidateDirs(disk, req, plan, files, target, c);
      }
      FirstExistingStable(disk, after, files, 0);
    }
  }

  lemma PlacementStable(disk: Disk, req: Request, plan: Plan, again: Plan)
    requires Resolve(disk, req) == Ok(plan) && Installed(disk, req).ok && WellPlaced(disk, req)
    requires Resolve(Installed(disk, req).disk, req) == Ok(again)
    ensures again.placement == plan.placement && again.makeDir == plan.makeDir
  {
    var once := Installed(disk, req).disk;
    if MachineWide(req) {
      assert Resolve(once, req) == Resolve(disk, req);
    } else {
      PlanIsWired(disk, req, plan);
      TargetStable(disk, req, plan);
      ResolvedFrom(disk, req, plan);
      ResolvedFrom(once, req, again);
      var (files, target) := Candidates(disk, req).value;
      CandidateStable(disk, req, plan, files, target, target);
    }
  }

  lemma WrittenTwice(files: map<Path, string>, hook: Path, rendered: string, p: Path, text: string)
    requires p != hook
    ensures var once := files[hook := rendered][p := text];
            once[hook := rendered][p := text] == once && Content(once[hook := rendered], p) == text
    ensures Content(files[hook := rendered], p) == Content(files, p)
  {
  }

  lemma WiredTwice(files: map<Path, string>, req: Request, place: Placement)
    requires place.path != HookFile(req) && !HoldsEndMarker(req.line)
    ensures var once := Hooked(files, req)[place.path := WiringText(Hooked(files, req), req, place)];
            Hooked(once, req)[place.path := WiringText(Hooked(once, req), req, place)] == once
  {
    var text := WiringText(Hooked(files, req), req, place);
    WrittenTwice(files, HookFile(req), req.rendered, place.path, text);
    NoEndMarkerNoEscape(req.line);
    UpsertReplaces(Content(files, place.path), req.line, req.line);
  }

  lemma MakeDirsAgain(disk: Disk, dir: Path)
    requires Prefixes(dir) <= disk.dirs && forall i :: 0 <= i <= |dir| ==> dir[..i] !in disk.files
    ensures MakeDirs(disk, dir) == Outcome(disk, true)
  {
    assert disk.dirs + Prefixes(dir) == disk.dirs;
  }

  /** Where a file has been put under a directory, another can be put there again. */
  lemma PutAgain(disk: Disk, dir: Path, path: Path, content: string)
    requires path !in disk.dirs && Prefixes(dir) <= disk.dirs
    requires forall i :: 0 <= i <= |dir| ==> dir[..i] !in disk.files
    ensures PutUnder(disk, dir, path, content) == Outcome(disk.(files := disk.files[path := content]), true)
  {
    MakeDirsAgain(disk, dir);
  }

  /** The directories an install made are there, and no file stands on the way to them. */
  lemma WaysAreClear(disk: Disk, req: Request, plan: Plan)
    requires Resolve(disk, req) == Ok(plan) && Installed(disk, req).ok
    ensures var after := Installed(disk, req).disk;
            var made := if plan.placement.dropIn then plan.makeDir else Parent(plan.placement.path);
            && (plan.placement.dropIn || plan.placement.path != [])
            && Prefixes(req.hookDir) <= after.dirs
            && (forall i :: 0 <= i <= |req.hookDir| ==> req.hookDir[..i] !in after.files)
            && (made != [] || !plan.placement.dropIn ==>
                 && Prefixes(made) <= after.dirs
                 && forall i :: 0 <= i <= |made| ==> made[..i] !in after.files)
  {
    var hook, place := HookFile(req), plan.placement;
    var hooked := PutUnder(disk, req.hookDir, hook, req.rendered).disk;
    var after := Installed(disk, req).disk;
    PutAt(disk, req.hookDir, hook, req.rendered);
    InstalledIs(disk, req, plan);
    WrittenIsNoDirectory(disk, req, plan);
    OnTheWay(disk, req.hookDir, hook, req.rendered);
    if place.dropIn && plan.makeDir != [] {
      PutAt(hooked, plan.makeDir, place.path, DropInFile(req.shell, req.line));
      OnTheWay(hooked, plan.makeDir, place.path, DropInFile(req.shell, req.line));
    } else if !place.dropIn {
      PutAt(hooked, Parent(place.path), place.path, Upserted(Content(hooked.files, place.path), req.line));
      OnTheWay(hooked, Parent(place.path), place.path, Upserted(Content(hooked.files, place.path), req.line));
    }
    forall i | 0 <= i <= |req.hookDir|
      ensures req.hookDir[..i] !in after.files
    {
      assert req.hookDir[..i] in Prefixes(req.hookDir);
    }
  }

  lemma OnTheWay(disk: Disk, dir: Path, path: Path, content: string)
    requires PutUnder(disk, dir, path, content).ok
    ensures forall i :: 0 <= i <= |dir| ==> dir[..i] !in PutUnder(disk, dir, path, content).disk.files
  {
    forall i | 0 <= i <= |dir|
      ensures dir[..i] !in PutUnder(disk, dir, path, content).disk.files
    {
      assert dir[..i] in Prefixes(dir);
    }
  }

  /** A second install on the disk the first left finishes too. */
  lemma InstallFinishesAgain(disk: Disk, req: Request)
    requires Installed(disk, req).ok && WellPlaced(disk, req)
    ensures Installed(Installed(disk, req).disk, req).ok
  {
    hide Candidates, PlaceAll, Apart, Place;
    var plan := Resolve(disk, req).value;
    var once := Installed(disk, req).disk;
    SweepStable(disk, req, req.hosts);
    assert req.(hosts := req.hosts) == req;
    OwnHosts(disk, req);
    var again := Resolve(once, req).value;
    PlacementStable(disk, req, plan, again);
    WrittenIsNoDirectory(disk, req, plan);
    WaysAreClear(disk, req, plan);
    PutAgain(once, req.hookDir, HookFile(req), req.rendered);
    var hooked := once.(files := once.files[HookFile(req) := req.rendered]);
    InstalledIs(disk, req, plan);
    WireAgain(hooked, req, again);
  }

  lemma OwnHosts(disk: Disk, req: Request)
    requires Resolve(disk, req).Ok?
    ensures NamesTarget(req, req.hosts)
  {
  }

  lemma WireAgain(disk: Disk, req: Request, plan: Plan)
    requires plan.placement.path !in disk.dirs && (plan.placement.dropIn || plan.placement.path != [])
    requires var made := if plan.placement.dropIn then plan.makeDir else Parent(plan.placement.path);
             made != [] || !plan.placement.dropIn ==>
               Prefixes(made) <= disk.dirs && forall i :: 0 <= i <= |made| ==> made[..i] !in disk.files
    ensures Wire(disk, req, plan).ok
  {
    var path := plan.placement.path;
    if !plan.placement.dropIn {
      PutAgain(disk, Parent(path), path, Upserted(Content(disk.files, path), req.line));
    } else if plan.makeDir != [] {
      PutAgain(disk, plan.makeDir, path, DropInFile(req.shell, req.line));
    }
  }

  /** An install run twice finishes twice, and leaves the files it leaves when run once. */
  lemma InstallTwice(disk: Disk, req: Request)
    requires Installed(disk, req).ok && WellPlaced(disk, req)
    requires MachineWide(req) ==> Resolve(disk, req).value.placement.path != HookFile(req)
    ensures var twice := Installed(Installed(disk, req).disk, req);
            twice.ok && twice.disk.files == Installed(disk, req).disk.files
  {
    hide Candidates, PlaceAll, Apart, Place, Wire;
    var plan := Resolve(disk, req).value;
    var once := Installed(disk, req).disk;
    InstallFinishesAgain(disk, req);
    InstallResolves(once, req);
    var again := Resolve(once, req).value;
    PlacementStable(disk, req, plan, again);
    PlanIsWired(disk, req, plan);
    HookIsNoPlace(disk, req, plan, plan.placement);
    InstalledIs(disk, req, plan);
    InstalledIs(once, req, again);
    WiredTwice(disk.files, req, plan.placement);
  }

  lemma LoginNames(shell: Shell, c: Path)
    requires shell.Bourne? && c in LoginFiles(shell.home)
    ensures c != [] && Parent(c) == shell.home && Base(c) in [".bash_profile", ".bash_login", ".profile"]
    ensures Base(c)[0] == '.' && Base(DropInDir(shell, c)) == Base(c) + ".d"
    ensures Base(DropInPath(shell, c))[0] == '5'
  {
  }

  /** The three login files of a Bourne shell never lie in each other's way. */
  lemma LoginFilesApart(shell: Shell, hookDir: Path)
    requires shell.Bourne?
    requires forall c :: c in LoginFiles(shell.home) ==>
               !(c <= hookDir) && !(DropInDir(shell, c) <= hookDir)
    requires !(hookDir + ["shell-hook.sh"] <= shell.home)
    ensures Apart(shell, LoginFiles(shell.home), hookDir, hookDir + ["shell-hook.sh"])
  {
    var files := LoginFiles(shell.home);
    var hook := hookDir + ["shell-hook.sh"];
    assert Base(hook)[0] == 's';
    forall c | c in files
      ensures c != [] && hook != c && hook != DropInDir(shell, c) && hook != DropInPath(shell, c)
    {
      LoginNames(shell, c);
    }
    forall c, d | c in files && d in files
      ensures c != DropInDir(shell, d) && c != DropInPath(shell, d)
      ensures !(DropInDir(shell, c) <= Parent(d)) && !(c <= Parent(d))
    {
      LoginNames(shell, c);
      LoginNames(shell, d);
      assert ".bash_profile"[6] != (".bash_login" + ".d")[6];
    }
  }

  // --------------------------------------------------------------- the program's runs

  /** One machine's disk, and the runs that change it. */
  class Machine {
    var disk: Disk

    constructor (disk: Disk)
      ensures this.disk == disk
    {
      this.disk := disk;
    }

    method EveryProfile(host: Host) returns (profiles: seq<Path>)
      ensures profiles == Distinct(Named(host))
    {
      profiles := [];
      var names := Named(host);
      for i := 0 to |names|
        invariant profiles == Distinct(names[..i])
      {
        assert names[..i + 1][..i] == names[..i];
        if names[i] != [] && names[i] !in profiles {
          profiles := profiles + [names[i]];
        }
      }
      assert names[..|names|] == names;
    }

    method BourneLoginFile(home: Path) returns (chosen: Path, candidates: seq<Path>)
      ensures candidates == LoginFiles(home)
      ensures chosen == FirstExisting(disk, LoginFiles(home), 0)
    {
      candidates := LoginFiles(home);
      for i := 0 to |candidates|
        invariant FirstExisting(disk, candidates, i) == FirstExisting(disk, candidates, 0)
      {
        if Exists(disk, candidates[i]) {
          return candidates[i], candidates;
        }
      }
      chosen := candidates[0];
    }

    method PlaceEach(shell: Shell, files: seq<Path>) returns (r: Result<seq<Placement>>)
      ensures r == PlaceAll(disk, shell, files)
    {
      var sweep: seq<Placement> := [];
      for i := 0 to |files|
        invariant PlaceAll(disk, shell, files[..i]) == Ok(sweep)
      {
        assert files[..i + 1][..i] == files[..i];
        match Place(disk, shell, files[i]) {
          case Refused =>
            RefusalStays(disk, shell, files, i + 1);
            return Refused;
          case Ok(place) =>
            sweep := sweep + [place];
        }
      }
      assert files[..|files|] == files;
      r := Ok(sweep);
    }

    method ResolvePlan(req: Request) returns (r: Result<Plan>)
      ensures r == Resolve(disk, req)
    {
      if MachineWide(req) {
        return Resolve(disk, req);
      }
      var files: seq<Path>, target: Path := [req.profile], req.profile;
      match req.shell {
        case PowerShell(host) =>
          if !RunsItsProfile(host) {
            return Refused;
          }
          if target == [] {
            files := EveryProfile(host);
            target := ProfileFor(host, req.scope, req.hosts);
            if target == [] {
              return Refused;
            }
          }
        case Bourne(home, _) =>
          if target == [] {
            target, files := BourneLoginFile(home);
          }
      }
      var sweep := PlaceEach(req.shell, files);
      match (sweep, Place(disk, req.shell, target)) {
        case (Ok(places), Ok(place)) => r := Ok(Plan(place, places, []));
        case _ => r := Refused;
      }
    }

    method UpsertBlockFile(path: Path, line: string) returns (ok: bool)
      requires path != []
      modifies this
      ensures Outcome(disk, ok) ==
              if path in old(disk).dirs then Outcome(old(disk), false)
              else PutUnder(old(disk), Parent(path), path, Upserted(Content(old(disk).files, path), line))
    {
      if path in disk.dirs {
        return false;
      }
      var text := UpsertBlock(Content(disk.files, path), line);
      var made := MakeDirs(disk, Parent(path));
      disk := made.disk;
      if !made.ok || path in disk.dirs {
        return false;
      }
      disk := disk.(files := disk.files[path := text]);
      ok := true;
    }

    method StripBlockFile(path: Path) returns (ok: bool)
      modifies this
      ensures Outcome(disk, ok) == Unwire(old(disk), Placement(path, false))
    {
      if path in disk.dirs {
        return false;
      }
      if path !in disk.files {
        return true;
      }
      var stripped := StripBlock(disk.files[path]);
      if Blank(stripped) {
        disk := disk.(files := disk.files - {path});
      } else {
        disk := disk.(files := disk.files[path := stripped]);
      }
      ok := true;
    }

    method RemoveDropIn(path: Path) returns (ok: bool)
      modifies this
      ensures Outcome(disk, ok) == Unwire(old(disk), Placement(path, true))
    {
      if path in disk.dirs {
        return false;
      }
      if path in disk.files {
        disk := disk.(files := disk.files - {path});
      }
      ok := true;
    }

    method Install(req: Request) returns (ok: bool)
      modifies this
      ensures Outcome(disk, ok) == Installed(old(disk), req)
      ensures Resolve(old(disk), req).Refused? ==> !ok && disk == old(disk)
    {
      var resolved := ResolvePlan(req);
      if resolved.Refused? {
        return false;
      }
      var plan := resolved.value;
      var hooked := PutUnder(disk, req.hookDir, HookFile(req), req.rendered);
      disk := hooked.disk;
      if !hooked.ok {
        return false;
      }
      if plan.placement.dropIn {
        var wired := Wire(disk, req, plan);
        disk := wired.disk;
        ok := wired.ok;
      } else if plan.placement.path == [] {
        ok := false;
      } else {
        ok := UpsertBlockFile(plan.placement.path, req.line);
      }
    }

    method Uninstall(req: Request) returns (ok: bool)
      modifies this
      ensures Outcome(disk, ok) == Uninstalled(old(disk), req)
      ensures Resolve(old(disk), req).Refused? ==> !ok && disk == old(disk)
    {
      var resolved := ResolvePlan(req);
      if resolved.Refused? {
        return false;
      }
      var sweep := resolved.value.sweep;
      for i := 0 to |sweep|
        invariant UnwireAll(disk, sweep[i..]) == UnwireAll(old(disk), sweep)
      {
        assert sweep[i..][1..] == sweep[i + 1..];
        if sweep[i].dropIn {
          ok := RemoveDropIn(sweep[i].path);
        } else {
          ok := StripBlockFile(sweep[i].path);
        }
        if !ok {
          return;
        }
      }
      var removed := RemoveHook(disk, req);
      disk := removed.disk;
      ok := removed.ok;
    }
  }

  lemma {:induction false} RefusalStays(disk: Disk, shell: Shell, files: seq<Path>, i: nat)
    requires i <= |files| && PlaceAll(disk, shell, files[..i]).Refused?
    ensures PlaceAll(disk, shell, files).Refused?
    decreases |files| - i
  {
    if i < |files| {
      assert files[..i + 1][..i] == files[..i];
      RefusalStays(disk, shell, files, i + 1);
    } else {
      assert files[..i] == files;
    }
  }
}
