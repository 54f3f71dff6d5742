/** Installs whose uninstall does not give everything back: hosts a PowerShell does not name, a
    directory among the login files, and an empty login file, each on a disk small enough to see. */
module WiringLimits {
  import opened Wrappers
  import opened Text
  import opened StartupBlock
  import opened Wiring

  /** An uninstall for hosts the shell names no profile for undoes nothing at all. */
  lemma UnnamedHostsUndoNothing(disk: Disk, req: Request, hosts: Hosts)
    requires Installed(disk, req).ok && WellPlaced(disk, req) && !NamesTarget(req, hosts)
    ensures Uninstalled(Installed(disk, req).disk, req.(hosts := hosts)) == Outcome(Installed(disk, req).disk, false)
  {
    SweepStable(disk, req, hosts);
  }

  const ONE_PROFILE: Path := ["home", "profile.ps1"]
  const ONE_PROFILE_HOST := Host([], ONE_PROFILE, [], [], [], "", "")
  const FOR_POWERSHELL := Request(PowerShell(ONE_PROFILE_HOST), User, AllHosts, [], ["hooks"], "hook", "line")

  lemma DistinctOfOne()
    ensures Distinct(Named(ONE_PROFILE_HOST)) == [ONE_PROFILE]
  {
    var none: seq<Path> := [];
    assert Distinct(none) == [];
    hide Distinct, Named;
    var one := none + [[]];
    var two := one + [ONE_PROFILE];
    var three := two + [[]];
    var four := three + [[]];
    DistinctOneMore(none, []);
    DistinctOneMore(one, ONE_PROFILE);
    DistinctOneMore(two, []);
    DistinctOneMore(three, []);
    DistinctOneMore(four, []);
    assert none + [ONE_PROFILE] == [ONE_PROFILE];
    NamedByOne();
  }

  lemma NamedByOne()
    ensures var none: seq<Path> := [];
            Named(ONE_PROFILE_HOST) == none + [[]] + [ONE_PROFILE] + [[]] + [[]] + [[]]
  {
  }

  lemma DistinctOneMore(names: seq<Path>, last: Path)
    ensures Distinct(names + [last]) ==
            if last != [] && last !in Distinct(names) then Distinct(names) + [last] else Distinct(names)
  {
    assert (names + [last])[..|names|] == names;
  }

  const NOTHING := Disk(map[], {})

  lemma ResolvedForPowerShell()
    ensures Candidates(NOTHING, FOR_POWERSHELL) == Ok(([ONE_PROFILE], ONE_PROFILE))
    ensures Resolve(NOTHING, FOR_POWERSHELL) ==
            Ok(Plan(Placement(ONE_PROFILE, false), [Placement(ONE_PROFILE, false)], []))
  {
    var none: seq<Path> := [];
    DistinctOfOne();
    assert Place(NOTHING, FOR_POWERSHELL.shell, ONE_PROFILE) == Ok(Placement(ONE_PROFILE, false));
    assert PlaceAll(NOTHING, FOR_POWERSHELL.shell, none) == Ok([]);
    PlaceOneMore(NOTHING, FOR_POWERSHELL.shell, none, ONE_PROFILE);
    var place := Placement(ONE_PROFILE, false);
    assert none + [ONE_PROFILE] == [ONE_PROFILE] && [] + [place] == [place];
    hide Place, PlaceAll, Distinct, Named;
    assert Candidates(NOTHING, FOR_POWERSHELL) == Ok(([ONE_PROFILE], ONE_PROFILE));
  }

  lemma WellPlacedForPowerShell()
    ensures WellPlaced(NOTHING, FOR_POWERSHELL) && !NamesTarget(FOR_POWERSHELL, CurrentHost)
  {
    hide Candidates, Distinct, HoldsEndMarker;
    ResolvedForPowerShell();
    LineIsNoMarker();
    OneProfileApart();
  }

  lemma LineIsNoMarker()
    ensures !HoldsEndMarker("line")
  {
    SplitFree("line", '\n');
    assert |Bare("line")| != |MARKER_END|;
  }

  lemma OneProfileApart()
    ensures Apart(FOR_POWERSHELL.shell, [ONE_PROFILE], ["hooks"], HookFile(FOR_POWERSHELL))
  {
    var dir := DropInDir(FOR_POWERSHELL.shell, ONE_PROFILE);
    assert dir == ["home", "Profile.d"] && |"Profile.d"| != |"profile.ps1"| && dir[1] != ONE_PROFILE[1];
    assert "hooks"[2] != "home"[2] && ["hooks"] + ["shell-hook.ps1"] == ["hooks", "shell-hook.ps1"];
    assert Parent(ONE_PROFILE) == ["home"] && |["hooks"]| == 1;
  }

  lemma InstalledForPowerShell()
    ensures Installed(NOTHING, FOR_POWERSHELL).ok
  {
    hide Candidates, PlaceAll, Place, Upserted, Resolve, Installed;
    ResolvedForPowerShell();
    assert Parent(ONE_PROFILE) == ["home"];
    InstallsInAFile(NOTHING, FOR_POWERSHELL, Resolve(NOTHING, FOR_POWERSHELL).value, ["home"]);
  }

  /** Such hosts there are: a PowerShell naming one profile is wired for all hosts and, asked to
      undo it for the current one, does nothing. */
  lemma UnnamedHostsThereAre()
    ensures Installed(NOTHING, FOR_POWERSHELL).ok && WellPlaced(NOTHING, FOR_POWERSHELL)
    ensures Uninstalled(Installed(NOTHING, FOR_POWERSHELL).disk, FOR_POWERSHELL.(hosts := CurrentHost))
         == Outcome(Installed(NOTHING, FOR_POWERSHELL).disk, false)
  {
    InstalledForPowerShell();
    WellPlacedForPowerShell();
    hide *;
    UnnamedHostsUndoNothing(NOTHING, FOR_POWERSHELL, CurrentHost);
  }

  const HOME: Path := ["home"]
  const BASH_PROFILE: Path := ["home", ".bash_profile"]
  const BASH_LOGIN: Path := ["home", ".bash_login"]
  const PROFILE: Path := ["home", ".profile"]

  /** A home holding an empty `.profile`, and one with a directory where a login file could be. */
  const EMPTY_PROFILE := Disk(map[PROFILE := ""], {HOME})
  const DIRECTORY_IN_THE_WAY := Disk(map[BASH_PROFILE := "x\n"], {HOME, BASH_LOGIN})

  const FOR_BOURNE := Request(Bourne(HOME, NotKnown), User, AllHosts, [], ["hooks"], "hook", "line")

  lemma LoginFilesOfHome()
    ensures LoginFiles(HOME) == [BASH_PROFILE, BASH_LOGIN, PROFILE]
    ensures BASH_PROFILE != PROFILE && BASH_PROFILE != BASH_LOGIN && BASH_LOGIN != PROFILE
  {
    assert HOME + [".bash_profile"] == BASH_PROFILE;
    assert HOME + [".bash_login"] == BASH_LOGIN && HOME + [".profile"] == PROFILE;
    assert |".bash_profile"| != |".profile"| && |".bash_profile"| != |".bash_login"|;
    assert BASH_PROFILE[1] != PROFILE[1] && BASH_PROFILE[1] != BASH_LOGIN[1] && BASH_LOGIN[1] != PROFILE[1];
  }

  lemma PlacedInTheFile(disk: Disk, file: Path)
    requires disk == EMPTY_PROFILE || disk == DIRECTORY_IN_THE_WAY
    requires file in LoginFiles(HOME)
    ensures Place(disk, FOR_BOURNE.shell, file) == Ok(Placement(file, false))
  {
    var dir := DropInDir(FOR_BOURNE.shell, file);
    LoginNames(FOR_BOURNE.shell, file);
    assert Base(dir)[|Base(dir)| - 2] == '.' && |dir| == 2;
    assert Base(PROFILE)[6] == 'l' && Base(BASH_LOGIN)[9] == 'i' && Base(BASH_PROFILE)[11] == 'l';
  }

  lemma PlaceOneMore(disk: Disk, shell: Shell, files: seq<Path>, file: Path)
    requires PlaceAll(disk, shell, files).Ok? && Place(disk, shell, file).Ok?
    ensures PlaceAll(disk, shell, files + [file])
         == Ok(PlaceAll(disk, shell, files).value + [Place(disk, shell, file).value])
  {
    assert (files + [file])[..|files|] == files;
  }

  lemma PlacedInTheFiles(disk: Disk)
    requires disk == EMPTY_PROFILE || disk == DIRECTORY_IN_THE_WAY
    ensures PlaceAll(disk, FOR_BOURNE.shell, LoginFiles(HOME)) ==
            Ok([Placement(BASH_PROFILE, false), Placement(BASH_LOGIN, false), Placement(PROFILE, false)])
  {
    var shell := FOR_BOURNE.shell;
    LoginFilesOfHome();
    PlacedInTheFile(disk, BASH_PROFILE);
    PlacedInTheFile(disk, BASH_LOGIN);
    PlacedInTheFile(disk, PROFILE);
    AllOfThree(disk, shell, BASH_PROFILE, BASH_LOGIN, PROFILE);
  }

  lemma AllOfThree(disk: Disk, shell: Shell, a: Path, b: Path, c: Path)
    requires Place(disk, shell, a).Ok? && Place(disk, shell, b).Ok? && Place(disk, shell, c).Ok?
    ensures PlaceAll(disk, shell, [a, b, c]) ==
            Ok([Place(disk, shell, a).value, Place(disk, shell, b).value, Place(disk, shell, c).value])
  {
    hide Place;
    var none: seq<Path> := [];
    PlaceOneMore(disk, shell, none, a);
    PlaceOneMore(disk, shell, [a], b);
    PlaceOneMore(disk, shell, [a, b], c);
    assert none + [a] == [a] && [a] + [b] == [a, b] && [a, b] + [c] == [a, b, c];
    var x, y, z := Place(disk, shell, a).value, Place(disk, shell, b).value, Place(disk, shell, c).value;
    assert PlaceAll(disk, shell, none) == Ok([]);
    assert [] + [x] == [x] && [x] + [y] == [x, y] && [x, y] + [z] == [x, y, z];
  }

  lemma ResolvedAtHome(disk: Disk)
    requires disk == EMPTY_PROFILE || disk == DIRECTORY_IN_THE_WAY
    ensures Resolve(disk, FOR_BOURNE).Ok?
    ensures var plan := Resolve(disk, FOR_BOURNE).value;
            && plan.makeDir == [] && Placement(BASH_LOGIN, false) in plan.sweep && Placement(PROFILE, false) in plan.sweep
            && plan.placement == Placement(if disk == EMPTY_PROFILE then PROFILE else BASH_PROFILE, false)
  {
    hide Place, PlaceAll;
    PlacedInTheFiles(disk);
    LoginFilesOfHome();
    var files := LoginFiles(HOME);
    var target := FirstExisting(disk, files, 0);
    if disk == EMPTY_PROFILE {
      assert !Exists(disk, files[0]) && !Exists(disk, files[1]) && Exists(disk, files[2]);
      assert target == FirstExisting(disk, files, 1) == FirstExisting(disk, files, 2) == PROFILE;
    }
    assert target == if disk == EMPTY_PROFILE then PROFILE else BASH_PROFILE;
    PlacedInTheFile(disk, target);
  }

  lemma WellPlacedAtHome(disk: Disk)
    ensures WellPlaced(disk, FOR_BOURNE)
  {
    LineIsNoMarker();
    forall c | c in LoginFiles(HOME)
      ensures !(c <= ["hooks"]) && !(DropInDir(FOR_BOURNE.shell, c) <= ["hooks"])
    {
      LoginNames(FOR_BOURNE.shell, c);
      assert |c| == 2 && |DropInDir(FOR_BOURNE.shell, c)| == 2;
    }
    LoginFilesApart(FOR_BOURNE.shell, ["hooks"]);
  }

  lemma ShallowMakeDirs(disk: Disk, dir: Path)
    requires |dir| == 1 && forall p <- disk.files :: |p| > 1
    ensures MakeDirs(disk, dir) == Outcome(disk.(dirs := disk.dirs + {[], dir}), true)
  {
    assert dir[..0] == [] && dir[..1] == dir;
    assert Prefixes(dir) == {[], dir};
  }

  lemma InstalledAtHome(disk: Disk)
    requires disk == EMPTY_PROFILE || disk == DIRECTORY_IN_THE_WAY
    ensures Resolve(disk, FOR_BOURNE).Ok? && Installed(disk, FOR_BOURNE).ok
    ensures HookFile(FOR_BOURNE) !in disk.files
  {
    hide Resolve, Upserted;
    ResolvedAtHome(disk);
    LoginFilesOfHome();
    var plan, hook := Resolve(disk, FOR_BOURNE).value, HookFile(FOR_BOURNE);
    assert hook == ["hooks", "shell-hook.sh"] && hook[0] != HOME[0];
    assert Parent(plan.placement.path) == HOME && |plan.placement.path| == 2;
    assert forall p <- disk.files :: |p| == 2 && p != hook;
    InstallsInAFile(disk, FOR_BOURNE, plan, HOME);
  }

  /** A hook directory and a home directly below the root: nothing stands in an install's way. */
  lemma InstallsInAFile(disk: Disk, req: Request, plan: Plan, home: Path)
    requires Resolve(disk, req) == Ok(plan) && !plan.placement.dropIn && |req.hookDir| == 1 && |home| == 1
    requires |plan.placement.path| == 2 && Parent(plan.placement.path) == home
    requires forall p <- disk.files :: |p| > 1
    requires HookFile(req) !in disk.dirs && plan.placement.path !in disk.dirs
    ensures Installed(disk, req).ok
  {
    hide Resolve, Upserted, MakeDirs, Prefixes;
    ShallowMakeDirs(disk, req.hookDir);
    var hooked := PutUnder(disk, req.hookDir, HookFile(req), req.rendered).disk;
    ShallowMakeDirs(hooked, home);
  }

  /** An account with an empty `.profile` loses it: everything an install and an uninstall ask
      for is met, both finish, and the file is gone. */
  lemma EmptyProfileIsLost()
    ensures var disk, req := EMPTY_PROFILE, FOR_BOURNE;
            && Installed(disk, req).ok && WellPlaced(disk, req) && Finishes(disk, req, AllHosts)
            && Uninstalled(Installed(disk, req).disk, req).ok
            && Uninstalled(Installed(disk, req).disk, req).disk.files != disk.files - {HookFile(req)}
  {
    var disk, req := EMPTY_PROFILE, FOR_BOURNE;
    InstalledAtHome(disk);
    WellPlacedAtHome(disk);
    ResolvedAtHome(disk);
    PlacedInTheFiles(disk);
    LoginFilesOfHome();
    hide *;
    FinishesAtHome();
    UninstallFinishesExactly(disk, req, AllHosts);
    RoundTrip(disk, req, AllHosts);
  }

  lemma FinishesAtHome()
    requires Resolve(EMPTY_PROFILE, FOR_BOURNE).Ok?
    ensures Finishes(EMPTY_PROFILE, FOR_BOURNE, AllHosts)
    ensures FOR_BOURNE.(hosts := AllHosts) == FOR_BOURNE && !MachineWide(FOR_BOURNE)
    ensures !SweepIsHarmless(EMPTY_PROFILE.files, Resolve(EMPTY_PROFILE, FOR_BOURNE).value.sweep)
  {
    ResolvedAtHome(EMPTY_PROFILE);
    PlacedInTheFiles(EMPTY_PROFILE);
    assert Blank("");
    assert Placement(PROFILE, false).path in EMPTY_PROFILE.files;
  }

  /** A directory where a login file could be stops the uninstall on its way: the hook stays. */
  lemma DirectoryStopsTheUninstall()
    ensures var disk, req := DIRECTORY_IN_THE_WAY, FOR_BOURNE;
            && Installed(disk, req).ok && WellPlaced(disk, req)
            && !Uninstalled(Installed(disk, req).disk, req).ok
            && HookFile(req) in Uninstalled(Installed(disk, req).disk, req).disk.files
  {
    var disk, req := DIRECTORY_IN_THE_WAY, FOR_BOURNE;
    InstalledAtHome(disk);
    WellPlacedAtHome(disk);
    ResolvedAtHome(disk);
    assert Placement(BASH_LOGIN, false).path in disk.dirs;
    assert !Finishes(disk, req, AllHosts) && !MachineWide(req) && req.(hosts := AllHosts) == req;
    hide *;
    UninstallFinishesExactly(disk, req, AllHosts);
  }
}
