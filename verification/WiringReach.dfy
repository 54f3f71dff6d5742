/** What a finished install makes the shell run and a finished uninstall takes out: which file
    the wiring goes in, what that file then holds, and which files a sweep goes through. The
    names are written out here, so that nothing rests on how `Wiring` works them out. */
module WiringReach {
  import opened Wrappers
  import opened Text
  import opened StartupBlock
  import opened Wiring

  // ------------------------------------------------------------- which file is wired

  ghost predicate RefersTo(text: string, word: string) {
    exists before, after :: text == before + word + after
  }

  lemma MentionsIs(text: string, word: string)
    ensures Mentions(text, word) <==> RefersTo(text, word)
  {
    if Mentions(text, word) {
      var i: nat :| i <= |text| && HeldAt(text, word, i);
      assert text == text[..i] + word + text[i + |word|..];
    }
    if RefersTo(text, word) {
      var before, after :| text == before + word + after;
      assert HeldAt(text, word, |before|);
    }
  }

  /** The directory a drop-in beside a startup file goes in. */
  function BesideDir(bourne: bool, file: Path): Path
    requires file != []
  {
    file[..|file| - 1] + [if bourne then file[|file| - 1] + ".d" else "Profile.d"]
  }

  /** Beside a startup file the wiring goes in the drop-in directory exactly when that is there
      and, for PowerShell, the user's own part of the profile refers to it; otherwise in the file
      itself, and nowhere when something else stands where the directory would be. */
  lemma PlacedExactly(disk: Disk, shell: Shell, file: Path)
    requires file != []
    ensures var dir, place := BesideDir(shell.Bourne?, file), Place(disk, shell, file);
            && (place.Refused? <==>
                 || (exists i :: 0 <= i <= |dir| && dir[..i] in disk.files)
                 || (dir in disk.dirs && shell.PowerShell? && file in disk.dirs))
            && (place.Ok? ==>
                 var used := dir in disk.dirs
                   && (shell.Bourne? || RefersTo(Stripped(Content(disk.files, file)), "Profile.d"));
                 place.value ==
                   if !used then Placement(file, false)
                   else Placement(dir + [if shell.Bourne? then "50-sshakku-init.sh" else "50-sshakku-init.ps1"], true))
  {
    MentionsIs(Stripped(Content(disk.files, file)), "Profile.d");
  }

  /** Of the candidates the first that exists, and the first of all where none does. */
  lemma {:induction false} FirstExistingExactly(disk: Disk, candidates: seq<Path>, i: nat)
    requires candidates != [] && i <= |candidates|
    ensures (exists j :: i <= j < |candidates| && Exists(disk, candidates[j])) ==>
              exists j :: i <= j < |candidates| && FirstExisting(disk, candidates, i) == candidates[j]
                && IsFirst(disk, candidates, i, j)
    ensures !(exists j :: i <= j < |candidates| && Exists(disk, candidates[j])) ==>
              FirstExisting(disk, candidates, i) == candidates[0]
    decreases |candidates| - i
  {
    if i < |candidates| {
      if Exists(disk, candidates[i]) {
        assert IsFirst(disk, candidates, i, i);
      } else {
        FirstExistingExactly(disk, candidates, i + 1);
        forall j | i + 1 <= j < |candidates| && IsFirst(disk, candidates, i + 1, j)
          ensures IsFirst(disk, candidates, i, j)
        {
        }
      }
    }
  }

  predicate IsFirst(disk: Disk, candidates: seq<Path>, from: nat, j: nat)
    requires j < |candidates|
  {
    && (candidates[j] in disk.files || candidates[j] in disk.dirs)
    && forall k :: from <= k < j ==> candidates[k] !in disk.files && candidates[k] !in disk.dirs
  }

  /** The profile a PowerShell is asked to run for an account or for all of them, in this host or
      in every one. */
  predicate IsProfileFor(host: Host, scope: Scope, hosts: Hosts, target: Path) {
    && (scope == User && hosts == AllHosts ==> target == host.userAll)
    && (scope == User && hosts == CurrentHost ==> target == host.userCurrent)
    && (scope == EveryAccount && hosts == AllHosts ==> target == host.allAll)
    && (scope == EveryAccount && hosts == CurrentHost ==> target == host.allCurrent)
  }

  /** A PowerShell that will not run its profile, or names none for what was asked, is refused with
      nothing written. */
  lemma RefusedForGood(disk: Disk, req: Request)
    requires req.shell.PowerShell?
    requires var host := req.shell.host;
             || host.policy in ["Restricted", "AllSigned"] || host.language !in ["", "FullLanguage"]
             || (req.profile == [] && IsProfileFor(host, req.scope, req.hosts, []))
    ensures Installed(disk, req) == Outcome(disk, false) && Uninstalled(disk, req) == Outcome(disk, false)
  {
  }

  /** Where the wiring goes: for every account of a Bourne shell, where the system offers; else
      beside the file named outright, the login file found, or the profile asked about. */
  lemma WiredWhere(disk: Disk, req: Request)
    requires Resolve(disk, req).Ok?
    ensures var place := Resolve(disk, req).value.placement;
            if req.profile != [] then Place(disk, req.shell, req.profile) == Ok(place)
            else if req.shell.PowerShell? then
              exists f :: IsProfileFor(req.shell.host, req.scope, req.hosts, f) && Place(disk, req.shell, f) == Ok(place)
            else if req.scope.User? then
              var home := req.shell.home;
              var files := [home + [".bash_profile"], home + [".bash_login"], home + [".profile"]];
              Place(disk, req.shell, FirstExisting(disk, files, 0)) == Ok(place)
            else
              match req.shell.machine
              case Directory(dir) => place == Placement(dir + ["50-sshakku-init.sh"], true)
              case StartupFile(file) => place == Placement(file, false)
              case NotKnown => false
  {
    hide Place, PlaceAll;
    if req.shell.PowerShell? {
      var host := req.shell.host;
      assert req.profile == [] ==> IsProfileFor(host, req.scope, req.hosts, ProfileFor(host, req.scope, req.hosts));
    }
  }

  // -------------------------------------------------------------- what it then holds

  lemma LineStands(before: string, line: string, after: string)
    requires '\n' !in line
    ensures line in Split(before + "\n" + line + "\n" + after, '\n')
  {
    var rest := line + "\n" + after;
    assert before + "\n" + line + "\n" + after == before + ['\n'] + rest;
    SplitConcat(before, rest, '\n');
    SplitConcat(line, after, '\n');
    SplitFree(line, '\n');
  }

  predicate NoCommand(line: string) {
    line == "" || line[0] == '#'
  }

  lemma LinesOfNote()
    ensures '\n' !in DROP_IN_NOTE && DROP_IN_NOTE[0] == '#'
  {
    var a, b, c := "# sshakku shell hook.", " Regenerate by re-running", " the sshakku install.";
    assert '\n' !in a && '\n' !in b && '\n' !in c && a[0] == '#';
  }

  lemma NoteThenLine(note: string, line: string)
    requires '\n' !in note && '\n' !in line
    ensures Split(note + "\n" + line + "\n", '\n') == [note, line, ""]
  {
    hide Split;
    assert note + "\n" + line + "\n" == note + ['\n'] + (line + ['\n'] + "");
    SplitConcat(note, line + ['\n'] + "", '\n');
    SplitConcat(line, "", '\n');
    SplitFree(note, '\n');
    SplitFree(line, '\n');
    SplitFree("", '\n');
  }

  lemma FirstLine(first: string, text: string)
    requires '\n' !in first
    ensures Split(first + "\n" + text, '\n') == [first] + Split(text, '\n')
  {
    hide Split;
    assert first + "\n" + text == first + ['\n'] + text;
    SplitConcat(first, text, '\n');
    SplitFree(first, '\n');
  }

  lemma DropInRunsIt(shell: Shell, line: string)
    requires '\n' !in line
    ensures Split(DropInFile(shell, line), '\n') ==
            (if shell.Bourne? then ["#!/bin/bash"] else []) + [DROP_IN_NOTE, line, ""]
  {
    hide Split;
    LinesOfNote();
    NoteThenLine(DROP_IN_NOTE, line);
    var text := DROP_IN_NOTE + "\n" + line + "\n";
    FirstLine("#!/bin/bash", text);
  }

  /** The text of a block after what was somebody's own. */
  function WithBlock(theirs: string, line: string): string {
    (if theirs == "" then "" else theirs + "\n") + "# >>> sshakku >>>" + "\n" + line + "\n" + "# <<< sshakku <<<" + "\n"
  }

  lemma BlockRunsIt(theirs: string, line: string)
    requires '\n' !in line
    ensures line in Split(WithBlock(theirs, line), '\n')
  {
    hide Split;
    var before := (if theirs == "" then "" else theirs + "\n") + "# >>> sshakku >>>";
    LineStands(before, line, "# <<< sshakku <<<" + "\n");
    assert WithBlock(theirs, line) == before + "\n" + line + "\n" + ("# <<< sshakku <<<" + "\n");
  }

  lemma UpsertedIs(content: string, line: string)
    ensures Upserted(content, line) == WithBlock(Stripped(content), line)
  {
    hide Stripped;
    var kept := Stripped(content);
    var block := MARKER_START + "\n" + line + "\n" + MARKER_END + "\n";
    if kept == "" {
      assert WithBlock(kept, line) == block;
    } else {
      BlockAppended(kept + "\n", MARKER_START, line, MARKER_END);
    }
  }

  /** A finished install is one the shell runs: the hook is there with its text, and the source
      line is a line of the file the wiring went in. In a file of ours it is the only line that
      is not a comment; in somebody else's it stands in the block, after what was theirs. */
  lemma HookIsRun(disk: Disk, req: Request)
    requires Installed(disk, req).ok && WellPlaced(disk, req) && '\n' !in req.line
    requires MachineWide(req) ==> Resolve(disk, req).value.placement.path != HookFile(req)
    ensures var after, place := Installed(disk, req).disk, Resolve(disk, req).value.placement;
            var hook := req.hookDir + [if req.shell.Bourne? then "shell-hook.sh" else "shell-hook.ps1"];
            && hook in after.files && after.files[hook] == req.rendered
            && place.path in after.files
            && var text := after.files[place.path];
               && req.line in Split(text, '\n')
               && (place.dropIn ==> forall l <- Split(text, '\n') :: l == req.line || NoCommand(l))
               && (!place.dropIn ==>
                    text == WithBlock(Stripped(Content(disk.files, place.path)), req.line))
  {
    hide Installed, Split, Upserted, DropInFile, Stripped, WithBlock, Candidates, Apart;
    var plan := InstallPlan(disk, req);
    PlanIsWired(disk, req, plan);
    HookIsNoPlace(disk, req, plan, plan.placement);
    InstalledIs(disk, req, plan);
    LinesOfNote();
    DropInRunsIt(req.shell, req.line);
    UpsertedIs(Content(disk.files, plan.placement.path), req.line);
    BlockRunsIt(Stripped(Content(disk.files, plan.placement.path)), req.line);
  }

  lemma InstallPlan(disk: Disk, req: Request) returns (plan: Plan)
    requires Installed(disk, req).ok
    ensures Resolve(disk, req) == Ok(plan)
  {
    plan := Resolve(disk, req).value;
  }

  // ------------------------------------------------------------- what a sweep goes through

  /** The startup files an install could have wired: the one named outright, or each of the login
      files, or each profile the PowerShell named. */
  predicate CouldBeWired(req: Request, f: Path) {
    if req.profile != [] then f == req.profile
    else if req.shell.Bourne? then
      f in [req.shell.home + [".bash_profile"], req.shell.home + [".bash_login"], req.shell.home + [".profile"]]
    else
      var host := req.shell.host;
      f != [] && f in [host.default, host.userAll, host.userCurrent, host.allAll, host.allCurrent]
  }

  lemma CandidatesAre(disk: Disk, req: Request)
    requires Candidates(disk, req).Ok? && !MachineWide(req)
    ensures forall f :: f in Candidates(disk, req).value.0 <==> CouldBeWired(req, f)
  {
    match req.shell {
      case PowerShell(host) => DistinctHolds(Named(host));
      case Bourne(_, _) =>
    }
  }

  /** A finished uninstall has been at every file an install of that shell could have wired,
      whichever of them it was asked about: a drop-in of ours beside it is gone, and what is left
      of the file itself, if anything is, is what stripping leaves. */
  lemma EveryCandidateIsSwept(disk: Disk, req: Request, f: Path)
    requires Uninstalled(disk, req).ok && !MachineWide(req) && CouldBeWired(req, f)
    ensures var end, place := Uninstalled(disk, req).disk, Place(disk, req.shell, f);
            && place.Ok?
            && (place.value.dropIn ==> place.value.path !in end.files)
            && (!place.value.dropIn && f in end.files ==> f in disk.files && end.files[f] == Stripped(disk.files[f]))
  {
    hide Place, Candidates, Unwire, UnwireAll;
    var plan := UninstallPlan(disk, req);
    ResolvedFrom(disk, req, plan);
    CandidatesAre(disk, req);
    PlacesAre(disk, req.shell, Candidates(disk, req).value.0);
    var place := Place(disk, req.shell, f).value;
    PlaceIs(disk, req.shell, f);
    SweepAt(disk, plan.sweep, place.path);
    assert place == Placement(place.path, place.dropIn);
    RemovedIs(UnwireAll(disk, plan.sweep).disk, req);
  }

  lemma UninstallPlan(disk: Disk, req: Request) returns (plan: Plan)
    requires Uninstalled(disk, req).ok
    ensures Resolve(disk, req) == Ok(plan) && UnwireAll(disk, plan.sweep).ok
    ensures Uninstalled(disk, req) == RemoveHook(UnwireAll(disk, plan.sweep).disk, req)
  {
    plan := Resolve(disk, req).value;
  }

  /** What is under a directory. */
  predicate Holds(disk: Disk, dir: Path) {
    (exists p :: p in disk.files && dir < p) || (exists p :: p in disk.dirs && dir < p)
  }

  lemma RemovedIs(disk: Disk, req: Request)
    requires RemoveHook(disk, req).ok
    ensures var end, hook := RemoveHook(disk, req).disk, HookFile(req);
            && end.files == disk.files - {hook} && hook !in end.files
            && (forall d :: d in end.dirs <==> d in disk.dirs && (d == req.hookDir ==> Holds(end, d)))
  {
    var end := RemoveHook(disk, req).disk;
    assert forall p :: p in disk.dirs - {req.hookDir} && req.hookDir < p <==> p in disk.dirs && req.hookDir < p;
  }

  /** A finished uninstall has taken the hook away, and its directory exactly when nothing else is
      in it; no other directory comes or goes. */
  lemma HookGoesExactly(disk: Disk, req: Request)
    requires Uninstalled(disk, req).ok
    ensures var end := Uninstalled(disk, req).disk;
            && req.hookDir + [if req.shell.Bourne? then "shell-hook.sh" else "shell-hook.ps1"] !in end.files
            && (forall d :: d in end.dirs <==> d in disk.dirs && (d == req.hookDir ==> Holds(end, d)))
  {
    hide Place, Candidates, Unwire, UnwireAll, RemoveHook, Holds;
    var plan := UninstallPlan(disk, req);
    SweepAt(disk, plan.sweep, []);
    RemovedIs(UnwireAll(disk, plan.sweep).disk, req);
  }
}
