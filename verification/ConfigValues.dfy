/** What a written value comes to: for each kind of setting, the value in force and whether what
    was written was refused, told from the field, the variable and the rule of that kind alone.
    `Config` says which file's field that is. */
module ConfigValues {
  import opened Wrappers
  import opened Text
  import opened Config

  /** What is said of a setting: the variable where it is set, else the field, else nothing. */
  predicate Said(env: Env, name: string, written: Option<string>, raw: string) {
    && (env(name).Some? ==> env(name) == Some(raw))
    && (env(name).None? && written.Some? ==> written == Some(raw))
    && (env(name).None? && written.None? ==> raw == "")
  }

  /** A lifetime or give-up period: what it reads as, nothing below zero; the built-in one where
      nothing is said, and, refused, where it does not read. Durations are in nanoseconds. */
  predicate Lasts(sys: System, raw: string, seconds: int, got: int, refused: bool) {
    && (raw == "" ==> got == seconds * 1_000_000_000 && !refused)
    && (raw != "" && sys.duration(raw).None? ==> got == seconds * 1_000_000_000 && refused)
    && (raw != "" && sys.duration(raw).Some? ==>
         got == (if sys.duration(raw).value < 0 then 0 else sys.duration(raw).value) && !refused)
  }

  /** A time limit: what it reads as, where that is a limit at all. */
  predicate Limits(sys: System, raw: string, seconds: int, got: int, refused: bool) {
    var good := raw != "" && sys.duration(raw).Some? && sys.duration(raw).value > 0;
    && (good ==> got == sys.duration(raw).value)
    && (!good ==> got == seconds * 1_000_000_000)
    && (refused <==> raw != "" && !good)
    && got > 0
  }

  /** Which rule each of them is resolved by. */
  lemma DurationRules(sys: System, f: File, env: Env)
    ensures var s := Resolve(sys, f, env);
            && Judged(s.keyLifetime, IsRefused(sys, f, env, KeyLifetime)) == LifetimeOf(sys, f, env)
            && Judged(s.giveupTTL, IsRefused(sys, f, env, GiveupTTL)) == GiveupOf(sys, f, env)
            && Judged(s.commandTimeout, IsRefused(sys, f, env, CommandTimeout)) == CommandLimit(sys, f, env)
            && Judged(s.interactiveTimeout, IsRefused(sys, f, env, InteractiveTimeout)) == InteractiveLimit(sys, f, env)
  {
    hide LifetimeOf, GiveupOf, CommandLimit, InteractiveLimit, BackendOf, OneOf, ResolvePrefix, ResolveContainer,
         ResolvePatterns, StatedEditor, ResolveBool, ResolveMaxAttempts, Deref, Listed;
  }

  lemma WordRules(sys: System, f: File, env: Env)
    ensures var s := Resolve(sys, f, env);
            && Judged(s.walletStoreMode, IsRefused(sys, f, env, WalletStoreMode)) == OneOf(f.walletStoreMode, MODES, "all")
            && Judged(s.autoLoadMode, IsRefused(sys, f, env, AutoLoadMode)) == OneOf(f.autoLoadMode, MODES, "all")
            && Judged(s.keePassXCRoute, IsRefused(sys, f, env, KeePassXCRoute)) == OneOf(f.keePassXCRoute, ROUTES, "auto")
            && Judged(s.onDismiss, IsRefused(sys, f, env, OnDismiss)) == OneOf(f.onDismiss, DISMISSALS, "stop")
            && Judged(s.secretBackend, IsRefused(sys, f, env, SecretBackend)) == BackendOf(sys, f)
            && Judged(s.guiPrompter, IsRefused(sys, f, env, GUIPrompter)) == OneOf(f.guiPrompter, sys.prompters, "auto")
  {
    hide LifetimeOf, GiveupOf, CommandLimit, InteractiveLimit, BackendOf, OneOf, ResolvePrefix, ResolveContainer,
         ResolvePatterns, StatedEditor, ResolveBool, ResolveMaxAttempts, Deref, Listed;
  }

  lemma NameRules(sys: System, f: File, env: Env)
    ensures var s := Resolve(sys, f, env);
            && Judged(s.servicePrefix, IsRefused(sys, f, env, ServicePrefix)) == ResolvePrefix(sys, f.servicePrefix)
            && Judged(s.secretContainer, IsRefused(sys, f, env, SecretContainer)) == ResolveContainer(sys, f.secretContainer)
  {
    hide LifetimeOf, GiveupOf, CommandLimit, InteractiveLimit, BackendOf, OneOf, ResolvePrefix, ResolveContainer,
         ResolvePatterns, StatedEditor, ResolveBool, ResolveMaxAttempts, Deref, Listed;
  }

  lemma LastingIs(sys: System, raw: string, seconds: int)
    ensures var judged := Lasting(sys, raw, seconds * SECOND); Lasts(sys, raw, seconds, judged.value, judged.refused)
  {
  }

  lemma LimitIs(sys: System, raw: string, seconds: nat)
    requires seconds > 0
    ensures var judged := Limit(sys, raw, seconds * SECOND); Limits(sys, raw, seconds, judged.value, judged.refused)
  {
  }

  /** The four durations, with their variables and their built-in values: eight hours, an hour,
      ten seconds and two minutes. */
  lemma DurationsInForce(sys: System, f: File, env: Env, raw: string)
    ensures var s := Resolve(sys, f, env);
            && (Said(env, "SSHAKKU_KEY_LIFETIME", f.keyLifetime, raw) ==>
                 Lasts(sys, raw, 28_800, s.keyLifetime, IsRefused(sys, f, env, KeyLifetime)))
            && (Said(env, "SSHAKKU_GIVEUP_TTL", f.giveupTTL, raw) ==>
                 Lasts(sys, raw, 3_600, s.giveupTTL, IsRefused(sys, f, env, GiveupTTL)))
            && (Said(env, "SSHAKKU_COMMAND_TIMEOUT", f.commandTimeout, raw) ==>
                 Limits(sys, raw, 10, s.commandTimeout, IsRefused(sys, f, env, CommandTimeout)))
            && (Said(env, "SSHAKKU_INTERACTIVE_TIMEOUT", f.interactiveTimeout, raw) ==>
                 Limits(sys, raw, 120, s.interactiveTimeout, IsRefused(sys, f, env, InteractiveTimeout)))
  {
    hide Lasts, Limits, Lasting, Limit, Resolve, IsRefused;
    DurationRules(sys, f, env);
    LastingIs(sys, raw, 28_800);
    LastingIs(sys, raw, 3_600);
    LimitIs(sys, raw, 10);
    LimitIs(sys, raw, 120);
  }

  /** A setting written in one of a few words: that word, or the built-in one, refused where
      something else was written. */
  predicate IsWord(written: Option<string>, words: seq<string>, fallback: string, got: string, refused: bool) {
    && (got == fallback || got in words)
    && (refused <==> written.Some? && written.value != "" && written.value !in words)
    && (written.Some? && written.value in words && written.value != "" ==> got == written.value)
    && (written.None? || written.value == "" || refused ==> got == fallback)
  }

  lemma WordIs(written: Option<string>, words: seq<string>, fallback: string)
    ensures var judged := OneOf(written, words, fallback);
            IsWord(written, words, fallback, judged.value, judged.refused)
  {
  }

  lemma WordsInForce(sys: System, f: File, env: Env)
    ensures var s := Resolve(sys, f, env);
            && IsWord(f.walletStoreMode, ["all", "include", "exclude"], "all", s.walletStoreMode,
                      IsRefused(sys, f, env, WalletStoreMode))
            && IsWord(f.autoLoadMode, ["all", "include", "exclude"], "all", s.autoLoadMode,
                      IsRefused(sys, f, env, AutoLoadMode))
            && IsWord(f.keePassXCRoute, ["auto", "secret-service", "native", "cli"], "auto", s.keePassXCRoute,
                      IsRefused(sys, f, env, KeePassXCRoute))
            && IsWord(f.onDismiss, ["stop", "skip", "retry"], "stop", s.onDismiss, IsRefused(sys, f, env, OnDismiss))
            && IsWord(f.secretBackend, sys.backends, sys.defaultBackend, s.secretBackend,
                      IsRefused(sys, f, env, SecretBackend))
            && IsWord(f.guiPrompter, sys.prompters, "auto", s.guiPrompter, IsRefused(sys, f, env, GUIPrompter))
  {
    hide IsWord, OneOf, Resolve, IsRefused;
    WordRules(sys, f, env);
    WordIs(f.walletStoreMode, ["all", "include", "exclude"], "all");
    WordIs(f.autoLoadMode, ["all", "include", "exclude"], "all");
    WordIs(f.keePassXCRoute, ["auto", "secret-service", "native", "cli"], "auto");
    WordIs(f.onDismiss, ["stop", "skip", "retry"], "stop");
    WordIs(f.secretBackend, sys.backends, sys.defaultBackend);
    WordIs(f.guiPrompter, sys.prompters, "auto");
  }

  /** A character no name of ours may hold. */
  predicate Unsuited(c: char) {
    IsSpace(c) || c == '/'
  }

  predicate Nameless(written: Option<string>) {
    written.None? || written.value == ""
  }

  /** The prefix of the entries' names: as written where every store can hold it. */
  lemma PrefixInForce(sys: System, f: File, env: Env)
    ensures var s := Resolve(sys, f, env);
            var bad := !Nameless(f.servicePrefix) && exists c <- f.servicePrefix.value :: Unsuited(c);
            && (IsRefused(sys, f, env, ServicePrefix) <==> bad)
            && s.servicePrefix == (if bad || Nameless(f.servicePrefix) then sys.defaultPrefix else f.servicePrefix.value)
  {
    hide Resolve, IsRefused;
    NameRules(sys, f, env);
    if !Nameless(f.servicePrefix) {
      UnusableIs(f.servicePrefix.value);
    }
  }

  /** The compartment the entries are kept in: as written where every store can hold the name and
      no desktop keeps it for its own wallet, else each store's own. */
  lemma ContainerInForce(sys: System, f: File, env: Env)
    ensures var s := Resolve(sys, f, env);
            var bad := !Nameless(f.secretContainer)
              && ((exists c <- f.secretContainer.value :: Unsuited(c))
                  || sys.lower(f.secretContainer.value) in ["default", "login", "session", "kdewallet"]);
            && (IsRefused(sys, f, env, SecretContainer) <==> bad)
            && s.secretContainer == (if bad || Nameless(f.secretContainer) then "" else f.secretContainer.value)
  {
    hide Resolve, IsRefused;
    NameRules(sys, f, env);
    if !Nameless(f.secretContainer) {
      UnusableIs(f.secretContainer.value);
    }
  }

  lemma UnusableIs(name: string)
    ensures UnusableName(name) <==> exists c <- name :: Unsuited(c)
  {
    hide IsSpace;
    if UnusableName(name) {
      var i :| 0 <= i < |name| && (IsSpace(name[i]) || name[i] == '/');
      assert Unsuited(name[i]);
    }
  }

  /** A list of patterns is taken whole or, where it is empty or one of them can match no file name,
      not at all. */
  lemma PatternsInForce(sys: System, f: File, env: Env)
    ensures var got := Resolve(sys, f, env).keyPatterns;
            var bad := f.keyPatterns.Some?
              && (f.keyPatterns.value == []
                  || exists p <- f.keyPatterns.value :: p == "" || '/' in p || !sys.validPattern(p));
            && (IsRefused(sys, f, env, KeyPatterns) <==> bad)
            && got == (if f.keyPatterns.Some? && !bad then f.keyPatterns.value else [])
  {
    if f.keyPatterns.Some? {
      var list := f.keyPatterns.value;
      forall i | 0 <= i < |list| && BadPattern(sys, list[i])
        ensures list[i] in list && (list[i] == "" || '/' in list[i] || !sys.validPattern(list[i]))
      {
      }
      forall p <- list | p == "" || '/' in p || !sys.validPattern(p)
        ensures exists i :: 0 <= i < |list| && BadPattern(sys, list[i])
      {
        var i :| 0 <= i < |list| && list[i] == p;
        assert BadPattern(sys, list[i]);
      }
    }
  }

  /** The number of attempts: the variable where it reads as one or more, else the field where it
      is, else three. */
  lemma AttemptsInForce(sys: System, f: File, env: Env, n: int)
    requires n > 0
    ensures var got := InForce(Resolve(sys, f, env), MaxAttempts);
            var name := "SSHAKKU_MAX_ATTEMPTS";
            && (env(name).Some? && sys.atoi(TrimSpace(env(name).value)) == Some(n) ==> got == Number(n))
            && ((env(name).None? || sys.atoi(TrimSpace(env(name).value)).None?
                 || sys.atoi(TrimSpace(env(name).value)).value < 1) ==>
                 && (f.maxAttempts == Some(n) ==> got == Number(n))
                 && (f.maxAttempts.None? || f.maxAttempts.value < 1 ==> got == Number(3)))
  {
  }

  /** A switch with a variable: the variable decides either way where it is set. */
  predicate Switched(sys: System, env: Env, name: string, written: Option<bool>, got: bool) {
    if env(name).Some? then got <==> sys.lower(TrimSpace(env(name).value)) in ["1", "true", "yes", "on"]
    else got <==> written == Some(true)
  }

  lemma SwitchesInForce(sys: System, f: File, env: Env)
    ensures var s := Resolve(sys, f, env);
            && Switched(sys, env, "SSHAKKU_NO_GIVEUP", f.noGiveup, s.noGiveup)
            && Switched(sys, env, "SSHAKKU_QUIET", f.quiet, s.quiet)
            && (s.keePassXCNoPassword <==> f.keePassXCNoPassword == Some(true))
  {
  }

  /** As written, nothing where nothing is. */
  predicate AsWritten(written: Option<string>, got: string) {
    written == Some(got) || (written.None? && got == "")
  }

  predicate AsListed(written: Option<seq<string>>, got: seq<string>) {
    written == Some(got) || (written.None? && got == [])
  }

  lemma PlainInForce(sys: System, f: File, env: Env)
    ensures var s := Resolve(sys, f, env);
            && AsWritten(f.keyDir, s.keyDir) && AsWritten(f.onePasswordVault, s.onePasswordVault)
            && AsWritten(f.bitwardenEmail, s.bitwardenEmail) && AsWritten(f.bitwardenServer, s.bitwardenServer)
            && AsWritten(f.keePassXCDatabase, s.keePassXCDatabase) && AsWritten(f.keePassXCKeyFile, s.keePassXCKeyFile)
            && AsListed(f.walletStoreInclude, s.walletStoreInclude) && AsListed(f.walletStoreExclude, s.walletStoreExclude)
            && AsListed(f.autoLoadInclude, s.autoLoadInclude) && AsListed(f.autoLoadExclude, s.autoLoadExclude)
  {
  }

  /** The editor is the only one that asks the file first: the first of the field, $EDITOR and
      $VISUAL that is more than white space, without the white space around it. */
  lemma EditorInForce(sys: System, f: File, env: Env)
    ensures var got := Resolve(sys, f, env).editor;
            var first := TrimSpace(if f.editor.Some? then f.editor.value else "");
            var second := TrimSpace(if env("EDITOR").Some? then env("EDITOR").value else "");
            var third := TrimSpace(if env("VISUAL").Some? then env("VISUAL").value else "");
            got == if first != "" then first else if second != "" then second else third
  {
    TrimSpaceEmptiesBlank(if f.editor.Some? then f.editor.value else "");
    TrimSpaceEmptiesBlank(if env("EDITOR").Some? then env("EDITOR").value else "");
    TrimSpaceEmptiesBlank(if env("VISUAL").Some? then env("VISUAL").value else "");
  }

  // -------------------------------------------------------- which field is which setting

  function TextOf(v: Option<Value>): Option<string> {
    if v.Some? && v.value.Text? then Some(v.value.text) else None
  }

  function NumberOf(v: Option<Value>): Option<int> {
    if v.Some? && v.value.Number? then Some(v.value.number) else None
  }

  function FlagOf(v: Option<Value>): Option<bool> {
    if v.Some? && v.value.Flag? then Some(v.value.flag) else None
  }

  function ListOf(v: Option<Value>): Option<seq<string>> {
    if v.Some? && v.value.List? then Some(v.value.list) else None
  }

  /** A file is what it writes for each setting: no field is another setting's. */
  lemma AgentFields(f: File)
    ensures TextOf(Get(f, KeyLifetime)) == f.keyLifetime
    ensures NumberOf(Get(f, MaxAttempts)) == f.maxAttempts
    ensures TextOf(Get(f, GiveupTTL)) == f.giveupTTL
    ensures FlagOf(Get(f, NoGiveup)) == f.noGiveup
    ensures FlagOf(Get(f, Quiet)) == f.quiet
    ensures TextOf(Get(f, CommandTimeout)) == f.commandTimeout
    ensures TextOf(Get(f, InteractiveTimeout)) == f.interactiveTimeout
  {
  }

  lemma EntryFields(f: File)
    ensures TextOf(Get(f, SecretBackend)) == f.secretBackend
    ensures TextOf(Get(f, ServicePrefix)) == f.servicePrefix
    ensures TextOf(Get(f, SecretContainer)) == f.secretContainer
    ensures TextOf(Get(f, KeyDir)) == f.keyDir
    ensures ListOf(Get(f, KeyPatterns)) == f.keyPatterns
    ensures TextOf(Get(f, WalletStoreMode)) == f.walletStoreMode
    ensures ListOf(Get(f, WalletStoreInclude)) == f.walletStoreInclude
    ensures ListOf(Get(f, WalletStoreExclude)) == f.walletStoreExclude
  {
  }

  lemma PolicyFields(f: File)
    ensures TextOf(Get(f, AutoLoadMode)) == f.autoLoadMode
    ensures ListOf(Get(f, AutoLoadInclude)) == f.autoLoadInclude
    ensures ListOf(Get(f, AutoLoadExclude)) == f.autoLoadExclude
    ensures TextOf(Get(f, OnePasswordVault)) == f.onePasswordVault
    ensures TextOf(Get(f, BitwardenEmail)) == f.bitwardenEmail
    ensures TextOf(Get(f, BitwardenServer)) == f.bitwardenServer
  {
  }

  lemma WalletFields(f: File)
    ensures TextOf(Get(f, KeePassXCRoute)) == f.keePassXCRoute
    ensures TextOf(Get(f, KeePassXCDatabase)) == f.keePassXCDatabase
    ensures TextOf(Get(f, KeePassXCKeyFile)) == f.keePassXCKeyFile
    ensures FlagOf(Get(f, KeePassXCNoPassword)) == f.keePassXCNoPassword
  {
  }

  lemma DialogFields(f: File)
    ensures TextOf(Get(f, GUIPrompter)) == f.guiPrompter
    ensures TextOf(Get(f, OnDismiss)) == f.onDismiss
    ensures TextOf(Get(f, Editor)) == f.editor
  {
  }

  /** From the files to the value: the last file to write a lifetime decides, where no variable
      does. The other settings compose the same way. */
  lemma WrittenLifetimeRules(sys: System, sources: seq<Source>, env: Env, i: nat, raw: string)
    requires i < |sources| && env("SSHAKKU_KEY_LIFETIME").None?
    requires sources[i].file.keyLifetime == Some(raw)
    requires forall j :: i < j < |sources| ==> sources[j].file.keyLifetime.None?
    ensures Lasts(sys, raw, 28_800, Resolve(sys, Merged(sources), env).keyLifetime,
                  IsRefused(sys, Merged(sources), env, KeyLifetime))
  {
    hide Resolve, IsRefused, Lasts;
    LastToWrite(sources, KeyLifetime, i);
    DurationsInForce(sys, Merged(sources), env, raw);
  }

  /** The merged files say of a setting what the last file to write it says. */
  lemma {:induction false} LastToWrite(sources: seq<Source>, k: Key, i: nat)
    requires i < |sources| && Get(sources[i].file, k).Some?
    requires forall j :: i < j < |sources| ==> Get(sources[j].file, k).None?
    ensures Get(Merged(sources), k) == Get(sources[i].file, k)
    decreases |sources|
  {
    hide Merge, Get;
    var n := |sources| - 1;
    MergeByKey(Merged(sources[..n]), sources[n].file, k);
    if i < n {
      LastToWrite(sources[..n], k, i);
    }
  }
}
