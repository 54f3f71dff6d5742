/** The configuration: files merged in order, the environment over them, the built-in values
    under them, and the report that says of each setting what put its value in force. The
    report finds that out by its own search, so the two can be held against each other. */
module Config {
  import opened Wrappers
  import opened Text

  type Path = string

  /** A configuration file as decoded; an absent key is None. */
  datatype File = File(
    keyLifetime: Option<string>, maxAttempts: Option<int>, giveupTTL: Option<string>,
    noGiveup: Option<bool>, quiet: Option<bool>, commandTimeout: Option<string>,
    interactiveTimeout: Option<string>, secretBackend: Option<string>,
    servicePrefix: Option<string>, secretContainer: Option<string>, keyDir: Option<string>,
    keyPatterns: Option<seq<string>>, walletStoreMode: Option<string>,
    walletStoreInclude: Option<seq<string>>, walletStoreExclude: Option<seq<string>>,
    autoLoadMode: Option<string>, autoLoadInclude: Option<seq<string>>,
    autoLoadExclude: Option<seq<string>>, onePasswordVault: Option<string>,
    bitwardenEmail: Option<string>, bitwardenServer: Option<string>,
    keePassXCRoute: Option<string>, keePassXCDatabase: Option<string>,
    keePassXCKeyFile: Option<string>, keePassXCNoPassword: Option<bool>,
    guiPrompter: Option<string>, onDismiss: Option<string>, editor: Option<string>)

  /** The settings, by the rows of the report. */
  datatype Key =
    KeyLifetime | MaxAttempts | GiveupTTL | NoGiveup | Quiet | CommandTimeout |
    InteractiveTimeout | SecretBackend | ServicePrefix | SecretContainer | KeyDir | KeyPatterns |
    WalletStoreMode | WalletStoreInclude | WalletStoreExclude | AutoLoadMode | AutoLoadInclude |
    AutoLoadExclude | OnePasswordVault | BitwardenEmail | BitwardenServer | KeePassXCRoute |
    KeePassXCDatabase | KeePassXCKeyFile | KeePassXCNoPassword | GUIPrompter | OnDismiss | Editor

  const TABLE: seq<Key> := [
    KeyLifetime, MaxAttempts, GiveupTTL, NoGiveup, Quiet, CommandTimeout, InteractiveTimeout,
    SecretBackend, ServicePrefix, SecretContainer, KeyDir, KeyPatterns, WalletStoreMode,
    WalletStoreInclude, WalletStoreExclude, AutoLoadMode, AutoLoadInclude, AutoLoadExclude,
    OnePasswordVault, BitwardenEmail, BitwardenServer, KeePassXCRoute, KeePassXCDatabase,
    KeePassXCKeyFile, KeePassXCNoPassword, GUIPrompter, OnDismiss, Editor]

  /** A setting's value, written in a file or resolved. Durations are in nanoseconds. */
  datatype Value = Text(text: string) | Number(number: int) | Flag(flag: bool) | List(list: seq<string>)

  const EMPTY: File :=
    File(None, None, None, None, None, None, None, None, None, None, None, None, None, None, None,
         None, None, None, None, None, None, None, None, None, None, None, None, None)

  function AsText(o: Option<string>): Option<Value> {
    if o.Some? then Some(Text(o.value)) else None
  }

  function AsNumber(o: Option<int>): Option<Value> {
    if o.Some? then Some(Number(o.value)) else None
  }

  function AsFlag(o: Option<bool>): Option<Value> {
    if o.Some? then Some(Flag(o.value)) else None
  }

  function AsList(o: Option<seq<string>>): Option<Value> {
    if o.Some? then Some(List(o.value)) else None
  }

  /** What a file writes for a setting. */
  function Get(f: File, k: Key): Option<Value> {
    match k
    case KeyLifetime => AsText(f.keyLifetime)
    case MaxAttempts => AsNumber(f.maxAttempts)
    case GiveupTTL => AsText(f.giveupTTL)
    case NoGiveup => AsFlag(f.noGiveup)
    case Quiet => AsFlag(f.quiet)
    case CommandTimeout => AsText(f.commandTimeout)
    case InteractiveTimeout => AsText(f.interactiveTimeout)
    case SecretBackend => AsText(f.secretBackend)
    case ServicePrefix => AsText(f.servicePrefix)
    case SecretContainer => AsText(f.secretContainer)
    case KeyDir => AsText(f.keyDir)
    case KeyPatterns => AsList(f.keyPatterns)
    case WalletStoreMode => AsText(f.walletStoreMode)
    case WalletStoreInclude => AsList(f.walletStoreInclude)
    case WalletStoreExclude => AsList(f.walletStoreExclude)
    case AutoLoadMode => AsText(f.autoLoadMode)
    case AutoLoadInclude => AsList(f.autoLoadInclude)
    case AutoLoadExclude => AsList(f.autoLoadExclude)
    case OnePasswordVault => AsText(f.onePasswordVault)
    case BitwardenEmail => AsText(f.bitwardenEmail)
    case BitwardenServer => AsText(f.bitwardenServer)
    case KeePassXCRoute => AsText(f.keePassXCRoute)
    case KeePassXCDatabase => AsText(f.keePassXCDatabase)
    case KeePassXCKeyFile => AsText(f.keePassXCKeyFile)
    case KeePassXCNoPassword => AsFlag(f.keePassXCNoPassword)
    case GUIPrompter => AsText(f.guiPrompter)
    case OnDismiss => AsText(f.onDismiss)
    case Editor => AsText(f.editor)
  }

  // --------------------------------------------------------------------- the merge

  function Override<T>(mine: Option<T>, other: Option<T>): Option<T> {
    if other.None? then mine else other
  }

  /** `f` with everything `g` sets on top. */
  function Merge(f: File, g: File): File {
    File(
      Override(f.keyLifetime, g.keyLifetime), Override(f.maxAttempts, g.maxAttempts),
      Override(f.giveupTTL, g.giveupTTL), Override(f.noGiveup, g.noGiveup),
      Override(f.quiet, g.quiet), Override(f.commandTimeout, g.commandTimeout),
      Override(f.interactiveTimeout, g.interactiveTimeout),
      Override(f.secretBackend, g.secretBackend), Override(f.servicePrefix, g.servicePrefix),
      Override(f.secretContainer, g.secretContainer), Override(f.keyDir, g.keyDir),
      Override(f.keyPatterns, g.keyPatterns), Override(f.walletStoreMode, g.walletStoreMode),
      Override(f.walletStoreInclude, g.walletStoreInclude),
      Override(f.walletStoreExclude, g.walletStoreExclude),
      Override(f.autoLoadMode, g.autoLoadMode), Override(f.autoLoadInclude, g.autoLoadInclude),
      Override(f.autoLoadExclude, g.autoLoadExclude),
      Override(f.onePasswordVault, g.onePasswordVault),
      Override(f.bitwardenEmail, g.bitwardenEmail), Override(f.bitwardenServer, g.bitwardenServer),
      Override(f.keePassXCRoute, g.keePassXCRoute),
      Override(f.keePassXCDatabase, g.keePassXCDatabase),
      Override(f.keePassXCKeyFile, g.keePassXCKeyFile),
      Override(f.keePassXCNoPassword, g.keePassXCNoPassword),
      Override(f.guiPrompter, g.guiPrompter), Override(f.onDismiss, g.onDismiss),
      Override(f.editor, g.editor))
  }

  /** One file read, in the order they apply. One that does not decode is listed all the same,
      stating nothing. */
  datatype Source = Source(path: Path, file: File, decoded: bool)

  function Merged(sources: seq<Source>): File {
    if sources == [] then EMPTY
    else Merge(Merged(sources[..|sources| - 1]), sources[|sources| - 1].file)
  }

  method MergeSources(sources: seq<Source>) returns (merged: File)
    ensures merged == Merged(sources)
  {
    merged := EMPTY;
    for i := 0 to |sources|
      invariant merged == Merged(sources[..i])
    {
      assert sources[..i + 1][..i] == sources[..i];
      merged := Merge(merged, sources[i].file);
    }
    assert sources[..|sources|] == sources;
  }

  // ----------------------------------------------------------------- the resolution

  /** What belongs to the system and its libraries rather than to this program: reading a
      duration and a number, lower-casing, judging a pattern, and what can be chosen here. */
  datatype System = System(
    duration: string -> Option<int>, atoi: string -> Option<int>, lower: string -> string,
    validPattern: string -> bool, backends: seq<string>, defaultBackend: string,
    prompters: seq<string>, defaultPrefix: string)

  /** The environment, as a lookup that tells an unset variable from an empty one. */
  type Env = string -> Option<string>

  const NOTHING_SET: Env := name => None

  const SECOND := 1_000_000_000
  const DEFAULT_KEY_LIFETIME := 8 * 3600 * SECOND
  const DEFAULT_GIVEUP_TTL := 3600 * SECOND
  const DEFAULT_COMMAND_TIMEOUT := 10 * SECOND
  const DEFAULT_INTERACTIVE_TIMEOUT := 120 * SECOND
  const DEFAULT_MAX_ATTEMPTS := 3
  const DESKTOP_OWN_WALLETS := ["default", "login", "session", "kdewallet"]

  datatype Settings = Settings(
    keyLifetime: int, maxAttempts: int, giveupTTL: int, noGiveup: bool, quiet: bool,
    commandTimeout: int, interactiveTimeout: int, secretBackend: string, servicePrefix: string,
    secretContainer: string, keyDir: string, keyPatterns: seq<string>, walletStoreMode: string,
    walletStoreInclude: seq<string>, walletStoreExclude: seq<string>, autoLoadMode: string,
    autoLoadInclude: seq<string>, autoLoadExclude: seq<string>, onePasswordVault: string,
    bitwardenEmail: string, bitwardenServer: string, keePassXCRoute: string,
    keePassXCDatabase: string, keePassXCKeyFile: string, keePassXCNoPassword: bool,
    guiPrompter: string, onDismiss: string, editor: string)

  /** A resolved value, and whether what was written had to be refused for it. */
  datatype Judged<T> = Judged(value: T, refused: bool)

  function Coalesce(env: Env, name: string, written: Option<string>): string {
    if env(name).Some? then env(name).value else if written.Some? then written.value else ""
  }

  /** A lifetime or a give-up period: none below zero. */
  function Lasting(sys: System, raw: string, fallback: int): Judged<int> {
    if raw == "" then Judged(fallback, false)
    else
      match sys.duration(raw)
      case None => Judged(fallback, true)
      case Some(d) => Judged(if d < 0 then 0 else d, false)
  }

  /** A time limit: always above zero. */
  function Limit(sys: System, raw: string, fallback: int): Judged<int> {
    if raw == "" then Judged(fallback, false)
    else
      match sys.duration(raw)
      case None => Judged(fallback, true)
      case Some(d) => if d <= 0 then Judged(fallback, true) else Judged(d, false)
  }

  function EnvInt(sys: System, raw: string): int {
    var n := sys.atoi(TrimSpace(raw));
    if n.None? || n.value < 1 then 0 else n.value
  }

  predicate IsTruthy(sys: System, raw: string) {
    sys.lower(TrimSpace(raw)) in ["1", "true", "yes", "on"]
  }

  function ResolveMaxAttempts(sys: System, env: Env, written: Option<int>): int {
    var named := env("SSHAKKU_MAX_ATTEMPTS");
    if named.Some? && EnvInt(sys, named.value) > 0 then EnvInt(sys, named.value)
    else if written.Some? && written.value > 0 then written.value
    else 0
  }

  function ResolveBool(sys: System, env: Env, name: string, written: Option<bool>): bool {
    if env(name).Some? then IsTruthy(sys, env(name).value) else written.Some? && written.value
  }

  function Deref(written: Option<string>): string {
    if written.Some? then written.value else ""
  }

  function Listed(written: Option<seq<string>>): seq<string> {
    if written.Some? then written.value else []
  }

  /** One of the words a setting is written in, or the fallback. */
  function OneOf(written: Option<string>, words: seq<string>, fallback: string): Judged<string> {
    if Deref(written) == "" then Judged(fallback, false)
    else if written.value in words then Judged(written.value, false)
    else Judged(fallback, true)
  }

  predicate UnusableName(name: string) {
    exists i :: 0 <= i < |name| && (IsSpace(name[i]) || name[i] == '/')
  }

  function ResolvePrefix(sys: System, written: Option<string>): Judged<string> {
    var prefix := Deref(written);
    if prefix == "" then Judged(sys.defaultPrefix, false)
    else if UnusableName(prefix) then Judged(sys.defaultPrefix, true)
    else Judged(prefix, false)
  }

  function ResolveContainer(sys: System, written: Option<string>): Judged<string> {
    var name := Deref(written);
    if name == "" then Judged("", false)
    else if UnusableName(name) || sys.lower(name) in DESKTOP_OWN_WALLETS then Judged("", true)
    else Judged(name, false)
  }

  /** An empty list stands for the program's own naming rule. */
  function ResolvePatterns(sys: System, written: Option<seq<string>>): Judged<seq<string>> {
    if written.None? then Judged([], false)
    else if written.value == [] then Judged([], true)
    else if exists i :: 0 <= i < |written.value| && BadPattern(sys, written.value[i]) then Judged([], true)
    else Judged(written.value, false)
  }

  predicate BadPattern(sys: System, pattern: string) {
    pattern == "" || '/' in pattern || !sys.validPattern(pattern)
  }

  predicate Names(o: Option<string>) {
    o.Some? && !Blank(o.value)
  }

  /** What the configuration names, else $EDITOR, else $VISUAL; blank is not a name. */
  function StatedEditor(written: Option<string>, editor: Option<string>, visual: Option<string>): string {
    if Names(written) then TrimSpace(written.value)
    else if Names(editor) then TrimSpace(editor.value)
    else if Names(visual) then TrimSpace(visual.value)
    else ""
  }

  const MODES := ["all", "include", "exclude"]
  const ROUTES := ["auto", "secret-service", "native", "cli"]
  const DISMISSALS := ["stop", "skip", "retry"]

  function LifetimeOf(sys: System, f: File, env: Env): Judged<int> {
    Lasting(sys, Coalesce(env, "SSHAKKU_KEY_LIFETIME", f.keyLifetime), DEFAULT_KEY_LIFETIME)
  }

  function GiveupOf(sys: System, f: File, env: Env): Judged<int> {
    Lasting(sys, Coalesce(env, "SSHAKKU_GIVEUP_TTL", f.giveupTTL), DEFAULT_GIVEUP_TTL)
  }

  function CommandLimit(sys: System, f: File, env: Env): Judged<int> {
    Limit(sys, Coalesce(env, "SSHAKKU_COMMAND_TIMEOUT", f.commandTimeout), DEFAULT_COMMAND_TIMEOUT)
  }

  function InteractiveLimit(sys: System, f: File, env: Env): Judged<int> {
    Limit(sys, Coalesce(env, "SSHAKKU_INTERACTIVE_TIMEOUT", f.interactiveTimeout), DEFAULT_INTERACTIVE_TIMEOUT)
  }

  function BackendOf(sys: System, f: File): Judged<string> {
    OneOf(f.secretBackend, sys.backends, sys.defaultBackend)
  }

  /** The settings in force. */
  function Resolve(sys: System, f: File, env: Env): Settings {
    Settings(LifetimeOf(sys, f, env).value, ResolveMaxAttempts(sys, env, f.maxAttempts),
             GiveupOf(sys, f, env).value,
             ResolveBool(sys, env, "SSHAKKU_NO_GIVEUP", f.noGiveup),
             ResolveBool(sys, env, "SSHAKKU_QUIET", f.quiet),
             CommandLimit(sys, f, env).value, InteractiveLimit(sys, f, env).value,
             BackendOf(sys, f).value, ResolvePrefix(sys, f.servicePrefix).value,
             ResolveContainer(sys, f.secretContainer).value,
             Deref(f.keyDir), ResolvePatterns(sys, f.keyPatterns).value,
             OneOf(f.walletStoreMode, MODES, "all").value,
             Listed(f.walletStoreInclude), Listed(f.walletStoreExclude),
             OneOf(f.autoLoadMode, MODES, "all").value,
             Listed(f.autoLoadInclude), Listed(f.autoLoadExclude),
             Deref(f.onePasswordVault), Deref(f.bitwardenEmail), Deref(f.bitwardenServer),
             OneOf(f.keePassXCRoute, ROUTES, "auto").value, Deref(f.keePassXCDatabase),
             Deref(f.keePassXCKeyFile), f.keePassXCNoPassword.Some? && f.keePassXCNoPassword.value,
             OneOf(f.guiPrompter, sys.prompters, "auto").value,
             OneOf(f.onDismiss, DISMISSALS, "stop").value, StatedEditor(f.editor, env("EDITOR"), env("VISUAL")))
  }

  /** Whether resolving had to refuse what was written for a setting. */
  predicate IsRefused(sys: System, f: File, env: Env, k: Key) {
    match k
    case KeyLifetime => LifetimeOf(sys, f, env).refused
    case GiveupTTL => GiveupOf(sys, f, env).refused
    case CommandTimeout => CommandLimit(sys, f, env).refused
    case InteractiveTimeout => InteractiveLimit(sys, f, env).refused
    case WalletStoreMode => OneOf(f.walletStoreMode, MODES, "all").refused
    case AutoLoadMode => OneOf(f.autoLoadMode, MODES, "all").refused
    case ServicePrefix => ResolvePrefix(sys, f.servicePrefix).refused
    case SecretContainer => ResolveContainer(sys, f.secretContainer).refused
    case KeyPatterns => ResolvePatterns(sys, f.keyPatterns).refused
    case SecretBackend => BackendOf(sys, f).refused
    case KeePassXCRoute => OneOf(f.keePassXCRoute, ROUTES, "auto").refused
    case GUIPrompter => OneOf(f.guiPrompter, sys.prompters, "auto").refused
    case OnDismiss => OneOf(f.onDismiss, DISMISSALS, "stop").refused
    case _ => false
  }

  function Attempts(n: int): int {
    if n < 1 then DEFAULT_MAX_ATTEMPTS else n
  }

  /** What the report shows for a setting, before it is put into words. */
  function InForce(s: Settings, k: Key): Value {
    match k
    case KeyLifetime => Number(s.keyLifetime)
    case MaxAttempts => Number(Attempts(s.maxAttempts))
    case GiveupTTL => Number(s.giveupTTL)
    case NoGiveup => Flag(s.noGiveup)
    case Quiet => Flag(s.quiet)
    case CommandTimeout => Number(s.commandTimeout)
    case InteractiveTimeout => Number(s.interactiveTimeout)
    case SecretBackend => Text(s.secretBackend)
    case ServicePrefix => Text(s.servicePrefix)
    case SecretContainer => Text(s.secretContainer)
    case KeyDir => Text(s.keyDir)
    case KeyPatterns => List(s.keyPatterns)
    case WalletStoreMode => Text(s.walletStoreMode)
    case WalletStoreInclude => List(s.walletStoreInclude)
    case WalletStoreExclude => List(s.walletStoreExclude)
    case AutoLoadMode => Text(s.autoLoadMode)
    case AutoLoadInclude => List(s.autoLoadInclude)
    case AutoLoadExclude => List(s.autoLoadExclude)
    case OnePasswordVault => Text(s.onePasswordVault)
    case BitwardenEmail => Text(s.bitwardenEmail)
    case BitwardenServer => Text(s.bitwardenServer)
    case KeePassXCRoute => Text(s.keePassXCRoute)
    case KeePassXCDatabase => Text(s.keePassXCDatabase)
    case KeePassXCKeyFile => Text(s.keePassXCKeyFile)
    case KeePassXCNoPassword => Flag(s.keePassXCNoPassword)
    case GUIPrompter => Text(s.guiPrompter)
    case OnDismiss => Text(s.onDismiss)
    case Editor => Text(s.editor)
  }

  /** The same, worked out for one setting by itself. */
  function ValueOf(sys: System, f: File, env: Env, k: Key): Value {
    match k
    case KeyLifetime => Number(LifetimeOf(sys, f, env).value)
    case MaxAttempts => Number(Attempts(ResolveMaxAttempts(sys, env, f.maxAttempts)))
    case GiveupTTL => Number(GiveupOf(sys, f, env).value)
    case NoGiveup => Flag(ResolveBool(sys, env, "SSHAKKU_NO_GIVEUP", f.noGiveup))
    case Quiet => Flag(ResolveBool(sys, env, "SSHAKKU_QUIET", f.quiet))
    case CommandTimeout => Number(CommandLimit(sys, f, env).value)
    case InteractiveTimeout => Number(InteractiveLimit(sys, f, env).value)
    case SecretBackend => Text(BackendOf(sys, f).value)
    case ServicePrefix => Text(ResolvePrefix(sys, f.servicePrefix).value)
    case SecretContainer => Text(ResolveContainer(sys, f.secretContainer).value)
    case KeyDir => Text(Deref(f.keyDir))
    case KeyPatterns => List(ResolvePatterns(sys, f.keyPatterns).value)
    case WalletStoreMode => Text(OneOf(f.walletStoreMode, MODES, "all").value)
    case WalletStoreInclude => List(Listed(f.walletStoreInclude))
    case WalletStoreExclude => List(Listed(f.walletStoreExclude))
    case AutoLoadMode => Text(OneOf(f.autoLoadMode, MODES, "all").value)
    case AutoLoadInclude => List(Listed(f.autoLoadInclude))
    case AutoLoadExclude => List(Listed(f.autoLoadExclude))
    case OnePasswordVault => Text(Deref(f.onePasswordVault))
    case BitwardenEmail => Text(Deref(f.bitwardenEmail))
    case BitwardenServer => Text(Deref(f.bitwardenServer))
    case KeePassXCRoute => Text(OneOf(f.keePassXCRoute, ROUTES, "auto").value)
    case KeePassXCDatabase => Text(Deref(f.keePassXCDatabase))
    case KeePassXCKeyFile => Text(Deref(f.keePassXCKeyFile))
    case KeePassXCNoPassword => Flag(f.keePassXCNoPassword.Some? && f.keePassXCNoPassword.value)
    case GUIPrompter => Text(OneOf(f.guiPrompter, sys.prompters, "auto").value)
    case OnDismiss => Text(OneOf(f.onDismiss, DISMISSALS, "stop").value)
    case Editor => Text(StatedEditor(f.editor, env("EDITOR"), env("VISUAL")))
  }

  lemma ResolveIsByKey(sys: System, f: File, env: Env, k: Key)
    ensures InForce(Resolve(sys, f, env), k) == ValueOf(sys, f, env, k)
  {
  }

  // -------------------------------------------------------- the report's own search

  datatype Origin = Default | FromFile(path: Path) | FromEnv(name: string)

  /** The variables that can state a setting, in the order they are read. */
  function Envs(k: Key): seq<string> {
    match k
    case KeyLifetime => ["SSHAKKU_KEY_LIFETIME"]
    case MaxAttempts => ["SSHAKKU_MAX_ATTEMPTS"]
    case GiveupTTL => ["SSHAKKU_GIVEUP_TTL"]
    case NoGiveup => ["SSHAKKU_NO_GIVEUP"]
    case Quiet => ["SSHAKKU_QUIET"]
    case CommandTimeout => ["SSHAKKU_COMMAND_TIMEOUT"]
    case InteractiveTimeout => ["SSHAKKU_INTERACTIVE_TIMEOUT"]
    case Editor => ["EDITOR", "VISUAL"]
    case _ => []
  }

  /** Whether a value found in a variable is one that is acted on. */
  predicate EnvUsed(sys: System, k: Key, v: string) {
    match k
    case MaxAttempts => EnvInt(sys, v) > 0
    case Editor => !Blank(v)
    case _ => true
  }

  /** Whether a file states a setting at all. */
  predicate States(f: File, k: Key) {
    if k.Editor? then Names(f.editor) else Get(f, k).Some?
  }

  /** The first of `names` holding a value that is acted on. */
  function FirstUsed(sys: System, env: Env, k: Key, names: seq<string>): Origin {
    if names == [] then Default
    else if env(names[0]).Some? && EnvUsed(sys, k, env(names[0]).value) then FromEnv(names[0])
    else FirstUsed(sys, env, k, names[1..])
  }

  function LastStating(sources: seq<Source>, k: Key): Origin {
    if sources == [] then Default
    else if States(sources[|sources| - 1].file, k) then FromFile(sources[|sources| - 1].path)
    else LastStating(sources[..|sources| - 1], k)
  }

  /** Where a setting's value was stated. Only the editor looks at the files first. */
  function StatedBy(sys: System, sources: seq<Source>, env: Env, k: Key): Origin {
    var inEnv, inFiles := FirstUsed(sys, env, k, Envs(k)), LastStating(sources, k);
    if k.Editor? then (if inFiles.Default? then inEnv else inFiles)
    else (if inEnv.Default? then inFiles else inEnv)
  }

  /** One line of the report. `refusedFrom` is where a refused value was written. */
  datatype Setting = Setting(key: Key, value: Value, from: Origin, refusedFrom: Option<Origin>)

  function LineOf(k: Key, value: Value, refused: bool, stated: Origin): Setting {
    if refused then Setting(k, value, Default, Some(stated)) else Setting(k, value, stated, None)
  }

  function LineFrom(sys: System, merged: File, settings: Settings, sources: seq<Source>, env: Env, k: Key): Setting {
    LineOf(k, InForce(settings, k), IsRefused(sys, merged, env, k), StatedBy(sys, sources, env, k))
  }

  function Line(sys: System, sources: seq<Source>, env: Env, k: Key): Setting {
    LineFrom(sys, Merged(sources), Resolve(sys, Merged(sources), env), sources, env, k)
  }

  function Lines(sys: System, merged: File, settings: Settings, sources: seq<Source>, env: Env, rows: seq<Key>)
    : seq<Setting>
  {
    if rows == [] then []
    else
      var n := |rows| - 1;
      Lines(sys, merged, settings, sources, env, rows[..n])
      + [LineFrom(sys, merged, settings, sources, env, rows[n])]
  }

  method Explain(sys: System, sources: seq<Source>, env: Env, rows: seq<Key>) returns (report: seq<Setting>)
    ensures report == Lines(sys, Merged(sources), Resolve(sys, Merged(sources), env), sources, env, rows)
  {
    var merged := MergeSources(sources);
    var settings := Resolve(sys, merged, env);
    report := [];
    for i := 0 to |rows|
      invariant report == Lines(sys, merged, settings, sources, env, rows[..i])
    {
      assert rows[..i + 1][..i] == rows[..i];
      report := report + [LineFrom(sys, merged, settings, sources, env, rows[i])];
    }
    assert rows[..|rows|] == rows;
  }

  lemma {:induction false} ReportHoldsEveryRow(sys: System, sources: seq<Source>, env: Env, rows: seq<Key>, k: Key)
    requires k in rows
    ensures Line(sys, sources, env, k)
         in Lines(sys, Merged(sources), Resolve(sys, Merged(sources), env), sources, env, rows)
    decreases |rows|
  {
    hide Resolve, LineFrom, Merged;
    var n := |rows| - 1;
    if k != rows[n] {
      assert rows == rows[..n] + [rows[n]];
      ReportHoldsEveryRow(sys, sources, env, rows[..n], k);
    }
  }

  /** Every setting there is has a row. */
  lemma TableIsComplete(k: Key)
    ensures k in TABLE
  {
  }

  // ------------------------------------------------------------------ laws of the merge

  lemma MergeIsAssociative(f: File, g: File, h: File)
    ensures Merge(Merge(f, g), h) == Merge(f, Merge(g, h))
    ensures Merge(EMPTY, f) == f == Merge(f, EMPTY)
  {
  }

  /** Merging forgets no field: each setting is the later file's where that one writes it. */
  lemma MergeByKey(f: File, g: File, k: Key)
    ensures Get(Merge(f, g), k) == if Get(g, k).Some? then Get(g, k) else Get(f, k)
  {
  }

  /** The last file to write a setting at all, blank or not. */
  function LastWriting(sources: seq<Source>, k: Key): Option<Source> {
    if sources == [] then None
    else if Get(sources[|sources| - 1].file, k).Some? then Some(sources[|sources| - 1])
    else LastWriting(sources[..|sources| - 1], k)
  }

  /** The forward fold and the backward search agree on what is written. */
  lemma {:induction false} FoldIsLastWriting(sources: seq<Source>, k: Key)
    ensures Get(Merged(sources), k)
         == (if LastWriting(sources, k).Some? then Get(LastWriting(sources, k).value.file, k) else None)
    ensures LastWriting(sources, k).Some? ==> LastWriting(sources, k).value in sources
    decreases |sources|
  {
    if sources == [] {
      assert Get(EMPTY, k) == None;
    } else {
      var before := sources[..|sources| - 1];
      FoldIsLastWriting(before, k);
      MergeByKey(Merged(before), sources[|sources| - 1].file, k);
    }
  }

  // ------------------------------------------------------- one setting on its own

  predicate SameEnv(a: Env, b: Env, names: seq<string>) {
    forall i :: 0 <= i < |names| ==> a(names[i]) == b(names[i])
  }

  lemma SameVariables(a: Env, b: Env, k: Key)
    requires SameEnv(a, b, Envs(k))
    ensures Envs(k) != [] ==> a(Envs(k)[0]) == b(Envs(k)[0])
    ensures k.Editor? ==> a("EDITOR") == b("EDITOR") && a("VISUAL") == b("VISUAL")
  {
    if k.Editor? {
      assert a(Envs(k)[1]) == b(Envs(k)[1]);
    }
  }

  lemma RefusedAlone(sys: System, f: File, g: File, a: Env, b: Env, k: Key)
    requires Get(f, k) == Get(g, k) && SameEnv(a, b, Envs(k))
    ensures IsRefused(sys, f, a, k) <==> IsRefused(sys, g, b, k)
  {
    SameVariables(a, b, k);
  }

  lemma ValueAlone(sys: System, f: File, g: File, a: Env, b: Env, k: Key)
    requires Get(f, k) == Get(g, k) && SameEnv(a, b, Envs(k))
    ensures ValueOf(sys, f, a, k) == ValueOf(sys, g, b, k)
  {
    SameVariables(a, b, k);
  }

  /** A setting depends on what is written for it and on its own variables, on nothing else. */
  lemma ResolvedAlone(sys: System, f: File, g: File, a: Env, b: Env, k: Key)
    requires Get(f, k) == Get(g, k) && SameEnv(a, b, Envs(k))
    ensures InForce(Resolve(sys, f, a), k) == InForce(Resolve(sys, g, b), k)
    ensures IsRefused(sys, f, a, k) <==> IsRefused(sys, g, b, k)
  {
    hide Resolve, InForce, ValueOf, IsRefused;
    ResolveIsByKey(sys, f, a, k);
    ResolveIsByKey(sys, g, b, k);
    ValueAlone(sys, f, g, a, b, k);
    RefusedAlone(sys, f, g, a, b, k);
  }

  // -------------------------------------------------- the report tells the truth

  /** The environment with only one variable left in it. */
  function Only(env: Env, name: string): Env {
    n => if n == name then env(name) else None
  }

  lemma RefusedMeansDefault(sys: System, f: File, env: Env, k: Key)
    requires IsRefused(sys, f, env, k)
    ensures ValueOf(sys, f, env, k) == ValueOf(sys, EMPTY, NOTHING_SET, k)
  {
  }

  /** A variable that is acted on decides alone. */
  lemma EnvDecides(sys: System, f: File, env: Env, k: Key)
    requires !k.Editor? && Envs(k) != []
    requires var found := env(Envs(k)[0]); found.Some? && EnvUsed(sys, k, found.value)
    ensures ValueOf(sys, f, env, k) == ValueOf(sys, EMPTY, Only(env, Envs(k)[0]), k)
  {
  }

  /** A variable that is not acted on might as well be unset. */
  lemma UnusedEnv(sys: System, f: File, env: Env, k: Key)
    requires !k.Editor? && FirstUsed(sys, env, k, Envs(k)).Default?
    ensures ValueOf(sys, f, env, k) == ValueOf(sys, f, NOTHING_SET, k)
  {
  }

  predicate DistinctPaths(sources: seq<Source>) {
    forall i, j :: 0 <= i < j < |sources| ==> sources[i].path != sources[j].path
  }

  lemma {:induction false} SearchIsLastWriting(sources: seq<Source>, k: Key)
    requires !k.Editor?
    ensures LastStating(sources, k)
         == (if LastWriting(sources, k).Some? then FromFile(LastWriting(sources, k).value.path) else Default)
    decreases |sources|
  {
    if sources != [] {
      SearchIsLastWriting(sources[..|sources| - 1], k);
    }
  }

  /** The value the origin named for a setting would give all by itself. */
  ghost predicate Accounts(sys: System, sources: seq<Source>, env: Env, k: Key, from: Origin, value: Value) {
    match from
    case Default => value == InForce(Resolve(sys, EMPTY, NOTHING_SET), k)
    case FromEnv(name) => name in Envs(k) && value == InForce(Resolve(sys, EMPTY, Only(env, name)), k)
    case FromFile(path) =>
      exists s :: s in sources && s.path == path && value == InForce(Resolve(sys, s.file, NOTHING_SET), k)
  }

  lemma FileAccounts(sys: System, sources: seq<Source>, env: Env, k: Key, s: Source)
    requires s in sources && Get(Merged(sources), k) == Get(s.file, k)
    requires ValueOf(sys, Merged(sources), env, k) == ValueOf(sys, Merged(sources), NOTHING_SET, k)
    ensures Accounts(sys, sources, env, k, FromFile(s.path), ValueOf(sys, Merged(sources), env, k))
  {
    ValueAlone(sys, Merged(sources), s.file, NOTHING_SET, NOTHING_SET, k);
    ResolveIsByKey(sys, s.file, NOTHING_SET, k);
  }

  lemma DefaultAccounts(sys: System, sources: seq<Source>, env: Env, k: Key)
    requires Get(Merged(sources), k).None?
    requires ValueOf(sys, Merged(sources), env, k) == ValueOf(sys, Merged(sources), NOTHING_SET, k)
    ensures Accounts(sys, sources, env, k, Default, ValueOf(sys, Merged(sources), env, k))
  {
    assert Get(EMPTY, k).None?;
    ValueAlone(sys, Merged(sources), EMPTY, NOTHING_SET, NOTHING_SET, k);
    ResolveIsByKey(sys, EMPTY, NOTHING_SET, k);
  }

  lemma OneVariable(sys: System, env: Env, k: Key)
    requires !k.Editor? && !FirstUsed(sys, env, k, Envs(k)).Default?
    ensures Envs(k) != [] && FirstUsed(sys, env, k, Envs(k)) == FromEnv(Envs(k)[0])
    ensures var found := env(Envs(k)[0]); found.Some? && EnvUsed(sys, k, found.value)
  {
    if |Envs(k)| > 0 {
      assert |Envs(k)| == 1;
      assert Envs(k)[1..] == [];
    }
  }

  lemma StatedAccounts(sys: System, sources: seq<Source>, env: Env, k: Key)
    requires !k.Editor?
    ensures Accounts(sys, sources, env, k, StatedBy(sys, sources, env, k), ValueOf(sys, Merged(sources), env, k))
  {
    hide Resolve, InForce, ValueOf, Merged;
    var f := Merged(sources);
    if FirstUsed(sys, env, k, Envs(k)).Default? {
      UnusedEnv(sys, f, env, k);
      FoldIsLastWriting(sources, k);
      SearchIsLastWriting(sources, k);
      if LastWriting(sources, k).Some? {
        FileAccounts(sys, sources, env, k, LastWriting(sources, k).value);
      } else {
        DefaultAccounts(sys, sources, env, k);
      }
    } else {
      OneVariable(sys, env, k);
      EnvDecides(sys, f, env, k);
      ResolveIsByKey(sys, EMPTY, Only(env, Envs(k)[0]), k);
    }
  }

  // ------------------------------------------------------------------ the editor

  /** The last file to write the editor does not write it blank over one that names it. */
  predicate EditorConsistent(sources: seq<Source>) {
    LastStating(sources, Editor).Default? || Names(Merged(sources).editor)
  }

  lemma {:induction false} NamingSource(sources: seq<Source>)
    ensures LastStating(sources, Editor).FromFile? ==>
              exists s :: s in sources && s.path == LastStating(sources, Editor).path && Names(s.file.editor)
    ensures LastStating(sources, Editor).Default? ==> !Names(Merged(sources).editor)
    ensures Names(Merged(sources).editor) ==>
              exists s :: s in sources && s.file.editor == Merged(sources).editor
                          && LastStating(sources, Editor) == FromFile(s.path)
    decreases |sources|
  {
    if sources != [] {
      var n := |sources| - 1;
      NamingSource(sources[..n]);
      assert sources[n] in sources;
      assert forall s :: s in sources[..n] ==> s in sources;
    }
  }

  lemma {:induction false} FirstUsedIsEnv(sys: System, env: Env, k: Key, names: seq<string>)
    ensures var from := FirstUsed(sys, env, k, names);
            !from.FromFile? && (from.FromEnv? ==> from.name in names)
  {
    if names != [] {
      FirstUsedIsEnv(sys, env, k, names[1..]);
    }
  }

  lemma {:induction false} LastStatingIsFile(sources: seq<Source>, k: Key)
    ensures !LastStating(sources, k).FromEnv?
    decreases |sources|
  {
    if sources != [] {
      LastStatingIsFile(sources[..|sources| - 1], k);
    }
  }

  lemma EditorFromEnv(sys: System, env: Env, written: Option<string>)
    requires !Names(written)
    ensures var from := FirstUsed(sys, env, Editor, Envs(Editor));
            && (from.Default? ==> StatedEditor(written, env("EDITOR"), env("VISUAL")) == "")
            && (from.FromEnv? ==>
                 && from.name in Envs(Editor)
                 && StatedEditor(written, env("EDITOR"), env("VISUAL"))
                    == StatedEditor(None, Only(env, from.name)("EDITOR"), Only(env, from.name)("VISUAL")))
            && !from.FromFile?
  {
    var names := Envs(Editor);
    FirstUsedIsEnv(sys, env, Editor, names);
    assert names[1..][1..] == [] && names[1..][0] == "VISUAL" && names[0] == "EDITOR";
    assert "EDITOR"[0] != "VISUAL"[0];
  }

  lemma EditorAccounts(sys: System, sources: seq<Source>, env: Env)
    requires EditorConsistent(sources)
    ensures Accounts(sys, sources, env, Editor, StatedBy(sys, sources, env, Editor),
                     ValueOf(sys, Merged(sources), env, Editor))
  {
    hide Resolve, InForce, Merged, LastStating;
    var f := Merged(sources);
    NamingSource(sources);
    if Names(f.editor) {
      var s :| s in sources && s.file.editor == f.editor && LastStating(sources, Editor) == FromFile(s.path);
      ResolveIsByKey(sys, s.file, NOTHING_SET, Editor);
    } else {
      EditorFromEnv(sys, env, f.editor);
      ResolveIsByKey(sys, EMPTY, NOTHING_SET, Editor);
      var from := FirstUsed(sys, env, Editor, Envs(Editor));
      if from.FromEnv? {
        ResolveIsByKey(sys, EMPTY, Only(env, from.name), Editor);
      }
    }
  }

  // ------------------------------------------------------------------- main results

  /** What the report says of a setting accounts for its value: resolving the origin it names,
      and nothing else, gives the value in force. A refused value is accounted for by the
      built-in one. Only the editor needs the files to be consistent. */
  lemma ReportAccounts(sys: System, sources: seq<Source>, env: Env, k: Key)
    requires k.Editor? ==> EditorConsistent(sources)
    ensures var line := Line(sys, sources, env, k); Accounts(sys, sources, env, k, line.from, line.value)
  {
    hide Resolve, InForce, ValueOf, Merged;
    var f := Merged(sources);
    ResolveIsByKey(sys, f, env, k);
    if IsRefused(sys, f, env, k) {
      RefusedMeansDefault(sys, f, env, k);
      ResolveIsByKey(sys, EMPTY, NOTHING_SET, k);
    } else if k.Editor? {
      EditorAccounts(sys, sources, env);
    } else {
      StatedAccounts(sys, sources, env, k);
    }
  }

  /** What an origin writes, taken alone, is refused. */
  ghost predicate RefusedAt(sys: System, sources: seq<Source>, env: Env, k: Key, from: Origin) {
    match from
    case Default => false
    case FromEnv(name) => name in Envs(k) && IsRefused(sys, EMPTY, Only(env, name), k)
    case FromFile(path) => exists s :: s in sources && s.path == path && IsRefused(sys, s.file, NOTHING_SET, k)
  }

  lemma EnvRefusedAlone(sys: System, f: File, env: Env, k: Key)
    requires !k.Editor? && Envs(k) != []
    requires var found := env(Envs(k)[0]); found.Some? && EnvUsed(sys, k, found.value)
    ensures IsRefused(sys, f, env, k) <==> IsRefused(sys, EMPTY, Only(env, Envs(k)[0]), k)
  {
  }

  lemma UnusedEnvRefusesNothing(sys: System, f: File, env: Env, k: Key)
    requires !k.Editor? && FirstUsed(sys, env, k, Envs(k)).Default?
    ensures IsRefused(sys, f, env, k) <==> IsRefused(sys, f, NOTHING_SET, k)
  {
  }

  lemma NothingWrittenIsRefused(sys: System, f: File, k: Key)
    requires Get(f, k).None?
    ensures !IsRefused(sys, f, NOTHING_SET, k)
  {
  }

  lemma EditorIsNeverRefused(sys: System, f: File, env: Env)
    ensures !IsRefused(sys, f, env, Editor)
  {
  }

  lemma StatedIsRefused(sys: System, sources: seq<Source>, env: Env, k: Key)
    requires IsRefused(sys, Merged(sources), env, k)
    ensures RefusedAt(sys, sources, env, k, StatedBy(sys, sources, env, k))
  {
    hide IsRefused, Merged, LastStating, LastWriting, Get;
    EditorIsNeverRefused(sys, Merged(sources), env);
    var f := Merged(sources);
    if FirstUsed(sys, env, k, Envs(k)).Default? {
      UnusedEnvRefusesNothing(sys, f, env, k);
      FoldIsLastWriting(sources, k);
      SearchIsLastWriting(sources, k);
      if LastWriting(sources, k).Some? {
        RefusedAlone(sys, f, LastWriting(sources, k).value.file, NOTHING_SET, NOTHING_SET, k);
      } else {
        NothingWrittenIsRefused(sys, f, k);
      }
    } else {
      OneVariable(sys, env, k);
      EnvRefusedAlone(sys, f, env, k);
    }
  }

  /** Where the report says a refused value was written, one is: that origin alone is refused too. */
  lemma RefusalIsFromThere(sys: System, sources: seq<Source>, env: Env, k: Key)
    ensures var line := Line(sys, sources, env, k);
            && (line.refusedFrom.Some? <==> IsRefused(sys, Merged(sources), env, k))
            && (line.refusedFrom.Some? ==> RefusedAt(sys, sources, env, k, line.refusedFrom.value))
  {
    hide Resolve, InForce, IsRefused, Merged, StatedBy, RefusedAt;
    if IsRefused(sys, Merged(sources), env, k) {
      StatedIsRefused(sys, sources, env, k);
    }
  }

  /** For the editor the condition is exact: without it the report names a file whose editor
      is not the one in force as soon as the environment names none. */
  lemma EditorReportExactly(sys: System, sources: seq<Source>)
    requires DistinctPaths(sources)
    ensures EditorConsistent(sources) <==>
              forall env: Env :: Accounts(sys, sources, env, Editor, Line(sys, sources, env, Editor).from,
                                          Line(sys, sources, env, Editor).value)
  {
    if EditorConsistent(sources) {
      forall env: Env
        ensures Accounts(sys, sources, env, Editor, Line(sys, sources, env, Editor).from,
                         Line(sys, sources, env, Editor).value)
      {
        ReportAccounts(sys, sources, env, Editor);
      }
    } else {
      EditorMisreported(sys, sources);
    }
  }

  lemma EditorRow(sys: System, f: File, env: Env)
    ensures ValueOf(sys, f, env, Editor) == Text(StatedEditor(f.editor, env("EDITOR"), env("VISUAL")))
    ensures !IsRefused(sys, f, env, Editor)
  {
  }

  lemma StatedWhenNamed(written: Option<string>, editor: Option<string>, visual: Option<string>)
    ensures Names(written) ==> StatedEditor(written, editor, visual) != ""
    ensures !Names(written) && editor.None? && visual.None? ==> StatedEditor(written, editor, visual) == ""
  {
    if Names(written) {
      TrimSpaceEmptiesBlank(written.value);
    }
  }

  lemma NamedIsNotEmpty(sys: System, f: File)
    ensures InForce(Resolve(sys, f, NOTHING_SET), Editor) == Text("") <==> !Names(f.editor)
  {
    ResolveIsByKey(sys, f, NOTHING_SET, Editor);
    EditorRow(sys, f, NOTHING_SET);
    StatedWhenNamed(f.editor, None, None);
  }

  lemma NamedDoesNotAccount(sys: System, sources: seq<Source>, named: Source)
    requires DistinctPaths(sources) && named in sources && Names(named.file.editor)
    ensures !Accounts(sys, sources, NOTHING_SET, Editor, FromFile(named.path), Text(""))
  {
    forall s | s in sources && s.path == named.path
      ensures InForce(Resolve(sys, s.file, NOTHING_SET), Editor) != Text("")
    {
      SamePathSameSource(sources, s, named);
      NamedIsNotEmpty(sys, s.file);
    }
  }

  lemma EditorLine(sys: System, sources: seq<Source>, env: Env)
    ensures Line(sys, sources, env, Editor).value == InForce(Resolve(sys, Merged(sources), env), Editor)
    ensures Line(sys, sources, env, Editor).from == StatedBy(sys, sources, env, Editor)
  {
    EditorRow(sys, Merged(sources), env);
  }

  lemma InconsistentLine(sys: System, sources: seq<Source>)
    requires !EditorConsistent(sources)
    ensures Line(sys, sources, NOTHING_SET, Editor).value == Text("")
    ensures Line(sys, sources, NOTHING_SET, Editor).from == LastStating(sources, Editor)
    ensures LastStating(sources, Editor).FromFile?
  {
    LastStatingIsFile(sources, Editor);
    NamedIsNotEmpty(sys, Merged(sources));
    EditorLine(sys, sources, NOTHING_SET);
  }

  lemma EditorMisreported(sys: System, sources: seq<Source>)
    requires DistinctPaths(sources) && !EditorConsistent(sources)
    ensures var line := Line(sys, sources, NOTHING_SET, Editor);
            line.from.FromFile? && !Accounts(sys, sources, NOTHING_SET, Editor, line.from, line.value)
  {
    NamingSource(sources);
    InconsistentLine(sys, sources);
    var named :| named in sources && named.path == LastStating(sources, Editor).path && Names(named.file.editor);
    NamedDoesNotAccount(sys, sources, named);
  }

  lemma SamePathSameSource(sources: seq<Source>, s: Source, t: Source)
    requires DistinctPaths(sources) && s in sources && t in sources && s.path == t.path
    ensures s == t
  {
    var i :| 0 <= i < |sources| && sources[i] == s;
    var j :| 0 <= j < |sources| && sources[j] == t;
    assert i == j;
  }

  // -------------------------------------------------------- moving the key directory

  /** The file that decides key_dir instead of the main one, or "" where none does. */
  function KeyDirDecidedElsewhere(sys: System, sources: seq<Source>, env: Env, main: Path): Path {
    match Line(sys, sources, env, KeyDir).from
    case FromFile(path) => if path != main then path else ""
    case _ => ""
  }

  /** The main file is read first, where it is there at all; no path is empty. */
  predicate ReadInOrder(sources: seq<Source>, main: Path) {
    forall i :: 0 <= i < |sources| ==> sources[i].path != "" && (i > 0 ==> sources[i].path != main)
  }

  /** The last of the files after the main one to set key_dir decides; failing them, the main. */
  lemma {:induction false} DropInsDecide(first: Source, rest: seq<Source>)
    ensures LastWriting([first] + rest, KeyDir)
         == if LastWriting(rest, KeyDir).Some? then LastWriting(rest, KeyDir)
            else if first.file.keyDir.Some? then Some(first) else None
    decreases |rest|
  {
    if rest == [] {
      assert [first] + rest == [first];
      assert [first][..0] == [];
    } else {
      var n := |rest| - 1;
      assert ([first] + rest)[..n + 1] == [first] + rest[..n];
      DropInsDecide(first, rest[..n]);
    }
  }

  lemma {:induction false} SearchOverMain(first: Source, rest: seq<Source>)
    ensures LastStating([first] + rest, KeyDir)
         == (if LastWriting(rest, KeyDir).Some? then FromFile(LastWriting(rest, KeyDir).value.path)
             else if first.file.keyDir.Some? then FromFile(first.path) else Default)
    ensures LastWriting(rest, KeyDir).Some? ==> LastWriting(rest, KeyDir).value in rest
    decreases |rest|
  {
    if rest == [] {
      assert [first] + rest == [first];
      assert [first][..0] == [];
    } else {
      var n := |rest| - 1;
      assert ([first] + rest)[..n + 1] == [first] + rest[..n];
      SearchOverMain(first, rest[..n]);
    }
  }

  lemma KeyDirLine(sys: System, sources: seq<Source>, env: Env)
    ensures Line(sys, sources, env, KeyDir).from == LastStating(sources, KeyDir)
  {
    hide Resolve, InForce, Merged, LastStating;
  }

  /** The files after the main one. */
  function DropIns(sources: seq<Source>, main: Path): seq<Source> {
    if sources != [] && sources[0].path == main then sources[1..] else sources
  }

  lemma DecidedByDropIns(sys: System, sources: seq<Source>, env: Env, main: Path)
    requires ReadInOrder(sources, main)
    ensures KeyDirDecidedElsewhere(sys, sources, env, main) == "" <==>
              LastWriting(DropIns(sources, main), KeyDir).None?
    ensures LastWriting(DropIns(sources, main), KeyDir).Some? ==>
              KeyDirDecidedElsewhere(sys, sources, env, main) == LastWriting(DropIns(sources, main), KeyDir).value.path
  {
    hide Line, Merged;
    KeyDirLine(sys, sources, env);
    if sources != [] && sources[0].path == main {
      assert sources == [sources[0]] + sources[1..];
      SearchOverMain(sources[0], sources[1..]);
    } else {
      SearchIsLastWriting(sources, KeyDir);
      FoldIsLastWriting(sources, KeyDir);
    }
  }

  lemma {:induction false} WritingWrites(sources: seq<Source>, k: Key)
    ensures LastWriting(sources, k).Some? ==> Get(LastWriting(sources, k).value.file, k).Some?
    decreases |sources|
  {
    if sources != [] {
      WritingWrites(sources[..|sources| - 1], k);
    }
  }

  /** The key directory the files after the main one leave in force, or the main one's. */
  function Overriding(main: Option<string>, rest: seq<Source>): string {
    var last := LastWriting(rest, KeyDir);
    if last.Some? then Deref(last.value.file.keyDir) else Deref(main)
  }

  lemma KeyDirResolved(sys: System, f: File, env: Env)
    ensures Resolve(sys, f, env).keyDir == Deref(f.keyDir)
  {
  }

  lemma MergedKeyDir(first: Source, rest: seq<Source>)
    ensures Deref(Merged([first] + rest).keyDir) == Overriding(first.file.keyDir, rest)
  {
    hide Merged;
    var all := [first] + rest;
    DropInsDecide(first, rest);
    FoldIsLastWriting(all, KeyDir);
    WritingWrites(rest, KeyDir);
    assert Get(Merged(all), KeyDir) == AsText(Merged(all).keyDir);
  }

  /** What is in force with `first` as the main file. */
  lemma KeyDirInForce(sys: System, first: Source, rest: seq<Source>, env: Env)
    ensures Resolve(sys, Merged([first] + rest), env).keyDir == Overriding(first.file.keyDir, rest)
  {
    hide Merged, Overriding;
    KeyDirResolved(sys, Merged([first] + rest), env);
    MergedKeyDir(first, rest);
  }
}
